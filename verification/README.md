# A Dafny model of the ChatGPT WeChat bot's message logic

This project models the pure logic of the `ChatGPTBot` class in `src/chatgpt.ts`.
That class is a WeChat bot which forwards addressed messages to a chat backend.
It also answers traffic-prediction questions from CSV tables of model outputs.
The model covers:

- the filter that drops messages the bot never answers (`isNonsense`);
- the trigger check for private and group chats (`triggerGPTMessage`, with the
  `chatGroupTriggerKeyword` getter);
- the cleaning of a triggering message (`cleanMessage`): it drops a quoted
  reply before the WeChat separator, then the trigger prefix;
- the identity probe in `onMessage` and the group reply header;
- the cutting of long replies into messages of at most 500 characters (`reply`);
- the free-form date/time reader `parseFlexibleDateTime`, including its three
  regular expressions;
- the traffic routing of `onCustimzedTask`: the algorithm choice, the record
  lookup, the busy threshold and the reply texts of `handleTrafficPrediction`.

Strings are `seq<char>`, and a `char` is one Unicode scalar value. JavaScript's
`length`, `slice`, `startsWith`, `includes` and `indexOf` count UTF-16 code
units instead. The two agree on every character of the Basic Multilingual
Plane. That plane holds almost all Chinese text in common use and every literal
of the model except the robot emoji of the nickname reply. A character outside
it is one `char` here and two code units in JavaScript (see "## Left out").
Such characters include emoji and the supplementary CJK ideographs from U+20000
on, such as 𠮷 (U+20BB7) or the Cantonese 𨋢 (U+282E2).
JavaScript's `undefined` is `Option.None`, and `a || b` on strings is `JsOr`.

The outside world enters as function parameters:

- the chat backend `onChatGPT` is `ask: string -> string`;
- reading a CSV file is `files: string -> Load`. A file either yields its
  rows, is rejected by the parser, or its file stream fails to open or read;
- JavaScript's printing of a number is `show: Volume -> string`.

Modules, in dependency order:

- `Options`: the optional value and JavaScript truthiness.
- `Strings`: prefix, occurrence, `indexOf`, `slice`, digits and `padStart`.
- `Regex`: leftmost-first matchers for the year, date and clock patterns. They
  follow JavaScript's rules: alternatives are tried in order, `\d{1,2}` is
  greedy and backtracks, and `\d` matches ASCII digits only.
- `DateTime`: `parseFlexibleDateTime`.
- `DateTimeFacts`: a canonical timestamp re-read, plus worked inputs.
- `ReplySegmenter`: the reply segmentation.
- `BotConfig`, `Trigger`, `Cleaner`, `NonsenseFilter`: the message gate.
- `Traffic`: recognising traffic questions and answering them.
- `Router`: `onMessage` and `onCustimzedTask`.

Some behaviours of `src/chatgpt.ts` are easy to misread; the model follows the
code in each of them:

- The identity probe does not reply with the canned text. `onMessage` sends
  the canned text to the backend as a prompt, and forwards the backend's answer
  (lines 356-361).
- When several algorithm names occur, the first in the list order `lstm`,
  `gru`, `saes` wins, wherever the names stand in the text (line 376).
- A non-numeric prediction is not skipped. `NaN > 190` is false, so the reply
  reports a clear road (lines 57-60).
- A canonical `YYYY-MM-DD HH:mm:00` timestamp does not read back as itself.
  The year pattern's third alternative turns the year into `20undefined`. The
  date pattern, searching from the left, reads the last two year digits as the
  month and the month as the day (`DateTimeFacts.CanonicalReparse`,
  `DateTimeFacts.CanonicalNotFixedPoint`).
- A clock written without minutes, such as `2点`, is no clock reading at all.
  The time then stays `00:00`, even with `下午` (line 109).

## Model

| member | source | states |
|---|---|---|
| Regex.PairAt | src/chatgpt.ts:98 | `(\d{1,2})X(\d{1,2})` at one position. It finds no match exactly when no digit counts fit. Otherwise it returns the first fitting choice in backtracking order: a longer first group beats a shorter one, then the longest second group wins. The groups are the matched slices, 1-2 ASCII digits each. |
| Regex.YearAt | src/chatgpt.ts:89 | The year alternation at one position matches exactly when four digits are followed by 年, `.` or `-`. Group 1 holds the digits before 年; otherwise group 3 holds the digits before `.`/`-`. Group 2 (`20(\d{2})年`) is never set, because the first alternative wins wherever it fits. |
| Regex.DateAt | src/chatgpt.ts:98 | The date pattern matches where the pair shape with 月/./- fits. Groups 1-3 are the month digits, the separator and the day digits. |
| Regex.TimeAt | src/chatgpt.ts:109 | The `点` form is tried first, and fills groups 1-2. The colon form fills groups 3-4, and only when the `点` form fails at that position. There is no match exactly when both fail. |
| Regex.StrMatch | src/chatgpt.ts:89 | `match` without the global flag returns the match at the leftmost position where the pattern fits. It is absent exactly when the pattern fits nowhere. |
| DateTime.YearOfMatch | src/chatgpt.ts:91 | For a year match, group 1, else the template `20${m[2]}`, else group 3, gives the four digits when 年 follows them, and `20undefined` when a dot or dash does. |
| DateTime.Year | src/chatgpt.ts:89-95 | The year is `2024` when nothing matches. It is the four digits when 年 follows them. Otherwise it is the string `20undefined`, from interpolating an unset group. |
| DateTime.DateGroups | src/chatgpt.ts:98-102 | The month and day digits of the leftmost date match. They are absent exactly when the date pattern fits nowhere; `DateTimeFacts.DateGroupsAt` names the digits. |
| DateTimeFacts.DateGroupsAt | src/chatgpt.ts:98-102 | When the leftmost date match is at a given position, the groups are the first and second digits of the date pair there. |
| DateTime.Clock | src/chatgpt.ts:109-116 | The hour and minute digit groups of the leftmost clock match, one or two ASCII digits each. They are absent exactly when neither clock form fits anywhere. Which groups they are is stated by `DateTimeFacts.ClockAt` and `DateTimeFacts.ClockColonAt`. |
| DateTimeFacts.ClockAt | src/chatgpt.ts:109-116 | When the leftmost clock match is the `点` form at `i`, the hour and minute are the digits before and after `点` there (groups 1 and 2). |
| DateTimeFacts.ClockColonAt | src/chatgpt.ts:109-116 | When the leftmost clock match is the colon form at `i` (the `点` form does not fit there), the hour and minute are the digits before and after the colon (groups 3 and 4, since groups 1 and 2 are unset). |
| DateTime.Indicator | src/chatgpt.ts:104-106 | The indicator is morning exactly when 上午 occurs anywhere, afternoon exactly when 下午 occurs and 上午 does not, and unset when neither occurs: the later morning test overrides the afternoon one. |
| DateTime.Hour | src/chatgpt.ts:104-114 | With no clock the hour is 0. Otherwise it is the parsed hour. It is moved up by 12 when 下午 occurs, 上午 does not, and the hour is below 12 (上午 overrides 下午). It is at most 99. |
| DateTime.Minute | src/chatgpt.ts:115 | The minute is `00` with no clock. Otherwise it is exactly two digits with the value of the clock's minute group. |
| DateTime.Resolve | src/chatgpt.ts:83-122 | No fields come out exactly when no date matches. Otherwise the fields are well formed, and month and day carry the values of the matched groups; `DateTimeFacts.ResolveOf` ties the rest to `Year`, `Hour` and `Minute`. |
| DateTimeFacts.ResolveOf | src/chatgpt.ts:83-122 | For a text whose date groups are a month and a day, the fields are the year, the zero-padded month and day, the hour and the minute that the separate readers give. |
| DateTime.ParseFlexibleDateTime | src/chatgpt.ts:83-127 | The result is empty exactly when the date pattern fits nowhere. Otherwise it is the rendering of well-formed fields. |
| DateTime.Render | src/chatgpt.ts:119-123 | The rendering starts with the year and a dash and always ends in the seconds `:00`; `DateTime.RenderLayout` gives the offset of every field. |
| DateTime.RenderLayout | src/chatgpt.ts:119-123 | Each field sits at a fixed offset after the year, two digits wide, with the fixed separators and seconds `00`. The hour field reads back as the hour. |
| DateTimeFacts.CanonicalReparse | src/chatgpt.ts:89-123 | Re-reading `YYYY-MM-DD HH:mm:00` gives year `20undefined`, month = last two year digits, day = old month. Hour and minute are unchanged. |
| DateTimeFacts.CanonicalNotFixedPoint | src/chatgpt.ts:83-127 | No canonical timestamp with a four-digit year reads back as itself. |
| DateTimeFacts.DashedYearDate | src/chatgpt.ts:98-101 | In any text starting `DDDD-DD`, the month and day digits are the last two year digits and the two digits after the dash. |
| DateTimeFacts.CanonicalDate | src/chatgpt.ts:98-101 | The leftmost date match in a canonical timestamp starts two positions into the year. |
| DateTimeFacts.CanonicalClock | src/chatgpt.ts:109-116 | The clock of a canonical timestamp is found again, with no afternoon shift. |
| DateTimeFacts.WorkedExample | src/chatgpt.ts:83-127 | `3月5日下午2点30分` reads as `2024-03-05 14:30:00`. |
| DateTimeFacts.ColonClockExample | src/chatgpt.ts:104-116 | In `3月5日下午3:05` the colon form gives hour 3 and minute 05, and with 下午 the hour becomes 15. |
| DateTimeFacts.DashedDateExample | src/chatgpt.ts:89-101 | `2024-03-05` reads as `20undefined-24-03 00:00:00`. |
| DateTimeFacts.MinutesMissingExample | src/chatgpt.ts:109-116 | `3月5日下午2点` reads as `2024-03-05 00:00:00`, because a clock needs minutes. |
| DateTimeFacts.NoDateExample | src/chatgpt.ts:122-126 | Text without a date reads as the empty string. |
| ReplySegmenter.SegmentReply | src/chatgpt.ts:308-314 | The loop produces the greedy cut. That cut is a segmentation: every piece but the last is exactly 500 long, the last is at most 500 long and non-empty unless it is the only piece, and the pieces join back to the reply. |
| ReplySegmenter.Segment | src/chatgpt.ts:308-314 | The greedy cut of the loop, as a recursive function: it always yields at least one piece, even for the empty reply; `ReplySegmenter.SegmentIsSegmentation` states the rest. |
| ReplySegmenter.SegmentIsSegmentation | src/chatgpt.ts:308-314 | The recursive greedy cut meets the segmentation conditions. |
| ReplySegmenter.SegmentationUnique | src/chatgpt.ts:308-314 | Any list of pieces meeting those conditions is the greedy cut. |
| ReplySegmenter.EmptyReply | src/chatgpt.ts:308-314 | An empty answer goes out as one empty message. |
| ReplySegmenter.SegmentCount | src/chatgpt.ts:308-314 | The number of messages is the length divided by 500, rounded up. The empty reply is one empty message. |
| ReplySegmenter.SixHundred | src/chatgpt.ts:308-314 | 600 characters go out as two messages, 500 and 100 long, in order. |
| BotConfig.GroupTriggerKeyword | src/chatgpt.ts:160-162 | The group keyword is the mention, one space and the keyword, at those offsets. |
| Trigger.TriggerGPTMessage | src/chatgpt.ts:208-235 | A private chat triggers exactly when the text starts with the keyword; an empty keyword always triggers. A group chat triggers exactly when the text starts with `@name` and the keyword occurs one character after the mention; an empty keyword only needs the mention. |
| Trigger.LaggingCharIgnored | src/chatgpt.ts:222-228 | In a group, the character after the mention does not affect triggering. |
| Trigger.GroupTriggerPrefix | src/chatgpt.ts:222-228 | A group message triggers exactly when it starts with mention, any character and keyword. With an empty keyword, the mention alone suffices. |
| Trigger.GroupKeywordTriggers | src/chatgpt.ts:160-162 | Any text starting with the group trigger keyword triggers in a group. |
| Trigger.PrivateKeywordTriggers | src/chatgpt.ts:214-217 | Any text starting with the keyword triggers in a private chat. |
| Trigger.GroupExamples | src/chatgpt.ts:218-229 | With bot `Bot` and keyword `gpt`, `@Bot gpt hello` triggers and `@Bot hello gpt` does not. |
| Cleaner.LastPieceStart | src/chatgpt.ts:196 | The left-to-right scan of `split` that resumes after each separator it consumes. Its contract only bounds the start; `Cleaner.LastPieceFree` and `Cleaner.LastPieceAfterSeparator` state what it finds. |
| Cleaner.LastPieceFree | src/chatgpt.ts:196-198 | The piece after the last separator consumed by the left-to-right scan contains no separator. It is the whole rest of the text when the scan finds none. |
| Cleaner.LastPieceAfterSeparator | src/chatgpt.ts:196-198 | When the scan finds a separator, a separator ends exactly where the last piece starts. |
| Cleaner.SplitLast | src/chatgpt.ts:195-199 | The text after the quoted part is a suffix free of separators. It is the whole text when there is no separator; otherwise a separator directly precedes it. The contract leaves the choice between overlapping separators to the scan; `Cleaner.SplitIsNotLastOccurrence` shows which one it takes. |
| Cleaner.CleanMessage | src/chatgpt.ts:191-205 | The cleaned text is what remains of the text after the separator once as many characters as the trigger prefix has are removed. |
| Cleaner.CleanPrivate | src/chatgpt.ts:191-205 | When the text holds no separator, cleaning keyword + rest in a private chat gives rest. |
| Cleaner.CleanGroup | src/chatgpt.ts:191-205 | When the text holds no separator, cleaning mention + any character + keyword + rest in a group gives rest, so cleaning undoes exactly what the trigger checked. |
| Cleaner.QuotedReply | src/chatgpt.ts:191-205 | A quote without dashes, a separator and a separator-free tail: the quote and the separator are dropped, and the tail is cleaned as if sent alone. |
| Cleaner.SplitAfterQuote | src/chatgpt.ts:196-198 | A dash-free quote, a separator and a separator-free tail split to that tail. |
| Cleaner.SplitIsNotLastOccurrence | src/chatgpt.ts:196-198 | The split resumes after each separator it consumes. So separator + ` -` leaves ` -`, although a later separator ends the text. |
| NonsenseFilter.PassesExactly | src/chatgpt.ts:238-254 | A message passes exactly when all of these hold: it is text; it is not from `微信团队`; it is not the bot's own while self-chat is disabled; none of the three notices occurs anywhere in it. |
| NonsenseFilter.IsNonsense | src/chatgpt.ts:238-254 | A message is dropped when the bot talks to itself while self-chat is disabled, when it is no text, when it comes from the WeChat team, or when its text holds the call, red-envelope or location notice. It has no contract of its own; `NonsenseFilter.PassesExactly` characterises it. |
| NonsenseFilter.NonsenseSurvivesContext | src/chatgpt.ts:247-252 | A dropped message stays dropped with any text around it. |
| NonsenseFilter.OrdinaryTextPasses | src/chatgpt.ts:238-254 | Plain `hello` from an ordinary contact passes. |
| Traffic.FirstIncluded | src/chatgpt.ts:376 | The first name in list order that the text contains, or none exactly when it contains none. |
| Traffic.FindAlgorithm | src/chatgpt.ts:375-376 | The chosen algorithm is one of `lstm`, `gru`, `saes`, and the text contains it. There is none exactly when the text contains none of them. `Traffic.AlgorithmOrder` and `Traffic.AlgorithmGruBeforeSaes` pin the list order. |
| Traffic.AlgorithmOrder | src/chatgpt.ts:374-375 | Whenever the text contains `lstm`, `lstm` is chosen, wherever the other names occur. |
| Traffic.IsTrafficQuery | src/chatgpt.ts:375-379 | The text contains 交通, 预测 and one of the algorithm names. It has no contract of its own; `Router.CustomizedTaskSilent` spells it out. |
| Traffic.AlgorithmGruBeforeSaes | src/chatgpt.ts:375-376 | Without `lstm`, `gru` wins whenever it occurs, whatever else occurs. |
| Traffic.FindRecord | src/chatgpt.ts:55 | The position of the first row whose timestamp equals the requested one exactly. There is none exactly when no row matches. |
| Traffic.FindRecordIgnoresLater | src/chatgpt.ts:55 | Rows after the first match do not change the lookup. |
| Traffic.HandleTrafficPrediction | src/chatgpt.ts:42-79 | There is no reply exactly when the file stream fails, because `pipe` passes no stream error on to the parser and the loop over the rows never ends. A file the parser rejects gives the error reply. No matching row gives the not-found reply. Otherwise the reply is the prediction, a blank line, and the backend's advice for the row's condition. |
| Traffic.BusyClassification | src/chatgpt.ts:56-63 | For a found row with a finite volume, the reply opens with the busy condition and the advice to avoid the peak exactly when the volume is above 190, and with the clear condition and the advice to drive on exactly when it is at most 190. |
| Traffic.HighVolumeIsBusy | src/chatgpt.ts:56-63 | A first matching row with volume 210.5 gives a reply that announces a busy road and advises avoiding the peak. |
| Traffic.ThresholdVolumeIsClear | src/chatgpt.ts:56-63 | A first matching row with volume exactly 190 gives a reply that announces a clear road, and not a busy one: the threshold is strict. |
| Traffic.IsBusy | src/chatgpt.ts:57-58 | A volume is busy when it is above 190; positive infinity is busy, and negative infinity and NaN are not. It has no contract of its own; `Traffic.BusyClassification` and `Traffic.UnparsablePredictionIsClear` state what it decides. |
| Traffic.Condition | src/chatgpt.ts:59 | 较为拥挤 for a busy road, 较为通畅 otherwise. It has no contract of its own. |
| Traffic.Advice | src/chatgpt.ts:60 | The advice to avoid the peak or find another route for a busy road, the advice to drive on for a clear one. It has no contract of its own. |
| Traffic.PredictionMessage | src/chatgpt.ts:63 | 预计在, the timestamp, 流量为, the printed volume, a comma, the condition, a full stop and the advice. It has no contract of its own. |
| Traffic.Question | src/chatgpt.ts:66 | The question put to the backend names only the lane condition, not the volume or the time. It has no contract of its own. |
| Traffic.Answer | src/chatgpt.ts:67-70 | The prediction message, a blank line, and the backend's answer to the question about the condition. It has no contract of its own; `Traffic.HandleTrafficPrediction` and `Traffic.BusyClassification` state what it yields. |
| Traffic.UnparsablePredictionIsClear | src/chatgpt.ts:56-60 | A `NaN` prediction is reported as a clear road, and the backend is asked about a clear lane. |
| Traffic.OutcomesDistinct | src/chatgpt.ts:42-79 | There is a reply starting with 预计在 exactly when the file was read and a row matched. |
| Router.Prompt | src/chatgpt.ts:338-361 | There is no prompt exactly when the message is nonsense or does not trigger. Otherwise the prompt is the canned identity prompt when the cleaned text contains 你是谁 or `who are you`, and the cleaned text when it does not. |
| Router.Addressed | src/chatgpt.ts:347-352 | `onMessage` goes on exactly when the message is not nonsense and triggers the bot. It has no contract of its own; `Router.Prompt` and `Router.OnMessage` state what follows from it. |
| Router.AsksIdentity | src/chatgpt.ts:356 | The cleaned text contains 你是谁 or `who are you`. It has no contract of its own; `Router.Prompt` states its effect. |
| Router.WholeReply | src/chatgpt.ts:320-334 | In a private chat the whole reply is the backend's answer itself. In a group it starts with the header `----------` and a line break, and the answer follows the header unchanged. |
| Router.OnMessage | src/chatgpt.ts:338-369 | Nothing is sent exactly when the message is not addressed to the bot. Otherwise the messages segment the backend's answer, behind the header line in a group. |
| Router.IdentityQuestion | src/chatgpt.ts:356-361 | For an identity question, the messages are the backend's answer to the canned prompt. |
| Router.GroupReplyShape | src/chatgpt.ts:329-334 | In a group, the first message starts with `----------\n`, and every message is at most 500 long. |
| Router.PrivateIdentityExample | src/chatgpt.ts:356-361 | With keyword `gpt`, the private text `gpt 你是谁` makes the bot forward the backend's answer to the canned prompt. |
| Router.OnCustomizedTask | src/chatgpt.ts:372-401 | A traffic question with a readable date is left to the traffic handler, with the parsed timestamp and the first algorithm, and gets whatever reply the handler gives, or none when its file stream fails. Any other text gets the nickname reply exactly when it contains 麦扣, and nothing otherwise. |
| Router.CustomizedTaskSilent | src/chatgpt.ts:372-401 | `onCustimzedTask` stays silent exactly when either the text lacks 麦扣 and is not a traffic question with a readable date (one of 交通, 预测 or every algorithm name is missing, or no date fits), or it is one and the file stream of its algorithm fails. |
| Router.TrafficQuestionShadowsNickname | src/chatgpt.ts:381-399 | A traffic question with a readable date never gets the nickname reply, even when it contains 麦扣: the handler's replies all differ from it, and a failed stream leaves the bot silent. |

## Left out

- The OpenAI client: `startGPTBot`, `createMessages`, the model configuration
  and `onChatGPT`'s error handling. The backend is the parameter `ask`, so a
  failed call is simply some answer. `ask` stands for the answer after
  `onChatGPT` has trimmed it, or after it has substituted its error text. A
  response without content, where `onChatGPT` returns `undefined`, is not
  modelled. In a private chat `reply` would then throw on `.length`; in a group
  the header template sends `----------\nundefined` (line 333); and the
  traffic reply ends in `undefined` (line 70).
- Reading and parsing the CSV file: a file yields its rows, is rejected by the
  parser, or its stream fails (`Load`). `parseFloat` is not modelled; a row
  carries the parsed `Volume`.
- Traffic.HandleTrafficPrediction: a failed file stream is modelled only as
  "no reply". The 'error' event it emits has no listener, which in Node.js is
  an uncaught exception; whether that ends the bot's process depends on
  handlers outside `src/chatgpt.ts`, so the model does not say.
- The printing of a number inside the prediction message: the parameter `show`.
- `setBotName` and the login stage: the bot name is part of `Config`.
- An `undefined` trigger keyword coming from the configuration: the keyword is
  always a string here. With an undefined keyword, `cleanMessage` would throw on
  `.length` in a private chat.
- `console.log`/`console.error` calls, the current date in the system prompt,
  and the `async`/`await` ordering of `say` calls. `OnMessage` returns the
  messages in the order they are sent.
- The numeric values of `MessageType`: only which kind is `Text` matters.
- wechaty's `Message`, `Contact` and `Room` objects: a message is an `Envelope`
  with the talker's name, whether the talker is the bot itself, the type, the
  text and whether it came from a room.
- Characters outside the Basic Multilingual Plane, such as the robot emoji or
  the supplementary CJK ideographs (𠮷, 𨋢), count as two UTF-16 code units
  in JavaScript and as one `char` here. Every `length` and `slice` in the model
  therefore agrees with the source only on text within that plane. On other
  text `Segment`, `CleanMessage` and the group trigger's skip of one character
  after the mention diverge from the source.
- ReplySegmenter.SegmentReply: cuts after 500 `char`s, not 500 UTF-16 code
  units. On an answer with a character outside the Basic Multilingual Plane
  the source cuts earlier, and can split a surrogate pair: 499 Chinese
  characters followed by one emoji go out as two messages in JavaScript, 500
  code units and then a lone low surrogate, but as one message here. A
  `string` of Dafny cannot hold a lone surrogate, so this cut is not modelled.
