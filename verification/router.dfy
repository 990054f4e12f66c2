/** The two entry points: `onMessage` (src/chatgpt.ts:338-369), the chat
    pipeline, and `onCustimzedTask` (lines 372-401), the traffic and keyword
    handlers. */
module Router {
  import opened Options
  import opened Strings
  import opened BotConfig
  import opened Trigger
  import opened Cleaner
  import opened NonsenseFilter
  import opened ReplySegmenter
  import opened Traffic
  import opened DateTime
  import Regex

  /** What `onMessage` reads of a wechaty message; `isPrivateChat` is `!room`. */
  datatype Envelope = Envelope(talker: Talker, messageType: MessageType, text: string, isPrivateChat: bool)

  /** The prompt sent in place of an identity question. */
  const IdentityPrompt: string := "你需要以你好我是RoutePal，您的智能道路流量预测助手开头。之后需要描述你的功能，类似以下语句：我可以帮助您了解不同时间段的道路流量情况，为您的出行提供数据支持。无论是避开拥堵还是选择最佳出行时间，我都能为您提供帮助。"

  /** The line a group reply starts with (line 333). */
  const GroupHeader: string := "----------\n"

  /** The identity probe of line 356: the text asks who the bot is, in
      Chinese or in English. */
  predicate AsksIdentity(text: string) {
    Includes(text, "你是谁") || Includes(text, "who are you")
  }

  /** Whether `onMessage` goes past its first `if` (lines 347-352). */
  predicate Addressed(c: Config, e: Envelope) {
    !IsNonsense(c, e.talker, e.messageType, e.text) && TriggerGPTMessage(c, e.text, e.isPrivateChat)
  }

  /** The text `onMessage` hands to the chat backend, if it answers at all. */
  function Prompt(c: Config, e: Envelope): (r: Option<string>)
    ensures r.None? <==> !Addressed(c, e)
    ensures r.Some? && AsksIdentity(CleanMessage(c, e.text, e.isPrivateChat)) ==> r.value == IdentityPrompt
    ensures r.Some? && !AsksIdentity(CleanMessage(c, e.text, e.isPrivateChat)) ==>
      r.value == CleanMessage(c, e.text, e.isPrivateChat)
  {
    if !Addressed(c, e) then None
    else
      var text := CleanMessage(c, e.text, e.isPrivateChat);
      if AsksIdentity(text) then Some(IdentityPrompt) else Some(text)
  }

  /** `onPrivateMessage` / `onGroupMessage` after the backend answered: the
      whole reply, headed in a group. */
  function WholeReply(answer: string, isPrivateChat: bool): (r: string)
    ensures isPrivateChat ==> r == answer
    ensures !isPrivateChat ==> StartsWith(r, GroupHeader) && r[|GroupHeader|..] == answer
  {
    if isPrivateChat then answer else GroupHeader + answer
  }

  /** `onMessage(message)`: the messages sent back, in order; `ask` is the
      chat backend (`onChatGPT`). */
  function OnMessage(c: Config, e: Envelope, ask: string -> string): (sent: seq<string>)
    ensures sent == [] <==> !Addressed(c, e)
    ensures sent != [] ==> IsSegmentation(WholeReply(ask(Prompt(c, e).value), e.isPrivateChat), sent)
  {
    match Prompt(c, e)
    case None => []
    case Some(prompt) =>
      var whole := WholeReply(ask(prompt), e.isPrivateChat);
      SegmentIsSegmentation(whole);
      Segment(whole)
  }

  /** An identity question is answered by whatever the backend makes of the
      canned prompt; the rest of the question is not passed on. */
  lemma IdentityQuestion(c: Config, e: Envelope, ask: string -> string)
    requires Addressed(c, e) && AsksIdentity(CleanMessage(c, e.text, e.isPrivateChat))
    ensures OnMessage(c, e, ask) == Segment(WholeReply(ask(IdentityPrompt), e.isPrivateChat))
  {
  }

  /** In a group the first message sent starts with the header line, and
      every message fits the size limit. */
  lemma GroupReplyShape(c: Config, e: Envelope, ask: string -> string)
    requires Addressed(c, e) && !e.isPrivateChat
    ensures var sent := OnMessage(c, e, ask);
      && |sent| >= 1
      && StartsWith(sent[0], GroupHeader)
      && forall k :: 0 <= k < |sent| ==> |sent[k]| <= SingleMessageMaxSize
  {
    var whole := GroupHeader + ask(Prompt(c, e).value);
    SegmentIsSegmentation(whole);
    var sent := Segment(whole);
    if |whole| > SingleMessageMaxSize {
      assert sent[0] == whole[..SingleMessageMaxSize];
      assert sent[0][..|GroupHeader|] == whole[..|GroupHeader|];
    } else {
      assert sent[0] == whole;
    }
  }

  /** A private chat with keyword `gpt`: "gpt 你是谁" from an ordinary contact
      sends the canned prompt to the backend and forwards its answer. */
  lemma PrivateIdentityExample(c: Config, ask: string -> string)
    requires c.triggerKeyword == "gpt"
    ensures var e := Envelope(Talker("Alice", false), Text, "gpt 你是谁", true);
      OnMessage(c, e, ask) == Segment(ask(IdentityPrompt))
  {
    var e := Envelope(Talker("Alice", false), Text, "gpt 你是谁", true);
    PrivateKeywordTriggers(c, " 你是谁");
    assert "gpt" + " 你是谁" == e.text;
    assert !IsNonsense(c, e.talker, e.messageType, e.text) by {
      NotIncluded(e.text, CallNotice);
      NotIncluded(e.text, RedEnvelopeNotice);
      NotIncluded(e.text, LocationNotice);
    }
    assert !Includes(e.text, Separator) by { NotIncluded(e.text, Separator); }
    CleanPrivate(c, " 你是谁");
    var text := " 你是谁";
    assert OccursAt(text, "你是谁", 1);
  }

  // ---------------------------------------------------------------------------
  // onCustimzedTask

  const NicknameWord: string := "麦扣"
  const NicknameReply: string := "🤖：call我做咩啊大佬"

  /** `onCustimzedTask(message)`: the single reply it says, or `None` when it
      says nothing. A traffic question whose date cannot be read falls
      through to the nickname check; one whose date can be read is left to
      the traffic handler, which says nothing when its file stream fails. */
  function OnCustomizedTask(text: string, files: string -> Load, show: Volume -> string, ask: string -> string): (r: Option<string>)
    ensures IsTrafficQuery(text) && ParseFlexibleDateTime(text) != "" ==>
      r == HandleTrafficPrediction(files, ParseFlexibleDateTime(text), FindAlgorithm(text).value, show, ask)
    ensures !(IsTrafficQuery(text) && ParseFlexibleDateTime(text) != "") ==>
      (r.Some? <==> Includes(text, NicknameWord)) && (r.Some? ==> r.value == NicknameReply)
  {
    var found := FindAlgorithm(text);
    if Includes(text, TrafficWord) && Includes(text, PredictWord) && found.Some? && ParseFlexibleDateTime(text) != "" then
      HandleTrafficPrediction(files, ParseFlexibleDateTime(text), found.value, show, ask)
    else if Includes(text, NicknameWord) then Some(NicknameReply)
    else None
  }

  /** The bot says nothing exactly when the text is not a traffic question
      with a readable date and does not mention the nickname, or when it is
      one and the file stream of its algorithm fails. */
  lemma CustomizedTaskSilent(text: string, files: string -> Load, show: Volume -> string, ask: string -> string)
    ensures var other :=
        !Includes(text, TrafficWord) || !Includes(text, PredictWord)
        || (forall k :: 0 <= k < |Algorithms| ==> !Includes(text, Algorithms[k]))
        || (forall i: nat :: i <= |text| ==> Regex.DateAt(text, i).None?);
      OnCustomizedTask(text, files, show, ask).None? <==>
        (other && !Includes(text, NicknameWord))
        || (!other && files(DatasetPath(FindAlgorithm(text).value)).StreamFailed?)
  {
  }

  /** A traffic question with a readable date never gets the nickname reply,
      even when it mentions the nickname: every reply of the traffic handler
      differs from it, and a failed stream leaves the bot silent. */
  lemma TrafficQuestionShadowsNickname(text: string, files: string -> Load, show: Volume -> string, ask: string -> string)
    requires IsTrafficQuery(text) && ParseFlexibleDateTime(text) != ""
    ensures OnCustomizedTask(text, files, show, ask) != Some(NicknameReply)
  {
    var requested, algorithm := ParseFlexibleDateTime(text), FindAlgorithm(text).value;
    var reply := HandleTrafficPrediction(files, requested, algorithm, show, ask);
    if reply.Some? {
      assert NicknameReply[0] == '🤖';
      assert ErrorReply[0] != '🤖' && NotFoundReply[0] != '🤖';
      OutcomesDistinct(files, requested, algorithm, show, ask);
      if StartsWith(reply.value, "预计在") {
        assert reply.value[0] == '预';
      }
    }
  }
}
