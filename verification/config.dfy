/** The part of the bot's state that the message pipeline reads
    (src/chatgpt.ts:30-37 and the getter of lines 160-162). */
module BotConfig {
  import opened Strings

  /** `botName` (set at login), `chatgptTriggerKeyword` and `disableSelfChat`. */
  datatype Config = Config(botName: string, triggerKeyword: string, disableSelfChat: bool)

  /** `@${this.botName}`, the mention a group message must start with. */
  function Mention(c: Config): (m: string)
    ensures |m| == |c.botName| + 1 && m[0] == '@' && m[1..] == c.botName
  {
    "@" + c.botName
  }

  /** `chatGroupTriggerKeyword`: the mention, one space standing in for
      whatever character the client put after it, and the keyword. */
  function GroupTriggerKeyword(c: Config): (k: string)
    ensures |k| == |Mention(c)| + 1 + |c.triggerKeyword|
    ensures StartsWith(k, Mention(c))
    ensures k[|Mention(c)|] == ' ' && k[|Mention(c)| + 1..] == c.triggerKeyword
  {
    Mention(c) + " " + c.triggerKeyword
  }
}
