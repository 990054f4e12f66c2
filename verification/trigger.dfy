/** `triggerGPTMessage` (src/chatgpt.ts:208-235): does a message address the bot? */
module Trigger {
  import opened Strings
  import opened BotConfig

  /** In a private chat the text must start with the keyword (an empty keyword
      lets everything through); in a group the text must start with the
      mention, and the keyword must follow one character later, whatever that
      character is. */
  function TriggerGPTMessage(c: Config, text: string, isPrivateChat: bool): (triggered: bool)
    ensures isPrivateChat ==> (triggered <==> StartsWith(text, c.triggerKeyword))
    ensures !isPrivateChat ==>
      (triggered <==>
        && StartsWith(text, Mention(c))
        && (c.triggerKeyword == "" || OccursAt(text, c.triggerKeyword, |Mention(c)| + 1)))
  {
    if isPrivateChat then
      if c.triggerKeyword != "" then StartsWith(text, c.triggerKeyword) else true
    else
      var textMention := Mention(c);
      StartsWith(text, textMention) && StartsWith(Slice(text, |textMention| + 1), c.triggerKeyword)
  }

  /** The character right after the mention is never looked at. */
  lemma LaggingCharIgnored(c: Config, text: string, x: char)
    requires |text| > |Mention(c)|
    ensures TriggerGPTMessage(c, text, false) == TriggerGPTMessage(c, text[|Mention(c)| := x], false)
  {
    var m := |Mention(c)|;
    var t := text[m := x];
    assert t[..m] == text[..m];
    assert t[m + 1..] == text[m + 1..];
    if c.triggerKeyword != "" {
      if OccursAt(text, c.triggerKeyword, m + 1) {
        assert t[m + 1..m + 1 + |c.triggerKeyword|] == text[m + 1..m + 1 + |c.triggerKeyword|];
      }
      if OccursAt(t, c.triggerKeyword, m + 1) {
        assert t[m + 1..m + 1 + |c.triggerKeyword|] == text[m + 1..m + 1 + |c.triggerKeyword|];
      }
    }
  }

  /** A group message triggers exactly when it starts with the mention, some
      character and the keyword. */
  lemma GroupTriggerPrefix(c: Config, text: string)
    ensures TriggerGPTMessage(c, text, false) <==>
      (|text| > |Mention(c)| && StartsWith(text, Mention(c) + [text[|Mention(c)|]] + c.triggerKeyword))
      || (c.triggerKeyword == "" && StartsWith(text, Mention(c)))
  {
    var m, k := Mention(c), c.triggerKeyword;
    var p := |m|;
    if |text| > p {
      var full := m + [text[p]] + k;
      if TriggerGPTMessage(c, text, false) && k != "" {
        assert text[..|full|] == text[..p] + [text[p]] + text[p + 1..p + 1 + |k|];
      }
      if StartsWith(text, full) {
        assert text[..p] == full[..p];
        assert text[p + 1..p + 1 + |k|] == full[p + 1..];
      }
    }
  }

  /** The group trigger keyword itself, followed by anything, triggers. */
  lemma GroupKeywordTriggers(c: Config, rest: string)
    ensures TriggerGPTMessage(c, GroupTriggerKeyword(c) + rest, false)
  {
    var text, p := GroupTriggerKeyword(c) + rest, |Mention(c)|;
    assert text[..p] == Mention(c);
    assert text[p + 1..p + 1 + |c.triggerKeyword|] == c.triggerKeyword;
  }

  /** The keyword followed by anything triggers a private chat. */
  lemma PrivateKeywordTriggers(c: Config, rest: string)
    ensures TriggerGPTMessage(c, c.triggerKeyword + rest, true)
  {
    assert (c.triggerKeyword + rest)[..|c.triggerKeyword|] == c.triggerKeyword;
  }

  /** "@Bot gpt hello" reaches a bot named `Bot` with keyword `gpt` in a group,
      whereas "@Bot hello gpt" does not. */
  lemma GroupExamples(c: Config)
    requires c.botName == "Bot" && c.triggerKeyword == "gpt"
    ensures TriggerGPTMessage(c, "@Bot gpt hello", false)
    ensures !TriggerGPTMessage(c, "@Bot hello gpt", false)
  {
    GroupKeywordTriggers(c, " hello");
    assert GroupTriggerKeyword(c) + " hello" == "@Bot gpt hello";
    assert "@Bot hello gpt"[5] != 'g';
  }
}
