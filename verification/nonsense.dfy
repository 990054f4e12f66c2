/** `isNonsense` (src/chatgpt.ts:238-254): messages the bot never answers. */
module NonsenseFilter {
  import opened Strings
  import opened BotConfig

  /** The wechaty message kinds (src/chatgpt.ts:8-26); only `Text` is answered. */
  datatype MessageType =
    | Unknown | Attachment | Audio | Contact | ChatHistory | Emoticon | Image | Text
    | Location | MiniProgram | GroupNote | Transfer | RedEnvelope | Recalled | Url | Video | Post

  /** What the filter asks of the sender: `talker.self()` and `talker.name()`. */
  datatype Talker = Talker(name: string, isSelf: bool)

  /** The WeChat team's system account. */
  const SystemAccount: string := "微信团队"

  /** The notices the web client puts into the text of a call, a red envelope
      and a shared location. */
  const CallNotice: string := "收到一条视频/语音聊天消息，请在手机上查看"
  const RedEnvelopeNotice: string := "收到红包，请在手机上查看"
  const LocationNotice: string := "/cgi-bin/mmwebwx-bin/webwxgetpubliclinkimg"

  const Notices: seq<string> := [CallNotice, RedEnvelopeNotice, LocationNotice]

  /** `isNonsense(talker, messageType, text)`. */
  predicate IsNonsense(c: Config, talker: Talker, messageType: MessageType, text: string) {
    || (c.disableSelfChat && talker.isSelf)
    || messageType != Text
    || talker.name == SystemAccount
    || Includes(text, CallNotice)
    || Includes(text, RedEnvelopeNotice)
    || Includes(text, LocationNotice)
  }

  /** A message passes exactly when it is text, not from the system account,
      not from the bot itself while self-chat is disabled, and carries none
      of the notices anywhere. */
  lemma PassesExactly(c: Config, talker: Talker, messageType: MessageType, text: string)
    ensures !IsNonsense(c, talker, messageType, text) <==>
      && messageType == Text
      && talker.name != SystemAccount
      && (c.disableSelfChat ==> !talker.isSelf)
      && forall k, j: nat :: 0 <= k < |Notices| ==> !OccursAt(text, Notices[k], j)
  {
    if !IsNonsense(c, talker, messageType, text) {
      forall k, j: nat | 0 <= k < |Notices| ensures !OccursAt(text, Notices[k], j) {
        assert k == 0 || k == 1 || k == 2;
      }
    } else if Includes(text, CallNotice) {
      var j: nat :| OccursAt(text, Notices[0], j);
    } else if Includes(text, RedEnvelopeNotice) {
      var j: nat :| OccursAt(text, Notices[1], j);
    } else if Includes(text, LocationNotice) {
      var j: nat :| OccursAt(text, Notices[2], j);
    }
  }

  /** Words around a notice do not rescue it: a message that is nonsense stays
      nonsense with anything before or after its text. */
  lemma NonsenseSurvivesContext(c: Config, talker: Talker, messageType: MessageType, text: string, before: string, after: string)
    requires IsNonsense(c, talker, messageType, text)
    ensures IsNonsense(c, talker, messageType, before + text + after)
  {
    var wider := before + text + after;
    forall p: string | Includes(text, p) ensures Includes(wider, p) {
      var j: nat :| OccursAt(text, p, j);
      assert wider[|before| + j..|before| + j + |p|] == text[j..j + |p|];
      assert OccursAt(wider, p, |before| + j);
    }
  }

  /** A plain text with none of the notices, from an ordinary contact, passes. */
  lemma OrdinaryTextPasses(c: Config)
    ensures !IsNonsense(c, Talker("Alice", false), Text, "hello")
  {
    NotIncluded("hello", CallNotice);
    NotIncluded("hello", RedEnvelopeNotice);
    NotIncluded("hello", LocationNotice);
  }
}
