/** Traffic questions: recognising them (src/chatgpt.ts:375-379) and answering
    them from a prediction table (`handleTrafficPrediction`, lines 42-79). */
module Traffic {
  import opened Options
  import opened Strings

  // ---------------------------------------------------------------------------
  // Recognising a traffic question

  /** The prediction models, in the order `find` tries them. */
  const Algorithms: seq<string> := ["lstm", "gru", "saes"]

  const TrafficWord: string := "交通"
  const PredictWord: string := "预测"

  /** The position of the first name in `names` that occurs in `text`. */
  function FirstIncluded(names: seq<string>, text: string): (r: Option<nat>)
    ensures r.Some? ==> r.value < |names| && Includes(text, names[r.value])
    ensures r.Some? ==> forall k :: 0 <= k < r.value ==> !Includes(text, names[k])
    ensures r.None? <==> forall k :: 0 <= k < |names| ==> !Includes(text, names[k])
  {
    if |names| == 0 then None
    else if Includes(text, names[0]) then Some(0)
    else
      var tail := names[1..];
      assert forall k :: 1 <= k < |names| ==> names[k] == tail[k - 1];
      match FirstIncluded(tail, text)
      case None => None
      case Some(k) => Some(k + 1)
  }

  /** The algorithm of line 376: the first name of the list that the text
      contains. */
  function FindAlgorithm(text: string): (r: Option<string>)
    ensures r.Some? ==> r.value in Algorithms && Includes(text, r.value)
    ensures r.None? <==> forall k :: 0 <= k < |Algorithms| ==> !Includes(text, Algorithms[k])
  {
    match FirstIncluded(Algorithms, text)
    case None => None
    case Some(k) => Some(Algorithms[k])
  }

  /** The condition of line 379: both words and some algorithm name. */
  predicate IsTrafficQuery(text: string) {
    Includes(text, TrafficWord) && Includes(text, PredictWord) && FindAlgorithm(text).Some?
  }

  /** When several names occur, the earlier one in the list is chosen, not
      the one that comes first in the text. */
  lemma AlgorithmOrder(text: string)
    requires Includes(text, "lstm")
    ensures FindAlgorithm(text) == Some("lstm")
  {
  }

  lemma AlgorithmGruBeforeSaes(text: string)
    requires !Includes(text, "lstm") && Includes(text, "gru")
    ensures FindAlgorithm(text) == Some("gru")
  {
    assert Algorithms[0] == "lstm" && Algorithms[1] == "gru";
    assert FirstIncluded(Algorithms, text) == Some(1);
  }

  // ---------------------------------------------------------------------------
  // The prediction table

  /** The number read from a row's prediction column, which may be no number. */
  datatype Volume = Finite(x: real) | Infinity | NegInfinity | NaN

  /** One CSV row: its `Timestamp` column and its parsed `Prediction`. */
  datatype Record = Record(timestamp: string, prediction: Volume)

  /** What reading `/data/pred_<alg>.csv` through the CSV parser comes to:
      its rows; a parse error, which the parser raises into the loop over its
      rows; or a failure of the file stream itself (the file cannot be opened
      or read). The stream is joined to the parser by `pipe`, which listens for
      errors on the parser only, so a stream failure reaches no handler and
      the loop over the rows never ends. */
  datatype Load = Loaded(records: seq<Record>) | Malformed | StreamFailed

  /** The volume above which the road counts as busy. */
  const BusyThreshold: real := 190.0

  /** Whether the volume is above 190; a volume that is not a number never is. */
  predicate IsBusy(v: Volume) {
    match v
    case Finite(x) => x > BusyThreshold
    case Infinity => true
    case NegInfinity => false
    case NaN => false
  }

  /** The road conditions and the advice for each. */
  const BusyCondition: string := "较为拥挤"
  const ClearCondition: string := "较为通畅"
  const AvoidPeakAdvice: string := "建议避开高峰期出行，或寻找替代路线。"
  const DriveOnAdvice: string := "你可以慢慢开车，路况良好。"

  function Condition(busy: bool): string {
    if busy then BusyCondition else ClearCondition
  }

  function Advice(busy: bool): string {
    if busy then AvoidPeakAdvice else DriveOnAdvice
  }

  const NotFoundReply: string := "没有找到对应时间的流量预测。"
  const ErrorReply: string := "处理您的请求时出现错误，请稍后再试。"

  function DatasetPath(algorithm: string): string {
    "/data/pred_" + algorithm + ".csv"
  }

  /** The row lookup of line 55, as a position: the first row whose
      timestamp is exactly the requested one. */
  function FindRecord(records: seq<Record>, timestamp: string): (r: Option<nat>)
    ensures r.Some? ==> r.value < |records| && records[r.value].timestamp == timestamp
    ensures r.Some? ==> forall k :: 0 <= k < r.value ==> records[k].timestamp != timestamp
    ensures r.None? <==> forall k :: 0 <= k < |records| ==> records[k].timestamp != timestamp
  {
    if |records| == 0 then None
    else if records[0].timestamp == timestamp then Some(0)
    else
      match FindRecord(records[1..], timestamp)
      case None =>
        assert forall k :: 1 <= k < |records| ==> records[k] == records[1..][k - 1];
        None
      case Some(k) =>
        assert forall j :: 1 <= j <= k ==> records[j] == records[1..][j - 1];
        Some(k + 1)
  }

  /** The opening of a found prediction, up to the condition. */
  function Opening(requested: string, shown: string): string {
    "预计在" + requested + "流量为" + shown + "，"
  }

  /** `predictionMessage` of line 63; `shown` is how JavaScript prints the volume. */
  function PredictionMessage(timestamp: string, shown: string, busy: bool): string {
    Opening(timestamp, shown) + Condition(busy) + "。" + Advice(busy)
  }

  /** `chatgptQuestion` of line 66. */
  function Question(busy: bool): string {
    "我的车道" + Condition(busy) + "，你建议我做些什么？"
  }

  /** `finalReply` of line 70: the prediction, a blank line and the backend's
      advice on the condition. */
  function Answer(requested: string, volume: Volume, show: Volume -> string, ask: string -> string): string {
    var busy := IsBusy(volume);
    PredictionMessage(requested, show(volume), busy) + "\n\n" + ask(Question(busy))
  }

  /** `handleTrafficPrediction(requestedDateTime, algorithmName)`: the reply
      it resolves to, or `None` when its promise never settles because the
      file stream failed. The file system, the number printer and the chat
      backend are parameters. */
  function HandleTrafficPrediction(
    files: string -> Load, requested: string, algorithm: string,
    show: Volume -> string, ask: string -> string): (reply: Option<string>)
    ensures reply.None? <==> files(DatasetPath(algorithm)).StreamFailed?
    ensures files(DatasetPath(algorithm)).Malformed? ==> reply == Some(ErrorReply)
    ensures files(DatasetPath(algorithm)).Loaded? && FindRecord(files(DatasetPath(algorithm)).records, requested).None?
      ==> reply == Some(NotFoundReply)
    ensures files(DatasetPath(algorithm)).Loaded? && FindRecord(files(DatasetPath(algorithm)).records, requested).Some?
      ==> var records := files(DatasetPath(algorithm)).records;
        reply == Some(Answer(requested, records[FindRecord(records, requested).value].prediction, show, ask))
  {
    match files(DatasetPath(algorithm))
    case StreamFailed => None
    case Malformed => Some(ErrorReply)
    case Loaded(records) =>
      match FindRecord(records, requested)
      case None => Some(NotFoundReply)
      case Some(k) => Some(Answer(requested, records[k].prediction, show, ask))
  }

  /** Rows after the first match are never looked at. */
  lemma {:induction false} FindRecordIgnoresLater(records: seq<Record>, later: seq<Record>, timestamp: string)
    requires FindRecord(records, timestamp).Some?
    ensures FindRecord(records + later, timestamp) == FindRecord(records, timestamp)
  {
    if records[0].timestamp != timestamp {
      assert (records + later)[1..] == records[1..] + later;
      FindRecordIgnoresLater(records[1..], later, timestamp);
    }
  }

  /** For a found row with a finite volume `x`, the reply announces a busy
      road with the advice to avoid the peak exactly when `x > 190`, and a
      clear road with the advice to drive on exactly when `x <= 190`. */
  lemma {:induction false} BusyClassification(files: string -> Load, requested: string, algorithm: string,
    show: Volume -> string, ask: string -> string, x: real)
    requires files(DatasetPath(algorithm)).Loaded?
    requires var records := files(DatasetPath(algorithm)).records;
      && FindRecord(records, requested).Some?
      && records[FindRecord(records, requested).value].prediction == Finite(x)
    ensures var reply, opening := HandleTrafficPrediction(files, requested, algorithm, show, ask).value, Opening(requested, show(Finite(x)));
      && (StartsWith(reply, opening + BusyCondition + "。" + AvoidPeakAdvice) <==> x > 190.0)
      && (StartsWith(reply, opening + ClearCondition + "。" + DriveOnAdvice) <==> x <= 190.0)
  {
    var opening := Opening(requested, show(Finite(x)));
    var busy := x > BusyThreshold;
    var rest := "\n\n" + ask(Question(busy));
    assert HandleTrafficPrediction(files, requested, algorithm, show, ask).value
      == opening + Condition(busy) + "。" + Advice(busy) + rest;
    ConditionAnnounced(opening, busy, rest);
  }

  /** A text that continues `opening` with a condition and its advice starts
      with the busy announcement exactly when the condition is busy, and with
      the clear one exactly when it is not: the two differ in their third
      character. */
  lemma ConditionAnnounced(opening: string, busy: bool, rest: string)
    ensures var r := opening + Condition(busy) + "。" + Advice(busy) + rest;
      && (StartsWith(r, opening + BusyCondition + "。" + AvoidPeakAdvice) <==> busy)
      && (StartsWith(r, opening + ClearCondition + "。" + DriveOnAdvice) <==> !busy)
  {
    var message := opening + Condition(busy) + "。" + Advice(busy);
    var r := message + rest;
    var busyText := opening + BusyCondition + "。" + AvoidPeakAdvice;
    var clearText := opening + ClearCondition + "。" + DriveOnAdvice;
    var k := |opening| + 2;
    assert r[..|message|] == message;
    assert busyText[k] == BusyCondition[2] == '拥';
    assert clearText[k] == ClearCondition[2] == '通';
    assert r[k] == message[k] == Condition(busy)[2];
  }

  /** A volume of 210.5 is reported as busy. */
  lemma HighVolumeIsBusy(files: string -> Load, requested: string, algorithm: string,
    show: Volume -> string, ask: string -> string)
    requires files(DatasetPath(algorithm)).Loaded?
    requires var records := files(DatasetPath(algorithm)).records;
      |records| > 0 && records[0] == Record(requested, Finite(210.5))
    ensures StartsWith(HandleTrafficPrediction(files, requested, algorithm, show, ask).value,
      Opening(requested, show(Finite(210.5))) + BusyCondition + "。" + AvoidPeakAdvice)
  {
    assert FindRecord(files(DatasetPath(algorithm)).records, requested) == Some(0);
    BusyClassification(files, requested, algorithm, show, ask, 210.5);
  }

  /** A volume of exactly 190 is not above the threshold, so it is reported
      as clear. */
  lemma ThresholdVolumeIsClear(files: string -> Load, requested: string, algorithm: string,
    show: Volume -> string, ask: string -> string)
    requires files(DatasetPath(algorithm)).Loaded?
    requires var records := files(DatasetPath(algorithm)).records;
      |records| > 0 && records[0] == Record(requested, Finite(190.0))
    ensures StartsWith(HandleTrafficPrediction(files, requested, algorithm, show, ask).value,
      Opening(requested, show(Finite(190.0))) + ClearCondition + "。" + DriveOnAdvice)
    ensures !StartsWith(HandleTrafficPrediction(files, requested, algorithm, show, ask).value,
      Opening(requested, show(Finite(190.0))) + BusyCondition + "。" + AvoidPeakAdvice)
  {
    assert FindRecord(files(DatasetPath(algorithm)).records, requested) == Some(0);
    BusyClassification(files, requested, algorithm, show, ask, 190.0);
  }

  /** A prediction that is not a number never counts as busy, so the bot
      reports a clear road for it. */
  lemma UnparsablePredictionIsClear(files: string -> Load, requested: string, algorithm: string,
    show: Volume -> string, ask: string -> string)
    requires files(DatasetPath(algorithm)).Loaded?
    requires var records := files(DatasetPath(algorithm)).records;
      |records| > 0 && records[0] == Record(requested, NaN)
    ensures HandleTrafficPrediction(files, requested, algorithm, show, ask)
      == Some(PredictionMessage(requested, show(NaN), false) + "\n\n" + ask(Question(false)))
  {
    assert FindRecord(files(DatasetPath(algorithm)).records, requested) == Some(0);
  }

  /** The three replies are told apart by their text: only a found
      prediction starts with "预计在". */
  lemma OutcomesDistinct(files: string -> Load, requested: string, algorithm: string,
    show: Volume -> string, ask: string -> string)
    ensures var reply := HandleTrafficPrediction(files, requested, algorithm, show, ask);
      (files(DatasetPath(algorithm)).Loaded?
        && FindRecord(files(DatasetPath(algorithm)).records, requested).Some?)
      <==> reply.Some? && StartsWith(reply.value, "预计在")
  {
    var reply := HandleTrafficPrediction(files, requested, algorithm, show, ask);
    assert !StartsWith(ErrorReply, "预计在") by { assert ErrorReply[0] != '预'; }
    assert !StartsWith(NotFoundReply, "预计在") by { assert NotFoundReply[0] != '预'; }
    match files(DatasetPath(algorithm))
    case StreamFailed =>
    case Malformed =>
    case Loaded(records) =>
      match FindRecord(records, requested)
      case None =>
      case Some(k) =>
        var busy := IsBusy(records[k].prediction);
        var m := PredictionMessage(requested, show(records[k].prediction), busy);
        assert m[..3] == "预计在";
        assert reply.value[..3] == m[..3];
  }
}
