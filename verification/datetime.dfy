/** `parseFlexibleDateTime` (src/chatgpt.ts:83-127): four independent
    extractions over the whole input, rendered as `YYYY-MM-DD HH:mm:00`, or the
    empty string when no month/day is found.
 */
module DateTime {
  import opened Options
  import opened Strings
  import opened Regex

  /** The year used when the input names none. */
  const DefaultYear: string := "2024"

  /** What the third year alternative `(\d{4})(\.|-)` produces: the text `20`
      followed by its unset second group, which is a truthy string. */
  const UndefinedYear: string := "20undefined"

  const Afternoon: string := "下午"
  const Morning: string := "上午"

  /** The resolved fields before rendering; `hour` is the number after the
      afternoon shift, the others are already the strings that are printed. */
  datatype Fields = Fields(year: string, month: string, day: string, hour: nat, minute: string)

  /** The fields the parser can ever produce. The hour is not validated: any
      one- or two-digit clock reading gets through. */
  predicate WellFormed(f: Fields) {
    && (f.year == DefaultYear || f.year == UndefinedYear || (|f.year| == 4 && AllDigits(f.year)))
    && TwoDigits(f.month) && TwoDigits(f.day)
    && f.hour <= 99
    && TwoDigits(f.minute)
  }

  /** `year`, lines 89-95. */
  function Year(s: string): (y: string)
    ensures y == DefaultYear || y == UndefinedYear || (|y| == 4 && AllDigits(y))
    ensures StrMatch(YearPattern, s).None? ==> y == DefaultYear
    ensures StrMatch(YearPattern, s).Some? ==>
      var i := StrMatch(YearPattern, s).value.index;
      && i + 4 < |s|
      && (s[i + 4] == '年' ==> y == s[i..i + 4])
      && (s[i + 4] != '年' ==> y == UndefinedYear)
  {
    match StrMatch(YearPattern, s)
    case None => DefaultYear
    case Some(m) => YearOfMatch(s, m)
  }

  /** The year of line 91 for a year match: the first truthy value among
      group 1, the text `20` followed by group 2, and group 3. */
  function YearOfMatch(s: string, m: Match): (y: string)
    requires YearAt(s, m.index) == Some(m)
    ensures m.index + 4 < |s|
    ensures s[m.index + 4] == '年' ==> y == s[m.index..m.index + 4] && AllDigits(y)
    ensures s[m.index + 4] != '年' ==> y == UndefinedYear
  {
    var r := YearAt(s, m.index);
    assert r.Some? ==> Group(r.value, 2).None?;
    assert r.value == m;
    var second := Some("20" + Interpolate(Group(m, 2)));
    assert Group(m, 2) == None;
    UndefinedTemplate();
    assert DigitsAt(s, m.index, 4) ==> AllDigits(s[m.index..m.index + 4]) by {
      if DigitsAt(s, m.index, 4) { DigitsAtAll(s, m.index, 4); }
    }
    JsOr(JsOr(Group(m, 1), second), Group(m, 3)).value
  }

  /** The text `20` followed by an unset group reads `20undefined`. */
  lemma UndefinedTemplate()
    ensures "20" + Interpolate(None) == UndefinedYear
  {
  }

  /** `n` digits at `i` make the slice there a digit string. */
  lemma {:induction false} DigitsAtAll(s: string, i: nat, n: nat)
    requires DigitsAt(s, i, n)
    ensures i + n <= |s| && AllDigits(s[i..i + n])
    decreases n
  {
    if n > 0 {
      DigitsAtAll(s, i + 1, n - 1);
      assert s[i..i + n] == [s[i]] + s[i + 1..i + n];
    }
  }

  /** The month and day digit groups of the leftmost date match. */
  function DateGroups(s: string): (r: Option<(string, string)>)
    ensures r.None? <==> forall i: nat :: i <= |s| ==> DateAt(s, i).None?
    ensures r.Some? ==> 1 <= |r.value.0| <= 2 && AllDigits(r.value.0)
    ensures r.Some? ==> 1 <= |r.value.1| <= 2 && AllDigits(r.value.1)
  {
    match StrMatch(DatePattern, s)
    case None =>
      assert forall i: nat :: DateAt(s, i) == MatchAt(DatePattern, s, i);
      None
    case Some(m) =>
      assert DateAt(s, m.index) == Some(m);
      Some((Group(m, 1).value, Group(m, 3).value))
  }

  /** The hour and minute digit groups of the leftmost clock match: those of
      the `点` form when it matched there, else those of the colon form
      (`DateTimeFacts.ClockAt`, `DateTimeFacts.ClockColonAt`). */
  function Clock(s: string): (r: Option<(string, string)>)
    ensures r.None? <==> forall i: nat :: i <= |s| ==> TimeAt(s, i).None?
    ensures r.Some? ==> 1 <= |r.value.0| <= 2 && AllDigits(r.value.0)
    ensures r.Some? ==> 1 <= |r.value.1| <= 2 && AllDigits(r.value.1)
  {
    match StrMatch(TimePattern, s)
    case None =>
      assert forall i: nat :: TimeAt(s, i) == MatchAt(TimePattern, s, i);
      None
    case Some(m) =>
      assert TimeAt(s, m.index) == Some(m);
      Some((JsOr(Group(m, 1), Group(m, 3)).value, JsOr(Group(m, 2), Group(m, 4)).value))
  }

  datatype Meridiem = AM | PM

  /** `amPmIndicator`, lines 105-106: the morning test runs second and wins. */
  function Indicator(s: string): (r: Option<Meridiem>)
    ensures r == Some(AM) <==> Includes(s, Morning)
    ensures r == Some(PM) <==> Includes(s, Afternoon) && !Includes(s, Morning)
    ensures r.None? <==> !Includes(s, Afternoon) && !Includes(s, Morning)
  {
    var indicator := if Includes(s, Afternoon) then Some(PM) else None;
    if Includes(s, Morning) then Some(AM) else indicator
  }

  /** `hour`, lines 85 and 110-114: the parsed clock hour, moved into the
      afternoon when only the afternoon marker is present and it is below 12. */
  function Hour(s: string): (h: nat)
    ensures Clock(s).None? ==> h == 0
    ensures Clock(s).Some? ==>
      var parsed := DigitsValue(Clock(s).value.0);
      && (Includes(s, Afternoon) && !Includes(s, Morning) && parsed < 12 ==> h == parsed + 12)
      && (!Includes(s, Afternoon) || Includes(s, Morning) || parsed >= 12 ==> h == parsed)
    ensures h <= 99
  {
    match Clock(s)
    case None => 0
    case Some((hourDigits, _)) =>
      var parsed := DigitsValue(hourDigits);
      assert parsed <= 99 by { DigitsBound(hourDigits); }
      if Indicator(s) == Some(PM) && parsed < 12 then parsed + 12 else parsed
  }

  /** `minute`, lines 84 and 115. */
  function Minute(s: string): (m: string)
    ensures TwoDigits(m)
    ensures Clock(s).None? ==> m == "00"
    ensures Clock(s).Some? ==> DigitsValue(m) == DigitsValue(Clock(s).value.1)
  {
    match Clock(s)
    case None => "00"
    case Some((_, minuteDigits)) =>
      PadStart2Value(minuteDigits);
      PadStart2(minuteDigits)
  }

  lemma DigitsBound(d: string)
    requires 1 <= |d| <= 2 && AllDigits(d)
    ensures DigitsValue(d) <= 99
  {
    if |d| == 2 {
      assert d[..1][..0] == "";
      assert DigitsValue(d[..1]) == DigitValue(d[0]);
      assert DigitsValue(d) == DigitsValue(d[..1]) * 10 + DigitValue(d[1]);
    } else {
      assert d[..0] == "";
    }
  }

  /** The whole resolution; `None` is the branch where `month && day` fails. */
  function Resolve(s: string): (r: Option<Fields>)
    ensures r.None? <==> forall i: nat :: i <= |s| ==> DateAt(s, i).None?
    ensures r.Some? ==> WellFormed(r.value)
    ensures r.Some? ==>
      && DigitsValue(r.value.month) == DigitsValue(DateGroups(s).value.0)
      && DigitsValue(r.value.day) == DigitsValue(DateGroups(s).value.1)
  {
    match DateGroups(s)
    case None => None
    case Some((monthDigits, dayDigits)) =>
      PadStart2Value(monthDigits);
      PadStart2Value(dayDigits);
      Some(Fields(Year(s), PadStart2(monthDigits), PadStart2(dayDigits), Hour(s), Minute(s)))
  }

  /** The template of line 123: the hour printed in decimal and padded to two
      digits (line 119), and the second fixed at `00`. */
  function Render(f: Fields): (r: string)
    ensures |r| >= |f.year| + 4 && r[..|f.year|] == f.year && r[|f.year|] == '-'
    ensures r[|r| - 3..] == ":00"
  {
    var r := f.year + "-" + f.month + "-" + f.day + " " + PadStart2(NatToDecimal(f.hour)) + ":" + f.minute + ":" + "00";
    assert r == (f.year + "-") + (f.month + "-" + f.day + " " + PadStart2(NatToDecimal(f.hour)) + ":" + f.minute + ":00");
    r
  }

  /** `parseFlexibleDateTime(inputStr)`. */
  function ParseFlexibleDateTime(s: string): (r: string)
    ensures r == "" <==> forall i: nat :: i <= |s| ==> DateAt(s, i).None?
    ensures r != "" ==> WellFormed(Resolve(s).value) && r == Render(Resolve(s).value)
  {
    match Resolve(s)
    case None => ""
    case Some(f) => Render(f)
  }

  /** Every field sits at a fixed offset behind the year, each exactly two
      digits wide; the hour field reads back as the resolved hour. */
  lemma RenderLayout(f: Fields)
    requires WellFormed(f)
    ensures var r, n := Render(f), |f.year|;
      && |r| == n + 15
      && r[..n] == f.year
      && r[n] == '-' && r[n + 1..n + 3] == f.month
      && r[n + 3] == '-' && r[n + 4..n + 6] == f.day
      && r[n + 6] == ' '
      && TwoDigits(r[n + 7..n + 9]) && DigitsValue(r[n + 7..n + 9]) == f.hour
      && r[n + 9] == ':' && r[n + 10..n + 12] == f.minute
      && r[n + 12..] == ":00"
  {
    var r, n := Render(f), |f.year|;
    var date := f.year + "-" + f.month + "-" + f.day + " ";
    var clock := PadStart2(NatToDecimal(f.hour)) + ":" + f.minute + ":00";
    assert r == date + clock;
    DateLayout(f, date);
    ClockLayout(f, clock);
    assert r[..n + 7] == date && r[n + 7..] == clock;
    SliceOfPrefix(r, date, 0, n);
    SliceOfPrefix(r, date, n + 1, n + 3);
    SliceOfPrefix(r, date, n + 4, n + 6);
    SliceOfSuffix(r, date, clock, 0, 2);
    SliceOfSuffix(r, date, clock, 3, 5);
    SliceOfSuffix(r, date, clock, 5, 8);
  }

  lemma DateLayout(f: Fields, date: string)
    requires WellFormed(f) && date == f.year + "-" + f.month + "-" + f.day + " "
    ensures var n := |f.year|;
      && |date| == n + 7
      && date[..n] == f.year
      && date[n] == '-' && date[n + 1..n + 3] == f.month
      && date[n + 3] == '-' && date[n + 4..n + 6] == f.day
      && date[n + 6] == ' '
  {
  }

  lemma ClockLayout(f: Fields, clock: string)
    requires WellFormed(f) && clock == PadStart2(NatToDecimal(f.hour)) + ":" + f.minute + ":00"
    ensures |clock| == 8
    ensures TwoDigits(clock[..2]) && DigitsValue(clock[..2]) == f.hour
    ensures clock[2] == ':' && clock[3..5] == f.minute && clock[5..] == ":00"
  {
    var hourText := NatToDecimal(f.hour);
    PadStart2Value(hourText);
    assert clock[..2] == PadStart2(hourText);
  }

  lemma SliceOfPrefix(r: string, a: string, i: nat, j: nat)
    requires |a| <= |r| && r[..|a|] == a && i <= j <= |a|
    ensures r[i..j] == a[i..j]
  {
    assert forall k :: i <= k < j ==> r[k] == r[..|a|][k];
  }

  lemma SliceOfSuffix(r: string, a: string, b: string, i: nat, j: nat)
    requires r == a + b && i <= j <= |b|
    ensures r[|a| + i..|a| + j] == b[i..j]
  {
  }
}
