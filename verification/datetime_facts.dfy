/** What `parseFlexibleDateTime` does with particular inputs, including the
    two behaviours of src/chatgpt.ts that differ from what the canonical format
    suggests: a `YYYY-` prefix yields the year `20undefined`, and the date
    pattern then starts inside the year.
 */
module DateTimeFacts {
  import opened Options
  import opened Strings
  import opened Regex
  import opened DateTime

  // ---------------------------------------------------------------------------
  // Re-reading a canonical rendering

  /** Fields whose rendering starts with four year digits, `YYYY-MM-DD HH:mm:00`. */
  predicate FourDigitYear(f: Fields) {
    WellFormed(f) && |f.year| == 4 && AllDigits(f.year)
  }

  /** The character classes of a canonical rendering. */
  lemma CanonicalChars(f: Fields)
    requires FourDigitYear(f)
    ensures var r := Render(f);
      && |r| == 19
      && (forall k :: 0 <= k < 19 && k != 4 && k != 7 && k != 10 && k != 13 && k != 16 ==> IsDigit(r[k]))
      && r[4] == '-' && r[7] == '-' && r[10] == ' ' && r[13] == ':' && r[16] == ':'
      && r[..4] == f.year && r[5..7] == f.month
      && DigitsValue(r[11..13]) == f.hour && r[14..16] == f.minute
  {
    RenderLayout(f);
    var r := Render(f);
    forall k | 0 <= k < 19 && k != 4 && k != 7 && k != 10 && k != 13 && k != 16
      ensures IsDigit(r[k])
    {
      if k < 4 { assert r[k] == r[..4][k]; }
      else if k < 7 { assert r[k] == r[5..7][k - 5]; }
      else if k < 10 { assert r[k] == r[8..10][k - 8]; }
      else if k < 13 { assert r[k] == r[11..13][k - 11]; }
      else if k < 16 { assert r[k] == r[14..16][k - 14]; }
      else { assert r[k] == r[16..][k - 16]; }
    }
  }

  /** `YYYY-` at the very start is matched by the third year alternative. */
  lemma CanonicalYear(f: Fields)
    requires FourDigitYear(f)
    ensures Year(Render(f)) == UndefinedYear
  {
    var r := Render(f);
    CanonicalChars(f);
    assert DigitsAt(r, 0, 4);
    LeftmostAt(YearPattern, r, 0, YearAt(r, 0).value);
  }

  /** The date groups are those of the pair at `i` when no date fits before `i`. */
  lemma DateGroupsAt(s: string, i: nat)
    requires i <= |s| && PairAt(s, i, DateSeparators).Some?
    requires forall j: nat :: j < i ==> DateAt(s, j).None?
    ensures DateGroups(s) == Some((PairAt(s, i, DateSeparators).value.first, PairAt(s, i, DateSeparators).value.second))
  {
    LeftmostAt(DatePattern, s, i, DateAt(s, i).value);
  }

  /** The shape `DDDD-DD` at the start of a text. */
  predicate DashedPrefix(s: string) {
    DigitsAt(s, 0, 4) && 4 < |s| && s[4] == '-' && DigitsAt(s, 5, 2)
  }

  lemma DashedPrefixDigits(s: string)
    requires DashedPrefix(s)
    ensures IsDigit(s[1]) && IsDigit(s[2]) && IsDigit(s[3])
  {
    assert DigitsAt(s, 1, 3);
    assert DigitsAt(s, 2, 2);
    assert DigitsAt(s, 3, 1);
  }

  /** No date starts at the first two year digits: a separator would have to
      follow within two characters. */
  lemma DashedPrefixNoEarlyDate(s: string)
    requires DashedPrefix(s)
    ensures forall j: nat :: j < 2 ==> DateAt(s, j).None?
  {
    DashedPrefixDigits(s);
    NoPairAt(s, 0, DateSeparators);
    NoPairAt(s, 1, DateSeparators);
  }

  lemma DashedPrefixPair(s: string)
    requires DashedPrefix(s)
    ensures PairAt(s, 2, DateSeparators).Some?
    ensures PairAt(s, 2, DateSeparators).value.first == s[2..4]
    ensures PairAt(s, 2, DateSeparators).value.second == s[5..7]
  {
    DashedPrefixDigits(s);
    assert DigitsAt(s, 2, 2);
    assert PairFits(s, 2, 2, 2, DateSeparators);
  }

  /** In text that starts `DDDD-DD`, the leftmost date match is `DD-DD`, two
      positions into the year. */
  lemma DashedYearDate(s: string)
    requires DashedPrefix(s)
    ensures DateGroups(s) == Some((s[2..4], s[5..7]))
  {
    DashedPrefixNoEarlyDate(s);
    DashedPrefixPair(s);
    DateGroupsAt(s, 2);
  }

  /** The leftmost date match is `YY-MM`, two positions into the year. */
  lemma CanonicalDate(f: Fields)
    requires FourDigitYear(f)
    ensures DateGroups(Render(f)) == Some((f.year[2..4], f.month))
  {
    CanonicalShape(f);
    DashedYearDate(Render(f));
  }

  lemma CanonicalShape(f: Fields)
    requires FourDigitYear(f)
    ensures DashedPrefix(Render(f)) && Render(f)[2..4] == f.year[2..4] && Render(f)[5..7] == f.month
  {
    var r := Render(f);
    CanonicalChars(f);
    assert DigitsAt(r, 5, 2);
    assert DigitsAt(r, 0, 4);
    assert r[2..4] == r[..4][2..4];
  }

  /** The clock `HH:mm` is found again, and there is no afternoon marker. */
  lemma CanonicalClock(f: Fields)
    requires FourDigitYear(f)
    ensures Hour(Render(f)) == f.hour && Minute(Render(f)) == f.minute
  {
    var r := Render(f);
    CanonicalChars(f);
    forall j: nat | j < 11 ensures TimeAt(r, j).None? {
      NoPairAt(r, j, {'点'});
      NoPairAt(r, j, {':'});
    }
    NoPairAt(r, 11, {'点'});
    assert PairFits(r, 11, 2, 2, {':'});
    var p := PairAt(r, 11, {':'}).value;
    assert |p.first| == 2 && |p.second| == 2;
    LeftmostAt(TimePattern, r, 11, TimeAt(r, 11).value);
    assert Clock(r) == Some((r[11..13], r[14..16]));
    NotIncluded(r, Afternoon);
  }

  /** Parsing a canonical timestamp again does not give it back: the year
      becomes `20undefined`, the month is the last two year digits and the
      day is the old month. Hour and minute survive. */
  lemma CanonicalReparse(f: Fields)
    requires FourDigitYear(f)
    ensures Resolve(Render(f)) == Some(Fields(UndefinedYear, f.year[2..4], f.month, f.hour, f.minute))
  {
    CanonicalYear(f);
    CanonicalDate(f);
    CanonicalClock(f);
  }

  /** So no canonical timestamp with a four-digit year is a fixed point. */
  lemma CanonicalNotFixedPoint(f: Fields)
    requires FourDigitYear(f)
    ensures ParseFlexibleDateTime(Render(f)) != Render(f)
  {
    var g := Fields(UndefinedYear, f.year[2..4], f.month, f.hour, f.minute);
    CanonicalReparse(f);
    assert ParseFlexibleDateTime(Render(f)) == Render(g);
    UndefinedYearRendersApart(f, g);
  }

  lemma UndefinedYearRendersApart(f: Fields, g: Fields)
    requires FourDigitYear(f) && WellFormed(g) && g.year == UndefinedYear
    ensures Render(g) != Render(f)
  {
    RenderLayout(g);
    assert Render(g)[..11] == UndefinedYear;
    assert Render(g)[2] == Render(g)[..11][2] == 'u';
    CanonicalChars(f);
    assert IsDigit(Render(f)[2]);
  }

  // ---------------------------------------------------------------------------
  // Locating the leftmost clock

  /** The clock groups are those of the `点` pair at `i` when no clock fits
      before `i`: the hour is group 1 and the minute group 2. */
  lemma ClockAt(s: string, i: nat)
    requires i <= |s| && PairAt(s, i, {'点'}).Some?
    requires forall j: nat :: j < i ==> TimeAt(s, j).None?
    ensures Clock(s) == Some((PairAt(s, i, {'点'}).value.first, PairAt(s, i, {'点'}).value.second))
  {
    LeftmostAt(TimePattern, s, i, TimeAt(s, i).value);
  }

  /** The clock groups are those of the colon pair at `i` when no clock fits
      before `i` and the `点` form does not fit at `i` itself: groups 1 and 2
      are unset, so the hour is group 3 and the minute group 4. */
  lemma ClockColonAt(s: string, i: nat)
    requires i <= |s| && PairAt(s, i, {'点'}).None? && PairAt(s, i, {':'}).Some?
    requires forall j: nat :: j < i ==> TimeAt(s, j).None?
    ensures Clock(s) == Some((PairAt(s, i, {':'}).value.first, PairAt(s, i, {':'}).value.second))
  {
    LeftmostAt(TimePattern, s, i, TimeAt(s, i).value);
  }

  // ---------------------------------------------------------------------------
  // Worked inputs, all but one starting with 5 March in the afternoon

  const MarchFifthAfternoon: string := "3月5日下午"

  lemma MarchFifthChars(s: string)
    requires StartsWith(s, MarchFifthAfternoon)
    ensures |s| >= 6 && s[0] == '3' && s[1] == '月' && s[2] == '5' && s[3] == '日' && s[4] == '下' && s[5] == '午'
  {
    forall k | 0 <= k < 6 ensures s[k] == MarchFifthAfternoon[k] {
      assert s[k] == s[..6][k];
    }
  }

  /** After `3月5日下午` the leftmost date is `3月5`, the afternoon marker is
      present, and no clock reading starts among the first six characters. */
  lemma MarchFifthAfternoonPrefix(s: string)
    requires StartsWith(s, MarchFifthAfternoon)
    ensures DateGroups(s) == Some(("3", "5"))
    ensures Includes(s, Afternoon)
    ensures forall j: nat :: j < 6 ==> TimeAt(s, j).None?
  {
    MarchFifthChars(s);
    MarchFifthDate(s);
    assert OccursAt(s, Afternoon, 4);
    MarchFifthNoEarlyClock(s);
  }

  lemma MarchFifthDate(s: string)
    requires |s| >= 4 && s[0] == '3' && s[1] == '月' && s[2] == '5' && s[3] == '日'
    ensures DateGroups(s) == Some(("3", "5"))
  {
    assert !DigitsAt(s, 0, 2) && DigitsAt(s, 0, 1) && s[1] in DateSeparators;
    assert !DigitsAt(s, 2, 2) && DigitsAt(s, 2, 1);
    assert s[0..1] == "3" && s[2..3] == "5";
    assert PairAt(s, 0, DateSeparators) == Some(Pair("3", '月', "5", 3));
    DateGroupsAt(s, 0);
  }

  lemma MarchFifthNoEarlyClock(s: string)
    requires |s| >= 6 && s[0] == '3' && s[1] == '月' && s[2] == '5' && s[3] == '日' && s[4] == '下' && s[5] == '午'
    ensures forall j: nat :: j < 6 ==> TimeAt(s, j).None?
  {
    forall j: nat | j < 6 ensures TimeAt(s, j).None? {
      if j == 0 || j == 2 {
        assert !DigitsAt(s, j, 2) && s[j + 1] !in {'点', ':'};
      } else {
        assert !DigitsAt(s, j, 1);
      }
    }
  }

  /** Resolution in terms of its parts, once the date groups are known. */
  lemma ResolveOf(s: string, month: string, day: string)
    requires DateGroups(s) == Some((month, day))
    ensures Resolve(s) == Some(Fields(Year(s), PadStart2(month), PadStart2(day), Hour(s), Minute(s)))
  {
  }

  lemma PadMarchFifth()
    ensures PadStart2("3") == "03" && PadStart2("5") == "05"
  {
  }

  const Example: string := "3月5日下午2点30分"

  lemma ExampleYear()
    ensures Year(Example) == DefaultYear
  {
    assert forall i: nat :: i <= |Example| ==> YearAt(Example, i).None?;
  }

  lemma ExampleClock(s: string)
    requires s == Example
    ensures Includes(s, Afternoon) && !Includes(s, Morning)
    ensures DateGroups(s) == Some(("3", "5"))
    ensures Clock(s) == Some(("2", "30"))
  {
    NotIncluded(s, Morning);
    assert !DigitsAt(s, 6, 2) && DigitsAt(s, 6, 1) && s[7] in {'点'} && DigitsAt(s, 8, 2);
    assert s[6..7] == "2" && s[8..10] == "30";
    MarchFifthAfternoonPrefix(s);
    ClockAt(s, 6);
  }

  lemma ExampleFields(s: string)
    requires s == Example
    ensures Resolve(s) == Some(Fields("2024", "03", "05", 14, "30"))
  {
    ExampleYear();
    ExampleClock(s);
    assert Hour(s) == 14 && Minute(s) == "30";
    ResolveOf(s, "3", "5");
    PadMarchFifth();
  }

  lemma ExampleRender()
    ensures Render(Fields("2024", "03", "05", 14, "30")) == "2024-03-05 14:30:00"
  {
  }

  /** `3月5日下午2点30分` is 14:30 on 5 March of the default year. */
  lemma WorkedExample(s: string)
    requires s == Example
    ensures ParseFlexibleDateTime(s) == "2024-03-05 14:30:00"
  {
    ExampleFields(s);
    ExampleRender();
  }

  /** The colon form after the afternoon marker: `3月5日下午3:05` has the
      clock groups 3 and 05, and the hour moves to 15 as with the `点` form. */
  lemma ColonClockExample(s: string)
    requires s == "3月5日下午3:05"
    ensures Clock(s) == Some(("3", "05"))
    ensures Hour(s) == 15 && Minute(s) == "05"
  {
    NotIncluded(s, Morning);
    assert !DigitsAt(s, 6, 2) && DigitsAt(s, 6, 1) && s[7] in {':'} && DigitsAt(s, 8, 2);
    assert s[6..7] == "3" && s[8..10] == "05";
    MarchFifthAfternoonPrefix(s);
    ClockColonAt(s, 6);
    assert DigitsValue("3") == 3;
  }

  const Dashed: string := "2024-03-05"

  lemma DashedYear()
    ensures Year(Dashed) == UndefinedYear
  {
    assert DigitsAt(Dashed, 0, 4) && Dashed[4] == '-';
    LeftmostAt(YearPattern, Dashed, 0, YearAt(Dashed, 0).value);
  }

  lemma DashedDate(s: string)
    requires s == Dashed
    ensures DateGroups(s) == Some(("24", "03"))
  {
    assert DigitsAt(s, 5, 2);
    assert DigitsAt(s, 0, 4);
    assert s[2..4] == "24" && s[5..7] == "03";
    DashedYearDate(s);
  }

  lemma DashedTime()
    ensures Hour(Dashed) == 0 && Minute(Dashed) == "00"
  {
    forall j: nat | j <= |Dashed| ensures TimeAt(Dashed, j).None? {
      NoPairAt(Dashed, j, {'点'});
      NoPairAt(Dashed, j, {':'});
    }
  }

  lemma DashedFields(s: string)
    requires s == Dashed
    ensures Resolve(s) == Some(Fields(UndefinedYear, "24", "03", 0, "00"))
  {
    DashedYear();
    DashedDate(s);
    DashedTime();
    ResolveOf(s, "24", "03");
  }

  lemma DashedRender()
    ensures Render(Fields(UndefinedYear, "24", "03", 0, "00")) == "20undefined-24-03 00:00:00"
  {
  }

  /** A dashed ISO date: the year comes out as `20undefined`, and the date
      pattern, searching from the left, reads `24-03` as month 24, day 3. */
  lemma DashedDateExample(s: string)
    requires s == Dashed
    ensures ParseFlexibleDateTime(s) == "20undefined-24-03 00:00:00"
  {
    DashedFields(s);
    DashedRender();
  }

  const MinutesMissing: string := "3月5日下午2点"

  lemma MinutesMissingFields(s: string)
    requires s == MinutesMissing
    ensures Resolve(s) == Some(Fields("2024", "03", "05", 0, "00"))
  {
    assert forall i: nat :: i <= |s| ==> YearAt(s, i).None?;
    MarchFifthAfternoonPrefix(s);
    assert !DigitsAt(s, 6, 2) && !DigitsAt(s, 7, 1) && !DigitsAt(s, 8, 1);
    assert forall j: nat :: j <= |s| ==> TimeAt(s, j).None?;
    ResolveOf(s, "3", "5");
    PadMarchFifth();
  }

  lemma MidnightRender()
    ensures Render(Fields("2024", "03", "05", 0, "00")) == "2024-03-05 00:00:00"
  {
  }

  /** `2点` alone is no clock reading: both clock forms need minute digits,
      so the afternoon marker has nothing to act on and the time is midnight. */
  lemma MinutesMissingExample(s: string)
    requires s == MinutesMissing
    ensures ParseFlexibleDateTime(s) == "2024-03-05 00:00:00"
  {
    MinutesMissingFields(s);
    MidnightRender();
  }

  /** Text with no `d月d`, `d.d` or `d-d` resolves to the empty string. */
  lemma NoDateExample(s: string)
    requires s == "no date info"
    ensures ParseFlexibleDateTime(s) == ""
  {
    assert forall i: nat :: i <= |s| ==> DateAt(s, i).None?;
  }
}
