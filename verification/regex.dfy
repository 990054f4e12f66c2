/** Hand-written matchers for the three regular expressions of the date/time
    parser (src/chatgpt.ts), with the semantics of `String.prototype.match`
    without the global flag:
    - the leftmost start position at which the pattern matches wins;
    - at one position, alternatives are tried left to right;
    - `\d{1,2}` is greedy and gives a digit back when the rest fails;
    - `\d` is an ASCII digit.
    Capture groups that did not take part in the match are `None` (`undefined`).
 */
module Regex {
  import opened Options
  import opened Strings

  /** A successful match: start index, end index (exclusive) and groups 1..n. */
  datatype Match = Match(index: nat, end: nat, groups: seq<Option<string>>)

  /** `m[k]` for a group number `k`; groups that do not exist are `undefined`. */
  function Group(m: Match, k: nat): Option<string> {
    if 1 <= k <= |m.groups| then m.groups[k - 1] else None
  }

  /** `n` ASCII digits start at position `i`. */
  predicate DigitsAt(s: string, i: nat, n: nat)
    decreases n
  {
    if n == 0 then i <= |s| else i < |s| && IsDigit(s[i]) && DigitsAt(s, i + 1, n - 1)
  }

  /** `c?` after position `e`: the end of the match moves past `c` when it is there. */
  function OptionalChar(s: string, e: nat, c: char): nat {
    if e < |s| && s[e] == c then e + 1 else e
  }

  // ---------------------------------------------------------------------------
  // (\d{1,2})X(\d{1,2}) — the shape shared by the date and the two clock forms

  /** The two digit groups and the separator between them. */
  datatype Pair = Pair(first: string, sep: char, second: string, end: nat)

  /** `(\d{1,2})X(\d{1,2})` can match at `i` with groups of `n1` and `n2` digits. */
  predicate PairFits(s: string, i: nat, n1: int, n2: int, seps: set<char>) {
    && 1 <= n1 <= 2 && 1 <= n2 <= 2
    && DigitsAt(s, i, n1)
    && i + n1 < |s| && s[i + n1] in seps
    && DigitsAt(s, i + n1 + 1, n2)
  }

  /** One attempt with the first group fixed at `n1` digits; the second group
      is greedy, and nothing after it in these patterns can fail, so it never
      has to give a digit back. */
  function PairWith(s: string, i: nat, n1: nat, seps: set<char>): (r: Option<Pair>)
    requires 1 <= n1 <= 2
    ensures r.None? <==> forall n2 :: !PairFits(s, i, n1, n2, seps)
    ensures r.Some? ==>
      var p := r.value;
      && |p.first| == n1
      && PairFits(s, i, n1, |p.second|, seps)
      && p.end == i + n1 + 1 + |p.second| <= |s|
      && p.first == s[i..i + n1]
      && p.sep == s[i + n1]
      && p.second == s[i + n1 + 1..p.end]
    ensures r.Some? ==> forall n2 :: PairFits(s, i, n1, n2, seps) ==> n2 <= |r.value.second|
  {
    if DigitsAt(s, i, n1) && i + n1 < |s| && s[i + n1] in seps then
      var j := i + n1 + 1;
      if DigitsAt(s, j, 2) then
        assert PairFits(s, i, n1, 2, seps);
        Some(Pair(s[i..i + n1], s[i + n1], s[j..j + 2], j + 2))
      else if DigitsAt(s, j, 1) then
        assert PairFits(s, i, n1, 1, seps);
        Some(Pair(s[i..i + n1], s[i + n1], s[j..j + 1], j + 1))
      else None
    else None
  }

  /** `(\d{1,2})X(\d{1,2})` at position `i`: the first group tries two digits,
      then backtracks to one. The result is the first fitting choice in the
      backtracking order (2,2), (2,1), (1,2), (1,1). */
  function PairAt(s: string, i: nat, seps: set<char>): (r: Option<Pair>)
    ensures r.None? <==> forall n1, n2 :: !PairFits(s, i, n1, n2, seps)
    ensures r.Some? ==>
      var p := r.value;
      && PairFits(s, i, |p.first|, |p.second|, seps)
      && p.end == i + |p.first| + 1 + |p.second| <= |s|
      && p.first == s[i..i + |p.first|]
      && p.sep == s[i + |p.first|]
      && p.second == s[i + |p.first| + 1..p.end]
    ensures r.Some? ==> forall n1, n2 :: PairFits(s, i, n1, n2, seps) ==>
      n1 < |r.value.first| || (n1 == |r.value.first| && n2 <= |r.value.second|)
    ensures r.Some? ==>
      && 1 <= |r.value.first| <= 2 && AllDigits(r.value.first)
      && 1 <= |r.value.second| <= 2 && AllDigits(r.value.second)
  {
    match PairWith(s, i, 2, seps)
    case Some(p) => Some(p)
    case None => PairWith(s, i, 1, seps)
  }

  /** Alternation `a|b` at one position: the left alternative wins when it matches. */
  function Alt(a: Option<Match>, b: Option<Match>): Option<Match> {
    if a.Some? then a else b
  }

  // ---------------------------------------------------------------------------
  // The three patterns

  const DateSeparators: set<char> := {'月', '.', '-'}

  /** `(\d{4})年|20(\d{2})年|(\d{4})(\.|-)` at position `i`. */
  function YearAt(s: string, i: nat): (r: Option<Match>)
    ensures r.Some? ==> |r.value.groups| == 4 && r.value.index == i && r.value.end == i + 5 <= |s|
    // the second alternative never wins: wherever it fits, the first one does
    ensures r.Some? ==> Group(r.value, 2).None?
    ensures r.Some? ==>
      || (Group(r.value, 1) == Some(s[i..i + 4]) && s[i + 4] == '年')
      || (Group(r.value, 1).None? && Group(r.value, 3) == Some(s[i..i + 4]) && s[i + 4] in {'.', '-'})
    ensures r.Some? ==> DigitsAt(s, i, 4)
    ensures r.None? <==> !(DigitsAt(s, i, 4) && i + 4 < |s| && s[i + 4] in {'年', '.', '-'})
  {
    Alt(YearFirst(s, i), Alt(YearSecond(s, i), YearThird(s, i)))
  }

  /** `(\d{4})年` */
  function YearFirst(s: string, i: nat): Option<Match> {
    if DigitsAt(s, i, 4) && i + 4 < |s| && s[i + 4] == '年' then
      Some(Match(i, i + 5, [Some(s[i..i + 4]), None, None, None]))
    else None
  }

  /** `20(\d{2})年` */
  function YearSecond(s: string, i: nat): Option<Match> {
    if i + 4 < |s| && s[i] == '2' && s[i + 1] == '0' && DigitsAt(s, i + 2, 2) && s[i + 4] == '年' then
      Some(Match(i, i + 5, [None, Some(s[i + 2..i + 4]), None, None]))
    else None
  }

  /** `(\d{4})(\.|-)` */
  function YearThird(s: string, i: nat): Option<Match> {
    if DigitsAt(s, i, 4) && i + 4 < |s| && s[i + 4] in {'.', '-'} then
      Some(Match(i, i + 5, [None, None, Some(s[i..i + 4]), Some([s[i + 4]])]))
    else None
  }

  /** `(\d{1,2})(月|\.|-)(\d{1,2})日?` at position `i`. */
  function DateAt(s: string, i: nat): (r: Option<Match>)
    ensures r.None? <==> PairAt(s, i, DateSeparators).None?
    ensures r.Some? ==>
      var p := PairAt(s, i, DateSeparators).value;
      && r.value.index == i && i < r.value.end <= |s|
      && Group(r.value, 1) == Some(p.first)
      && Group(r.value, 2) == Some([p.sep])
      && Group(r.value, 3) == Some(p.second)
  {
    match PairAt(s, i, DateSeparators)
    case None => None
    case Some(p) => Some(Match(i, OptionalChar(s, p.end, '日'), [Some(p.first), Some([p.sep]), Some(p.second)]))
  }

  /** `(\d{1,2})点(\d{1,2})分?|(\d{1,2}):(\d{1,2})` at position `i`. */
  function TimeAt(s: string, i: nat): (r: Option<Match>)
    ensures r.None? <==> PairAt(s, i, {'点'}).None? && PairAt(s, i, {':'}).None?
    ensures r.Some? && PairAt(s, i, {'点'}).Some? ==>
      var p := PairAt(s, i, {'点'}).value;
      Group(r.value, 1) == Some(p.first) && Group(r.value, 2) == Some(p.second)
      && Group(r.value, 3).None? && Group(r.value, 4).None?
    ensures r.Some? && PairAt(s, i, {'点'}).None? ==>
      var p := PairAt(s, i, {':'}).value;
      Group(r.value, 1).None? && Group(r.value, 2).None?
      && Group(r.value, 3) == Some(p.first) && Group(r.value, 4) == Some(p.second)
    ensures r.Some? ==> r.value.index == i && i < r.value.end <= |s|
  {
    match PairAt(s, i, {'点'})
    case Some(p) => Some(Match(i, OptionalChar(s, p.end, '分'), [Some(p.first), Some(p.second), None, None]))
    case None =>
      match PairAt(s, i, {':'})
      case Some(p) => Some(Match(i, p.end, [None, None, Some(p.first), Some(p.second)]))
      case None => None
  }

  // ---------------------------------------------------------------------------
  // Leftmost search

  datatype Pattern = YearPattern | DatePattern | TimePattern

  function MatchAt(p: Pattern, s: string, i: nat): (r: Option<Match>)
    ensures r.Some? ==> r.value.index == i
  {
    match p
    case YearPattern => YearAt(s, i)
    case DatePattern => DateAt(s, i)
    case TimePattern => TimeAt(s, i)
  }

  /** The first position at or after `from` where the pattern matches. */
  function Search(p: Pattern, s: string, from: nat): (r: Option<Match>)
    ensures r.Some? ==> from <= r.value.index <= |s| && MatchAt(p, s, r.value.index) == r
    ensures r.Some? ==> forall j: nat :: from <= j < r.value.index ==> MatchAt(p, s, j).None?
    ensures r.None? ==> forall j: nat :: from <= j <= |s| ==> MatchAt(p, s, j).None?
    decreases |s| + 1 - from
  {
    if from > |s| then None
    else
      match MatchAt(p, s, from)
      case Some(m) => assert m.index == from; Some(m)
      case None => Search(p, s, from + 1)
  }

  /** `s.match(pattern)`: the leftmost match, or `null` (here `None`). */
  function StrMatch(p: Pattern, s: string): (r: Option<Match>)
    ensures r.None? <==> forall j: nat :: j <= |s| ==> MatchAt(p, s, j).None?
    ensures r.Some? ==> r.value.index <= |s| && MatchAt(p, s, r.value.index) == r
    ensures r.Some? ==> forall j: nat :: j < r.value.index ==> MatchAt(p, s, j).None?
  {
    Search(p, s, 0)
  }

  /** A match at `i` with none before it is the match `s.match` returns. */
  lemma LeftmostAt(p: Pattern, s: string, i: nat, m: Match)
    requires i <= |s| && MatchAt(p, s, i) == Some(m)
    requires forall j: nat :: j < i ==> MatchAt(p, s, j).None?
    ensures StrMatch(p, s) == Some(m)
  {
  }

  /** The pair shape cannot start at `i` when neither of the next two
      characters is a separator. */
  lemma NoPairAt(s: string, i: nat, seps: set<char>)
    requires i + 1 < |s| ==> s[i + 1] !in seps
    requires i + 2 < |s| ==> s[i + 2] !in seps
    ensures PairAt(s, i, seps).None?
  {
  }
}
