/** `cleanMessage` (src/chatgpt.ts:191-205): drop a quoted reply before the
    separator, then cut off as many characters as the trigger prefix has. */
module Cleaner {
  import opened Options
  import opened Strings
  import opened BotConfig

  /** The separator WeChat puts between a quoted message and the reply:
      fifteen dashes with single spaces between them. */
  const Separator: string := "- - - - - - - - - - - - - - -"

  /** Where the piece of `s` after the last separator starts, for a
      left-to-right scan that begins at `from` and resumes after each match;
      `s[LastPieceStart(s, sep, 0)..]` is the last element of `s.split(sep)`. */
  function LastPieceStart(s: string, sep: string, from: nat): (k: nat)
    requires |sep| > 0 && from <= |s|
    ensures from <= k <= |s|
    decreases |s| - from
  {
    match IndexFrom(s, sep, from)
    case None => from
    case Some(i) => LastPieceStart(s, sep, i + |sep|)
  }

  /** The last piece holds no separator. */
  lemma {:induction false} LastPieceFree(s: string, sep: string, from: nat)
    requires |sep| > 0 && from <= |s|
    ensures forall j: nat :: !OccursAt(s[LastPieceStart(s, sep, from)..], sep, j)
    ensures IndexFrom(s, sep, from).None? ==> LastPieceStart(s, sep, from) == from
    decreases |s| - from
  {
    match IndexFrom(s, sep, from)
    case None =>
      OccursShift(s, sep, from);
    case Some(i) =>
      LastPieceFree(s, sep, i + |sep|);
  }

  /** When the scan finds a separator, one ends right where the last piece starts. */
  lemma {:induction false} LastPieceAfterSeparator(s: string, sep: string, from: nat)
    requires |sep| > 0 && from <= |s| && IndexFrom(s, sep, from).Some?
    ensures from + |sep| <= LastPieceStart(s, sep, from)
    ensures OccursAt(s, sep, LastPieceStart(s, sep, from) - |sep|)
    decreases |s| - from
  {
    var i := IndexFrom(s, sep, from).value;
    var next := i + |sep|;
    assert LastPieceStart(s, sep, from) == LastPieceStart(s, sep, next);
    if IndexFrom(s, sep, next).Some? {
      LastPieceAfterSeparator(s, sep, next);
    } else {
      assert LastPieceStart(s, sep, from) == next;
      assert OccursAt(s, sep, i);
    }
  }

  /** An occurrence inside the tail `s[from..]` is an occurrence in `s`. */
  lemma OccursShift(s: string, p: string, from: nat)
    requires from <= |s|
    requires forall j: nat :: from <= j ==> !OccursAt(s, p, j)
    ensures forall j: nat :: !OccursAt(s[from..], p, j)
  {
    forall j: nat | OccursAt(s[from..], p, j) ensures false {
      assert s[from..][j..j + |p|] == s[from + j..from + j + |p|];
      assert OccursAt(s, p, from + j);
    }
  }

  /** The last element of `raw.split(sep)`: the piece after the last
      separator the scan consumes, or all of `raw` when there is none. This
      is `item[item.length - 1]` when the split has more than one piece, and
      the raw text otherwise. */
  function SplitLast(raw: string, sep: string): (r: string)
    requires |sep| > 0
    ensures |r| <= |raw| && r == raw[|raw| - |r|..]
    ensures !Includes(r, sep)
    ensures !Includes(raw, sep) ==> r == raw
    ensures Includes(raw, sep) ==> |r| + |sep| <= |raw| && OccursAt(raw, sep, |raw| - |r| - |sep|)
  {
    if Includes(raw, sep) then
      assert IndexFrom(raw, sep, 0) == IndexOf(raw, sep);
      var k := LastPieceStart(raw, sep, 0);
      LastPieceFree(raw, sep, 0);
      LastPieceAfterSeparator(raw, sep, 0);
      assert !Includes(raw[k..], sep) by { assert IndexOf(raw[k..], sep).None?; }
      raw[k..]
    else raw
  }

  /** `cleanMessage(rawText, isPrivateChat)`. */
  function CleanMessage(c: Config, raw: string, isPrivateChat: bool): (text: string)
    ensures var cut := if isPrivateChat then |c.triggerKeyword| else |GroupTriggerKeyword(c)|;
      SplitLast(raw, Separator) == SplitLast(raw, Separator)[..Min(cut, |SplitLast(raw, Separator)|)] + text
  {
    Slice(SplitLast(raw, Separator), if isPrivateChat then |c.triggerKeyword| else |GroupTriggerKeyword(c)|)
  }

  function Min(a: nat, b: nat): nat {
    if a <= b then a else b
  }

  /** Without a separator, cleaning a private message undoes the keyword. */
  lemma CleanPrivate(c: Config, rest: string)
    requires !Includes(c.triggerKeyword + rest, Separator)
    ensures CleanMessage(c, c.triggerKeyword + rest, true) == rest
  {
    assert (c.triggerKeyword + rest)[|c.triggerKeyword|..] == rest;
  }

  /** Without a separator, cleaning a group message removes the mention, the
      character after it and the keyword, which is exactly what the trigger
      looked at. */
  lemma CleanGroup(c: Config, x: char, rest: string)
    requires !Includes(Mention(c) + [x] + c.triggerKeyword + rest, Separator)
    ensures CleanMessage(c, Mention(c) + [x] + c.triggerKeyword + rest, false) == rest
  {
    var raw := Mention(c) + [x] + c.triggerKeyword + rest;
    assert |GroupTriggerKeyword(c)| == |Mention(c) + [x] + c.triggerKeyword|;
    assert raw[|GroupTriggerKeyword(c)|..] == rest;
  }

  /** A message quoted before the separator is dropped: what follows the
      separator is cleaned as if it had been sent alone. The quote may be any
      text without a dash, so that no separator starts inside it. */
  lemma QuotedReply(c: Config, q: string, tail: string, isPrivateChat: bool)
    requires forall k :: 0 <= k < |q| ==> q[k] != '-'
    requires !Includes(tail, Separator)
    ensures CleanMessage(c, q + Separator + tail, isPrivateChat) == CleanMessage(c, tail, isPrivateChat)
  {
    SplitAfterQuote(q, tail);
  }

  /** A dash-free quote, a separator and a separator-free tail split to that
      tail: the first separator the scan finds is the one after the quote. */
  lemma SplitAfterQuote(q: string, tail: string)
    requires forall k :: 0 <= k < |q| ==> q[k] != '-'
    requires !Includes(tail, Separator)
    ensures SplitLast(q + Separator + tail, Separator) == tail
  {
    var raw, n, m := q + Separator + tail, |q|, |Separator|;
    assert raw[n..n + m] == Separator;
    forall j: nat | j < n ensures !OccursAt(raw, Separator, j) {
      assert raw[j] == q[j] != Separator[0];
      if j + m <= |raw| {
        assert raw[j..j + m][0] == raw[j];
      }
    }
    assert OccursAt(raw, Separator, n);
    assert IndexFrom(raw, Separator, 0) == Some(n);
    forall j: nat | n + m <= j ensures !OccursAt(raw, Separator, j) {
      ShiftedOccurrence(q + Separator, tail, Separator, j - (n + m));
    }
    assert IndexFrom(raw, Separator, n + m).None?;
    assert LastPieceStart(raw, Separator, 0) == n + m;
    assert raw[n + m..] == tail;
  }

  /** An occurrence in `p + t` past `p` is an occurrence in `t`. */
  lemma ShiftedOccurrence(p: string, t: string, pat: string, j: nat)
    ensures OccursAt(p + t, pat, |p| + j) ==> OccursAt(t, pat, j)
  {
    if |p| + j + |pat| <= |p + t| {
      assert (p + t)[|p| + j..|p| + j + |pat|] == t[j..j + |pat|];
    }
  }

  /** The split resumes after each separator it consumes, so a separator
      followed by " -" leaves " -" as the last piece, although a separator
      also starts two characters in and ends the text. */
  lemma SplitIsNotLastOccurrence()
    ensures var raw := Separator + " -";
      && OccursAt(raw, Separator, 2) && 2 + |Separator| == |raw|
      && SplitLast(raw, Separator) == " -"
  {
    var raw := Separator + " -";
    assert raw == "- - - - - - - - - - - - - - - -";
    forall k | 0 <= k < |Separator| ensures raw[2 + k] == Separator[k] {
      assert raw[2 + k] == raw[k];
    }
    assert raw[2..2 + |Separator|] == Separator;
    assert raw[..|Separator|] == Separator;
    assert IndexFrom(raw, Separator, 0) == Some(0);
    assert IndexFrom(raw, Separator, |Separator|).None?;
    assert LastPieceStart(raw, Separator, 0) == |Separator|;
    assert raw[|Separator|..] == " -";
  }
}
