/** Reply segmentation in `reply` (src/chatgpt.ts:304-318): a long answer is
    cut greedily into pieces of `SingleMessageMaxSize` characters, in order.
 */
module ReplySegmenter {
  import opened Strings

  /** `SINGLE_MESSAGE_MAX_SIZE`. */
  const SingleMessageMaxSize: nat := 500

  /** A cut of `s` as the transport needs it: at least one piece, every piece
      but the last exactly full, the last one at most full and empty only when
      it is the only piece, and the pieces spell `s` in order. */
  predicate IsSegmentation(s: string, chunks: seq<string>) {
    && |chunks| >= 1
    && (forall k :: 0 <= k < |chunks| - 1 ==> |chunks[k]| == SingleMessageMaxSize)
    && |chunks[|chunks| - 1]| <= SingleMessageMaxSize
    && (|chunks| > 1 ==> |chunks[|chunks| - 1]| > 0)
    && Concat(chunks) == s
  }

  /** The pieces the `while` loop of lines 308-314 collects. */
  function Segment(s: string): (chunks: seq<string>)
    ensures |chunks| >= 1
    decreases |s|
  {
    if |s| > SingleMessageMaxSize then
      [s[..SingleMessageMaxSize]] + Segment(s[SingleMessageMaxSize..])
    else
      [s]
  }

  /** The greedy cut is a segmentation. */
  lemma {:induction false} SegmentIsSegmentation(s: string)
    ensures IsSegmentation(s, Segment(s))
    decreases |s|
  {
    if |s| > SingleMessageMaxSize {
      var rest := s[SingleMessageMaxSize..];
      SegmentIsSegmentation(rest);
      var tail := Segment(rest);
      var chunks := Segment(s);
      assert chunks == [s[..SingleMessageMaxSize]] + tail;
      assert chunks[1..] == tail;
      assert chunks[|chunks| - 1] == tail[|tail| - 1];
      assert |tail[|tail| - 1]| > 0 by {
        if |tail| == 1 { assert tail[0] == rest; }
      }
      forall k | 0 <= k < |chunks| - 1 ensures |chunks[k]| == SingleMessageMaxSize {
        if k > 0 { assert chunks[k] == tail[k - 1]; }
      }
      calc {
        Concat(chunks);
        chunks[0] + Concat(tail);
        s[..SingleMessageMaxSize] + rest;
        s;
      }
    }
  }

  /** The loop itself: `messages` collects full pieces while the remainder is
      longer than the limit, then the remainder is pushed. */
  method SegmentReply(s: string) returns (messages: seq<string>)
    ensures IsSegmentation(s, messages)
    ensures messages == Segment(s)
  {
    messages := [];
    var message := s;
    while |message| > SingleMessageMaxSize
      invariant messages + Segment(message) == Segment(s)
      decreases |message|
    {
      var piece, rest := message[..SingleMessageMaxSize], message[SingleMessageMaxSize..];
      assert Segment(message) == [piece] + Segment(rest);
      assert messages + Segment(message) == (messages + [piece]) + Segment(rest);
      messages := messages + [piece];
      message := rest;
    }
    assert Segment(message) == [message];
    messages := messages + [message];
    SegmentIsSegmentation(s);
  }

  /** There is only one segmentation, so `Segment` is determined by the
      description of `IsSegmentation` alone. */
  lemma {:induction false} SegmentationUnique(s: string, chunks: seq<string>)
    requires IsSegmentation(s, chunks)
    ensures chunks == Segment(s)
    decreases |chunks|
  {
    if |chunks| == 1 {
      assert Concat(chunks) == chunks[0];
    } else {
      SegmentIsSegmentation(s);
      var rest := chunks[1..];
      assert Concat(chunks) == chunks[0] + Concat(rest);
      assert |s| > SingleMessageMaxSize by {
        assert |Concat(chunks)| == |chunks[0]| + |Concat(rest)|;
        assert |Concat(rest)| > 0 by { ConcatLastNonEmpty(rest); }
      }
      assert s[..SingleMessageMaxSize] == chunks[0];
      assert s[SingleMessageMaxSize..] == Concat(rest);
      assert IsSegmentation(Concat(rest), rest) by {
        forall k | 0 <= k < |rest| - 1 ensures |rest[k]| == SingleMessageMaxSize {
          assert rest[k] == chunks[k + 1];
        }
      }
      SegmentationUnique(Concat(rest), rest);
    }
  }

  /** Joined pieces are non-empty when the last piece is. */
  lemma {:induction false} ConcatLastNonEmpty(chunks: seq<string>)
    requires |chunks| >= 1 && |chunks[|chunks| - 1]| > 0
    ensures |Concat(chunks)| > 0
    decreases |chunks|
  {
    if |chunks| > 1 {
      ConcatLastNonEmpty(chunks[1..]);
    }
  }

  /** The number of messages is the length divided by the limit, rounded up,
      with one message for the empty reply. */
  lemma {:induction false} SegmentCount(s: string)
    ensures |Segment(s)| == if |s| == 0 then 1 else (|s| + SingleMessageMaxSize - 1) / SingleMessageMaxSize
    decreases |s|
  {
    if |s| > SingleMessageMaxSize {
      SegmentCount(s[SingleMessageMaxSize..]);
    }
  }

  /** Empty input is sent as one empty message. */
  lemma EmptyReply()
    ensures Segment("") == [""]
  {
  }

  /** 600 characters go out as 500 and then 100. */
  lemma SixHundred(s: string)
    requires |s| == 600
    ensures |Segment(s)| == 2
    ensures |Segment(s)[0]| == 500 && |Segment(s)[1]| == 100
    ensures Segment(s)[0] + Segment(s)[1] == s
  {
    SegmentIsSegmentation(s);
    var c := Segment(s);
    assert Concat(c) == c[0] + Concat(c[1..]);
    assert Concat(c[1..]) == c[1] + Concat(c[2..]);
  }
}
