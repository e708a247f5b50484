/**
 Texts as lists of segments between a separator: exactly when a text of a head, a mark and a tail can
 also be read with another head, mark and tail.
 */
module Segments {
  import opened Text

  /** The segments between the separators; there is always at least one. */
  function Split(sep: byte, t: text): (r: seq<text>)
    ensures |r| >= 1
  {
    if t == [] then [[]]
    else if t[0] == sep then [[]] + Split(sep, t[1..])
    else var r := Split(sep, t[1..]); [[t[0]] + r[0]] + r[1..]
  }

  function Join(sep: byte, segments: seq<text>): text
    requires |segments| >= 1
  {
    if |segments| == 1 then segments[0] else segments[0] + [sep] + Join(sep, segments[1..])
  }

  lemma JoinNew(sep: byte, segments: seq<text>)
    requires |segments| >= 1
    ensures Join(sep, [[]] + segments) == [sep] + Join(sep, segments)
  {
    var all := [[]] + segments;
    assert all[1..] == segments;
  }

  lemma Prepended(sep: byte, a: text, b: text, c: text)
    ensures (a + b) + [sep] + c == a + (b + [sep] + c)
  {
  }

  lemma JoinLonger(sep: byte, b: byte, segments: seq<text>)
    requires |segments| >= 1
    ensures Join(sep, [[b] + segments[0]] + segments[1..]) == [b] + Join(sep, segments)
  {
    var all := [[b] + segments[0]] + segments[1..];
    assert all[1..] == segments[1..];
    if |segments| > 1 {
      Prepended(sep, [b], segments[0], Join(sep, segments[1..]));
    }
  }

  lemma {:induction false} JoinSplit(sep: byte, t: text)
    ensures Join(sep, Split(sep, t)) == t
  {
    if t != [] {
      JoinSplit(sep, t[1..]);
      if t[0] == sep {
        JoinNew(sep, Split(sep, t[1..]));
      } else {
        JoinLonger(sep, t[0], Split(sep, t[1..]));
      }
      assert [t[0]] + t[1..] == t;
    }
  }

  lemma SplitInjective(sep: byte, a: text, b: text)
    requires Split(sep, a) == Split(sep, b)
    ensures a == b
  {
    JoinSplit(sep, a);
    JoinSplit(sep, b);
  }

  lemma {:induction false} SplitPlain(sep: byte, t: text)
    requires Free(t, sep)
    ensures Split(sep, t) == [t]
  {
    if t != [] {
      SplitPlain(sep, t[1..]);
      assert [t[0]] + t[1..] == t;
    }
  }

  lemma DropFirst(sep: byte, a: text, b: text)
    requires a != []
    ensures (a + [sep] + b)[0] == a[0] && (a + [sep] + b)[1..] == a[1..] + [sep] + b
  {
  }

  /** A segment longer at the front, before and after more segments are appended. */
  lemma LongerFront(b: byte, u: seq<text>, v: seq<text>)
    requires |u| >= 1
    ensures [[b] + (u + v)[0]] + (u + v)[1..] == [[b] + u[0]] + u[1..] + v
  {
  }

  lemma {:induction false} SplitConcat(sep: byte, a: text, b: text)
    ensures Split(sep, a + [sep] + b) == Split(sep, a) + Split(sep, b)
  {
    if a == [] {
      assert a + [sep] + b == [sep] + b && ([sep] + b)[1..] == b;
    } else {
      DropFirst(sep, a, b);
      SplitConcat(sep, a[1..], b);
      LongerFront(a[0], Split(sep, a[1..]), Split(sep, b));
    }
  }

  lemma SplitPlainHead(sep: byte, head: text, rest: text)
    requires Free(head, sep)
    ensures Split(sep, head + [sep] + rest) == [head] + Split(sep, rest)
  {
    SplitConcat(sep, head, rest);
    SplitPlain(sep, head);
  }

  lemma {:induction false} SegmentsPlain(sep: byte, t: text, i: nat)
    requires i < |Split(sep, t)|
    ensures Free(Split(sep, t)[i], sep)
  {
    if t != [] {
      var rest := Split(sep, t[1..]);
      if t[0] == sep {
        if i > 0 {
          SegmentsPlain(sep, t[1..], i - 1);
        }
      } else {
        SegmentsPlain(sep, t[1..], i);
      }
    }
  }

  predicate AllPlain(sep: byte, segments: seq<text>) {
    forall i :: 0 <= i < |segments| ==> Free(segments[i], sep)
  }

  /** The segments on both sides of one are segments too. */
  lemma PlainSides(sep: byte, t: text, i: nat)
    requires i < |Split(sep, t)|
    ensures AllPlain(sep, Split(sep, t)) && AllPlain(sep, Split(sep, t)[..i]) && AllPlain(sep, Split(sep, t)[i + 1..])
    ensures Free(Split(sep, t)[i], sep)
  {
    forall j | 0 <= j < |Split(sep, t)|
      ensures Free(Split(sep, t)[j], sep)
    {
      SegmentsPlain(sep, t, j);
    }
  }

  lemma {:induction false} SplitJoin(sep: byte, segments: seq<text>)
    requires |segments| >= 1 && AllPlain(sep, segments)
    ensures Split(sep, Join(sep, segments)) == segments
  {
    SplitPlain(sep, segments[0]);
    if |segments| > 1 {
      SplitJoin(sep, segments[1..]);
      SplitConcat(sep, segments[0], Join(sep, segments[1..]));
    }
  }

  // Framed texts

  function Framed(sep: byte, head: text, mark: text, tail: text): text {
    head + [sep] + mark + [sep] + tail
  }

  lemma FramedSegments(sep: byte, head: text, mark: text, tail: text)
    requires Free(mark, sep)
    ensures Split(sep, Framed(sep, head, mark, tail)) == Split(sep, head) + [mark] + Split(sep, tail)
  {
    SplitConcat(sep, head + [sep] + mark, tail);
    SplitConcat(sep, head, mark);
    SplitPlain(sep, mark);
  }

  lemma JoinAround(sep: byte, before: seq<text>, mark: text, behind: seq<text>)
    requires |before| >= 1 && |behind| >= 1 && AllPlain(sep, before) && AllPlain(sep, behind) && Free(mark, sep)
    ensures Split(sep, Framed(sep, Join(sep, before), mark, Join(sep, behind))) == before + [mark] + behind
    ensures Split(sep, Join(sep, before)) == before
  {
    SplitJoin(sep, before);
    SplitJoin(sep, behind);
    FramedSegments(sep, Join(sep, before), mark, Join(sep, behind));
  }

  lemma Middle<T>(s: seq<T>, i: nat)
    requires i < |s|
    ensures s == s[..i] + [s[i]] + s[i + 1..]
  {
  }

  /** Where the middle of one decomposition lies in another one. */
  lemma OtherMiddle<T>(a: seq<T>, x: T, b: seq<T>, c: seq<T>, y: T, d: seq<T>)
    requires a + [x] + b == c + [y] + d
    ensures |c| < |a| ==> a[|c|] == y
    ensures |a| < |c| ==> |d| < |b| && b[|c| - |a| - 1] == y
  {
    var s := a + [x] + b;
    assert s[|c|] == y && |s| == |c| + 1 + |d|;
  }

  /** Every inner segment of a text can be read as its mark. */
  lemma Reading(sep: byte, t: text, i: nat) returns (head: text, tail: text)
    requires 0 < i < |Split(sep, t)| - 1
    ensures t == Framed(sep, head, Split(sep, t)[i], tail) && |Split(sep, head)| == i
  {
    var s := Split(sep, t);
    PlainSides(sep, t, i);
    head, tail := Join(sep, s[..i]), Join(sep, s[i + 1..]);
    JoinAround(sep, s[..i], s[i], s[i + 1..]);
    Middle(s, i);
    SplitInjective(sep, t, Framed(sep, head, s[i], tail));
  }

  predicate MarkAfterFirst(sep: byte, t: text, isMark: text -> bool) {
    exists i :: 1 <= i < |Split(sep, t)| && isMark(Split(sep, t)[i])
  }

  predicate MarkBeforeLast(sep: byte, t: text, isMark: text -> bool) {
    exists i :: 0 <= i < |Split(sep, t)| - 1 && isMark(Split(sep, t)[i])
  }

  /** A segment of the head other than its first, or of the tail other than its last, is a mark too. */
  predicate MarkedElsewhere(sep: byte, head: text, tail: text, isMark: text -> bool) {
    MarkAfterFirst(sep, head, isMark) || MarkBeforeLast(sep, tail, isMark)
  }

  ghost predicate PlainMarks(sep: byte, isMark: text -> bool) {
    forall m :: isMark(m) ==> Free(m, sep)
  }

  /** Two readings of one text with equally many segments before the mark are the same reading. */
  lemma SamePlace(sep: byte, h1: text, m1: text, t1: text, h2: text, m2: text, t2: text)
    requires Free(m1, sep) && Free(m2, sep)
    requires Framed(sep, h1, m1, t1) == Framed(sep, h2, m2, t2) && |Split(sep, h1)| == |Split(sep, h2)|
    ensures h1 == h2 && m1 == m2 && t1 == t2
  {
    FramedSegments(sep, h1, m1, t1);
    FramedSegments(sep, h2, m2, t2);
    var i, s := |Split(sep, h1)|, Split(sep, Framed(sep, h1, m1, t1));
    assert s[..i] == Split(sep, h1) && s[..i] == Split(sep, h2);
    assert s[i] == m1 && s[i] == m2;
    assert s[i + 1..] == Split(sep, t1) && s[i + 1..] == Split(sep, t2);
    SplitInjective(sep, h1, h2);
    SplitInjective(sep, t1, t2);
  }

  lemma OtherReadingMarksElsewhere(
    sep: byte, head: text, mark: text, tail: text, h: text, m: text, t: text, isMark: text -> bool)
    requires PlainMarks(sep, isMark) && isMark(mark) && isMark(m)
    requires Framed(sep, h, m, t) == Framed(sep, head, mark, tail)
    ensures (h == head && m == mark && t == tail) || MarkedElsewhere(sep, head, tail, isMark)
  {
    FramedSegments(sep, head, mark, tail);
    FramedSegments(sep, h, m, t);
    OtherMiddle(Split(sep, head), mark, Split(sep, tail), Split(sep, h), m, Split(sep, t));
    if |Split(sep, h)| == |Split(sep, head)| {
      SamePlace(sep, h, m, t, head, mark, tail);
    }
  }

  /** The reading that a second mark gives. */
  lemma MarkedElsewhereReads(sep: byte, head: text, mark: text, tail: text, isMark: text -> bool)
    returns (h: text, m: text, t: text)
    requires PlainMarks(sep, isMark) && isMark(mark) && MarkedElsewhere(sep, head, tail, isMark)
    ensures isMark(m) && Framed(sep, h, m, t) == Framed(sep, head, mark, tail) && h != head
  {
    FramedSegments(sep, head, mark, tail);
    var s, n := Split(sep, Framed(sep, head, mark, tail)), |Split(sep, head)|;
    var i: nat;
    if k :| 1 <= k < n && isMark(Split(sep, head)[k]) {
      i := k;
    } else {
      var k :| 0 <= k < |Split(sep, tail)| - 1 && isMark(Split(sep, tail)[k]);
      i := n + 1 + k;
    }
    m := s[i];
    h, t := Reading(sep, Framed(sep, head, mark, tail), i);
  }

  lemma UuidsArePlain(sep: byte)
    requires sep == DOT || sep == COLON
    ensures PlainMarks(sep, CanonicalUuid)
  {
    forall m | CanonicalUuid(m)
      ensures Free(m, sep)
    {
      UuidHasNoSeparator(m);
    }
  }
}
