/**
 * posixpath-style path helpers over a configurable one-character delimiter:
 * str.rfind, str.split, the `in` operator on strings, dirname and basename.
 * The second half builds canonical absolute directory strings from their
 * segments and proves how the helpers act on them.
 */
module Paths {

  /** Index of the last occurrence of c in s, or -1 (str.rfind with one character). */
  function RFind(s: string, c: char): (r: int)
    ensures -1 <= r < |s|
    ensures r >= 0 ==> s[r] == c
    ensures forall i :: r < i < |s| ==> s[i] != c
  {
    if s == [] then -1
    else if s[|s| - 1] == c then |s| - 1
    else RFind(s[..|s| - 1], c)
  }

  predicate AllDelims(s: string, d: char) {
    forall i :: 0 <= i < |s| ==> s[i] == d
  }

  /** str.rstrip(d): drops every trailing delimiter. */
  function RStrip(s: string, d: char): (r: string)
    ensures r <= s
    ensures r == [] || r[|r| - 1] != d
    ensures AllDelims(s[|r|..], d)
  {
    if s != [] && s[|s| - 1] == d then RStrip(s[..|s| - 1], d) else s
  }

  /** posixpath.dirname: everything up to the last separator, trailing separators removed unless it is all separators. */
  function Dirname(p: string, d: char): (r: string)
    ensures r <= p
  {
    var head := p[..RFind(p, d) + 1];
    if head != [] && !AllDelims(head, d) then RStrip(head, d) else head
  }

  /** posixpath.basename: everything after the last separator. */
  function Basename(p: string, d: char): string {
    p[RFind(p, d) + 1..]
  }

  /** The basename is the longest suffix of the path free of separators. */
  lemma BasenameShape(p: string, d: char)
    ensures var r := Basename(p, d);
      && d !in r
      && |r| <= |p| && r == p[|p| - |r|..]
      && (|r| < |p| ==> p[|p| - |r| - 1] == d)
  {
  }

  /** str.split(d): the pieces between separators, empty ones included. */
  function Split(s: string, d: char): (r: seq<string>)
    ensures |r| >= 1
  {
    if s == [] then [[]]
    else
      var pieces := Split(s[..|s| - 1], d);
      if s[|s| - 1] == d then pieces + [[]]
      else pieces[..|pieces| - 1] + [pieces[|pieces| - 1] + [s[|s| - 1]]]
  }

  /** The list comprehension `[x for x in pieces if x != ""]`. */
  function NonEmpty(pieces: seq<string>): seq<string> {
    if pieces == [] then []
    else (if pieces[0] == [] then [] else [pieces[0]]) + NonEmpty(pieces[1..])
  }

  /** The directory names a string names: its non-empty split pieces. */
  function Segments(s: string, d: char): seq<string> {
    NonEmpty(Split(s, d))
  }

  /** `s.split(d)[0]`: the text before the first separator. */
  function SplitFirst(s: string, d: char): string {
    Split(s, d)[0]
  }

  /** Python's `t in s` on strings: t occurs in s as a contiguous substring. */
  predicate Contains(s: string, t: string)
    ensures Contains(s, t) ==> |t| <= |s|
  {
    t <= s || (s != [] && Contains(s[1..], t))
  }

  /** Every piece of a split is free of the delimiter. */
  lemma {:induction false} SplitNoDelim(s: string, d: char)
    ensures forall i :: 0 <= i < |Split(s, d)| ==> d !in Split(s, d)[i]
  {
    if s != [] {
      SplitNoDelim(s[..|s| - 1], d);
    }
  }

  lemma {:induction false} NonEmptyKeeps(pieces: seq<string>, d: char)
    requires forall i :: 0 <= i < |pieces| ==> d !in pieces[i]
    ensures forall i :: 0 <= i < |NonEmpty(pieces)| ==> NonEmpty(pieces)[i] != [] && d !in NonEmpty(pieces)[i]
  {
    if pieces != [] {
      NonEmptyKeeps(pieces[1..], d);
    }
  }

  /** Every segment is a non-empty name without the delimiter. */
  lemma SegmentsAreNames(s: string, d: char)
    ensures forall i :: 0 <= i < |Segments(s, d)| ==> Segment(Segments(s, d)[i], d)
  {
    SplitNoDelim(s, d);
    NonEmptyKeeps(Split(s, d), d);
  }

  /** Dirname is a fixed point exactly on strings made only of separators (the root, or ""). */
  lemma DirnameFixedPoint(p: string, d: char)
    ensures Dirname(p, d) == p <==> AllDelims(p, d)
    ensures Dirname(p, d) != p ==> |Dirname(p, d)| < |p|
  {
    var i := RFind(p, d) + 1;
    var head := p[..i];
    if AllDelims(p, d) && p != [] {
      assert p[|p| - 1] == d;
      assert head == p;
    }
    if !AllDelims(p, d) && i == |p| {
      assert head == p;
      assert p[|p| - 1] == d;
      assert |RStrip(head, d)| < |head|;
    }
  }

  // ---- canonical absolute directories built from their segments ----

  predicate Segment(x: string, d: char) {
    x != [] && d !in x
  }

  predicate ValidSegs(segs: seq<string>, d: char) {
    forall i :: 0 <= i < |segs| ==> Segment(segs[i], d)
  }

  /** "/s1/s2/.../sn" for the delimiter d ("" for no segments). */
  function Path(segs: seq<string>, d: char): string {
    if segs == [] then [] else Path(segs[..|segs| - 1], d) + [d] + segs[|segs| - 1]
  }

  /** The directory string for segs: the root "/" when there are none. */
  function DirOf(segs: seq<string>, d: char): string {
    if segs == [] then [d] else Path(segs, d)
  }

  lemma {:induction false} PathAppend(a: seq<string>, b: seq<string>, d: char)
    ensures Path(a + b, d) == Path(a, d) + Path(b, d)
  {
    if b == [] {
      assert a + b == a;
    } else {
      var b' := b[..|b| - 1];
      assert (a + b)[..|a + b| - 1] == a + b';
      PathAppend(a, b', d);
    }
  }

  lemma PathCons(segs: seq<string>, d: char)
    requires segs != []
    ensures Path(segs, d) == [d] + segs[0] + Path(segs[1..], d)
  {
    PathAppend([segs[0]], segs[1..], d);
    assert [segs[0]] + segs[1..] == segs;
    assert [segs[0]][..0] == [];
  }

  lemma PathSplitAt(segs: seq<string>, k: nat, d: char)
    requires k <= |segs|
    ensures Path(segs, d) == Path(segs[..k], d) + Path(segs[k..], d)
  {
    PathAppend(segs[..k], segs[k..], d);
    assert segs[..k] + segs[k..] == segs;
  }

  lemma PathEndsInName(segs: seq<string>, d: char)
    requires ValidSegs(segs, d) && segs != []
    ensures Path(segs, d) != [] && Path(segs, d)[0] == d
    ensures Path(segs, d)[|Path(segs, d)| - 1] != d
    ensures |Path(segs, d)| >= 2 && Path(segs, d)[1] != d
  {
    PathCons(segs, d);
    assert Segment(segs[0], d);
    assert Segment(segs[|segs| - 1], d);
  }

  lemma {:induction false} RFindAfterSep(a: string, x: string, d: char)
    requires d !in x
    ensures RFind(a + [d] + x, d) == |a|
  {
    if x != [] {
      var s := a + [d] + x;
      assert s[..|s| - 1] == a + [d] + x[..|x| - 1];
      assert s[|s| - 1] == x[|x| - 1];
      RFindAfterSep(a, x[..|x| - 1], d);
    }
  }

  lemma RStripKeepsName(a: string, d: char)
    requires a != [] && a[|a| - 1] != d
    ensures RStrip(a + [d], d) == a
  {
    assert (a + [d])[..|a + [d]| - 1] == a;
  }

  /** Dirname of "A/x", for a name x, is A (or the root when A is empty). */
  lemma DirnameAfterSep(a: string, x: string, d: char)
    requires d !in x
    requires a != [] ==> a[|a| - 1] != d
    ensures Dirname(a + [d] + x, d) == if a == [] then [d] else a
  {
    var p := a + [d] + x;
    RFindAfterSep(a, x, d);
    assert p[..|a| + 1] == a + [d];
    if a != [] {
      assert !AllDelims(a + [d], d) by { assert (a + [d])[|a| - 1] != d; }
      RStripKeepsName(a, d);
    }
  }

  lemma DirnamePath(segs: seq<string>, d: char)
    requires ValidSegs(segs, d) && segs != []
    ensures Dirname(Path(segs, d), d) == DirOf(segs[..|segs| - 1], d)
  {
    var init := segs[..|segs| - 1];
    assert ValidSegs(init, d);
    if init != [] {
      PathEndsInName(init, d);
    }
    assert Segment(segs[|segs| - 1], d);
    DirnameAfterSep(Path(init, d), segs[|segs| - 1], d);
  }

  lemma DirnameRoot(d: char)
    ensures Dirname([d], d) == [d]
  {
    DirnameFixedPoint([d], d);
  }

  lemma DirnameDirOf(segs: seq<string>, d: char)
    requires ValidSegs(segs, d)
    ensures segs != [] ==> Dirname(DirOf(segs, d), d) == DirOf(segs[..|segs| - 1], d)
    ensures segs == [] ==> Dirname(DirOf(segs, d), d) == DirOf(segs, d)
  {
    if segs == [] { DirnameRoot(d); } else { DirnamePath(segs, d); }
  }

  lemma {:induction false} SplitAfterSep(a: string, x: string, d: char)
    requires d !in x
    ensures Split(a + [d] + x, d) == Split(a, d) + [x]
  {
    var s := a + [d] + x;
    if x == [] {
      assert s[..|s| - 1] == a;
      assert s == a + [d];
    } else {
      var x' := x[..|x| - 1];
      assert s[..|s| - 1] == a + [d] + x';
      SplitAfterSep(a, x', d);
      assert x' + [x[|x| - 1]] == x;
    }
  }

  lemma {:induction false} SplitName(x: string, d: char)
    requires d !in x
    ensures Split(x, d) == [x]
  {
    if x != [] {
      SplitName(x[..|x| - 1], d);
      assert x[..|x| - 1] + [x[|x| - 1]] == x;
    }
  }

  lemma {:induction false} SplitThenPath(a: string, segs: seq<string>, d: char)
    requires ValidSegs(segs, d)
    ensures Split(a + Path(segs, d), d) == Split(a, d) + segs
  {
    if segs == [] {
      assert a + [] == a;
    } else {
      var init := segs[..|segs| - 1];
      assert ValidSegs(init, d);
      assert Segment(segs[|segs| - 1], d);
      assert a + Path(segs, d) == (a + Path(init, d)) + [d] + segs[|segs| - 1];
      SplitAfterSep(a + Path(init, d), segs[|segs| - 1], d);
      SplitThenPath(a, init, d);
      assert init + [segs[|segs| - 1]] == segs;
    }
  }

  lemma {:induction false} NonEmptyAppend(a: seq<string>, b: seq<string>)
    ensures NonEmpty(a + b) == NonEmpty(a) + NonEmpty(b)
  {
    if a != [] {
      assert (a + b)[1..] == a[1..] + b;
      NonEmptyAppend(a[1..], b);
    } else {
      assert a + b == b;
    }
  }

  lemma {:induction false} NonEmptyOfNames(segs: seq<string>, d: char)
    requires ValidSegs(segs, d)
    ensures NonEmpty(segs) == segs
  {
    if segs != [] {
      assert Segment(segs[0], d);
      NonEmptyOfNames(segs[1..], d);
    }
  }

  /** Splitting "/s1/.../sn" gives back s1 ... sn. */
  lemma SegmentsOfPath(segs: seq<string>, d: char)
    requires ValidSegs(segs, d)
    ensures Segments(Path(segs, d), d) == segs
    ensures SplitFirst(Path(segs, d), d) == []
  {
    SplitThenPath([], segs, d);
    assert [] + Path(segs, d) == Path(segs, d);
    NonEmptyAppend([[]], segs);
    NonEmptyOfNames(segs, d);
  }

  /** Splitting "s1/.../sn" (the path without its leading separator) gives back s1 ... sn. */
  lemma SegmentsBelowRoot(segs: seq<string>, d: char)
    requires ValidSegs(segs, d) && segs != []
    ensures Segments(Path(segs, d)[1..], d) == segs
  {
    PathCons(segs, d);
    assert Path(segs, d)[1..] == segs[0] + Path(segs[1..], d);
    assert ValidSegs(segs[1..], d);
    assert Segment(segs[0], d);
    SplitThenPath(segs[0], segs[1..], d);
    SplitName(segs[0], d);
    assert [segs[0]] + segs[1..] == segs;
    NonEmptyOfNames(segs, d);
  }

  /** The segments of a path beyond a prefix of k of them are the remaining segments. */
  lemma SegmentsBeyond(segs: seq<string>, k: nat, d: char)
    requires ValidSegs(segs, d) && 1 <= k <= |segs|
    ensures |Path(segs[..k], d)| <= |Path(segs, d)|
    ensures Segments(Path(segs, d)[|Path(segs[..k], d)|..], d) == segs[k..]
    ensures |DirOf(segs[..k], d)| == |Path(segs[..k], d)|
  {
    PathSplitAt(segs, k, d);
    assert Path(segs, d)[|Path(segs[..k], d)|..] == Path(segs[k..], d);
    assert ValidSegs(segs[k..], d);
    SegmentsOfPath(segs[k..], d);
  }

  /** Path is injective on valid segment lists. */
  lemma PathInjective(a: seq<string>, b: seq<string>, d: char)
    requires ValidSegs(a, d) && ValidSegs(b, d)
    requires Path(a, d) == Path(b, d)
    ensures a == b
  {
    SegmentsOfPath(a, d);
    SegmentsOfPath(b, d);
  }

  /** basename of a name is the name; basename of "//name" is the name. */
  lemma BasenameOfName(x: string, d: char)
    requires d !in x
    ensures Basename(x, d) == x
    ensures Basename([d, d] + x, d) == x
  {
    RFindAfterSep([d], x, d);
    assert [d, d] + x == [d] + [d] + x;
  }

  lemma PrefixContains(s: string, t: string)
    requires t <= s
    ensures Contains(s, t)
  {
  }

  /** Between strings of equal length, containment is equality. */
  lemma ContainsSameLength(s: string, t: string)
    requires |s| == |t|
    ensures Contains(s, t) <==> s == t
  {
    if s != [] {
      assert !Contains(s[1..], t);
    }
  }
}
