/**
 * What the events mean as a directory tree: replaying them on a stack of
 * open directory names (innermost last) checks that every close has an open
 * directory to close and that every file is added inside the directory its
 * path names. For listings of canonical absolute paths in which no
 * directory's path text turns up inside the next directory's path except
 * as a leading run of whole segments, the tracker succeeds, every file
 * lands in its own directory, and the final close_directories empties the stack.
 */
module Correctness {
  import opened Wrappers
  import opened Paths
  import opened Document
  import opened Delta

  /**
   * The stack after the events, or None when a close finds no open
   * directory or a file is added outside the directory its path names. An
   * opened directory is shown by the basename of the name add_levels got.
   */
  ghost function Replay(evs: seq<Event>, stack: seq<string>, d: char): Option<seq<string>>
    decreases |evs|
  {
    if evs == [] then Some(stack)
    else match evs[0]
      case Open(n) => Replay(evs[1..], stack + [Basename(n, d)], d)
      case Close => if stack == [] then None else Replay(evs[1..], stack[..|stack| - 1], d)
      case File(p, _) => if stack == Segments(Dirname(p, d), d) then Replay(evs[1..], stack, d) else None
  }

  /** Replaying a concatenation replays the second part on the stack the first part leaves. */
  lemma {:induction false} ReplayAppend(a: seq<Event>, b: seq<Event>, stack: seq<string>, d: char)
    ensures Replay(a + b, stack, d) == match Replay(a, stack, d) case None => None case Some(s) => Replay(b, s, d)
    decreases |a|
  {
    if a == [] {
      assert a + b == b;
    } else {
      assert (a + b)[0] == a[0];
      assert (a + b)[1..] == a[1..] + b;
      match a[0]
      case Open(n) => ReplayAppend(a[1..], b, stack + [Basename(n, d)], d);
      case Close =>
        if stack != [] {
          ReplayAppend(a[1..], b, stack[..|stack| - 1], d);
        }
      case File(p, _) =>
        if stack == Segments(Dirname(p, d), d) {
          ReplayAppend(a[1..], b, stack, d);
        }
    }
  }

  /** A successful replay leaves one name per open level: the stack height follows the level counter. */
  lemma {:induction false} ReplayLevel(evs: seq<Event>, stack: seq<string>, d: char)
    requires Replay(evs, stack, d).Some?
    ensures |Replay(evs, stack, d).value| == LevelAfter(evs, |stack| - 1) + 1
    decreases |evs|
  {
    if evs != [] {
      match evs[0]
      case Open(n) => ReplayLevel(evs[1..], stack + [Basename(n, d)], d);
      case Close => ReplayLevel(evs[1..], stack[..|stack| - 1], d);
      case File(_, _) => ReplayLevel(evs[1..], stack, d);
    }
  }

  /** Closing n levels pops the n innermost names, last opened first. */
  lemma {:induction false} ReplayCloses(n: nat, stack: seq<string>, d: char)
    requires n <= |stack|
    ensures Replay(Closes(n), stack, d) == Some(stack[..|stack| - n])
  {
    if n > 0 {
      assert Closes(n)[0] == Close && Closes(n)[1..] == Closes(n - 1);
      ReplayCloses(n - 1, stack[..|stack| - 1], d);
      assert stack[..|stack| - 1][..|stack| - 1 - (n - 1)] == stack[..|stack| - n];
    } else {
      assert stack[..|stack|] == stack;
    }
  }

  lemma ReplayOpenHead(n: string, rest: seq<Event>, stack: seq<string>, d: char)
    ensures Replay([Open(n)] + rest, stack, d) == Replay(rest, stack + [Basename(n, d)], d)
  {
    assert ([Open(n)] + rest)[1..] == rest;
  }

  lemma ReplayOpensStep(names: seq<string>, stack: seq<string>, d: char)
    requires names != [] && Segment(names[0], d)
    requires Replay(Opens(names[1..]), stack + [names[0]], d) == Some(stack + [names[0]] + names[1..])
    ensures Replay(Opens(names), stack, d) == Some(stack + names)
  {
    var x := names[0];
    assert Opens(names) == [Open(x)] + Opens(names[1..]);
    ReplayOpenHead(x, Opens(names[1..]), stack, d);
    BasenameOfName(x, d);
    assert stack + [x] + names[1..] == stack + names;
  }

  /** Opening plain segments pushes them in order. */
  lemma {:induction false} ReplayOpens(names: seq<string>, stack: seq<string>, d: char)
    requires ValidSegs(names, d)
    ensures Replay(Opens(names), stack, d) == Some(stack + names)
  {
    if names == [] {
      assert stack + names == stack;
    } else {
      assert ValidSegs(names[1..], d);
      ReplayOpens(names[1..], stack + [names[0]], d);
      ReplayOpensStep(names, stack, d);
    }
  }

  // ---- well-formed listings ----

  /**
   * No leading run of a's segments occurs as text inside b's directory
   * string unless it is a leading run of b's segments too.
   */
  ghost predicate Separated(a: seq<string>, b: seq<string>, d: char) {
    forall k :: 1 <= k <= |a| && Contains(DirOf(b, d), Path(a[..k], d)) ==> a[..k] <= b
  }

  /** The depth at which the ascend search stops, walking up from depth k of a toward b. */
  ghost function Cut(a: seq<string>, b: seq<string>, k: nat): (c: nat)
    requires 1 <= k <= |a|
    ensures c < k
    ensures c == 0 || (a[..c] <= b && c < |b|)
  {
    var j := k - 1;
    if j == 0 || (a[..j] <= b && j < |b|) then j else Cut(a, b, j)
  }

  /** The root is accepted by the ascend test for every directory below it. */
  lemma RootAccepted(b: seq<string>, d: char)
    requires ValidSegs(b, d) && b != []
    ensures Accepts(DirOf([], d), DirOf(b, d), d)
  {
    var dir := Path(b, d);
    PathEndsInName(b, d);
    SegmentsOfPath(b, d);
    assert [d] <= dir;
    PrefixContains(dir, [d]);
    assert DropLast([d]) == [];
  }

  /** A leading run of whole segments of b, shorter than b, is accepted. */
  lemma PrefixAccepted(a: seq<string>, b: seq<string>, j: nat, d: char)
    requires ValidSegs(b, d) && 1 <= j < |b| && j <= |a| && a[..j] == b[..j]
    ensures Accepts(DirOf(a[..j], d), DirOf(b, d), d)
  {
    var t := Path(b[..j], d);
    assert DirOf(a[..j], d) == t;
    PathSplitAt(b, j, d);
    assert ValidSegs(b[j..], d);
    PathEndsInName(b[j..], d);
    var dir := Path(b, d);
    assert dir == t + Path(b[j..], d);
    assert t <= dir;
    PrefixContains(dir, t);
    assert dir[|t|] == Path(b[j..], d)[0];
  }

  /** Under Separated, the ascend test accepts depth j of a exactly at the root or at a shared leading run shorter than b. */
  lemma AcceptsIff(a: seq<string>, b: seq<string>, j: nat, d: char)
    requires ValidSegs(a, d) && ValidSegs(b, d) && b != [] && j <= |a|
    requires Separated(a, b, d)
    ensures Accepts(DirOf(a[..j], d), DirOf(b, d), d) <==> (j == 0 || (a[..j] <= b && j < |b|))
  {
    if j == 0 {
      assert a[..j] == [];
      RootAccepted(b, d);
    } else if a[..j] <= b && j < |b| {
      assert a[..j] == b[..j];
      PrefixAccepted(a, b, j, d);
    } else if Contains(DirOf(b, d), Path(a[..j], d)) {
      assert a[..j] <= b;
      assert a[..j] == b;
      assert DirOf(a[..j], d) == DirOf(b, d);
    }
  }

  /** Walking up from depth k of a, the ascend search stops at depth Cut(a, b, k). */
  lemma {:induction false} AncestorWF(a: seq<string>, b: seq<string>, k: nat, d: char)
    requires ValidSegs(a, d) && ValidSegs(b, d) && b != [] && 1 <= k <= |a|
    requires Separated(a, b, d)
    ensures Ancestor(DirOf(a[..k], d), DirOf(b, d), d) == Some(DirOf(a[..Cut(a, b, k)], d))
    decreases k
  {
    var j := k - 1;
    AcceptsIff(a, b, j, d);
    if j == 0 || (a[..j] <= b && j < |b|) {
      AncestorHere(a, b, k, d);
    } else {
      AncestorDeeper(a, b, k, d);
      AncestorWF(a, b, j, d);
    }
  }

  /** When depth k - 1 is accepted, the search stops there. */
  lemma AncestorHere(a: seq<string>, b: seq<string>, k: nat, d: char)
    requires ValidSegs(a, d) && 1 <= k <= |a|
    requires Accepts(DirOf(a[..k - 1], d), DirOf(b, d), d)
    ensures Ancestor(DirOf(a[..k], d), DirOf(b, d), d) == Some(DirOf(a[..k - 1], d))
  {
    assert a[..k][..k - 1] == a[..k - 1];
    assert ValidSegs(a[..k], d);
    DirnameDirOf(a[..k], d);
  }

  /** When depth k - 1 is not accepted, the search goes on from there. */
  lemma AncestorDeeper(a: seq<string>, b: seq<string>, k: nat, d: char)
    requires ValidSegs(a, d) && ValidSegs(b, d) && b != [] && 2 <= k <= |a|
    requires !Accepts(DirOf(a[..k - 1], d), DirOf(b, d), d)
    ensures Ancestor(DirOf(a[..k], d), DirOf(b, d), d) == Ancestor(DirOf(a[..k - 1], d), DirOf(b, d), d)
  {
    assert a[..k][..k - 1] == a[..k - 1];
    assert ValidSegs(a[..k], d);
    DirnameDirOf(a[..k], d);
    PathSplitAt(a[..k], k - 1, d);
    assert ValidSegs(a[..k][k - 1..], d);
    PathEndsInName(a[..k][k - 1..], d);
  }

  /** The segments of a directory beyond its own depth-c prefix: all of them below the root. */
  lemma SegmentsAfter(a: seq<string>, c: nat, d: char)
    requires ValidSegs(a, d) && a != [] && c <= |a|
    ensures |DirOf(a[..c], d)| <= |DirOf(a, d)|
    ensures Segments(DirOf(a, d)[|DirOf(a[..c], d)|..], d) == a[c..]
  {
    if c == 0 {
      assert a[..0] == [] && a[0..] == a;
      PathEndsInName(a, d);
      SegmentsBelowRoot(a, d);
    } else {
      SegmentsBeyond(a, c, d);
    }
  }

  /**
   * Between two directories of a separated listing the tracker succeeds: it
   * closes some innermost names of the previous directory and opens plain
   * segments so that the open names become exactly the new directory's.
   */
  lemma TransitionWF(a: seq<string>, b: seq<string>, d: char)
    requires ValidSegs(a, d) && ValidSegs(b, d) && a != [] && b != []
    requires Separated(a, b, d)
    ensures var t := Transition(DirOf(a, d), DirOf(b, d), false, d);
      && t.Ok? && !t.value.first
      && |t.value.ends| <= |a|
      && ValidSegs(t.value.news, d)
      && a[..|a| - |t.value.ends|] + t.value.news == b
  {
    var prev, dir := DirOf(a, d), DirOf(b, d);
    if a == b {
      assert a[..|a|] == a;
    } else if a <= b {
      DescendWF(a, b, d);
    } else {
      AscendWF(a, b, d);
    }
  }

  lemma DescendWF(a: seq<string>, b: seq<string>, d: char)
    requires ValidSegs(a, d) && ValidSegs(b, d) && a != [] && a <= b && a != b
    ensures Transition(DirOf(a, d), DirOf(b, d), false, d) == Ok(Move([], b[|a|..], false))
  {
    var prev, dir := Path(a, d), Path(b, d);
    var k := |a|;
    assert b[..k] == a;
    PathSplitAt(b, k, d);
    assert ValidSegs(b[k..], d);
    PathEndsInName(b[k..], d);
    assert dir == prev + Path(b[k..], d);
    assert prev <= dir;
    PrefixContains(dir, prev);
    assert dir[|prev|] == d;
    assert RFind(dir, d) >= |prev|;
    assert dir != prev;
    SegmentsBeyond(b, k, d);
  }

  lemma AscendWF(a: seq<string>, b: seq<string>, d: char)
    requires ValidSegs(a, d) && ValidSegs(b, d) && a != [] && b != [] && !(a <= b)
    requires Separated(a, b, d)
    ensures var c := Cut(a, b, |a|);
      Transition(DirOf(a, d), DirOf(b, d), false, d) == Ok(Move(a[c..], b[c..], false))
  {
    var prev, dir := Path(a, d), Path(b, d);
    var c := Cut(a, b, |a|);
    assert a[..|a|] == a;
    if prev == dir {
      PathInjective(a, b, d);
    }
    assert !Descends(prev, dir, d);
    AncestorWF(a, b, |a|, d);
    var t := DirOf(a[..c], d);
    SegmentsAfter(a, c, d);
    assert a[..c] == b[..c];
    SegmentsAfter(b, c, d);
  }

  // ---- whole listings ----

  /**
   * Each path is "/s1/.../sn/name" for its directory segments segs[i] (at
   * least one) and its file name names[i], and each directory is
   * separated from the next one.
   */
  ghost predicate WellFormed(paths: seq<string>, segs: seq<seq<string>>, names: seq<string>, d: char) {
    && |segs| == |paths| && |names| == |paths|
    && (forall i :: 0 <= i < |paths| ==>
          segs[i] != [] && ValidSegs(segs[i] + [names[i]], d) && paths[i] == Path(segs[i] + [names[i]], d))
    && (forall i :: 0 < i < |paths| ==> Separated(segs[i - 1], segs[i], d))
  }

  lemma WellFormedTail(paths: seq<string>, segs: seq<seq<string>>, names: seq<string>, d: char)
    requires WellFormed(paths, segs, names, d) && paths != []
    ensures WellFormed(paths[1..], segs[1..], names[1..], d)
    ensures |paths| > 1 ==> Separated(segs[0], segs[1], d)
  {
    forall i | 0 < i < |paths| - 1 ensures Separated(segs[1..][i - 1], segs[1..][i], d) {
      assert segs[1..][i - 1] == segs[i] && segs[1..][i] == segs[i + 1];
    }
  }

  /** The directory of "/s1/.../sn/name" is "/s1/.../sn", whose segments are s1 ... sn. */
  lemma FileDir(segs: seq<string>, name: string, d: char)
    requires segs != [] && ValidSegs(segs + [name], d)
    ensures ValidSegs(segs, d)
    ensures Dirname(Path(segs + [name], d), d) == DirOf(segs, d)
    ensures Segments(DirOf(segs, d), d) == segs
  {
    var all := segs + [name];
    assert all[..|all| - 1] == segs;
    assert forall i :: 0 <= i < |segs| ==> segs[i] == all[i];
    DirnamePath(all, d);
    SegmentsOfPath(segs, d);
  }

  lemma ReplayFile(p: string, st: Option<Stat>, stack: seq<string>, d: char)
    requires stack == Segments(Dirname(p, d), d)
    ensures Replay([File(p, st)], stack, d) == Some(stack)
  {
    assert [File(p, st)][1..] == [];
  }

  /** A step that closes some names and opens others, then adds a file where the opened names lead. */
  lemma StepReplay(m: Move, p: string, st: Option<Stat>, stack: seq<string>, after: seq<string>, d: char)
    requires |m.ends| <= |stack|
    requires Replay(Opens(m.news), stack[..|stack| - |m.ends|], d) == Some(after)
    requires after == Segments(Dirname(p, d), d)
    ensures Replay(StepEvents(m, p, st), stack, d) == Some(after)
  {
    ReplayCloses(|m.ends|, stack, d);
    ReplayFile(p, st, after, d);
    ReplayThree(Closes(|m.ends|), Opens(m.news), [File(p, st)], stack, stack[..|stack| - |m.ends|], after, after, d);
  }

  /** Three runs of events replayed one after the other. */
  lemma ReplayThree(a: seq<Event>, b: seq<Event>, c: seq<Event>, s0: seq<string>, s1: seq<string>, s2: seq<string>, s3: seq<string>, d: char)
    requires Replay(a, s0, d) == Some(s1) && Replay(b, s1, d) == Some(s2) && Replay(c, s2, d) == Some(s3)
    ensures Replay(a + b + c, s0, d) == Some(s3)
  {
    ReplayAppend(a, b, s0, d);
    ReplayAppend(a + b, c, s0, d);
  }

  /** The first directory change descends from "" and opens every segment, the first one as delim+delim+name. */
  lemma FirstTransition(b: seq<string>, d: char)
    requires ValidSegs(b, d) && b != []
    ensures Transition([], DirOf(b, d), true, d) == Ok(Move([], [[d, d] + b[0]] + b[1..], false))
  {
    var dir := Path(b, d);
    PathEndsInName(b, d);
    PrefixContains(dir, []);
    assert RFind(dir, d) >= 0;
    assert dir[0..] == dir;
    SegmentsOfPath(b, d);
  }

  /** The prefixed first name shows as its plain basename. */
  lemma ReplayMarked(x: string, rest: seq<string>, d: char)
    requires Segment(x, d) && ValidSegs(rest, d)
    ensures Replay(Opens([[d, d] + x] + rest), [], d) == Some([x] + rest)
  {
    var n := [d, d] + x;
    var names := [n] + rest;
    assert names[0] == n && names[1..] == rest;
    assert Opens(names) == [Open(n)] + Opens(rest);
    ReplayOpenHead(n, Opens(rest), [], d);
    BasenameOfName(x, d);
    assert [] + [Basename(n, d)] == [x];
    ReplayOpens(rest, [x], d);
  }

  /** The first path's step, from whatever state the tracker is in. */
  lemma HeadStep(paths: seq<string>, segs: seq<seq<string>>, names: seq<string>,
                 prev: string, first: bool, stack: seq<string>, d: char, stat: string -> Option<Stat>)
    requires WellFormed(paths, segs, names, d) && paths != []
    requires first ==> prev == [] && stack == []
    requires !first ==> stack != [] && ValidSegs(stack, d) && prev == DirOf(stack, d) && Separated(stack, segs[0], d)
    ensures Dirname(paths[0], d) == DirOf(segs[0], d)
    ensures var t := Transition(prev, Dirname(paths[0], d), first, d);
      && t.Ok? && !t.value.first
      && Replay(StepEvents(t.value, paths[0], stat(paths[0])), stack, d) == Some(segs[0])
  {
    if first {
      StepFirst(segs[0], names[0], paths[0], stat(paths[0]), d);
    } else {
      StepPlain(stack, segs[0], names[0], paths[0], stat(paths[0]), d);
    }
  }

  /** The first file of the listing: its step opens its whole directory. */
  lemma StepFirst(b: seq<string>, name: string, p: string, st: Option<Stat>, d: char)
    requires b != [] && ValidSegs(b + [name], d) && p == Path(b + [name], d)
    ensures Dirname(p, d) == DirOf(b, d)
    ensures var t := Transition([], Dirname(p, d), true, d);
      && t.Ok? && !t.value.first
      && Replay(StepEvents(t.value, p, st), [], d) == Some(b)
  {
    FileDir(b, name, d);
    FirstTransition(b, d);
    HeadFirst(b, p, st, d);
  }

  /** A later file: its step turns the previous directory's names into its own directory's. */
  lemma StepPlain(stack: seq<string>, b: seq<string>, name: string, p: string, st: Option<Stat>, d: char)
    requires b != [] && ValidSegs(b + [name], d) && p == Path(b + [name], d)
    requires stack != [] && ValidSegs(stack, d) && Separated(stack, b, d)
    ensures Dirname(p, d) == DirOf(b, d)
    ensures var t := Transition(DirOf(stack, d), Dirname(p, d), false, d);
      && t.Ok? && !t.value.first
      && Replay(StepEvents(t.value, p, st), stack, d) == Some(b)
  {
    FileDir(b, name, d);
    TransitionWF(stack, b, d);
    HeadPlain(Transition(DirOf(stack, d), DirOf(b, d), false, d).value, stack, b, p, st, d);
  }

  lemma HeadFirst(b: seq<string>, p: string, st: Option<Stat>, d: char)
    requires ValidSegs(b, d) && b != [] && b == Segments(Dirname(p, d), d)
    ensures Replay(StepEvents(Move([], [[d, d] + b[0]] + b[1..], false), p, st), [], d) == Some(b)
  {
    assert Segment(b[0], d) && ValidSegs(b[1..], d);
    ReplayMarked(b[0], b[1..], d);
    HeadTail(b);
    StepReplay(Move([], [[d, d] + b[0]] + b[1..], false), p, st, [], b, d);
  }

  lemma HeadPlain(m: Move, stack: seq<string>, b: seq<string>, p: string, st: Option<Stat>, d: char)
    requires |m.ends| <= |stack| && ValidSegs(m.news, d) && stack[..|stack| - |m.ends|] + m.news == b
    requires b == Segments(Dirname(p, d), d)
    ensures Replay(StepEvents(m, p, st), stack, d) == Some(b)
  {
    ReplayOpens(m.news, stack[..|stack| - |m.ends|], d);
    StepReplay(m, p, st, stack, b, d);
  }

  /** Track's first step followed by the rest, replayed. */
  lemma TrackCons(paths: seq<string>, prev: string, first: bool, stack: seq<string>, mid: seq<string>, d: char, stat: string -> Option<Stat>)
    requires paths != []
    requires var t := Transition(prev, Dirname(paths[0], d), first, d);
      && t.Ok?
      && Replay(StepEvents(t.value, paths[0], stat(paths[0])), stack, d) == Some(mid)
      && Track(paths[1..], Dirname(paths[0], d), t.value.first, d, stat).Ok?
    ensures var t := Transition(prev, Dirname(paths[0], d), first, d);
      var rest := Track(paths[1..], Dirname(paths[0], d), t.value.first, d, stat);
      && Track(paths, prev, first, d, stat) == Ok(StepEvents(t.value, paths[0], stat(paths[0])) + rest.value)
      && Replay(Track(paths, prev, first, d, stat).value, stack, d) == Replay(rest.value, mid, d)
  {
    var t := Transition(prev, Dirname(paths[0], d), first, d);
    var step := StepEvents(t.value, paths[0], stat(paths[0]));
    var rest := Track(paths[1..], Dirname(paths[0], d), t.value.first, d, stat);
    ReplayAppend(step, rest.value, stack, d);
  }

  /**
   * On a well-formed listing the loop never fails, and replaying its events
   * from the open names of the previous directory leaves exactly the last
   * file's directory open, every file having been added inside its own directory.
   */
  lemma {:induction false} TrackWF(paths: seq<string>, segs: seq<seq<string>>, names: seq<string>,
                                   prev: string, first: bool, stack: seq<string>, d: char, stat: string -> Option<Stat>)
    requires WellFormed(paths, segs, names, d)
    requires first ==> prev == [] && stack == []
    requires !first ==> stack != [] && ValidSegs(stack, d) && prev == DirOf(stack, d) && (paths != [] ==> Separated(stack, segs[0], d))
    ensures Track(paths, prev, first, d, stat).Ok?
    ensures Replay(Track(paths, prev, first, d, stat).value, stack, d) == Some(if paths == [] then stack else segs[|paths| - 1])
    decreases |paths|
  {
    if paths != [] {
      HeadStep(paths, segs, names, prev, first, stack, d, stat);
      WellFormedTail(paths, segs, names, d);
      FileDir(segs[0], names[0], d);
      TrackWF(paths[1..], segs[1..], names[1..], Dirname(paths[0], d), false, segs[0], d, stat);
      if |paths| > 1 {
        assert segs[1..][|paths[1..]| - 1] == segs[|paths| - 1];
      }
      TrackWFStep(paths, segs, prev, first, stack, d, stat);
    }
  }

  /** The inductive step of TrackWF: the first step's replay followed by the rest's. */
  lemma TrackWFStep(paths: seq<string>, segs: seq<seq<string>>, prev: string, first: bool, stack: seq<string>,
                    d: char, stat: string -> Option<Stat>)
    requires paths != [] && |segs| == |paths|
    requires var t := Transition(prev, Dirname(paths[0], d), first, d);
      && t.Ok? && Replay(StepEvents(t.value, paths[0], stat(paths[0])), stack, d) == Some(segs[0])
      && Track(paths[1..], Dirname(paths[0], d), t.value.first, d, stat).Ok?
      && Replay(Track(paths[1..], Dirname(paths[0], d), t.value.first, d, stat).value, segs[0], d)
         == Some(if |paths| == 1 then segs[0] else segs[|paths| - 1])
    ensures Track(paths, prev, first, d, stat).Ok?
    ensures Replay(Track(paths, prev, first, d, stat).value, stack, d) == Some(segs[|paths| - 1])
  {
    TrackCons(paths, prev, first, stack, segs[0], d, stat);
  }

  /** A non-empty list is its head followed by its tail; apart from HeadFirst, where it is too costly inline. */
  lemma HeadTail(b: seq<string>)
    requires b != []
    ensures [b[0]] + b[1..] == b
  {
  }

  /**
   * A well-formed listing builds: the loop succeeds, leaves the last file's
   * directory open (|segments| levels above -1), and the closes of
   * close_directories then pop every open name, innermost first.
   */
  lemma WellFormedListing(paths: seq<string>, segs: seq<seq<string>>, names: seq<string>, d: char, stat: string -> Option<Stat>)
    requires WellFormed(paths, segs, names, d)
    ensures Track(paths, [], true, d, stat).Ok?
    ensures var evs := Track(paths, [], true, d, stat).value;
      var last := if paths == [] then [] else segs[|paths| - 1];
      && LevelAfter(evs, -1) + 1 == |last|
      && Replay(evs, [], d) == Some(last)
      && Replay(evs + Closes(|last|), [], d) == Some([])
  {
    TrackWF(paths, segs, names, [], true, [], d, stat);
    CloseAll(Track(paths, [], true, d, stat).value, if paths == [] then [] else segs[|paths| - 1], d);
  }

  /** Events that leave names open from an empty stack are closed off by one close per name. */
  lemma CloseAll(evs: seq<Event>, last: seq<string>, d: char)
    requires Replay(evs, [], d) == Some(last)
    ensures LevelAfter(evs, -1) + 1 == |last|
    ensures Replay(evs + Closes(|last|), [], d) == Some([])
  {
    ReplayLevel(evs, [], d);
    ReplayAppend(evs, Closes(|last|), [], d);
    ReplayCloses(|last|, last, d);
    assert last[..0] == [];
  }
}
