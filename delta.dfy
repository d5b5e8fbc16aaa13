/**
 * The tree-delta tracker of build_xml: for each file, compare its directory
 * with the previous file's and decide which directories to close and which
 * to open, using only string tests on the two directory strings.
 */
module Delta {
  import opened Wrappers
  import opened Paths
  import opened Document

  /**
   * Why a build does not finish: `new_dirs[0]` on an empty list
   * (an IndexError), an ascend search that never breaks, or a
   * close_directories loop started below -1 (both of which spin forever).
   */
  datatype Failure = NoFirstSegment | NoCommonAncestor | LevelBelowRoot

  /** `tmp_dir[0:-1]`. */
  function DropLast(s: string): string {
    if s == [] then [] else s[..|s| - 1]
  }

  /** The test that ends the ascend search: a candidate shorter than dir, inside it, at a separator or sharing its root component. */
  predicate Accepts(t: string, dir: string, d: char) {
    |t| < |dir| && Contains(dir, t) && (dir[|t|] == d || DropLast(t) == SplitFirst(dir, d))
  }

  /**
   * The ascend search: repeatedly take dirname, starting from tmp, until a
   * candidate is accepted; None when dirname has reached its fixed point
   * without an accepted candidate (where the source loops forever).
   */
  function Ancestor(tmp: string, dir: string, d: char): (r: Option<string>)
    ensures r.Some? ==> Accepts(r.value, dir, d) && r.value <= tmp
    decreases |tmp|
  {
    var t := Dirname(tmp, d);
    if Accepts(t, dir, d) then Some(t)
    else if |t| == |tmp| then None
    else Ancestor(t, dir, d)
  }

  /** dirname applied k times. */
  ghost function Iter(p: string, k: nat, d: char): string
    decreases k
  {
    if k == 0 then p else Iter(Dirname(p, d), k - 1, d)
  }

  lemma {:induction false} IterFixed(p: string, k: nat, d: char)
    requires Dirname(p, d) == p
    ensures Iter(p, k, d) == p
  {
    if k > 0 {
      IterFixed(p, k - 1, d);
    }
  }

  /** How many dirname steps the search takes before it accepts. */
  ghost function Steps(tmp: string, dir: string, d: char): nat
    requires Ancestor(tmp, dir, d).Some?
    decreases |tmp|
  {
    var t := Dirname(tmp, d);
    if Accepts(t, dir, d) then 1 else 1 + Steps(t, dir, d)
  }

  /** A found ancestor is the first accepted candidate of the dirname chain. */
  lemma {:induction false} AncestorIsFirstAccepted(tmp: string, dir: string, d: char)
    requires Ancestor(tmp, dir, d).Some?
    ensures 1 <= Steps(tmp, dir, d)
    ensures Iter(tmp, Steps(tmp, dir, d), d) == Ancestor(tmp, dir, d).value
    ensures forall j: nat :: 1 <= j < Steps(tmp, dir, d) ==> !Accepts(Iter(tmp, j, d), dir, d)
    decreases |tmp|
  {
    var t := Dirname(tmp, d);
    assert Iter(tmp, 1, d) == t;
    if !Accepts(t, dir, d) {
      AncestorIsFirstAccepted(t, dir, d);
      AncestorLater(tmp, dir, d);
    }
  }

  /** The inductive step of AncestorIsFirstAccepted: a rejected first candidate adds one step. */
  lemma AncestorLater(tmp: string, dir: string, d: char)
    requires Ancestor(tmp, dir, d).Some? && !Accepts(Dirname(tmp, d), dir, d)
    requires var t := Dirname(tmp, d);
      && Ancestor(t, dir, d).Some?
      && Iter(t, Steps(t, dir, d), d) == Ancestor(t, dir, d).value
      && forall j: nat :: 1 <= j < Steps(t, dir, d) ==> !Accepts(Iter(t, j, d), dir, d)
    ensures 1 <= Steps(tmp, dir, d)
    ensures Iter(tmp, Steps(tmp, dir, d), d) == Ancestor(tmp, dir, d).value
    ensures forall j: nat :: 1 <= j < Steps(tmp, dir, d) ==> !Accepts(Iter(tmp, j, d), dir, d)
  {
    var t := Dirname(tmp, d);
    var k := Steps(t, dir, d);
    assert Iter(tmp, k + 1, d) == Iter(t, k, d);
    forall j: nat | 1 <= j < k + 1 ensures !Accepts(Iter(tmp, j, d), dir, d) {
      if j > 1 {
        assert Iter(tmp, j, d) == Iter(t, j - 1, d);
      }
    }
  }

  /** The search fails exactly when no candidate of the dirname chain is ever accepted. */
  lemma {:induction false} AncestorNoneIff(tmp: string, dir: string, d: char)
    ensures Ancestor(tmp, dir, d).None? <==> forall k: nat :: 1 <= k ==> !Accepts(Iter(tmp, k, d), dir, d)
    decreases |tmp|
  {
    var t := Dirname(tmp, d);
    if Ancestor(tmp, dir, d).Some? {
      AncestorIsFirstAccepted(tmp, dir, d);
      assert Accepts(Iter(tmp, Steps(tmp, dir, d), d), dir, d);
    } else if |t| == |tmp| {
      assert t == tmp;
      forall k: nat | 1 <= k ensures !Accepts(Iter(tmp, k, d), dir, d) {
        IterFixed(tmp, k, d);
      }
    } else {
      AncestorNoneIff(t, dir, d);
      forall k: nat | 1 <= k ensures !Accepts(Iter(tmp, k, d), dir, d) {
        assert Iter(tmp, k, d) == Iter(t, k - 1, d);
        if k == 1 { assert Iter(t, 0, d) == t; }
      }
    }
  }

  /** The ascend search of build_xml: `while True: tmp_dir = dirname(tmp_dir); if ...: break`. */
  method FindCommonAncestor(prev: string, dir: string, d: char) returns (r: Option<string>)
    ensures r == Ancestor(prev, dir, d)
  {
    var tmp := prev;
    while true
      invariant Ancestor(tmp, dir, d) == Ancestor(prev, dir, d)
      decreases |tmp|
    {
      var next := Dirname(tmp, d);
      if |next| < |dir| && Contains(dir, next) && (dir[|next|] == d || DropLast(next) == SplitFirst(dir, d)) {
        return Some(next);
      }
      if |next| == |tmp| {
        // dirname is at its fixed point: the source would test the same candidate forever
        return None;
      }
      tmp := next;
    }
  }

  /** The descend test: `prev_dir in dir and dir.rfind(delim) > prev_dir.rfind(delim)`. */
  predicate Descends(prev: string, dir: string, d: char) {
    Contains(dir, prev) && RFind(dir, d) > RFind(prev, d)
  }

  /** The descend test only holds for a directory strictly longer than the previous one. */
  lemma DescendsLonger(prev: string, dir: string, d: char)
    requires Descends(prev, dir, d)
    ensures |prev| < |dir| && prev != dir
  {
    if |prev| == |dir| {
      ContainsSameLength(dir, prev);
    }
  }

  /** The directories to close, the directories to open, and the new first_level flag. */
  datatype Move = Move(ends: seq<string>, news: seq<string>, first: bool)

  /** One iteration's decision, for the previous and current directory. */
  function Transition(prev: string, dir: string, first: bool, d: char): Result<Move, Failure> {
    if dir == prev then Ok(Move([], [], first))
    else if Descends(prev, dir, d) then
      var news := Segments(dir[|prev|..], d);
      if !first then Ok(Move([], news, false))
      else if news == [] then Err(NoFirstSegment)
      else Ok(Move([], [[d, d] + news[0]] + news[1..], false))
    else
      match Ancestor(prev, dir, d)
      case None => Err(NoCommonAncestor)
      case Some(t) => Ok(Move(Segments(prev[|t|..], d), Segments(dir[|t|..], d), first))
  }

  /**
   * The branch structure of build_xml's loop body, up to the builder calls
   * it makes: nothing moves when the directory is unchanged; a descend opens
   * the segments of dir beyond prev, the very first one marked with
   * delim+delim; an ascend closes prev's part beyond the accepted ancestor
   * and opens dir's.
   */
  method ComputeMove(prev: string, dir: string, first: bool, d: char) returns (r: Result<Move, Failure>)
    ensures r == Transition(prev, dir, first, d)
    ensures dir == prev ==> r == Ok(Move([], [], first))
    ensures dir != prev && Descends(prev, dir, d) ==>
      var news := Segments(dir[|prev|..], d);
      && (r.Err? <==> first && news == [])
      && (r.Err? ==> r.error == NoFirstSegment)
      && (r.Ok? ==> r.value.ends == [] && !r.value.first
                    && r.value.news == (if first then [[d, d] + news[0]] + news[1..] else news))
    ensures dir != prev && !Descends(prev, dir, d) ==>
      && (r.Err? <==> Ancestor(prev, dir, d).None?)
      && (r.Err? ==> r.error == NoCommonAncestor)
      && (r.Ok? ==> var t := Ancestor(prev, dir, d).value;
            && Accepts(t, dir, d) && t <= prev
            && r.value == Move(Segments(prev[|t|..], d), Segments(dir[|t|..], d), first))
  {
    if dir == prev {
      return Ok(Move([], [], first));
    }
    if Contains(dir, prev) && RFind(dir, d) > RFind(prev, d) {
      var news := Segments(dir[|prev|..], d);
      if !first {
        return Ok(Move([], news, false));
      }
      if news == [] {
        return Err(NoFirstSegment);
      }
      return Ok(Move([], [[d, d] + news[0]] + news[1..], false));
    }
    var t := FindCommonAncestor(prev, dir, d);
    if t.None? {
      return Err(NoCommonAncestor);
    }
    return Ok(Move(Segments(prev[|t.value|..], d), Segments(dir[|t.value|..], d), first));
  }

  /** What one file contributes: end_levels, then add_levels, then add_file. */
  function StepEvents(m: Move, path: string, st: Option<Stat>): seq<Event> {
    Closes(|m.ends|) + Opens(m.news) + [File(path, st)]
  }

  /** The events of the whole loop over the path list (close_directories excluded). */
  function Track(paths: seq<string>, prev: string, first: bool, d: char, stat: string -> Option<Stat>): Result<seq<Event>, Failure>
    decreases |paths|
  {
    if paths == [] then Ok([])
    else
      var dir := Dirname(paths[0], d);
      match Transition(prev, dir, first, d)
      case Err(e) => Err(e)
      case Ok(m) => Then(StepEvents(m, paths[0], stat(paths[0])), Track(paths[1..], dir, m.first, d, stat))
  }

  /** Events already emitted, followed by the outcome of the rest. */
  function Then(pre: seq<Event>, r: Result<seq<Event>, Failure>): Result<seq<Event>, Failure> {
    match r
    case Ok(v) => Ok(pre + v)
    case Err(e) => Err(e)
  }

  lemma ThenThen(a: seq<Event>, b: seq<Event>, r: Result<seq<Event>, Failure>)
    ensures Then(a, Then(b, r)) == Then(a + b, r)
  {
    if r.Ok? {
      assert a + (b + r.value) == (a + b) + r.value;
    }
  }

  // ---- properties of the tracker that hold for every input ----

  /** Every opened name is a non-empty segment without the delimiter. */
  ghost predicate PlainOpens(evs: seq<Event>, d: char) {
    forall i :: 0 <= i < |evs| && evs[i].Open? ==> Segment(evs[i].name, d)
  }

  /** Every opened name but the first opened one is a plain segment. */
  ghost predicate OnlyFirstMarked(evs: seq<Event>, d: char) {
    forall i, j :: 0 <= i < j < |evs| && evs[i].Open? && evs[j].Open? ==> Segment(evs[j].name, d)
  }

  lemma PlainOpensAppend(a: seq<Event>, b: seq<Event>, d: char)
    requires PlainOpens(a, d) && PlainOpens(b, d)
    ensures PlainOpens(a + b, d)
  {
    forall i | 0 <= i < |a + b| && (a + b)[i].Open? ensures Segment((a + b)[i].name, d) {
      if i >= |a| { assert (a + b)[i] == b[i - |a|]; }
    }
  }

  lemma {:induction false} PlainOpensOf(names: seq<string>, d: char)
    requires ValidSegs(names, d)
    ensures PlainOpens(Opens(names), d)
  {
    if names != [] {
      PlainOpensOf(names[1..], d);
      PlainOpensAppend([Open(names[0])], Opens(names[1..]), d);
    }
  }

  lemma {:induction false} ClosesHaveNoOpens(n: nat, d: char)
    ensures PlainOpens(Closes(n), d)
    ensures forall i :: 0 <= i < |Closes(n)| ==> Closes(n)[i] == Close
  {
    if n > 0 {
      ClosesHaveNoOpens(n - 1, d);
    }
  }

  /** Without first_level, a step opens only plain segments. */
  lemma PlainStep(prev: string, dir: string, d: char, path: string, st: Option<Stat>)
    requires Transition(prev, dir, false, d).Ok?
    ensures Transition(prev, dir, false, d).value.first == false
    ensures PlainOpens(StepEvents(Transition(prev, dir, false, d).value, path, st), d)
  {
    var m := Transition(prev, dir, false, d).value;
    if dir != prev {
      if Descends(prev, dir, d) {
        SegmentsAreNames(dir[|prev|..], d);
      } else {
        var t := Ancestor(prev, dir, d).value;
        SegmentsAreNames(dir[|t|..], d);
      }
    }
    assert ValidSegs(m.news, d);
    PlainOpensOf(m.news, d);
    ClosesHaveNoOpens(|m.ends|, d);
    PlainOpensAppend(Closes(|m.ends|), Opens(m.news), d);
    PlainOpensAppend(Closes(|m.ends|) + Opens(m.news), [File(path, st)], d);
  }

  /** Once first_level is false it stays false, and no later directory name carries the prefix. */
  lemma {:induction false} TrackAfterFirstIsPlain(paths: seq<string>, prev: string, d: char, stat: string -> Option<Stat>)
    requires Track(paths, prev, false, d, stat).Ok?
    ensures PlainOpens(Track(paths, prev, false, d, stat).value, d)
    decreases |paths|
  {
    if paths != [] {
      var dir := Dirname(paths[0], d);
      var m := Transition(prev, dir, false, d).value;
      PlainStep(prev, dir, d, paths[0], stat(paths[0]));
      TrackAfterFirstIsPlain(paths[1..], dir, d, stat);
      PlainOpensAppend(StepEvents(m, paths[0], stat(paths[0])), Track(paths[1..], dir, false, d, stat).value, d);
    }
  }

  /** With prev_dir still "", the ascend search cannot succeed: the first directory change is a descend or fails. */
  lemma NoAscendFromStart(dir: string, d: char)
    requires dir != [] && !Descends([], dir, d)
    ensures Ancestor([], dir, d).None?
  {
    assert Contains(dir, []);
    assert d !in dir;
    assert Dirname([], d) == [];
    SplitName(dir, d);
    assert !Accepts([], dir, d);
  }

  lemma OnlyFirstMarkedAfterPlain(a: seq<Event>, b: seq<Event>, d: char)
    requires forall i :: 0 <= i < |a| ==> !a[i].Open?
    requires OnlyFirstMarked(b, d)
    ensures OnlyFirstMarked(a + b, d)
  {
    forall i, j | 0 <= i < j < |a + b| && (a + b)[i].Open? && (a + b)[j].Open?
      ensures Segment((a + b)[j].name, d)
    {
      assert i >= |a|;
      assert (a + b)[i] == b[i - |a|] && (a + b)[j] == b[j - |a|];
    }
  }

  lemma OnlyFirstMarkedHead(x: Event, b: seq<Event>, d: char)
    requires PlainOpens(b, d)
    ensures OnlyFirstMarked([x] + b, d)
  {
    forall i, j | 0 <= i < j < |[x] + b| && ([x] + b)[i].Open? && ([x] + b)[j].Open?
      ensures Segment(([x] + b)[j].name, d)
    {
      assert ([x] + b)[j] == b[j - 1];
    }
  }

  /** The first descend opens the prefixed name and then plain segments only. */
  lemma FirstDescendMarked(prev: string, dir: string, d: char, path: string, st: Option<Stat>, rest: seq<Event>)
    requires dir != prev && Descends(prev, dir, d)
    requires Transition(prev, dir, true, d).Ok?
    requires PlainOpens(rest, d)
    ensures OnlyFirstMarked(StepEvents(Transition(prev, dir, true, d).value, path, st) + rest, d)
  {
    var m := Transition(prev, dir, true, d).value;
    var news := Segments(dir[|prev|..], d);
    SegmentsAreNames(dir[|prev|..], d);
    assert m.news == [[d, d] + news[0]] + news[1..];
    assert ValidSegs(news[1..], d);
    PlainOpensOf(news[1..], d);
    var tail := Opens(news[1..]) + [File(path, st)];
    PlainOpensAppend(Opens(news[1..]), [File(path, st)], d);
    PlainOpensAppend(tail, rest, d);
    assert Opens(m.news) == [Open([d, d] + news[0])] + Opens(news[1..]);
    assert StepEvents(m, path, st) + rest == [Open([d, d] + news[0])] + (tail + rest);
    OnlyFirstMarkedHead(Open([d, d] + news[0]), tail + rest, d);
  }

  /**
   * Only the first directory transition of a build prefixes a name with
   * delim+delim: every directory opened after the first one is a plain segment.
   */
  lemma {:induction false} OnlyFirstOpenIsMarked(paths: seq<string>, prev: string, first: bool, d: char, stat: string -> Option<Stat>)
    requires first ==> prev == []
    requires Track(paths, prev, first, d, stat).Ok?
    ensures OnlyFirstMarked(Track(paths, prev, first, d, stat).value, d)
    decreases |paths|
  {
    var evs := Track(paths, prev, first, d, stat).value;
    if !first {
      TrackAfterFirstIsPlain(paths, prev, d, stat);
    } else if paths != [] {
      var dir := Dirname(paths[0], d);
      var m := Transition(prev, dir, first, d).value;
      var st := stat(paths[0]);
      var rest := Track(paths[1..], dir, m.first, d, stat).value;
      assert evs == StepEvents(m, paths[0], st) + rest;
      if dir == prev {
        OnlyFirstOpenIsMarked(paths[1..], dir, true, d, stat);
        assert StepEvents(m, paths[0], st) == [File(paths[0], st)];
        OnlyFirstMarkedAfterPlain([File(paths[0], st)], rest, d);
      } else if Descends(prev, dir, d) {
        TrackAfterFirstIsPlain(paths[1..], dir, d, stat);
        FirstDescendMarked(prev, dir, d, paths[0], st, rest);
      } else {
        NoAscendFromStart(dir, d);
        assert false;
      }
    }
  }

  /** When a file's directory is the previous one, only its file entry is written and first_level is kept. */
  lemma SameDirectoryOnlyFile(dir: string, first: bool, d: char, path: string, st: Option<Stat>)
    ensures Transition(dir, dir, first, d) == Ok(Move([], [], first))
    ensures StepEvents(Move([], [], first), path, st) == [File(path, st)]
  {
    assert Closes(0) + Opens([]) == [];
  }

  /** The paths of the file events, in order. */
  function FilePaths(evs: seq<Event>): seq<string> {
    if evs == [] then []
    else (if evs[0].File? then [evs[0].path] else []) + FilePaths(evs[1..])
  }

  lemma {:induction false} FilePathsAppend(a: seq<Event>, b: seq<Event>)
    ensures FilePaths(a + b) == FilePaths(a) + FilePaths(b)
  {
    if a == [] {
      assert a + b == b;
    } else {
      assert (a + b)[1..] == a[1..] + b;
      FilePathsAppend(a[1..], b);
    }
  }

  lemma {:induction false} FilePathsOfMoves(n: nat, names: seq<string>)
    ensures FilePaths(Closes(n) + Opens(names)) == []
  {
    if n > 0 {
      assert (Closes(n) + Opens(names))[1..] == Closes(n - 1) + Opens(names);
      FilePathsOfMoves(n - 1, names);
    } else if names != [] {
      assert Closes(n) + Opens(names) == Opens(names);
      assert Opens(names)[1..] == Closes(0) + Opens(names[1..]);
      FilePathsOfMoves(0, names[1..]);
    }
  }

  /** A successful loop adds every listed path exactly once, in listing order. */
  lemma {:induction false} TrackListsEveryFile(paths: seq<string>, prev: string, first: bool, d: char, stat: string -> Option<Stat>)
    requires Track(paths, prev, first, d, stat).Ok?
    ensures FilePaths(Track(paths, prev, first, d, stat).value) == paths
    decreases |paths|
  {
    if paths != [] {
      var dir := Dirname(paths[0], d);
      var m := Transition(prev, dir, first, d).value;
      var step := StepEvents(m, paths[0], stat(paths[0]));
      TrackListsEveryFile(paths[1..], dir, m.first, d, stat);
      FilePathsOfMoves(|m.ends|, m.news);
      FilePathsAppend(Closes(|m.ends|) + Opens(m.news), [File(paths[0], stat(paths[0]))]);
      FilePathsAppend(step, Track(paths[1..], dir, m.first, d, stat).value);
      assert [File(paths[0], stat(paths[0]))][1..] == [];
      assert paths == [paths[0]] + paths[1..];
    }
  }

  /**
   * In the ascend case the chosen ancestor is strictly shorter than the new
   * directory and occurs in it, and it is a prefix of the previous
   * directory; the previous branch is closed before the new one is opened.
   */
  lemma AscendChoosesAncestor(prev: string, dir: string, first: bool, d: char)
    requires dir != prev && !Descends(prev, dir, d)
    requires Transition(prev, dir, first, d).Ok?
    ensures Ancestor(prev, dir, d).Some?
    ensures var t := Ancestor(prev, dir, d).value;
      && |t| < |dir| && Contains(dir, t) && t <= prev
      && Transition(prev, dir, first, d).value == Move(Segments(prev[|t|..], d), Segments(dir[|t|..], d), first)
  {
  }
}
