/**
 * Concrete listings worked through the model: the three-file listing
 * /root/a/f1.txt, /root/a/f2.txt, /root/b/f3.txt, and listings on which the
 * tracker misplaces a directory or does not finish.
 */
module Examples {
  import opened Wrappers
  import opened Paths
  import opened Document
  import opened Delta
  import opened Correctness

  /** The tracker's first step, when its outcome is known. */
  lemma TrackHead(paths: seq<string>, prev: string, first: bool, d: char, stat: string -> Option<Stat>, m: Move)
    requires paths != [] && Transition(prev, Dirname(paths[0], d), first, d) == Ok(m)
    ensures Track(paths, prev, first, d, stat)
      == Then(StepEvents(m, paths[0], stat(paths[0])), Track(paths[1..], Dirname(paths[0], d), m.first, d, stat))
  {
  }

  lemma RootA()
    ensures Path(["root", "a"], '/') == "/root/a" && Path(["root", "b"], '/') == "/root/b"
    ensures ValidSegs(["root", "a"], '/') && ValidSegs(["root", "b"], '/')
  {
    assert Path(["root"], '/') == "/root";
    assert ["root", "a"][..1] == ["root"] && ["root", "b"][..1] == ["root"];
  }

  lemma DirsOfThree()
    ensures Dirname("/root/a/f1.txt", '/') == "/root/a"
    ensures Dirname("/root/a/f2.txt", '/') == "/root/a"
    ensures Dirname("/root/b/f3.txt", '/') == "/root/b"
  {
    RootA();
    FileName(["root", "a"], "f1.txt", "/root/a/f1.txt");
    FileName(["root", "a"], "f2.txt", "/root/a/f2.txt");
    FileName(["root", "b"], "f3.txt", "/root/b/f3.txt");
  }

  lemma FileName(segs: seq<string>, name: string, p: string)
    requires segs != [] && ValidSegs(segs, '/') && Segment(name, '/') && p == Path(segs, '/') + "/" + name
    ensures Dirname(p, '/') == Path(segs, '/')
  {
    assert (segs + [name])[..|segs|] == segs;
    assert ValidSegs(segs + [name], '/');
    FileDir(segs, name, '/');
  }

  lemma SeparatedAB()
    ensures Separated(["root", "a"], ["root", "b"], '/')
  {
    var a, b := ["root", "a"], ["root", "b"];
    RootA();
    assert a[..2] == a && a[..1] == b[..1];
    ContainsSameLength("/root/b", "/root/a");
  }

  lemma MovesOfThree()
    ensures Transition([], "/root/a", true, '/') == Ok(Move([], ["//root", "a"], false))
    ensures Transition("/root/a", "/root/a", false, '/') == Ok(Move([], [], false))
    ensures Transition("/root/a", "/root/b", false, '/') == Ok(Move(["a"], ["b"], false))
  {
    FirstMoveA();
    AscendAB();
  }

  lemma FirstMoveA()
    ensures Transition([], "/root/a", true, '/') == Ok(Move([], ["//root", "a"], false))
  {
    var a := ["root", "a"];
    RootA();
    FirstTransition(a, '/');
    assert ['/', '/'] + a[0] == "//root" && a[1..] == ["a"];
    assert [['/', '/'] + a[0]] + a[1..] == ["//root", "a"];
  }

  lemma AscendAB()
    ensures Transition("/root/a", "/root/b", false, '/') == Ok(Move(["a"], ["b"], false))
  {
    var a, b := ["root", "a"], ["root", "b"];
    RootA();
    SeparatedAB();
    assert a[..1] == b[..1] && a[..1] <= b;
    assert Cut(a, b, 2) == 1;
    AscendWF(a, b, '/');
    assert a[1..] == ["a"] && b[1..] == ["b"];
  }

  lemma StepsOfThree(s1: Option<Stat>, s2: Option<Stat>, s3: Option<Stat>)
    ensures StepEvents(Move([], ["//root", "a"], false), "/root/a/f1.txt", s1)
      == [Open("//root"), Open("a"), File("/root/a/f1.txt", s1)]
    ensures StepEvents(Move([], [], false), "/root/a/f2.txt", s2) == [File("/root/a/f2.txt", s2)]
    ensures StepEvents(Move(["a"], ["b"], false), "/root/b/f3.txt", s3) == [Close, Open("b"), File("/root/b/f3.txt", s3)]
  {
    assert Opens(["a"]) == [Open("a")] by { assert ["a"][1..] == []; }
    assert ["//root", "a"][1..] == ["a"];
    assert Opens(["//root", "a"]) == [Open("//root"), Open("a")];
    assert Opens(["b"]) == [Open("b")] by { assert ["b"][1..] == []; }
    assert Closes(1) == [Close];
  }

  /** Three steps of the tracker whose moves are known, over any paths. */
  lemma TrackOfThree(p1: string, p2: string, p3: string, dirA: string, dirB: string,
                     stat: string -> Option<Stat>, m1: Move, m2: Move, m3: Move)
    requires Dirname(p1, '/') == dirA && Dirname(p2, '/') == dirA && Dirname(p3, '/') == dirB
    requires Transition([], dirA, true, '/') == Ok(m1) && !m1.first
    requires Transition(dirA, dirA, false, '/') == Ok(m2) && !m2.first
    requires Transition(dirA, dirB, false, '/') == Ok(m3)
    ensures Track([p1, p2, p3], [], true, '/', stat)
      == Ok(StepEvents(m1, p1, stat(p1)) + StepEvents(m2, p2, stat(p2)) + StepEvents(m3, p3, stat(p3)))
  {
    var e1, e2, e3 := StepEvents(m1, p1, stat(p1)), StepEvents(m2, p2, stat(p2)), StepEvents(m3, p3, stat(p3));
    assert [p3][1..] == [];
    TrackCons([p3], dirA, false, '/', stat, m3, []);
    assert e3 + [] == e3;
    assert [p2, p3][1..] == [p3];
    TrackCons([p2, p3], dirA, false, '/', stat, m2, e3);
    assert [p1, p2, p3][1..] == [p2, p3];
    TrackCons([p1, p2, p3], [], true, '/', stat, m1, e2 + e3);
    assert e1 + (e2 + e3) == e1 + e2 + e3;
  }

  /** A first step with a known move, followed by a rest with known events. */
  lemma TrackCons(paths: seq<string>, prev: string, first: bool, d: char, stat: string -> Option<Stat>, m: Move, rest: seq<Event>)
    requires paths != [] && Transition(prev, Dirname(paths[0], d), first, d) == Ok(m)
    requires Track(paths[1..], Dirname(paths[0], d), m.first, d, stat) == Ok(rest)
    ensures Track(paths, prev, first, d, stat) == Ok(StepEvents(m, paths[0], stat(paths[0])) + rest)
  {
    TrackHead(paths, prev, first, d, stat, m);
  }

  /**
   * The three-file listing: "//root" (the first segment with the
   * delim+delim prefix, whose basename "root" is what add_levels writes) and
   * "a" are opened, both files of a are added, a is closed, b is opened and
   * its file added.
   */
  lemma ThreeFiles(stat: string -> Option<Stat>)
    ensures Track(["/root/a/f1.txt", "/root/a/f2.txt", "/root/b/f3.txt"], [], true, '/', stat)
      == Ok([Open("//root"), Open("a"), File("/root/a/f1.txt", stat("/root/a/f1.txt")),
             File("/root/a/f2.txt", stat("/root/a/f2.txt")),
             Close, Open("b"), File("/root/b/f3.txt", stat("/root/b/f3.txt"))])
  {
    var p1, p2, p3 := "/root/a/f1.txt", "/root/a/f2.txt", "/root/b/f3.txt";
    var s1, s2, s3 := stat(p1), stat(p2), stat(p3);
    DirsOfThree();
    MovesOfThree();
    StepsOfThree(s1, s2, s3);
    TrackOfThree(p1, p2, p3, "/root/a", "/root/b", stat, Move([], ["//root", "a"], false), Move([], [], false), Move(["a"], ["b"], false));
    Concat3(Open("//root"), Open("a"), File(p1, s1), File(p2, s2), Close, Open("b"), File(p3, s3));
  }

  /** The three steps' events joined; kept apart from ThreeFiles, where it is too costly to prove inline. */
  lemma Concat3(a: Event, b: Event, c: Event, e: Event, f: Event, g: Event, h: Event)
    ensures [a, b, c] + [e] + [f, g, h] == [a, b, c, e, f, g, h]
  {
  }

  /**
   * After the three files the counter stands at 1, so close_directories
   * closes b and root: three directories are opened and three closed.
   */
  lemma ThreeFilesClosed(f1: Event, f2: Event, f3: Event)
    requires f1.File? && f2.File? && f3.File?
    ensures var evs := [Open("//root"), Open("a"), f1, f2, Close, Open("b"), f3];
      && LevelAfter(evs, -1) == 1
      && NumOpen(evs + Closes(2)) == 3 && NumClose(evs + Closes(2)) == 3
  {
    var e1, e2, e3 := [Open("//root"), Open("a"), f1], [f2, Close], [Open("b"), f3];
    assert e1[1..] == [Open("a"), f1] && e1[1..][1..] == [f1] && e1[1..][1..][1..] == [];
    assert e2[1..] == [Close] && e2[1..][1..] == [];
    assert e3[1..] == [f3] && e3[1..][1..] == [];
    assert NumOpen(e1[1..][1..]) == 0 && NumClose(e1[1..][1..]) == 0;
    assert NumOpen(e1) == 2 && NumClose(e1) == 0;
    assert NumOpen(e2) == 0 && NumClose(e2) == 1;
    assert NumOpen(e3) == 1 && NumClose(e3) == 0;
    NumAppend(e1, e2);
    NumAppend(e1 + e2, e3);
    var evs := e1 + e2 + e3;
    assert evs == [Open("//root"), Open("a"), f1, f2, Close, Open("b"), f3];
    LevelAfterCounts(evs, -1);
    NumAppend(evs, Closes(2));
    NumOfCloses(2);
  }

  /** The tracker stops at its first step when that step fails. */
  lemma TrackHeadFails(paths: seq<string>, prev: string, first: bool, d: char, stat: string -> Option<Stat>, e: Failure)
    requires paths != [] && Transition(prev, Dirname(paths[0], d), first, d) == Err(e)
    ensures Track(paths, prev, first, d, stat) == Err(e)
  {
  }

  // ---- the substring test of the descend branch ----

  lemma PathsOfQuirk()
    ensures Path(["x", "ab"], '/') == "/x/ab" && Path(["x", "abc", "d"], '/') == "/x/abc/d"
    ensures ValidSegs(["x", "ab"], '/') && ValidSegs(["x", "abc", "d"], '/')
  {
    assert Path(["x"], '/') == "/x";
    assert ["x", "ab"][..1] == ["x"] && ["x", "abc", "d"][..2] == ["x", "abc"] && ["x", "abc"][..1] == ["x"];
  }

  /**
   * "/x/ab" is a prefix of "/x/abc/d" and has fewer separators, so the
   * descend branch is taken although abc is a sibling of ab, not inside it:
   * "c" and "d" are opened below ab.
   */
  lemma SiblingTakenForChild()
    ensures Transition("/x/ab", "/x/abc/d", false, '/') == Ok(Move([], ["c", "d"], false))
  {
    SiblingDescends();
    SiblingSuffix();
  }

  lemma SiblingDescends()
    ensures Descends("/x/ab", "/x/abc/d", '/')
  {
    var prev, dir := "/x/ab", "/x/abc/d";
    assert prev <= dir;
    PrefixContains(dir, prev);
    assert "/x" + "/" + "ab" == prev && "/x/abc" + "/" + "d" == dir;
    RFindAfterSep("/x", "ab", '/');
    RFindAfterSep("/x/abc", "d", '/');
  }

  lemma SiblingSuffix()
    ensures Segments("/x/abc/d"[|"/x/ab"|..], '/') == ["c", "d"]
  {
    assert "/x/abc/d"[|"/x/ab"|..] == "c" + "/" + "d";
    SplitAfterSep("c", "d", '/');
    SplitName("c", '/');
    assert Split("c" + "/" + "d", '/') == ["c", "d"];
    NonEmptyOfNames(["c", "d"], '/');
  }

  /** The pair is exactly what the Separated precondition of the correctness theorem rules out. */
  lemma SiblingNotSeparated()
    ensures !Separated(["x", "ab"], ["x", "abc", "d"], '/')
  {
    var a, b := ["x", "ab"], ["x", "abc", "d"];
    PathsOfQuirk();
    assert a[..2] == a;
    assert "/x/ab" <= "/x/abc/d";
    PrefixContains("/x/abc/d", "/x/ab");
    assert a[1] != b[1];
  }

  /** A step whose closes and opens leave a stack other than the file's directory misplaces the file. */
  lemma ReplayStepElsewhere(m: Move, p: string, st: Option<Stat>, stack: seq<string>, d: char)
    requires |m.ends| <= |stack| && ValidSegs(m.news, d)
    requires stack[..|stack| - |m.ends|] + m.news != Segments(Dirname(p, d), d)
    ensures Replay(StepEvents(m, p, st), stack, d) == None
  {
    var kept := stack[..|stack| - |m.ends|];
    ReplayMove(m, stack, d);
    ReplayFileElsewhere(p, st, kept + m.news, d);
    ReplayThenNone(Closes(|m.ends|) + Opens(m.news), [File(p, st)], stack, kept + m.news, d);
  }

  /** The closes and opens of a step leave the kept part of the stack followed by the opened names. */
  lemma ReplayMove(m: Move, stack: seq<string>, d: char)
    requires |m.ends| <= |stack| && ValidSegs(m.news, d)
    ensures Replay(Closes(|m.ends|) + Opens(m.news), stack, d) == Some(stack[..|stack| - |m.ends|] + m.news)
  {
    var kept := stack[..|stack| - |m.ends|];
    ReplayCloses(|m.ends|, stack, d);
    ReplayOpens(m.news, kept, d);
    ReplayTwo(Closes(|m.ends|), Opens(m.news), stack, kept, kept + m.news, d);
  }

  lemma ReplayTwo(a: seq<Event>, b: seq<Event>, s0: seq<string>, s1: seq<string>, s2: seq<string>, d: char)
    requires Replay(a, s0, d) == Some(s1) && Replay(b, s1, d) == Some(s2)
    ensures Replay(a + b, s0, d) == Some(s2)
  {
    ReplayAppend(a, b, s0, d);
  }

  lemma ReplayThenNone(a: seq<Event>, c: seq<Event>, s0: seq<string>, s1: seq<string>, d: char)
    requires Replay(a, s0, d) == Some(s1) && Replay(c, s1, d) == None
    ensures Replay(a + c, s0, d) == None
  {
    ReplayAppend(a, c, s0, d);
  }

  lemma ReplayFileElsewhere(p: string, st: Option<Stat>, stack: seq<string>, d: char)
    requires stack != Segments(Dirname(p, d), d)
    ensures Replay([File(p, st)], stack, d) == None
  {
  }

  /** Replaying that step from the stack x/ab does not reach the file's directory x/abc/d: the file is misplaced. */
  lemma SiblingMisplacesFile(st: Option<Stat>)
    ensures Replay(StepEvents(Move([], ["c", "d"], false), "/x/abc/d/f", st), ["x", "ab"], '/') == None
  {
    var b := ["x", "abc", "d"];
    PathsOfQuirk();
    assert Segment("f", '/');
    FileName(b, "f", "/x/abc/d/f");
    SegmentsOfPath(b, '/');
    assert (["x", "ab"] + ["c", "d"])[1] != b[1];
    assert ValidSegs(["c", "d"], '/');
    assert ["x", "ab"][..2] == ["x", "ab"];
    ReplayStepElsewhere(Move([], ["c", "d"], false), "/x/abc/d/f", st, ["x", "ab"], '/');
  }

  // ---- listings on which the source does not finish ----

  /** A first file directly in the root gives no directory to open: `new_dirs[0]` raises. */
  lemma FirstFileInRoot(stat: string -> Option<Stat>)
    ensures Track(["/f"], [], true, '/', stat) == Err(NoFirstSegment)
  {
    DirnameAfterSep([], "f", '/');
    assert [] + "/" + "f" == "/f";
    RFindAfterSep([], [], '/');
    assert [] + "/" + [] == "/";
    SplitAfterSep([], [], '/');
    assert Segments("/"[0..], '/') == [];
    TrackHeadFails(["/f"], [], true, '/', stat, NoFirstSegment);
  }

  /** From a/b to c the dirname chain a, "" never meets c's test: the ascend search spins. */
  lemma NoAncestorOfRelative()
    ensures Ancestor("a/b", "c", '/') == None
  {
    DirnameAfterSep("a", "b", '/');
    assert "a" + "/" + "b" == "a/b";
    assert RFind("a", '/') == -1;
    assert Dirname("a", '/') == [];
    assert Dirname([], '/') == [];
    SplitName("c", '/');
    assert !Accepts([], "c", '/');
  }

  lemma RelativeSecondStep()
    ensures Dirname("c/f", '/') == "c"
    ensures Transition("a/b", "c", false, '/') == Err(NoCommonAncestor)
  {
    DirnameAfterSep("c", "f", '/');
    assert "c" + "/" + "f" == "c/f";
    NoAncestorOfRelative();
  }

  lemma RelativeSegments()
    ensures Segments("a/b", '/') == ["a", "b"]
    ensures RFind("a/b", '/') == 1
  {
    assert "a" + "/" + "b" == "a/b";
    RFindAfterSep("a", "b", '/');
    SplitAfterSep("a", "b", '/');
    SplitName("a", '/');
    NonEmptyOfNames(["a", "b"], '/');
  }

  /** First step of a listing whose first directory holds at least one name. */
  lemma FirstDescend(dir: string, d: char)
    requires Descends([], dir, d) && Segments(dir, d) != []
    ensures var news := Segments(dir, d);
      Transition([], dir, true, d) == Ok(Move([], [[d, d] + news[0]] + news[1..], false))
  {
    assert dir[0..] == dir;
  }

  lemma RelativeFirstDir()
    ensures Dirname("a/b/f", '/') == "a/b"
  {
    DirnameAfterSep("a/b", "f", '/');
    assert "a/b" + "/" + "f" == "a/b/f";
  }

  lemma RelativeFirstStep()
    ensures Transition([], "a/b", true, '/') == Ok(Move([], ["//a", "b"], false))
  {
    RelativeSegments();
    PrefixContains("a/b", []);
    FirstDescend("a/b", '/');
    var news := ["a", "b"];
    assert ['/', '/'] + news[0] == "//a" && news[1..] == ["b"];
    assert [['/', '/'] + news[0]] + news[1..] == ["//a", "b"];
  }

  /**
   * A listing read from a file may hold relative paths: after a/b/f the
   * file c/f has no accepted ancestor, and the source's ascend loop never
   * ends.
   */
  lemma RelativeListingSpins(stat: string -> Option<Stat>)
    ensures Track(["a/b/f", "c/f"], [], true, '/', stat) == Err(NoCommonAncestor)
  {
    var paths := ["a/b/f", "c/f"];
    RelativeFirstDir();
    RelativeFirstStep();
    RelativeSecondStep();
    TrackHead(paths, [], true, '/', stat, Move([], ["//a", "b"], false));
    assert paths[1..] == ["c/f"];
    TrackHeadFails(paths[1..], "a/b", false, '/', stat, NoCommonAncestor);
  }

  /** From /a to the root, dirname("/a") is "/", which is not shorter than "/": the search never stops. */
  lemma NoAncestorOfRoot()
    ensures Ancestor("/a", "/", '/') == None
  {
    DirnameAfterSep([], "a", '/');
    assert [] + "/" + "a" == "/a";
    DirnameRoot('/');
  }

  lemma RootFileLaterDirs()
    ensures Dirname("/a/f", '/') == "/a" && Dirname("/g", '/') == "/"
  {
    DirnameAfterSep("/a", "f", '/');
    DirnameAfterSep([], "g", '/');
    assert "/a" + "/" + "f" == "/a/f" && [] + "/" + "g" == "/g";
  }

  lemma RootFileLaterFirst()
    ensures Transition([], "/a", true, '/') == Ok(Move([], ["//a"], false))
  {
    var b := ["a"];
    assert Path(b[..0], '/') == [];
    assert DirOf(b, '/') == "/a";
    FirstTransition(b, '/');
    assert b[0] == "a" && b[1..] == [];
    assert ['/', '/'] + "a" == "//a";
    assert [['/', '/'] + b[0]] + b[1..] == ["//a"];
  }

  /**
   * A file directly in the root after a file elsewhere: "/" neither
   * contains "/a" nor has any ancestor candidate shorter than itself, so
   * the ascend loop spins.
   */
  lemma RootFileLaterSpins(stat: string -> Option<Stat>)
    ensures Track(["/a/f", "/g"], [], true, '/', stat) == Err(NoCommonAncestor)
  {
    var paths := ["/a/f", "/g"];
    RootFileLaterDirs();
    RootFileLaterFirst();
    NoAncestorOfRoot();
    assert !Descends("/a", "/", '/');
    assert Transition("/a", "/", false, '/') == Err(NoCommonAncestor);
    TrackHead(paths, [], true, '/', stat, Move([], ["//a"], false));
    assert paths[1..] == ["/g"];
    TrackHeadFails(paths[1..], "/a", false, '/', stat, NoCommonAncestor);
  }

  // ---- a parent directory reached from its child ----

  /**
   * From /a/b up to /a, the candidate "/a" fails `len(tmp_dir) < len(dir)`,
   * so the search goes on to the root: both a and b are closed and a is
   * opened again, giving a second, sibling `<directory>` named a.
   */
  lemma ParentReopened()
    ensures Transition("/a/b", "/a", false, '/') == Ok(Move(["a", "b"], ["a"], false))
  {
    var a, b := ["a", "b"], ["a"];
    assert a[..1] == b && Path(b, '/') == "/a";
    assert Path(a, '/') == "/a/b";
    assert ValidSegs(a, '/') && ValidSegs(b, '/');
    assert a[..2] == a;
    assert !Contains("/a", "/a/b");
    assert Separated(a, b, '/');
    assert Cut(a, b, 1) == 0;
    assert Cut(a, b, 2) == 0;
    AscendWF(a, b, '/');
    assert a[0..] == a && b[0..] == b;
  }

  /**
   * From /a/b/c up to /a/b, the candidate "/a/b" is not shorter than dir,
   * so the search stops one level higher, at dir's parent /a: b and c are
   * closed and b is opened again.
   */
  lemma ChildToParent()
    ensures Transition("/a/b/c", "/a/b", false, '/') == Ok(Move(["b", "c"], ["b"], false))
  {
    var a, b := ["a", "b", "c"], ["a", "b"];
    assert a[..1] == b[..1] == ["a"] && a[..2] == b && a[..3] == a;
    assert Path(["a"], '/') == "/a" && Path(b, '/') == "/a/b" && Path(a, '/') == "/a/b/c";
    assert ValidSegs(a, '/') && ValidSegs(b, '/');
    assert !Contains("/a/b", "/a/b/c");
    assert Separated(a, b, '/');
    assert Cut(a, b, 2) == 1;
    assert Cut(a, b, 3) == 1;
    AscendWF(a, b, '/');
    assert a[1..] == ["b", "c"] && b[1..] == ["b"];
  }

  // ---- the ascend test at a directory boundary that is not a prefix ----

  lemma MisfireParts()
    ensures Dirname("/x/a", '/') == "/x"
    ensures Segments("/a", '/') == ["a"] && Segments("/x", '/') == ["x"]
    ensures !Contains("/y/x", "/x/a")
  {
    DirnameAfterSep("/x", "a", '/');
    assert "/x" + "/" + "a" == "/x/a";
    assert Path(["a"], '/') == "/a" && Path(["x"], '/') == "/x";
    SegmentsOfPath(["a"], '/');
    SegmentsOfPath(["x"], '/');
    ContainsSameLength("/y/x", "/x/a");
  }

  /**
   * From /x/a to /y/x, the candidate "/x" occurs in "/y/x" (at index 2)
   * and dir[len("/x")] is '/', so the break test accepts it although it is
   * not a prefix of dir: a is closed and x is opened inside x.
   */
  lemma AscendMisfire()
    ensures Transition("/x/a", "/y/x", false, '/') == Ok(Move(["a"], ["x"], false))
  {
    MisfireParts();
    assert "/y/x"[1..][1..] == "/x";
    assert Contains("/y/x", "/x");
    assert "/y/x"[2] == '/';
    assert Accepts("/x", "/y/x", '/');
    assert Ancestor("/x/a", "/y/x", '/') == Some("/x");
    assert "/x/a"[2..] == "/a" && "/y/x"[2..] == "/x";
  }

  /** The pair is not separated: "/x" occurs in "/y/x" although x is not its first segment. */
  lemma MisfireNotSeparated()
    ensures !Separated(["x", "a"], ["y", "x"], '/')
  {
    assert ["x", "a"][..1] == ["x"] && Path(["x"], '/') == "/x";
    assert ["y", "x"][..1] == ["y"] && Path(["y"], '/') == "/y";
    assert Path(["y", "x"], '/') == "/y/x";
    assert "/y/x"[1..][1..] == "/x";
    assert Contains("/y/x", "/x");
  }

  /** Replaying that step from the stack x/a leaves x/x open, not the file's directory y/x: the file is misplaced. */
  lemma MisfireMisplacesFile(st: Option<Stat>)
    ensures Replay(StepEvents(Move(["a"], ["x"], false), "/y/x/g", st), ["x", "a"], '/') == None
  {
    MisfireFileDir();
    assert ["x", "a"][..1] == ["x"];
    assert (["x"] + ["x"])[0] != ["y", "x"][0];
    assert ValidSegs(["x"], '/');
    ReplayStepElsewhere(Move(["a"], ["x"], false), "/y/x/g", st, ["x", "a"], '/');
  }

  lemma MisfireFileDir()
    ensures Segments(Dirname("/y/x/g", '/'), '/') == ["y", "x"]
  {
    var b := ["y", "x"];
    assert b[..1] == ["y"] && Path(["y"], '/') == "/y" && Path(b, '/') == "/y/x";
    assert ValidSegs(b, '/');
    assert Segment("g", '/');
    FileName(b, "g", "/y/x/g");
    SegmentsOfPath(b, '/');
  }

  /** An empty listing opens nothing and close_directories then writes nothing: the text stays empty. */
  lemma EmptyListing(d: char, stat: string -> Option<Stat>, cfg: Config)
    ensures Track([], [], true, d, stat) == Ok([])
    ensures LevelAfter([], -1) + 1 == 0
    ensures Render(Emit([] + Closes(0), -1, cfg), cfg.eol) == []
  {
    assert [] + Closes(0) == [];
  }
}
