/**
 * The document builder's output, as values: indented lines (add_whitespace),
 * the lines each directory-open, directory-close and file event contributes,
 * and the level counter those events move.
 */
module Document {
  import opened Wrappers
  import opened Paths
  import opened Escape

  /** What the listing object is built with: line ending, path delimiter and the four capture flags. */
  datatype Config = Config(eol: string, delim: char, size: bool, ctime: bool, mtime: bool, atime: bool)

  /** The stat fields add_file prints, already formatted (size in bytes, three timestamps). */
  datatype Stat = Stat(size: string, created: string, modified: string, accessed: string)

  /** One logical line: its indentation level and its text. */
  datatype Line = Line(indent: int, text: string)

  /** n tab characters, none when n is not positive (`range(n)` is empty then). */
  function Tabs(n: int): (r: string)
    ensures |r| == (if n > 0 then n else 0)
    ensures forall i :: 0 <= i < |r| ==> r[i] == '\t'
  {
    if n <= 0 then [] else Tabs(n - 1) + "\t"
  }

  /** add_whitespace: max(n, 0) tabs, the line, then the line ending. */
  function AddWhitespace(line: string, n: int, eol: string): (r: string)
    ensures |r| == (if n > 0 then n else 0) + |line| + |eol|
  {
    Tabs(n) + line + eol
  }

  /** The rendered line is exactly max(n, 0) tabs, the line itself, and the line ending. */
  lemma AddWhitespaceShape(line: string, n: int, eol: string)
    ensures var r := AddWhitespace(line, n, eol);
      var k := if n > 0 then n else 0;
      && (forall i :: 0 <= i < k ==> r[i] == '\t')
      && r[k..k + |line|] == line
      && r[k + |line|..] == eol
  {
    var k := if n > 0 then n else 0;
    var r := AddWhitespace(line, n, eol);
    assert r == Tabs(n) + (line + eol);
    assert r[k..] == line + eol;
    assert r[k..k + |line|] == (line + eol)[..|line|];
  }

  /** The text a sequence of lines is written as. */
  function Render(lines: seq<Line>, eol: string): string {
    if lines == [] then [] else AddWhitespace(lines[0].text, lines[0].indent, eol) + Render(lines[1..], eol)
  }

  lemma {:induction false} RenderAppend(a: seq<Line>, b: seq<Line>, eol: string)
    ensures Render(a + b, eol) == Render(a, eol) + Render(b, eol)
  {
    if a == [] {
      assert a + b == b;
    } else {
      assert (a + b)[1..] == a[1..] + b;
      RenderAppend(a[1..], b, eol);
    }
  }

  /** `<name>%s</name>` around the escaped name. */
  function NameElement(name: string): string {
    NameTag(Escaped(name))
  }

  /** The `<name>%s</name>` format applied to already escaped text. */
  function NameTag(text: string): string {
    "<name>" + text + "</name>"
  }

  /** What the tracker asks the builder to do: open a directory, close one, or add a file. */
  datatype Event = Open(name: string) | Close | File(path: string, stat: Option<Stat>)

  /** A line written only when its flag is set. */
  function Opt(flag: bool, l: Line): seq<Line> {
    if flag then [l] else []
  }

  /** The metadata lines of a file whose stat succeeded, each gated by its flag. */
  function MetaLines(s: Stat, level: int, cfg: Config): seq<Line> {
    Opt(cfg.size, Line(level, "<size>" + s.size + "</size>"))
    + Opt(cfg.ctime, Line(level, "<created_time>" + s.created + "</created_time>"))
    + Opt(cfg.mtime, Line(level, "<modified_time>" + s.modified + "</modified_time>"))
    + Opt(cfg.atime, Line(level, "<accessed_time>" + s.accessed + "</accessed_time>"))
  }

  /** add_file's lines at the given level counter. */
  function FileLines(path: string, st: Option<Stat>, level: int, cfg: Config): seq<Line> {
    [Line(level + 1, "<file>"), Line(level + 2, NameElement(Basename(path, cfg.delim)))]
    + (match st case None => [] case Some(s) => MetaLines(s, level + 2, cfg))
    + [Line(level + 1, "</file>")]
  }

  /** The lines one event contributes when the level counter is `level` before it. */
  function EventLines(e: Event, level: int, cfg: Config): seq<Line> {
    match e
    case Open(n) => [Line(level + 1, "<directory>"), Line(level + 2, NameElement(Basename(n, cfg.delim)))]
    case Close => [Line(level, "</directory>")]
    case File(p, st) => FileLines(p, st, level, cfg)
  }

  /** How an event moves the level counter. */
  function Shift(e: Event): int {
    match e
    case Open(_) => 1
    case Close => -1
    case File(_, _) => 0
  }

  function LevelAfter(evs: seq<Event>, level: int): int {
    if evs == [] then level else LevelAfter(evs[1..], level + Shift(evs[0]))
  }

  /** The lines a sequence of events contributes, starting at `level`. */
  function Emit(evs: seq<Event>, level: int, cfg: Config): seq<Line> {
    if evs == [] then [] else EventLines(evs[0], level, cfg) + Emit(evs[1..], level + Shift(evs[0]), cfg)
  }

  /** add_levels(names) as events. */
  function Opens(names: seq<string>): seq<Event> {
    if names == [] then [] else [Open(names[0])] + Opens(names[1..])
  }

  /** end_levels of n directories (or close_directories at level n - 1) as events. */
  function Closes(n: nat): seq<Event> {
    if n == 0 then [] else [Close] + Closes(n - 1)
  }

  function NumOpen(evs: seq<Event>): nat {
    if evs == [] then 0 else (if evs[0].Open? then 1 else 0) + NumOpen(evs[1..])
  }

  function NumClose(evs: seq<Event>): nat {
    if evs == [] then 0 else (if evs[0].Close? then 1 else 0) + NumClose(evs[1..])
  }

  /** How many lines carry exactly this text. */
  function Count(lines: seq<Line>, text: string): nat {
    if lines == [] then 0 else (if lines[0].text == text then 1 else 0) + Count(lines[1..], text)
  }

  lemma {:induction false} OpensAppend(a: seq<string>, b: seq<string>)
    ensures Opens(a + b) == Opens(a) + Opens(b)
  {
    if a == [] {
      assert a + b == b;
    } else {
      assert (a + b)[1..] == a[1..] + b;
      OpensAppend(a[1..], b);
    }
  }

  lemma {:induction false} ClosesAppend(m: nat, n: nat)
    ensures Closes(m + n) == Closes(m) + Closes(n)
  {
    if m > 0 {
      ClosesAppend(m - 1, n);
    }
  }

  /** Emitting a concatenation emits the first part, then the second from where the first left the counter. */
  lemma {:induction false} NumAppend(a: seq<Event>, b: seq<Event>)
    ensures NumOpen(a + b) == NumOpen(a) + NumOpen(b)
    ensures NumClose(a + b) == NumClose(a) + NumClose(b)
  {
    if a != [] {
      assert (a + b)[1..] == a[1..] + b;
      NumAppend(a[1..], b);
    } else {
      assert a + b == b;
    }
  }

  lemma {:induction false} NumOfCloses(n: nat)
    ensures NumOpen(Closes(n)) == 0 && NumClose(Closes(n)) == n
  {
    if n > 0 {
      NumOfCloses(n - 1);
    }
  }

  lemma {:induction false} EmitAppend(a: seq<Event>, b: seq<Event>, level: int, cfg: Config)
    ensures Emit(a + b, level, cfg) == Emit(a, level, cfg) + Emit(b, LevelAfter(a, level), cfg)
    ensures LevelAfter(a + b, level) == LevelAfter(b, LevelAfter(a, level))
  {
    if a == [] {
      assert a + b == b;
    } else {
      assert (a + b)[1..] == a[1..] + b;
      EmitAppend(a[1..], b, level + Shift(a[0]), cfg);
    }
  }

  /** The counter ends where it started, plus one per open, minus one per close. */
  lemma {:induction false} LevelAfterCounts(evs: seq<Event>, level: int)
    ensures LevelAfter(evs, level) == level + NumOpen(evs) - NumClose(evs)
  {
    if evs != [] {
      LevelAfterCounts(evs[1..], level + Shift(evs[0]));
    }
  }

  lemma {:induction false} CountAppend(a: seq<Line>, b: seq<Line>, text: string)
    ensures Count(a + b, text) == Count(a, text) + Count(b, text)
  {
    if a == [] {
      assert a + b == b;
    } else {
      assert (a + b)[1..] == a[1..] + b;
      CountAppend(a[1..], b, text);
    }
  }

  lemma CountOne(l: Line, text: string)
    ensures Count([l], text) == if l.text == text then 1 else 0
  {
    assert [l][1..] == [];
  }

  /** A text whose second character is neither 'd' nor '/' is neither directory tag. */
  lemma NotDirectoryTag(l: Line)
    requires |l.text| >= 2 && l.text[1] != 'd' && l.text[1] != '/'
    ensures Count([l], "<directory>") == 0 && Count([l], "</directory>") == 0
  {
    CountOne(l, "<directory>");
    CountOne(l, "</directory>");
    assert "<directory>"[1] == 'd';
    assert "</directory>"[1] == '/';
  }

  lemma NameIsNotDirectoryTag(level: int, name: string)
    ensures Count([Line(level, NameElement(name))], "<directory>") == 0
    ensures Count([Line(level, NameElement(name))], "</directory>") == 0
  {
    assert NameElement(name)[1] == 'n';
    NotDirectoryTag(Line(level, NameElement(name)));
  }

  lemma OptionalLine(flag: bool, l: Line)
    requires |l.text| >= 2 && l.text[1] != 'd' && l.text[1] != '/'
    ensures Count(Opt(flag, l), "<directory>") == 0
    ensures Count(Opt(flag, l), "</directory>") == 0
  {
    if flag { NotDirectoryTag(l); }
  }

  lemma MetaLinesAreNotDirectoryTags(s: Stat, level: int, cfg: Config)
    ensures Count(MetaLines(s, level, cfg), "<directory>") == 0
    ensures Count(MetaLines(s, level, cfg), "</directory>") == 0
  {
    var la := Line(level, "<size>" + s.size + "</size>");
    var lb := Line(level, "<created_time>" + s.created + "</created_time>");
    var lc := Line(level, "<modified_time>" + s.modified + "</modified_time>");
    var le := Line(level, "<accessed_time>" + s.accessed + "</accessed_time>");
    assert la.text[1] == 's' && lb.text[1] == 'c' && lc.text[1] == 'm' && le.text[1] == 'a';
    var a := Opt(cfg.size, la);
    var b := Opt(cfg.ctime, lb);
    var c := Opt(cfg.mtime, lc);
    var e := Opt(cfg.atime, le);
    OptionalLine(cfg.size, la);
    OptionalLine(cfg.ctime, lb);
    OptionalLine(cfg.mtime, lc);
    OptionalLine(cfg.atime, le);
    CountAppend(a, b, "<directory>");
    CountAppend(a + b, c, "<directory>");
    CountAppend(a + b + c, e, "<directory>");
    CountAppend(a, b, "</directory>");
    CountAppend(a + b, c, "</directory>");
    CountAppend(a + b + c, e, "</directory>");
  }

  lemma FileLinesAreNotDirectoryTags(path: string, st: Option<Stat>, level: int, cfg: Config)
    ensures Count(FileLines(path, st, level, cfg), "<directory>") == 0
    ensures Count(FileLines(path, st, level, cfg), "</directory>") == 0
  {
    var l1 := Line(level + 1, "<file>");
    var l2 := Line(level + 2, NameElement(Basename(path, cfg.delim)));
    var l3 := Line(level + 1, "</file>");
    var meta := match st case None => [] case Some(s) => MetaLines(s, level + 2, cfg);
    assert "<file>"[1] == 'f';
    NotDirectoryTag(l1);
    NameIsNotDirectoryTag(level + 2, NameElement(Basename(path, cfg.delim)));
    CountPair(l1, l2, "<directory>");
    CountPair(l1, l2, "</directory>");
    CountOne(l3, "<directory>");
    CountOne(l3, "</directory>");
    assert l3.text != "</directory>" by { assert "</directory>"[2] == 'd' && "</file>"[2] == 'f'; }
    if st.Some? {
      MetaLinesAreNotDirectoryTags(st.value, level + 2, cfg);
    }
    NoTagsInThree([l1, l2], meta, [l3]);
  }

  lemma CountPair(a: Line, b: Line, text: string)
    ensures Count([a, b], text) == Count([a], text) + Count([b], text)
  {
    assert [a, b][1..] == [b];
  }

  lemma NoTagsInThree(a: seq<Line>, b: seq<Line>, c: seq<Line>)
    requires Count(a, "<directory>") == 0 && Count(b, "<directory>") == 0 && Count(c, "<directory>") == 0
    requires Count(a, "</directory>") == 0 && Count(b, "</directory>") == 0 && Count(c, "</directory>") == 0
    ensures Count(a + b + c, "<directory>") == 0 && Count(a + b + c, "</directory>") == 0
  {
    CountAppend(a, b, "<directory>");
    CountAppend(a + b, c, "<directory>");
    CountAppend(a, b, "</directory>");
    CountAppend(a + b, c, "</directory>");
  }

  /** One event's lines hold one `<directory>` line per open and one `</directory>` line per close. */
  lemma EventCounts(e: Event, level: int, cfg: Config)
    ensures Count(EventLines(e, level, cfg), "<directory>") == (if e.Open? then 1 else 0)
    ensures Count(EventLines(e, level, cfg), "</directory>") == (if e.Close? then 1 else 0)
  {
    match e
    case Open(n) =>
      var a := [Line(level + 1, "<directory>")];
      var b := [Line(level + 2, NameElement(Basename(n, cfg.delim)))];
      CountOne(a[0], "<directory>");
      CountOne(a[0], "</directory>");
      NameIsNotDirectoryTag(level + 2, NameElement(Basename(n, cfg.delim)));
      assert EventLines(e, level, cfg) == a + b;
      CountAppend(a, b, "<directory>");
      CountAppend(a, b, "</directory>");
    case Close =>
      CountOne(Line(level, "</directory>"), "<directory>");
      CountOne(Line(level, "</directory>"), "</directory>");
    case File(p, st) =>
      FileLinesAreNotDirectoryTags(p, st, level, cfg);
  }

  /** Both tag counts of the lines of one event followed by more lines. */
  lemma EventThenCounts(e: Event, rest: seq<Line>, level: int, cfg: Config)
    ensures Count(EventLines(e, level, cfg) + rest, "<directory>") == (if e.Open? then 1 else 0) + Count(rest, "<directory>")
    ensures Count(EventLines(e, level, cfg) + rest, "</directory>") == (if e.Close? then 1 else 0) + Count(rest, "</directory>")
  {
    EventCounts(e, level, cfg);
    CountAppend(EventLines(e, level, cfg), rest, "<directory>");
    CountAppend(EventLines(e, level, cfg), rest, "</directory>");
  }

  /** Every opening `<directory>` line comes from an open, every `</directory>` line from a close. */
  lemma {:induction false} EmitCounts(evs: seq<Event>, level: int, cfg: Config)
    ensures Count(Emit(evs, level, cfg), "<directory>") == NumOpen(evs)
    ensures Count(Emit(evs, level, cfg), "</directory>") == NumClose(evs)
  {
    if evs != [] {
      EmitCounts(evs[1..], level + Shift(evs[0]), cfg);
      EventThenCounts(evs[0], Emit(evs[1..], level + Shift(evs[0]), cfg), level, cfg);
    }
  }

  /**
   * Once close_directories has brought the counter from where the loop left
   * it back to -1, the document holds as many closing directory tags as
   * opening ones beyond the levels already open at the start.
   */
  lemma ClosedTagsBalance(evs: seq<Event>, level: int, cfg: Config)
    requires LevelAfter(evs, level) >= -1
    ensures var all := Emit(evs + Closes(LevelAfter(evs, level) + 1), level, cfg);
      Count(all, "</directory>") == Count(all, "<directory>") + level + 1
  {
    var n := LevelAfter(evs, level) + 1;
    LevelAfterCounts(evs, level);
    NumAppend(evs, Closes(n));
    NumOfCloses(n);
    EmitCounts(evs + Closes(n), level, cfg);
  }

  lemma {:induction false} OpensLength(names: seq<string>, level: int, cfg: Config)
    ensures LevelAfter(Opens(names), level) == level + |names|
    ensures |Emit(Opens(names), level, cfg)| == 2 * |names|
  {
    if names != [] {
      OpensLength(names[1..], level + 1, cfg);
    }
  }

  lemma {:induction false} OpenLinesAt(names: seq<string>, level: int, cfg: Config, k: nat)
    requires k < |names|
    ensures |Emit(Opens(names), level, cfg)| == 2 * |names|
    ensures Emit(Opens(names), level, cfg)[2 * k] == Line(level + k + 1, "<directory>")
    ensures Emit(Opens(names), level, cfg)[2 * k + 1] == Line(level + k + 2, NameElement(Basename(names[k], cfg.delim)))
  {
    OpensLength(names, level, cfg);
    EmitOpensCons(names, level, cfg);
    if k > 0 {
      OpenLinesAt(names[1..], level + 1, cfg, k - 1);
      assert names[1..][k - 1] == names[k];
      OpenLinesLater(Emit(Opens(names), level, cfg), EventLines(Open(names[0]), level, cfg), Emit(Opens(names[1..]), level + 1, cfg),
                     k, level, NameElement(Basename(names[k], cfg.delim)));
    }
  }

  /** add_levels writes the first name's two lines, then those of the rest one level deeper. */
  lemma EmitOpensCons(names: seq<string>, level: int, cfg: Config)
    requires names != []
    ensures Emit(Opens(names), level, cfg) == EventLines(Open(names[0]), level, cfg) + Emit(Opens(names[1..]), level + 1, cfg)
  {
    assert Opens(names)[1..] == Opens(names[1..]);
  }

  /** The inductive step of OpenLinesAt: the lines of name k sit two places after their place in the tail. */
  lemma OpenLinesLater(all: seq<Line>, x: seq<Line>, rest: seq<Line>, k: nat, level: int, name: string)
    requires all == x + rest && |x| == 2 && 0 < k && 2 * k - 1 < |rest|
    requires rest[2 * (k - 1)] == Line(level + k + 1, "<directory>")
    requires rest[2 * (k - 1) + 1] == Line(level + k + 2, name)
    ensures all[2 * k] == Line(level + k + 1, "<directory>") && all[2 * k + 1] == Line(level + k + 2, name)
  {
  }

  /**
   * add_levels(names) raises the counter by |names| and writes two lines per
   * name, in order: `<directory>` at the raised level and the escaped
   * basename one level deeper.
   */
  lemma OpenLinesShape(names: seq<string>, level: int, cfg: Config)
    ensures LevelAfter(Opens(names), level) == level + |names|
    ensures |Emit(Opens(names), level, cfg)| == 2 * |names|
    ensures forall k :: 0 <= k < |names| ==>
      && Emit(Opens(names), level, cfg)[2 * k] == Line(level + k + 1, "<directory>")
      && Emit(Opens(names), level, cfg)[2 * k + 1] == Line(level + k + 2, NameElement(Basename(names[k], cfg.delim)))
  {
    OpensLength(names, level, cfg);
    forall k | 0 <= k < |names|
      ensures Emit(Opens(names), level, cfg)[2 * k] == Line(level + k + 1, "<directory>")
      ensures Emit(Opens(names), level, cfg)[2 * k + 1] == Line(level + k + 2, NameElement(Basename(names[k], cfg.delim)))
    {
      OpenLinesAt(names, level, cfg, k);
    }
  }

  /**
   * Closing n levels lowers the counter by n and writes n `</directory>`
   * lines, the k-th at the level it had before its own decrement.
   */
  lemma {:induction false} CloseLinesShape(n: nat, level: int, cfg: Config)
    ensures LevelAfter(Closes(n), level) == level - n
    ensures |Emit(Closes(n), level, cfg)| == n
    ensures forall k :: 0 <= k < n ==> Emit(Closes(n), level, cfg)[k] == Line(level - k, "</directory>")
  {
    if n > 0 {
      CloseLinesShape(n - 1, level - 1, cfg);
      var all := Emit(Closes(n), level, cfg);
      var rest := Emit(Closes(n - 1), level - 1, cfg);
      assert all == [Line(level, "</directory>")] + rest;
      forall k | 1 <= k < n ensures all[k] == Line(level - k, "</directory>") {
        assert all[k] == rest[k - 1];
      }
    }
  }

  function FlagCount(cfg: Config): nat {
    (if cfg.size then 1 else 0) + (if cfg.ctime then 1 else 0) + (if cfg.mtime then 1 else 0) + (if cfg.atime then 1 else 0)
  }

  /**
   * A file entry is `<file>` and `</file>` one level below the counter around
   * its escaped name two levels below; a failed stat leaves exactly those
   * three lines, a successful one adds one line per set flag, all two levels below.
   */
  lemma FileLinesShape(path: string, st: Option<Stat>, level: int, cfg: Config)
    ensures var ls := FileLines(path, st, level, cfg);
      && |ls| == 3 + (if st.None? then 0 else FlagCount(cfg))
      && ls[0] == Line(level + 1, "<file>")
      && ls[1] == Line(level + 2, NameElement(Basename(path, cfg.delim)))
      && ls[|ls| - 1] == Line(level + 1, "</file>")
      && (forall k :: 1 <= k < |ls| - 1 ==> ls[k].indent == level + 2)
  {
    if st.Some? {
      var m := MetaLines(st.value, level + 2, cfg);
      assert |m| == FlagCount(cfg);
      assert forall k :: 0 <= k < |m| ==> m[k].indent == level + 2;
    }
  }

  lemma RenderOne(a: Line, eol: string)
    ensures Render([a], eol) == AddWhitespace(a.text, a.indent, eol)
  {
    assert [a][1..] == [];
    assert Render([a], eol) == AddWhitespace(a.text, a.indent, eol) + [];
  }

  /** Rendering one more line appends that line's text. */
  lemma RenderSnoc(ls: seq<Line>, l: Line, eol: string)
    ensures Render(ls + [l], eol) == Render(ls, eol) + AddWhitespace(l.text, l.indent, eol)
  {
    RenderAppend(ls, [l], eol);
    RenderOne(l, eol);
  }

  lemma OpensSnocLines(names: seq<string>, x: string, level: int, cfg: Config)
    ensures Emit(Opens(names + [x]), level, cfg)
      == Emit(Opens(names), level, cfg) + EventLines(Open(x), level + |names|, cfg)
    ensures LevelAfter(Opens(names + [x]), level) == level + |names| + 1
  {
    var l := level + |names|;
    OpensAppend(names, [x]);
    assert [x][1..] == [];
    assert Opens([x]) == [Open(x)];
    OpensLength(names, level, cfg);
    EmitAppend(Opens(names), [Open(x)], level, cfg);
    EmitSingle(Open(x), l, cfg);
  }

  lemma EmitSingle(e: Event, level: int, cfg: Config)
    ensures Emit([e], level, cfg) == EventLines(e, level, cfg)
    ensures LevelAfter([e], level) == level + Shift(e)
  {
    assert [e][1..] == [];
    assert Emit([e], level, cfg) == EventLines(e, level, cfg) + [];
  }

  lemma RenderTwo(a: Line, b: Line, eol: string)
    ensures Render([a, b], eol) == AddWhitespace(a.text, a.indent, eol) + AddWhitespace(b.text, b.indent, eol)
  {
    assert [a, b] == [a] + [b];
    RenderAppend([a], [b], eol);
    RenderOne(a, eol);
    RenderOne(b, eol);
  }

  /** One more name given to add_levels appends its two lines, one level deeper each time. */
  lemma OpensSnoc(names: seq<string>, x: string, level: int, cfg: Config)
    ensures Render(Emit(Opens(names + [x]), level, cfg), cfg.eol)
      == Render(Emit(Opens(names), level, cfg), cfg.eol)
         + (AddWhitespace("<directory>", level + |names| + 1, cfg.eol)
            + AddWhitespace(NameElement(Basename(x, cfg.delim)), level + |names| + 2, cfg.eol))
    ensures LevelAfter(Opens(names + [x]), level) == level + |names| + 1
  {
    var here := Emit(Opens(names), level, cfg);
    var l1 := Line(level + |names| + 1, "<directory>");
    var l2 := Line(level + |names| + 2, NameElement(Basename(x, cfg.delim)));
    OpensSnocLines(names, x, level, cfg);
    assert EventLines(Open(x), level + |names|, cfg) == [l1, l2];
    RenderAppend(here, [l1, l2], cfg.eol);
    RenderTwo(l1, l2, cfg.eol);
  }

  /** One more close appends one `</directory>` at the level reached so far. */
  lemma ClosesSnoc(n: nat, level: int, cfg: Config)
    ensures Render(Emit(Closes(n + 1), level, cfg), cfg.eol)
      == Render(Emit(Closes(n), level, cfg), cfg.eol) + AddWhitespace("</directory>", level - n, cfg.eol)
    ensures LevelAfter(Closes(n + 1), level) == level - n - 1
  {
    var evs := Closes(n);
    var l := Line(level - n, "</directory>");
    ClosesAppend(n, 1);
    assert Closes(0) == [];
    assert Closes(1) == [Close];
    CloseLinesShape(n, level, cfg);
    EmitAppend(evs, [Close], level, cfg);
    assert Emit([Close], level - n, cfg) == [l] + Emit([], level - n - 1, cfg);
    assert Emit(Closes(n + 1), level, cfg) == Emit(evs, level, cfg) + [l];
    RenderSnoc(Emit(evs, level, cfg), l, cfg.eol);
  }
}
