/**
 * The XMLFileListing object: a level counter, the accumulated XML text, a
 * file counter and a warnings list, updated in place by add_levels,
 * end_levels, add_file, close_directories and the loop of build_xml.
 */
module Listing {
  import opened Wrappers
  import opened Paths
  import opened Escape
  import opened Document
  import opened Delta

  /** The paths whose stat failed, in list order. */
  function Missing(paths: seq<string>, stat: string -> Option<Stat>): seq<string> {
    if paths == [] then []
    else Missing(paths[..|paths| - 1], stat) + (if stat(paths[|paths| - 1]).None? then [paths[|paths| - 1]] else [])
  }

  /** A failed stat never goes unreported and a successful one is never reported. */
  lemma {:induction false} MissingIff(paths: seq<string>, stat: string -> Option<Stat>, p: string)
    ensures p in Missing(paths, stat) <==> p in paths && stat(p).None?
  {
    if paths != [] {
      var init := paths[..|paths| - 1];
      MissingIff(init, stat, p);
      assert paths == init + [paths[|paths| - 1]];
    }
  }

  /** The lines of a file entry, rendered piece by piece as add_file appends them. */
  lemma FileLinesText(path: string, st: Option<Stat>, level: int, cfg: Config, meta: seq<Line>)
    requires meta == (match st case None => [] case Some(s) => MetaLines(s, level + 2, cfg))
    ensures Render(FileLines(path, st, level, cfg), cfg.eol)
      == (AddWhitespace("<file>", level + 1, cfg.eol) + AddWhitespace(NameElement(Basename(path, cfg.delim)), level + 2, cfg.eol))
         + Render(meta, cfg.eol) + AddWhitespace("</file>", level + 1, cfg.eol)
  {
    var l1 := Line(level + 1, "<file>");
    var l2 := Line(level + 2, NameElement(Basename(path, cfg.delim)));
    var l3 := Line(level + 1, "</file>");
    assert FileLines(path, st, level, cfg) == [l1, l2] + meta + [l3];
    RenderAppend([l1, l2] + meta, [l3], cfg.eol);
    RenderAppend([l1, l2], meta, cfg.eol);
    RenderTwo(l1, l2, cfg.eol);
    RenderOne(l3, cfg.eol);
  }

  /** add_file's text, once the closing `</file>` is appended, is the file entry's lines. */
  lemma FileStep(text0: string, head: string, text: string, path: string, st: Option<Stat>, level: int, cfg: Config, meta: seq<Line>)
    requires meta == (match st case None => [] case Some(s) => MetaLines(s, level + 2, cfg))
    requires head == AddWhitespace("<file>", level + 1, cfg.eol) + AddWhitespace(NameElement(Basename(path, cfg.delim)), level + 2, cfg.eol)
    requires text == text0 + head + Render(meta, cfg.eol)
    ensures text + AddWhitespace("</file>", level + 1, cfg.eol) == text0 + Render(FileLines(path, st, level, cfg), cfg.eol)
  {
    FileLinesText(path, st, level, cfg, meta);
    var r := Render(meta, cfg.eol);
    Assoc(text0, head, r);
    Assoc(text0, head + r, AddWhitespace("</file>", level + 1, cfg.eol));
  }

  /** Four runs of lines appended one after the other render as their concatenation. */
  lemma FourParts(t: string, a: seq<Line>, b: seq<Line>, c: seq<Line>, e: seq<Line>, eol: string)
    ensures t + Render(a, eol) + Render(b, eol) + Render(c, eol) + Render(e, eol) == t + Render(a + b + c + e, eol)
  {
    var ra, rb, rc, re := Render(a, eol), Render(b, eol), Render(c, eol), Render(e, eol);
    RenderAppend(a, b, eol);
    RenderAppend(a + b, c, eol);
    RenderAppend(a + b + c, e, eol);
    Assoc(t, ra, rb);
    Assoc(t, ra + rb, rc);
    Assoc(t, ra + rb + rc, re);
  }

  /**
   * Regrouping of a text append. A separate lemma over abstract strings:
   * the same fact asserted inside the lemmas below, where the strings are
   * renderings, makes those proofs run out of resource.
   */
  lemma Assoc(a: string, b: string, c: string)
    ensures a + b + c == a + (b + c)
  {
  }

  /** One more directory opened by add_levels. */
  lemma OpenStep(dirs: seq<string>, i: nat, level0: int, cfg: Config)
    requires i < |dirs|
    ensures Render(Emit(Opens(dirs[..i + 1]), level0, cfg), cfg.eol)
      == Render(Emit(Opens(dirs[..i]), level0, cfg), cfg.eol)
         + (AddWhitespace("<directory>", level0 + i + 1, cfg.eol)
            + AddWhitespace(NameElement(Basename(dirs[i], cfg.delim)), level0 + i + 2, cfg.eol))
  {
    assert dirs[..i + 1] == dirs[..i] + [dirs[i]];
    OpensSnoc(dirs[..i], dirs[i], level0, cfg);
  }

  /** The text add_levels has after one more directory. */
  lemma AddLevelStep(text0: string, text: string, dirs: seq<string>, i: nat, level0: int, cfg: Config, name: string)
    requires i < |dirs| && name == Escaped(Basename(dirs[i], cfg.delim))
    requires text == text0 + Render(Emit(Opens(dirs[..i]), level0, cfg), cfg.eol)
    ensures text + (AddWhitespace("<directory>", level0 + i + 1, cfg.eol) + AddWhitespace(NameTag(name), level0 + i + 2, cfg.eol))
      == text0 + Render(Emit(Opens(dirs[..i + 1]), level0, cfg), cfg.eol)
  {
    OpenStep(dirs, i, level0, cfg);
  }

  /** One more `</directory>` written by end_levels or close_directories. */
  lemma CloseStep(text0: string, text: string, i: nat, level0: int, cfg: Config)
    requires text == text0 + Render(Emit(Closes(i), level0, cfg), cfg.eol)
    ensures text + AddWhitespace("</directory>", level0 - i, cfg.eol) == text0 + Render(Emit(Closes(i + 1), level0, cfg), cfg.eol)
  {
    ClosesSnoc(i, level0, cfg);
  }

  /** The lines of one build step are those of its closes, its opens and its file entry. */
  lemma StepLines(m: Move, path: string, st: Option<Stat>, level: int, cfg: Config)
    ensures LevelAfter(StepEvents(m, path, st), level) == level - |m.ends| + |m.news|
    ensures Emit(StepEvents(m, path, st), level, cfg)
      == Emit(Closes(|m.ends|), level, cfg) + Emit(Opens(m.news), level - |m.ends|, cfg)
         + FileLines(path, st, level - |m.ends| + |m.news|, cfg)
  {
    ClosesLevel(|m.ends|, level);
    OpensLevel(m.news, level - |m.ends|);
    EmitThree(Closes(|m.ends|), Opens(m.news), File(path, st), level, cfg);
  }

  /** Two runs of events and one more event, emitted one after the other. */
  lemma EmitThree(a: seq<Event>, b: seq<Event>, e: Event, level: int, cfg: Config)
    ensures var l1 := LevelAfter(a, level);
      var l2 := LevelAfter(b, l1);
      && LevelAfter(a + b + [e], level) == l2 + Shift(e)
      && Emit(a + b + [e], level, cfg) == Emit(a, level, cfg) + Emit(b, l1, cfg) + EventLines(e, l2, cfg)
  {
    EmitAppend(a, b, level, cfg);
    EmitAppend(a + b, [e], level, cfg);
    EmitSingle(e, LevelAfter(a + b, level), cfg);
  }

  lemma {:induction false} ClosesLevel(n: nat, level: int)
    ensures LevelAfter(Closes(n), level) == level - n
  {
    if n > 0 {
      ClosesLevel(n - 1, level - 1);
    }
  }

  lemma {:induction false} OpensLevel(names: seq<string>, level: int)
    ensures LevelAfter(Opens(names), level) == level + |names|
  {
    if names != [] {
      OpensLevel(names[1..], level + 1);
    }
  }

  /** The text end_levels, add_levels and add_file leave is the rendering of the step's events. */
  lemma StepText(t: string, text: string, m: Move, path: string, st: Option<Stat>, level: int, cfg: Config)
    requires text == t + Render(Emit(Closes(|m.ends|), level, cfg), cfg.eol)
      + Render(Emit(Opens(m.news), level - |m.ends|, cfg), cfg.eol)
      + Render(FileLines(path, st, level - |m.ends| + |m.news|, cfg), cfg.eol)
    ensures text == t + Render(Emit(StepEvents(m, path, st), level, cfg), cfg.eol)
  {
    var a := Emit(Closes(|m.ends|), level, cfg);
    var b := Emit(Opens(m.news), level - |m.ends|, cfg);
    var c := FileLines(path, st, level - |m.ends| + |m.news|, cfg);
    StepLines(m, path, st, level, cfg);
    RenderAppend(a, b, cfg.eol);
    RenderAppend(a + b, c, cfg.eol);
    Assoc(t, Render(a, cfg.eol), Render(b, cfg.eol));
    Assoc(t, Render(a, cfg.eol) + Render(b, cfg.eol), Render(c, cfg.eol));
  }

  /** Appending one step's text to the text of the events so far gives the text of all of them. */
  lemma BuildStep(t: string, text: string, evs: seq<Event>, step: seq<Event>, level: int, cfg: Config)
    requires text == t + Render(Emit(evs, level, cfg), cfg.eol)
    ensures text + Render(Emit(step, LevelAfter(evs, level), cfg), cfg.eol) == t + Render(Emit(evs + step, level, cfg), cfg.eol)
    ensures LevelAfter(evs + step, level) == LevelAfter(step, LevelAfter(evs, level))
  {
    var a := Emit(evs, level, cfg);
    var b := Emit(step, LevelAfter(evs, level), cfg);
    EmitAppend(evs, step, level, cfg);
    RenderAppend(a, b, cfg.eol);
    Assoc(t, Render(a, cfg.eol), Render(b, cfg.eol));
  }

  /** One more path's stat outcome, appended to the warnings of the ones before it. */
  lemma MissingSnoc(paths: seq<string>, i: nat, stat: string -> Option<Stat>)
    requires i < |paths|
    ensures Missing(paths[..i + 1], stat) == Missing(paths[..i], stat) + (if stat(paths[i]).None? then [paths[i]] else [])
  {
    assert paths[..i + 1][..i] == paths[..i];
  }

  /** The tracker on the remaining paths, one iteration of build_xml's loop taken. */
  lemma TrackStep(paths: seq<string>, i: nat, prev: string, first: bool, d: char, stat: string -> Option<Stat>)
    requires i < |paths|
    ensures var dir := Dirname(paths[i], d);
      Track(paths[i..], prev, first, d, stat)
      == match Transition(prev, dir, first, d)
         case Err(e) => Err(e)
         case Ok(m) => Then(StepEvents(m, paths[i], stat(paths[i])), Track(paths[i + 1..], dir, m.first, d, stat))
  {
    assert paths[i..][0] == paths[i];
    assert paths[i..][1..] == paths[i + 1..];
  }

  /** The loop's invariant about the tracker, carried across one successful iteration. */
  lemma TrackAdvance(whole: Result<seq<Event>, Failure>, evs: seq<Event>, paths: seq<string>, i: nat,
                     prev: string, first: bool, d: char, stat: string -> Option<Stat>, m: Move)
    requires i < |paths|
    requires whole == Then(evs, Track(paths[i..], prev, first, d, stat))
    requires Transition(prev, Dirname(paths[i], d), first, d) == Ok(m)
    ensures whole == Then(evs + StepEvents(m, paths[i], stat(paths[i])), Track(paths[i + 1..], Dirname(paths[i], d), m.first, d, stat))
  {
    TrackStep(paths, i, prev, first, d, stat);
    ThenThen(evs, StepEvents(m, paths[i], stat(paths[i])), Track(paths[i + 1..], Dirname(paths[i], d), m.first, d, stat));
  }

  /** An iteration whose move fails makes the whole tracker fail the same way. */
  lemma TrackFails(whole: Result<seq<Event>, Failure>, evs: seq<Event>, paths: seq<string>, i: nat,
                   prev: string, first: bool, d: char, stat: string -> Option<Stat>, e: Failure)
    requires i < |paths|
    requires whole == Then(evs, Track(paths[i..], prev, first, d, stat))
    requires Transition(prev, Dirname(paths[i], d), first, d) == Err(e)
    ensures whole == Err(e)
  {
    TrackStep(paths, i, prev, first, d, stat);
  }

  /** After the last path, the whole outcome is the events written. */
  lemma TrackDone(whole: Result<seq<Event>, Failure>, evs: seq<Event>, paths: seq<string>,
                  prev: string, first: bool, d: char, stat: string -> Option<Stat>)
    requires whole == Then(evs, Track(paths[|paths|..], prev, first, d, stat))
    ensures whole == Ok(evs)
  {
    assert paths[|paths|..] == [];
    assert evs + [] == evs;
  }

  /** Before the loop, the tracker on all the paths is the whole outcome. */
  lemma TrackStart(paths: seq<string>, d: char, stat: string -> Option<Stat>)
    ensures Track(paths, [], true, d, stat) == Then([], Track(paths[0..], [], true, d, stat))
  {
    assert paths[0..] == paths;
    ThenNothing(Track(paths, [], true, d, stat));
  }

  lemma ThenNothing(r: Result<seq<Event>, Failure>)
    ensures Then([], r) == r
  {
    if r.Ok? {
      assert [] + r.value == r.value;
    }
  }

  class XmlFileListing {
    const cfg: Config
    /** Current level in the document; -1 while no directory is open. */
    var levelCount: int
    var xmlText: string
    var fileCount: nat
    /** Files whose stat failed. */
    var warnings: seq<string>

    constructor (cfg: Config)
      ensures this.cfg == cfg
      ensures levelCount == -1 && xmlText == [] && fileCount == 0 && warnings == []
    {
      this.cfg := cfg;
      levelCount := -1;
      xmlText := [];
      fileCount := 0;
      warnings := [];
    }

    /** add_levels: open one directory per name, each with its escaped basename. */
    method AddLevels(dirs: seq<string>)
      modifies this
      ensures levelCount == old(levelCount) + |dirs|
      ensures xmlText == old(xmlText) + Render(Emit(Opens(dirs), old(levelCount), cfg), cfg.eol)
      ensures fileCount == old(fileCount) && warnings == old(warnings)
    {
      ghost var level0 := levelCount;
      ghost var text0 := xmlText;
      for i := 0 to |dirs|
        invariant levelCount == level0 + i
        invariant xmlText == text0 + Render(Emit(Opens(dirs[..i]), level0, cfg), cfg.eol)
        invariant fileCount == old(fileCount) && warnings == old(warnings)
      {
        levelCount := levelCount + 1;
        var name := EscapeXml(Basename(dirs[i], cfg.delim));
        AddLevelStep(text0, xmlText, dirs, i, level0, cfg, name);
        xmlText := xmlText + (AddWhitespace("<directory>", levelCount, cfg.eol)
          + AddWhitespace(NameTag(name), levelCount + 1, cfg.eol));
      }
      assert dirs[..|dirs|] == dirs;
    }

    /** end_levels: one `</directory>` per name, each at the level before its decrement. */
    method EndLevels(dirs: seq<string>)
      modifies this
      ensures levelCount == old(levelCount) - |dirs|
      ensures xmlText == old(xmlText) + Render(Emit(Closes(|dirs|), old(levelCount), cfg), cfg.eol)
      ensures fileCount == old(fileCount) && warnings == old(warnings)
    {
      ghost var level0 := levelCount;
      ghost var text0 := xmlText;
      for i := 0 to |dirs|
        invariant levelCount == level0 - i
        invariant xmlText == text0 + Render(Emit(Closes(i), level0, cfg), cfg.eol)
        invariant fileCount == old(fileCount) && warnings == old(warnings)
      {
        CloseStep(text0, xmlText, i, level0, cfg);
        xmlText := xmlText + AddWhitespace("</directory>", levelCount, cfg.eol);
        levelCount := levelCount - 1;
      }
    }

    /** One `if self.<flag>: self.xml_text += ...` of add_file. */
    method AddIf(flag: bool, l: Line)
      modifies this
      ensures xmlText == old(xmlText) + Render(Opt(flag, l), cfg.eol)
      ensures levelCount == old(levelCount) && fileCount == old(fileCount) && warnings == old(warnings)
    {
      if flag {
        xmlText := xmlText + AddWhitespace(l.text, l.indent, cfg.eol);
        RenderOne(l, cfg.eol);
      }
    }

    /** The four optional metadata lines of add_file, for a successful stat. */
    method AddStats(s: Stat, level: int)
      modifies this
      ensures xmlText == old(xmlText) + Render(MetaLines(s, level, cfg), cfg.eol)
      ensures levelCount == old(levelCount) && fileCount == old(fileCount) && warnings == old(warnings)
    {
      ghost var t1 := xmlText;
      var a := Line(level, "<size>" + s.size + "</size>");
      var b := Line(level, "<created_time>" + s.created + "</created_time>");
      var c := Line(level, "<modified_time>" + s.modified + "</modified_time>");
      var e := Line(level, "<accessed_time>" + s.accessed + "</accessed_time>");
      AddIf(cfg.size, a);
      AddIf(cfg.ctime, b);
      AddIf(cfg.mtime, c);
      AddIf(cfg.atime, e);
      FourParts(t1, Opt(cfg.size, a), Opt(cfg.ctime, b), Opt(cfg.mtime, c), Opt(cfg.atime, e), cfg.eol);
    }

    /** add_file, with the outcome of os.stat as an input: None is a failed stat. */
    method AddFile(path: string, st: Option<Stat>)
      modifies this
      ensures fileCount == old(fileCount) + 1 && levelCount == old(levelCount)
      ensures warnings == old(warnings) + (if st.None? then [path] else [])
      ensures xmlText == old(xmlText) + Render(FileLines(path, st, levelCount, cfg), cfg.eol)
    {
      ghost var text0 := xmlText;
      var lvl := levelCount;
      fileCount := fileCount + 1;
      if st.None? {
        warnings := warnings + [path];
      }
      var name := EscapeXml(Basename(path, cfg.delim));
      ghost var head := AddWhitespace("<file>", lvl + 1, cfg.eol) + AddWhitespace(NameTag(name), lvl + 2, cfg.eol);
      xmlText := xmlText + (AddWhitespace("<file>", lvl + 1, cfg.eol)
        + AddWhitespace(NameTag(name), lvl + 2, cfg.eol));
      ghost var meta: seq<Line> := [];
      if st.Some? {
        AddStats(st.value, lvl + 2);
        meta := MetaLines(st.value, lvl + 2, cfg);
      } else {
        assert xmlText + [] == xmlText;
      }
      FileStep(text0, head, xmlText, path, st, lvl, cfg, meta);
      xmlText := xmlText + AddWhitespace("</file>", lvl + 1, cfg.eol);
    }

    /** close_directories: `while level_count != -1`, one `</directory>` per open level. */
    method CloseDirectories()
      requires levelCount >= -1
      modifies this
      ensures levelCount == -1
      ensures xmlText == old(xmlText) + Render(Emit(Closes(old(levelCount) + 1), old(levelCount), cfg), cfg.eol)
      ensures fileCount == old(fileCount) && warnings == old(warnings)
    {
      ghost var level0 := levelCount;
      ghost var text0 := xmlText;
      ghost var i: nat := 0;
      while levelCount != -1
        invariant -1 <= levelCount <= level0 && i == level0 - levelCount
        invariant xmlText == text0 + Render(Emit(Closes(i), level0, cfg), cfg.eol)
        invariant fileCount == old(fileCount) && warnings == old(warnings)
        decreases levelCount
      {
        CloseStep(text0, xmlText, i, level0, cfg);
        xmlText := xmlText + AddWhitespace("</directory>", levelCount, cfg.eol);
        levelCount := levelCount - 1;
        i := i + 1;
      }
    }

    /** One iteration of build_xml's loop once its move is known: end_levels, add_levels, add_file. */
    method AddStep(path: string, st: Option<Stat>, m: Move)
      modifies this
      ensures levelCount == old(levelCount) - |m.ends| + |m.news|
      ensures levelCount == LevelAfter(StepEvents(m, path, st), old(levelCount))
      ensures xmlText == old(xmlText) + Render(Emit(StepEvents(m, path, st), old(levelCount), cfg), cfg.eol)
      ensures fileCount == old(fileCount) + 1
      ensures warnings == old(warnings) + (if st.None? then [path] else [])
    {
      ghost var text0 := xmlText;
      ghost var level0 := levelCount;
      EndLevels(m.ends);
      AddLevels(m.news);
      AddFile(path, st);
      StepText(text0, xmlText, m, path, st, level0, cfg);
      StepLines(m, path, st, level0, cfg);
    }

    /**
     * One pass of build_xml's loop body for the file `path` whose directory
     * follows `prev`: the tracker's decision, then the builder calls it makes.
     * On success it returns the new prev_dir and first_level.
     */
    method Iterate(path: string, st: Option<Stat>, prev: string, first: bool) returns (r: Result<(string, bool), Failure>)
      modifies this
      ensures var t := Transition(prev, Dirname(path, cfg.delim), first, cfg.delim);
        && (r.Err? <==> t.Err?)
        && (t.Err? ==> r == Err(t.error))
      ensures r.Ok? ==>
        var m := Transition(prev, Dirname(path, cfg.delim), first, cfg.delim).value;
        && r.value == (Dirname(path, cfg.delim), m.first)
        && levelCount == LevelAfter(StepEvents(m, path, st), old(levelCount))
        && xmlText == old(xmlText) + Render(Emit(StepEvents(m, path, st), old(levelCount), cfg), cfg.eol)
        && fileCount == old(fileCount) + 1
        && warnings == old(warnings) + (if st.None? then [path] else [])
    {
      var dir := Dirname(path, cfg.delim);
      var t := ComputeMove(prev, dir, first, cfg.delim);
      if t.Err? {
        return Err(t.error);
      }
      AddStep(path, st, t.value);
      return Ok((dir, t.value.first));
    }

    /** What holds after the loop has handled paths[..i]: the outcome so far, the counter, the text and the tallies. */
    ghost predicate LoopState(whole: Result<seq<Event>, Failure>, evs: seq<Event>, paths: seq<string>, i: nat,
                              prev: string, first: bool, stat: string -> Option<Stat>,
                              level0: int, text0: string, count0: nat, warn0: seq<string>)
      reads this
    {
      && i <= |paths|
      && whole == Then(evs, Track(paths[i..], prev, first, cfg.delim, stat))
      && levelCount == LevelAfter(evs, level0)
      && xmlText == text0 + Render(Emit(evs, level0, cfg), cfg.eol)
      && fileCount == count0 + i
      && warnings == warn0 + Missing(paths[..i], stat)
    }

    /** One iteration of build_xml's loop, seen from the loop: it fails as the tracker does, or moves the state one path on. */
    method LoopStep(ghost whole: Result<seq<Event>, Failure>, ghost evs: seq<Event>, paths: seq<string>, i: nat,
                    prev: string, first: bool, stat: string -> Option<Stat>,
                    ghost level0: int, ghost text0: string, ghost count0: nat, ghost warn0: seq<string>)
      returns (stop: Option<Failure>, prev': string, first': bool, ghost evs': seq<Event>)
      requires i < |paths|
      requires LoopState(whole, evs, paths, i, prev, first, stat, level0, text0, count0, warn0)
      modifies this
      ensures stop.Some? ==> whole == Err(stop.value)
      ensures stop.None? ==> LoopState(whole, evs', paths, i + 1, prev', first', stat, level0, text0, count0, warn0)
    {
      ghost var text := xmlText;
      var r := Iterate(paths[i], stat(paths[i]), prev, first);
      if r.Err? {
        TrackFails(whole, evs, paths, i, prev, first, cfg.delim, stat, r.error);
        return Some(r.error), prev, first, evs;
      }
      ghost var m := Transition(prev, Dirname(paths[i], cfg.delim), first, cfg.delim).value;
      ghost var step := StepEvents(m, paths[i], stat(paths[i]));
      TrackAdvance(whole, evs, paths, i, prev, first, cfg.delim, stat, m);
      BuildStep(text0, text, evs, step, level0, cfg);
      MissingSnoc(paths, i, stat);
      return None, r.value.0, r.value.1, evs + step;
    }

    /**
     * build_xml's loop over the path list, `stat` standing for os.stat. It
     * stops with the tracker's failure, or writes the tracker's events.
     */
    method BuildLoop(paths: seq<string>, stat: string -> Option<Stat>) returns (failure: Option<Failure>, ghost evs: seq<Event>)
      modifies this
      ensures var t := Track(paths, [], true, cfg.delim, stat);
        && (failure.None? <==> t.Ok?)
        && (t.Err? ==> failure == Some(t.error))
        && (t.Ok? ==> t.value == evs)
      ensures failure.None? ==>
        && levelCount == LevelAfter(evs, old(levelCount))
        && xmlText == old(xmlText) + Render(Emit(evs, old(levelCount), cfg), cfg.eol)
        && fileCount == old(fileCount) + |paths|
        && warnings == old(warnings) + Missing(paths, stat)
    {
      ghost var whole := Track(paths, [], true, cfg.delim, stat);
      ghost var level0, text0, count0, warn0 := levelCount, xmlText, fileCount, warnings;
      evs := [];
      var prev: string := [];
      var first := true;
      var i := 0;
      TrackStart(paths, cfg.delim, stat);
      assert paths[..0] == [];
      while i < |paths|
        invariant LoopState(whole, evs, paths, i, prev, first, stat, level0, text0, count0, warn0)
      {
        var stop;
        stop, prev, first, evs := LoopStep(whole, evs, paths, i, prev, first, stat, level0, text0, count0, warn0);
        if stop.Some? {
          return stop, evs;
        }
        i := i + 1;
      }
      TrackDone(whole, evs, paths, prev, first, cfg.delim, stat);
      assert paths[..i] == paths;
      return None, evs;
    }

    /**
     * build_xml over a path list: the loop, then close_directories. It
     * finishes exactly when the tracker succeeds and leaves the counter at
     * -1 or above; it then writes the tracker's events and one close per
     * level still open, and leaves the counter at -1.
     */
    method Build(paths: seq<string>, stat: string -> Option<Stat>) returns (failure: Option<Failure>)
      modifies this
      ensures var t := Track(paths, [], true, cfg.delim, stat);
        failure.None? <==> t.Ok? && LevelAfter(t.value, old(levelCount)) >= -1
      ensures var t := Track(paths, [], true, cfg.delim, stat);
        && (t.Err? ==> failure == Some(t.error))
        && (t.Ok? && LevelAfter(t.value, old(levelCount)) < -1 ==> failure == Some(LevelBelowRoot))
      ensures failure.None? ==>
        var evs := Track(paths, [], true, cfg.delim, stat).value;
        var open := LevelAfter(evs, old(levelCount)) + 1;
        && open >= 0
        && levelCount == -1
        && xmlText == old(xmlText) + Render(Emit(evs + Closes(open), old(levelCount), cfg), cfg.eol)
        && fileCount == old(fileCount) + |paths|
        && warnings == old(warnings) + Missing(paths, stat)
    {
      ghost var level0 := levelCount;
      ghost var text0 := xmlText;
      ghost var evs;
      failure, evs := BuildLoop(paths, stat);
      if failure.Some? {
        return;
      }
      if levelCount < -1 {
        return Some(LevelBelowRoot);
      }
      BuildStep(text0, xmlText, evs, Closes(levelCount + 1), level0, cfg);
      CloseDirectories();
    }
  }
}
