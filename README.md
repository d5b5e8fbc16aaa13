# XML file listing, modelled in Dafny

`XMLFileListing` (src/xml_file_listing.py) turns an ordered list of file
paths into an indented XML document: one `<directory>` element per
directory, holding a `<name>` element, its sub-directories and one `<file>`
element per file, each file with optional size and time elements. The
object carries four fields that its methods update in place: the level
counter `level_count` (-1 while nothing is open), the accumulated
`xml_text`, `file_count` and the `warnings` list of paths whose `os.stat`
failed. `build_xml` never builds a tree: it compares each file's directory
string with the previous file's and decides, by string tests alone, which
directories to close and which to open.

The model has one module per concern:

- `Paths` — `posixpath.dirname` and `basename` over a configurable
  delimiter, `str.rfind`, `str.split`, the non-empty filter of the list
  comprehensions, and Python's substring test `t in s`; plus the path
  algebra (`Path(["a","b"]) == "/a/b"`) the proofs use.
- `Escape` — `escape_xml` as the five `str.replace` calls in the order
  CPython 2.7 iterates that dict literal (`&`, `"`, `<`, `'`, `>`), proved
  equal to character-wise escaping, reversible, and free of raw markup.
- `Document` — `add_whitespace`, and the document as values: the lines an
  open, a close and a file entry contribute at a given level, the level
  counter they move, and tag counts.
- `Delta` — one iteration's decision (same directory, descend, ascend);
  the ascend search with an explicit failure where the source loops
  forever; `Track`, the events of the whole loop; and properties for every
  listing.
- `Listing` — the class `XmlFileListing`, with fields `levelCount`,
  `xmlText`, `fileCount` and `warnings`. `AddLevels`, `EndLevels` and
  `CloseDirectories` are loops over those fields, `AddFile` a run of
  appends, and `Build` the loop of `build_xml`. Each is proved to leave
  exactly the text that `Document` and `Delta` describe.
- `Correctness` — a replay of the events against a stack of open
  directory names. It proves that on a well-formed listing every file is
  written inside its own directory and the closes of `close_directories`
  pop exactly what is open, innermost first.
- `Examples` — worked listings: three files over two directories, the
  substring quirk, and listings on which the source raises or spins.

Three failure outcomes replace what the source does not survive.
`NoFirstSegment` is the `IndexError` of `new_dirs[0]` when the first
directory has no name, e.g. a first file `/f`. `NoCommonAncestor` is an
ascend search whose `while True` never breaks. `LevelBelowRoot` is a
`close_directories` started below -1. The last two never terminate in the
source.

The descend test `prev_dir in dir and dir.rfind(delim) > prev_dir.rfind(delim)`
(src/xml_file_listing.py:312-313) is substring containment, as written.
After `/x/ab/f`, the file `/x/abc/d/f` therefore "descends": `c` and `d`
are opened inside `ab` and the file is placed in the wrong directory
(`Examples.SiblingTakenForChild`, `Examples.SiblingMisplacesFile`).

The ascend test `tmp_dir in dir and dir[len(tmp_dir)] == delim`
(src/xml_file_listing.py:332-333) is substring containment too, so it can
accept a candidate that occurs inside dir without being a prefix of it,
as long as dir holds a delimiter at the index equal to the candidate's
length. From `/x/a` to `/y/x`, the candidate `/x` occurs in `/y/x` (at
index 2) and `/y/x` holds `/` at index 2. The step closes `a` and opens `x`, so a
file of `/y/x` is written inside `x/x` (`Examples.AscendMisfire`,
`Examples.MisfireMisplacesFile`), although that listing is sorted
depth-first.

The correctness theorem `Correctness.WellFormedListing` therefore assumes
that consecutive directories are `Separated`: whenever the path of a
leading run of the previous directory's segments occurs anywhere in the
next directory, that run is also a leading run of the next directory's
segments. `Examples.SiblingNotSeparated` and
`Examples.MisfireNotSeparated` show that both pairs above are exactly what
the assumption excludes.

For `/root/a/f1.txt`, `/root/a/f2.txt`, `/root/b/f3.txt`, the code opens
three directories and closes three: `//root` (the first segment with the
`delim+delim` prefix), `a` and `b` (`Examples.ThreeFiles`,
`Examples.ThreeFilesClosed`).

The ascend search only accepts a candidate strictly shorter than the new
directory (src/xml_file_listing.py:331). Moving up to an ancestor dir of
prev_dir therefore walks past dir to dir's own parent, closes dir and
opens it again, so the document holds two sibling `<directory>` elements
with dir's name. From `/a/b` up to `/a` the search reaches the root, and
`b` and `a` are closed with `a` opened again (`Examples.ParentReopened`).
From `/a/b/c` up to `/a/b` it stops at `/a`, and `b` and `c` are closed
with `b` opened again (`Examples.ChildToParent`). Every file
still lands inside an element with its own directory's name, which is what
the correctness theorem states.

In a listing of absolute paths, a file directly in the root never
succeeds. As the first file it leaves no
directory name to mark (`Examples.FirstFileInRoot`). As a later file,
every candidate the search tries is at least as long as `/`, so the loop
spins (`Examples.RootFileLaterSpins`).

## Model

| member | source | states |
|---|---|---|
| Paths.RFind | src/xml_file_listing.py:313 | the result is -1 or an index holding the delimiter, and no later index holds it |
| Paths.RStrip | src/xml_file_listing.py:307 | trailing delimiters, and only those, are removed, leaving a prefix |
| Paths.Dirname | src/xml_file_listing.py:307 | the directory part is a prefix of the path |
| Paths.DirnameRoot | src/xml_file_listing.py:330 | the root directory is its own dirname |
| Paths.BasenameShape | src/xml_file_listing.py:216 | basename is the longest delimiter-free suffix; when shorter than the path, a delimiter precedes it |
| Paths.Basename | src/xml_file_listing.py:216 | computes `posixpath.basename`: the text after the last delimiter (its properties are stated by `Paths.BasenameShape`) |
| Paths.DirnamePath | src/xml_file_listing.py:307 | dirname of "/s1/…/sn" is "/s1/…/s(n-1)", or the root "/" for one segment |
| Paths.DirnameFixedPoint | src/xml_file_listing.py:330 | dirname leaves a path unchanged exactly when it is all delimiters, and otherwise shortens it |
| Paths.SegmentsOfPath | src/xml_file_listing.py:314-315 | splitting "/s1/…/sn" and dropping empty pieces gives back s1 … sn, and its first split piece is empty |
| Paths.SegmentsAreNames | src/xml_file_listing.py:314-315 | every non-empty split piece is a delimiter-free name |
| Paths.SplitNoDelim | src/xml_file_listing.py:315 | no split piece holds the delimiter |
| Paths.SplitAfterSep | src/xml_file_listing.py:315 | splitting a + delim + x (x delimiter-free) gives the pieces of a followed by x |
| Paths.ContainsSameLength | src/xml_file_listing.py:312 | between strings of equal length, `in` holds exactly when they are equal |
| Paths.Contains | src/xml_file_listing.py:312 | Python's `t in s` on strings, true exactly when t occurs contiguously in s; a contained string is never longer |
| Paths.PathInjective | src/xml_file_listing.py:307 | distinct segment lists name distinct paths |
| Escape.EscapeXml | src/xml_file_listing.py:125-130 | the five successive replacements compute character-wise escaping |
| Escape.TableIsEscape | src/xml_file_listing.py:126-129 | replacing `&` first, then `"`, `<`, `'`, `>` rewrites each reserved character to its entity and keeps every other one |
| Escape.PipelineEscaped | src/xml_file_listing.py:128-129 | the replacement chain, run one replacement after another, is character-wise escaping |
| Escape.EscapedHasNoMarkup | src/xml_file_listing.py:125-130 | the escaped text holds no raw `<`, `>`, `"` or `'` |
| Escape.EscapedUnchanged | src/xml_file_listing.py:125-130 | escaping leaves a text unchanged exactly when it holds no reserved character |
| Escape.EscapedLength | src/xml_file_listing.py:125-130 | escaping never shortens a text |
| Escape.UnescapeEscaped | src/xml_file_listing.py:125-130 | decoding the entities of an escaped text gives back the original text |
| Escape.EscapeExample | src/xml_file_listing.py:125-130 | "<a & b>" becomes "&lt;a &amp; b&gt;" |
| Escape.EscapeNotIdempotent | src/xml_file_listing.py:125-130 | escaping twice escapes the `&` of an entity again |
| Document.Tabs | src/xml_file_listing.py:111 | max(n, 0) tab characters |
| Document.AddWhitespace | src/xml_file_listing.py:110-111 | the line's length is max(n, 0) + \|line\| + \|EOL\| |
| Document.AddWhitespaceShape | src/xml_file_listing.py:110-111 | the line is exactly max(n, 0) tabs, then the text, then EOL |
| Document.OpenLinesShape | src/xml_file_listing.py:210-217 | opening n names raises the level by n and writes 2n lines: for name k, `<directory>` at level+k+1, then its escaped basename at level+k+2 |
| Document.CloseLinesShape | src/xml_file_listing.py:187-191 | closing n levels lowers the level by n and writes n `</directory>` lines, the k-th at level−k |
| Document.FileLinesShape | src/xml_file_listing.py:233-267 | a file entry is `<file>` and `</file>` at level+1 around its name at level+2; a failed stat adds nothing, a successful one one line per set flag, all at level+2 |
| Document.FileLinesAreNotDirectoryTags | src/xml_file_listing.py:241-267 | a file entry holds no `<directory>` or `</directory>` line |
| Document.EventCounts | src/xml_file_listing.py:187-217 | an open writes one `<directory>` line and no closing one, a close the reverse, a file neither |
| Document.EmitCounts | src/xml_file_listing.py:187-217 | the document has one `<directory>` line per open and one `</directory>` line per close |
| Document.LevelAfterCounts | src/xml_file_listing.py:187-217 | the level after a run of events is the start plus its opens minus its closes |
| Document.ClosedTagsBalance | src/xml_file_listing.py:283-287 | after the closing loop from -1 back to -1, `</directory>` and `<directory>` lines are equal in number |
| Delta.Ancestor | src/xml_file_listing.py:328-345 | a found candidate passes the break test and is a prefix of prev_dir |
| Delta.Accepts | src/xml_file_listing.py:331-334 | computes the break test: the candidate is shorter than dir, occurs in dir, and either dir holds a delimiter at the index equal to the candidate's length or the candidate without its last character equals dir's first split piece (its meaning on well-formed directories is `Correctness.AcceptsIff`) |
| Delta.AncestorIsFirstAccepted | src/xml_file_listing.py:329-345 | a found ancestor is the first candidate of the dirname chain that passes the break test |
| Delta.AncestorNoneIff | src/xml_file_listing.py:329-345 | the search fails exactly when no candidate of the dirname chain ever passes the break test |
| Delta.FindCommonAncestor | src/xml_file_listing.py:328-345 | the `while True` loop over dirname returns the ancestor the search defines |
| Delta.ComputeMove | src/xml_file_listing.py:310-345 | an unchanged directory moves nothing; a descend closes nothing, clears first_level and opens the segments of dir beyond prev_dir, the first marked with delim+delim when first_level was set, failing with NoFirstSegment exactly when that first segment is missing; otherwise the step fails with NoCommonAncestor exactly when the search finds no ancestor, and else closes prev_dir's segments beyond the accepted ancestor (a prefix of prev_dir passing the break test) and opens dir's |
| Delta.SameDirectoryOnlyFile | src/xml_file_listing.py:310-353 | an unchanged directory writes only the file entry and keeps first_level |
| Delta.Descends | src/xml_file_listing.py:312-313 | computes the descend test: prev_dir occurs in dir and dir's last delimiter is further right than prev_dir's |
| Delta.DescendsLonger | src/xml_file_listing.py:312-313 | a directory that passes the descend test is strictly longer than prev_dir |
| Delta.Transition | src/xml_file_listing.py:310-349 | computes one iteration's decision: no move for an unchanged directory, the descend opens, or the ascend closes and opens; its outcomes are stated by `Delta.ComputeMove` and proved on well-formed directories by `Correctness.TransitionWF` |
| Delta.Track | src/xml_file_listing.py:305-353 | computes the events of the whole loop, stopping at the first failing step; `Delta.TrackListsEveryFile` and `Correctness.TrackWF` state what it produces |
| Delta.PlainStep | src/xml_file_listing.py:312-349 | without first_level, a step opens only plain names and leaves first_level false |
| Delta.TrackAfterFirstIsPlain | src/xml_file_listing.py:318-323 | once first_level is false, no later opened name carries the delim+delim prefix |
| Delta.OnlyFirstOpenIsMarked | src/xml_file_listing.py:318-323 | every opened name but the very first one is a plain name |
| Delta.NoAscendFromStart | src/xml_file_listing.py:326-345 | while prev_dir is still "", the ascend search cannot succeed |
| Delta.TrackListsEveryFile | src/xml_file_listing.py:305-353 | a loop that finishes adds every listed path exactly once, in list order |
| Delta.AscendChoosesAncestor | src/xml_file_listing.py:326-349 | in the ascend case the ancestor is strictly shorter than dir, contained in it and a prefix of prev_dir; the branch beyond it is closed and dir's part beyond it opened |
| Listing.MissingIff | src/xml_file_listing.py:236-240 | a path is in warnings exactly when it was listed and its stat failed |
| Listing.StepLines | src/xml_file_listing.py:348-352 | one step writes the closes, then the opens starting \|ends\| levels lower, then the file at the level they reach |
| Listing.XmlFileListing.constructor | src/xml_file_listing.py:68-91 | the counter starts at -1, the text, file count and warnings empty |
| Listing.XmlFileListing.AddLevels | src/xml_file_listing.py:210-217 | the counter rises by \|dirs\| and the text grows by the open lines of the names |
| Listing.XmlFileListing.EndLevels | src/xml_file_listing.py:187-191 | the counter falls by \|dirs\| and the text grows by \|dirs\| closing lines |
| Listing.XmlFileListing.AddIf | src/xml_file_listing.py:248-265 | a set flag appends the line, an unset one nothing |
| Listing.XmlFileListing.AddStats | src/xml_file_listing.py:247-265 | the four metadata lines, each only if its flag is set, in order size, created, modified, accessed |
| Listing.XmlFileListing.AddFile | src/xml_file_listing.py:233-267 | file_count rises by one, the counter is unchanged, a failed stat adds the path to warnings once, and the text grows by the file entry |
| Listing.XmlFileListing.CloseDirectories | src/xml_file_listing.py:283-287 | from a counter ≥ -1, ends at -1 having written one closing line per open level, innermost first |
| Listing.XmlFileListing.AddStep | src/xml_file_listing.py:348-353 | end_levels, add_levels, add_file write exactly the step's events and move the counter by opens minus closes |
| Listing.XmlFileListing.Iterate | src/xml_file_listing.py:305-353 | one loop pass fails exactly when the transition does, otherwise returns the new prev_dir and first_level and writes the step |
| Listing.XmlFileListing.LoopStep | src/xml_file_listing.py:305-353 | one pass either reports the tracker's failure or carries the loop state one path further |
| Listing.XmlFileListing.BuildLoop | src/xml_file_listing.py:301-353 | the loop fails exactly when the tracker fails, and otherwise leaves the counter, text, file count and warnings the tracker's events give |
| Listing.XmlFileListing.Build | src/xml_file_listing.py:301-356 | build_xml finishes exactly when the loop finishes at a level ≥ -1, and reports the loop's failure otherwise; it then ends at -1, having written the loop's events and one close per open level, counted every path and recorded every failed stat |
| Correctness.ReplayOpens | src/xml_file_listing.py:210-217 | opening names pushes them on the stack of open directories, in order |
| Correctness.ReplayCloses | src/xml_file_listing.py:187-191 | closing n levels pops the n most recently opened names |
| Correctness.ReplayLevel | src/xml_file_listing.py:212 | the stack depth is always the level counter plus one |
| Correctness.AcceptsIff | src/xml_file_listing.py:331-334 | on separated directories, an ancestor candidate passes the break test exactly when it is the root or a common prefix shorter than dir |
| Correctness.AncestorWF | src/xml_file_listing.py:328-345 | on separated directories the search stops at depth Cut: the deepest common ancestor that is shorter than dir, so dir's parent when dir is an ancestor of prev_dir (the root only for a one-segment dir) |
| Correctness.FirstTransition | src/xml_file_listing.py:318-321 | for a canonical absolute first directory with at least one segment, the directory is opened whole, its first segment prefixed with delim+delim |
| Correctness.DescendWF | src/xml_file_listing.py:312-323 | moving into a sub-directory opens exactly the segments below the previous directory |
| Correctness.AscendWF | src/xml_file_listing.py:326-349 | on separated canonical absolute directories, where the new directory is not below the previous one, the step closes the previous directory's segments below the deepest common ancestor shorter than the new directory, and opens the new directory's segments below it |
| Correctness.TransitionWF | src/xml_file_listing.py:310-349 | on separated directories, the closes and opens turn the previous segment list into the new one |
| Correctness.TrackWF | src/xml_file_listing.py:305-353 | on a well-formed listing the loop finishes, and each file is written while exactly its own directory is open |
| Correctness.WellFormedListing | src/xml_file_listing.py:301-356 | a well-formed listing builds, leaves the last file's directory open at depth level+1, and close_directories pops it innermost first down to nothing |
| Correctness.CloseAll | src/xml_file_listing.py:283-287 | closing level+1 times from the loop's end empties the stack of open directories |
| Examples.ThreeFiles | src/xml_file_listing.py:301-353 | the three-file listing opens //root and a, adds two files, closes a, opens b, adds the third |
| Examples.ThreeFilesClosed | src/xml_file_listing.py:356 | that listing ends at level 1, and after close_directories three directories are opened and three closed |
| Examples.SiblingTakenForChild | src/xml_file_listing.py:312-315 | from /x/ab to /x/abc/d the descend branch is taken and opens c and d |
| Examples.SiblingNotSeparated | src/xml_file_listing.py:312 | that pair violates the `Separated` assumption of the correctness theorem |
| Examples.SiblingMisplacesFile | src/xml_file_listing.py:312-323 | replaying that step fails: the file is written while x/ab/c/d is open, not its own directory x/abc/d |
| Examples.FirstFileInRoot | src/xml_file_listing.py:318-321 | a first file directly in / gives no directory name: `new_dirs[0]` fails |
| Examples.NoAncestorOfRelative | src/xml_file_listing.py:329-345 | from a/b to c the dirname chain never passes the break test |
| Examples.RelativeListingSpins | src/xml_file_listing.py:329-345 | the relative listing a/b/f, c/f makes the ascend loop spin |
| Examples.NoAncestorOfRoot | src/xml_file_listing.py:329-331 | from /a to the root no candidate of the dirname chain is shorter than "/", so the search never stops |
| Examples.RootFileLaterSpins | src/xml_file_listing.py:305-345 | the listing /a/f, /g makes the ascend loop spin at its second file |
| Examples.ParentReopened | src/xml_file_listing.py:326-349 | from /a/b up to /a, both a and b are closed and a is opened again |
| Examples.ChildToParent | src/xml_file_listing.py:326-349 | from /a/b/c up to /a/b the search stops at /a: b and c are closed and b is opened again |
| Examples.AscendMisfire | src/xml_file_listing.py:326-349 | from /x/a to /y/x the break test accepts "/x", which occurs in "/y/x" at index 2, where "/y/x" holds a delimiter: a is closed and x is opened |
| Examples.MisfireNotSeparated | src/xml_file_listing.py:332-333 | that pair violates the `Separated` assumption of the correctness theorem |
| Examples.MisfireMisplacesFile | src/xml_file_listing.py:348-352 | replaying that step fails: the file of /y/x is written while x/x is open |
| Examples.EmptyListing | src/xml_file_listing.py:301-356 | an empty listing writes no events and close_directories writes nothing |

## Left out

- `get_file_listing` (os.walk) and `read_file_listing` (reading a file) are not modelled: the path list is an input sequence. `read_file_listing` strips lines but keeps empty ones; the model takes whatever list it is given.
- `os.stat` is an input function from path to `Option<Stat>`. `None` is a failed stat. A `Stat` holds the size and the three timestamps as already-formatted strings, because `time.strftime("%c")` depends on the locale and the clock.
- `sys.platform` is replaced by the `Config` passed to the constructor (line ending and delimiter), along with the four capture flags. `tree_start`, `xml_file` and `quiet` are not fields, as nothing modelled reads them.
- Windows path semantics (`ntpath` drive letters and UNC prefixes) are not modelled. `dirname` and `basename` follow `posixpath` over the configured delimiter.
- The progress and warning `print`s, `start_time` and `elapsed_time`, `write`, and all of src/Build_XML_File_Listing.py are not modelled: they are console or file I/O and wall-clock time.
- Non-termination is modelled as a `Failure` value, not as a loop that never ends.
- Listing.XmlFileListing.Build: says nothing about the fields after a failure, because at that point the source has raised or never returns.
- Listing.XmlFileListing.CloseDirectories: requires the counter to be at least -1, because below -1 the source loop never ends. `Build` returns `LevelBelowRoot` instead of calling it then. No concrete listing reaching that case is worked out in `Examples`.
- Correctness.WellFormedListing: proved only for well-formed listings. Every path must be a canonical absolute path "/s1/…/sn/name" with at least one directory segment. Consecutive directories must be `Separated`: a leading run of the previous directory's segments whose path occurs in the next directory must be a leading run of it. The theorem therefore says nothing about relative listings such as `x/a/f`, `x/b/g`, which the source handles. It also excludes files directly in the root. In a listing of absolute paths the source always fails on those (`Examples.FirstFileInRoot`, `Examples.RootFileLaterSpins`). In a listing that mixes relative and absolute paths it may succeed. The descend and ascend quirks above show the property fails without `Separated`.
- Text is a sequence of Unicode code points; Python 2 byte strings, encodings and `%s` formatting of the integer size are not modelled.
