/**
 * escape_xml: five successive str.replace calls over the escape table, in the
 * order CPython 2.7 iterates that dict literal ('&' first), and the
 * character-wise meaning they add up to.
 */
module Escape {

  /** The five characters XML reserves. */
  predicate Reserved(c: char) {
    c == '&' || c == '"' || c == '<' || c == '\'' || c == '>'
  }

  /** The entity a character is written as, or the character itself. */
  function EscapeChar(c: char): string {
    match c
    case '&' => "&amp;"
    case '"' => "&quot;"
    case '<' => "&lt;"
    case '\'' => "&apos;"
    case '>' => "&gt;"
    case _ => [c]
  }

  /** Character-wise escaping: every reserved character becomes its entity. */
  function Escaped(s: string): string {
    if s == [] then [] else EscapeChar(s[0]) + Escaped(s[1..])
  }

  /** str.replace with a one-character pattern. */
  function Replace(s: string, c: char, e: string): string {
    if s == [] then [] else (if s[0] == c then e else [s[0]]) + Replace(s[1..], c, e)
  }

  /** The replacement table, in iteration order. */
  const Table: seq<(char, string)> :=
    [('&', "&amp;"), ('"', "&quot;"), ('<', "&lt;"), ('\'', "&apos;"), ('>', "&gt;")]

  /** The text after applying the first |t| replacements of a table. */
  function ReplaceAll(s: string, t: seq<(char, string)>): string {
    if t == [] then s else Replace(ReplaceAll(s, t[..|t| - 1]), t[|t| - 1].0, t[|t| - 1].1)
  }

  /** The five replacements of Table, written out. */
  function Pipeline(s: string): string {
    Replace(Replace(Replace(Replace(Replace(s, '&', "&amp;"), '"', "&quot;"), '<', "&lt;"), '\'', "&apos;"), '>', "&gt;")
  }

  /** escape_xml: `for char in escape_chars: text = text.replace(char, escape_chars[char])`. */
  method EscapeXml(text: string) returns (r: string)
    ensures r == Escaped(text)
  {
    r := text;
    for i := 0 to |Table|
      invariant r == ReplaceAll(text, Table[..i])
    {
      assert Table[..i + 1][..i] == Table[..i];
      r := Replace(r, Table[i].0, Table[i].1);
    }
    assert Table[..|Table|] == Table;
    TableIsEscape(text);
  }

  lemma {:induction false} ReplaceAppend(a: string, b: string, c: char, e: string)
    ensures Replace(a + b, c, e) == Replace(a, c, e) + Replace(b, c, e)
  {
    if a == [] {
      assert a + b == b;
    } else {
      assert (a + b)[1..] == a[1..] + b;
      ReplaceAppend(a[1..], b, c, e);
    }
  }

  lemma PipelineAppend(a: string, b: string)
    ensures Pipeline(a + b) == Pipeline(a) + Pipeline(b)
  {
    ReplaceAppend(a, b, '&', "&amp;");
    var a1, b1 := Replace(a, '&', "&amp;"), Replace(b, '&', "&amp;");
    ReplaceAppend(a1, b1, '"', "&quot;");
    var a2, b2 := Replace(a1, '"', "&quot;"), Replace(b1, '"', "&quot;");
    ReplaceAppend(a2, b2, '<', "&lt;");
    var a3, b3 := Replace(a2, '<', "&lt;"), Replace(b2, '<', "&lt;");
    ReplaceAppend(a3, b3, '\'', "&apos;");
    var a4, b4 := Replace(a3, '\'', "&apos;"), Replace(b3, '\'', "&apos;");
    ReplaceAppend(a4, b4, '>', "&gt;");
  }

  lemma ReplaceOne(c: char, x: char, e: string)
    ensures Replace([c], x, e) == if c == x then e else [c]
  {
    assert [c][1..] == [];
  }

  lemma PipelinePlain(c: char)
    requires !Reserved(c)
    ensures Pipeline([c]) == [c]
  {
    ReplaceOne(c, '&', "&amp;");
    ReplaceOne(c, '"', "&quot;");
    ReplaceOne(c, '<', "&lt;");
    ReplaceOne(c, '\'', "&apos;");
    ReplaceOne(c, '>', "&gt;");
  }

  lemma PipelineAmp()
    ensures Pipeline("&") == "&amp;"
  {
    assert Replace("&", '&', "&amp;") == "&amp;";
    assert Replace("&amp;", '"', "&quot;") == "&amp;";
    assert Replace("&amp;", '<', "&lt;") == "&amp;";
    assert Replace("&amp;", '\'', "&apos;") == "&amp;";
    assert Replace("&amp;", '>', "&gt;") == "&amp;";
  }

  lemma PipelineQuot()
    ensures Pipeline("\"") == "&quot;"
  {
    assert Replace("\"", '&', "&amp;") == "\"";
    assert Replace("\"", '"', "&quot;") == "&quot;";
    assert Replace("&quot;", '<', "&lt;") == "&quot;";
    assert Replace("&quot;", '\'', "&apos;") == "&quot;";
    assert Replace("&quot;", '>', "&gt;") == "&quot;";
  }

  lemma PipelineLt()
    ensures Pipeline("<") == "&lt;"
  {
    assert Replace("<", '&', "&amp;") == "<";
    assert Replace("<", '"', "&quot;") == "<";
    assert Replace("<", '<', "&lt;") == "&lt;";
    assert Replace("&lt;", '\'', "&apos;") == "&lt;";
    assert Replace("&lt;", '>', "&gt;") == "&lt;";
  }

  lemma PipelineApos()
    ensures Pipeline("'") == "&apos;"
  {
    assert Replace("'", '&', "&amp;") == "'";
    assert Replace("'", '"', "&quot;") == "'";
    assert Replace("'", '<', "&lt;") == "'";
    assert Replace("'", '\'', "&apos;") == "&apos;";
    assert Replace("&apos;", '>', "&gt;") == "&apos;";
  }

  lemma PipelineGt()
    ensures Pipeline(">") == "&gt;"
  {
    assert Replace(">", '&', "&amp;") == ">";
    assert Replace(">", '"', "&quot;") == ">";
    assert Replace(">", '<', "&lt;") == ">";
    assert Replace(">", '\'', "&apos;") == ">";
    assert Replace(">", '>', "&gt;") == "&gt;";
  }

  lemma PipelineChar(c: char)
    ensures Pipeline([c]) == EscapeChar(c)
  {
    if !Reserved(c) {
      PipelinePlain(c);
    } else {
      PipelineAmp(); PipelineQuot(); PipelineLt(); PipelineApos(); PipelineGt();
    }
  }

  lemma ReplaceAllStep(s: string, t: seq<(char, string)>, k: nat)
    requires k < |t|
    ensures ReplaceAll(s, t[..k + 1]) == Replace(ReplaceAll(s, t[..k]), t[k].0, t[k].1)
  {
    assert t[..k + 1][..k] == t[..k];
  }

  /** Running the table in its order escapes character by character. */
  lemma {:induction false} TableIsEscape(s: string)
    ensures ReplaceAll(s, Table) == Escaped(s)
  {
    assert ReplaceAll(s, Table) == Pipeline(s) by {
      assert Table[..0] == [];
      ReplaceAllStep(s, Table, 0);
      ReplaceAllStep(s, Table, 1);
      ReplaceAllStep(s, Table, 2);
      ReplaceAllStep(s, Table, 3);
      ReplaceAllStep(s, Table, 4);
      assert Table[..5] == Table;
    }
    PipelineEscaped(s);
  }

  lemma {:induction false} PipelineEscaped(s: string)
    ensures Pipeline(s) == Escaped(s)
  {
    if s != [] {
      assert s == [s[0]] + s[1..];
      PipelineAppend([s[0]], s[1..]);
      PipelineChar(s[0]);
      PipelineEscaped(s[1..]);
    }
  }

  lemma {:induction false} EscapedAppend(a: string, b: string)
    ensures Escaped(a + b) == Escaped(a) + Escaped(b)
  {
    if a == [] {
      assert a + b == b;
    } else {
      assert (a + b)[1..] == a[1..] + b;
      EscapedAppend(a[1..], b);
    }
  }

  /** The escaped text holds no raw '<', '>', '"' or '\''. */
  lemma {:induction false} EscapedHasNoMarkup(s: string)
    ensures forall i :: 0 <= i < |Escaped(s)| ==> Escaped(s)[i] !in "<>\"'"
  {
    if s != [] {
      EscapedHasNoMarkup(s[1..]);
      var head := EscapeChar(s[0]);
      assert forall i :: 0 <= i < |head| ==> head[i] !in "<>\"'";
    }
  }

  /** Escaping changes a text exactly when it holds a reserved character. */
  lemma {:induction false} EscapedUnchanged(s: string)
    ensures Escaped(s) == s <==> forall i :: 0 <= i < |s| ==> !Reserved(s[i])
  {
    if s != [] {
      EscapedUnchanged(s[1..]);
      EscapedLength(s[1..]);
      if Reserved(s[0]) {
        assert |EscapeChar(s[0])| >= 4;
        assert |Escaped(s)| > |s|;
      } else {
        assert EscapeChar(s[0]) == [s[0]];
        assert Escaped(s) == [s[0]] + Escaped(s[1..]);
        assert (forall i :: 0 <= i < |s| ==> !Reserved(s[i])) <==>
               (forall i :: 0 <= i < |s[1..]| ==> !Reserved(s[1..][i]));
      }
    }
  }

  lemma {:induction false} EscapedLength(s: string)
    ensures |Escaped(s)| >= |s|
  {
    if s != [] { EscapedLength(s[1..]); }
  }

  /** The inverse of Escaped: reads the five entities back as characters. */
  function Unescape(s: string): string {
    if s == [] then []
    else if "&amp;" <= s then "&" + Unescape(s[5..])
    else if "&quot;" <= s then "\"" + Unescape(s[6..])
    else if "&lt;" <= s then "<" + Unescape(s[4..])
    else if "&apos;" <= s then "'" + Unescape(s[6..])
    else if "&gt;" <= s then ">" + Unescape(s[4..])
    else [s[0]] + Unescape(s[1..])
  }

  lemma UnescapeHead(c: char, rest: string)
    ensures Unescape(EscapeChar(c) + rest) == [c] + Unescape(rest)
  {
    var t := EscapeChar(c) + rest;
    assert t[|EscapeChar(c)|..] == rest;
    if !Reserved(c) {
      assert t[0] == c && t[1..] == rest;
      assert !("&amp;" <= t) && !("&quot;" <= t) && !("&lt;" <= t) && !("&apos;" <= t) && !("&gt;" <= t) by {
        assert t[0] != '&';
      }
    } else if c == '&' {
      assert "&amp;" <= t;
    } else if c == '"' {
      assert !("&amp;" <= t) by { assert t[1] == 'q'; }
      assert "&quot;" <= t;
    } else if c == '<' {
      assert !("&amp;" <= t) && !("&quot;" <= t) by { assert t[1] == 'l'; }
      assert "&lt;" <= t;
    } else if c == '\'' {
      assert !("&amp;" <= t) by { assert t[2] == 'p'; }
      assert !("&quot;" <= t) && !("&lt;" <= t) by { assert t[1] == 'a'; }
      assert "&apos;" <= t;
    } else {
      assert !("&amp;" <= t) && !("&quot;" <= t) && !("&lt;" <= t) && !("&apos;" <= t) by { assert t[1] == 'g'; }
      assert "&gt;" <= t;
    }
  }

  /** Unescaping an escaped text gives the text back. */
  lemma {:induction false} UnescapeEscaped(s: string)
    ensures Unescape(Escaped(s)) == s
  {
    if s != [] {
      UnescapeHead(s[0], Escaped(s[1..]));
      UnescapeEscaped(s[1..]);
    }
  }

  /** A worked example: "<a & b>" becomes "&lt;a &amp; b&gt;". */
  lemma EscapeExample()
    ensures Escaped("<a & b>") == "&lt;a &amp; b&gt;"
  {
    EscapedCons('<', "a & b>");
    EscapedCons('a', " & b>");
    EscapedCons(' ', "& b>");
    EscapedTail();
  }

  lemma EscapedTail()
    ensures Escaped("& b>") == "&amp; b&gt;"
  {
    EscapedCons('&', " b>");
    EscapedCons(' ', "b>");
    EscapedCons('b', ">");
    EscapedCons('>', "");
  }

  lemma EscapedCons(c: char, s: string)
    ensures Escaped([c] + s) == EscapeChar(c) + Escaped(s)
  {
    assert ([c] + s)[1..] == s;
  }

  /** Escaping is not idempotent: an escaped '&' is escaped again. */
  lemma EscapeNotIdempotent()
    ensures Escaped(Escaped("&")) == "&amp;amp;" != Escaped("&")
  {
  }
}
