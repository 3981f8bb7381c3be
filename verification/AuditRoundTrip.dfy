/** Writing a list of exceptions in canonical form and parsing the file gives the list back. */
module AuditRoundTrip {
  import opened Basics
  import opened AuditText

  type Pair = (string, string)

  predicate IdentifierChar(c: char) {
    'a' <= c <= 'z' || 'A' <= c <= 'Z' || '0' <= c <= '9' || c == '_'
  }

  predicate Key(key: string) {
    key != [] && key != "version" && key != "exceptions" && forall i :: 0 <= i < |key| ==> IdentifierChar(key[i])
  }

  predicate Break(c: char) {
    c == '\n' || c == '\r'
  }

  predicate OneLine(s: string) {
    forall i :: 0 <= i < |s| ==> !Break(s[i])
  }

  /** An exception that can be written down: at least one field, keys that are identifiers, values on one line. */
  predicate Writable(e: seq<Pair>) {
    e != [] && forall i :: 0 <= i < |e| ==> Key(e[i].0) && OneLine(e[i].1)
  }

  /** The dictionary a list of fields amounts to. */
  function FieldsOf(e: seq<Pair>): Fields {
    if e == [] then map[] else FieldsOf(e[..|e| - 1])[e[|e| - 1].0 := e[|e| - 1].1]
  }

  // ======== rendering ========

  function Field(p: Pair): string {
    p.0 + ": \"" + p.1 + "\""
  }

  function RenderException(e: seq<Pair>): seq<string> {
    if e == [] then []
    else if |e| == 1 then ["  - " + Field(e[0])]
    else RenderException(e[..|e| - 1]) + ["    " + Field(e[|e| - 1])]
  }

  function RenderAll(es: seq<seq<Pair>>): seq<string> {
    if es == [] then ["version: 1", "exceptions:"] else RenderAll(es[..|es| - 1]) + RenderException(es[|es| - 1])
  }

  function Join(lines: seq<string>): string {
    if lines == [] then "" else Join(lines[..|lines| - 1]) + lines[|lines| - 1] + "\n"
  }

  /** The lines of a file. A line feed, a carriage return or both end a line; reading both as two line ends only
      adds blank lines, which the parser skips. */
  function Lines(text: string): seq<string> {
    var k := FirstBreak(text);
    if text == [] then [] else if k == |text| then [text] else [text[..k]] + Lines(text[k + 1..])
  }

  function FirstBreak(text: string): (k: nat)
    ensures k <= |text| && (k < |text| ==> Break(text[k])) && forall i :: 0 <= i < k ==> !Break(text[i])
  {
    if text == [] || Break(text[0]) then 0 else 1 + FirstBreak(text[1..])
  }

  // ======== lines and text ========

  lemma {:induction false} LinesCons(line: string, text: string)
    requires OneLine(line)
    ensures Lines(line + "\n" + text) == [line] + Lines(text)
  {
    var whole := line + "\n" + text;
    var k := FirstBreak(whole);
    assert whole[|line|] == '\n';
    assert forall i :: 0 <= i < |line| ==> whole[i] == line[i];
    assert k == |line|;
    assert whole[..k] == line && whole[k + 1..] == text;
  }

  /** A line feed and a carriage return each end a line. */
  lemma {:induction false} LinesBreak(line: string, c: char, text: string)
    requires OneLine(line) && (c == '\n' || c == '\r')
    ensures Lines(line + [c] + text) == [line] + Lines(text)
    ensures Lines(line) == if line == "" then [] else [line]
  {
    var whole := line + [c] + text;
    var k := FirstBreak(whole);
    assert whole[|line|] == c;
    assert forall i :: 0 <= i < |line| ==> whole[i] == line[i];
    assert k == |line|;
    assert whole[..k] == line && whole[k + 1..] == text;
  }

  lemma {:induction false} LastLine(before: string, line: string, text: string)
    ensures before + line + "\n" + text == before + (line + "\n" + text)
  {
  }

  lemma {:induction false} LinesOfJoin(lines: seq<string>, text: string)
    requires forall i :: 0 <= i < |lines| ==> OneLine(lines[i])
    ensures Lines(Join(lines) + text) == lines + Lines(text)
  {
    hide OneLine, Lines;
    if lines == [] {
      assert Join(lines) + text == text;
      assert lines + Lines(text) == Lines(text);
    } else {
      var n := |lines| - 1;
      var tail := lines[n] + "\n" + text;
      LinesCons(lines[n], text);
      LinesOfJoin(lines[..n], tail);
      LastLine(Join(lines[..n]), lines[n], text);
      assert lines[..n] + ([lines[n]] + Lines(text)) == lines + Lines(text);
    }
  }

  // ======== one line ========

  lemma {:induction false} StripKeeps(s: string)
    requires s == [] || (!IsSpace(s[0]) && !IsSpace(s[|s| - 1]))
    ensures Strip(s) == s
  {
  }

  lemma {:induction false} StripPadding(pad: string, s: string)
    requires s != [] && !IsSpace(s[0]) && !IsSpace(s[|s| - 1])
    requires forall i :: 0 <= i < |pad| ==> IsSpace(pad[i])
    ensures Strip(pad + s) == s
  {
    if pad == [] {
      assert pad + s == s;
      StripKeeps(s);
    } else {
      assert (pad + s)[1..] == pad[1..] + s;
      StripPadding(pad[1..], s);
    }
  }

  lemma {:induction false} IdentifierIsPlain(c: char)
    requires IdentifierChar(c)
    ensures !IsSpace(c) && c != ':' && c != '#' && c != '-' && !Break(c)
  {
  }

  lemma {:induction false} ColonAfter(key: string, rest: string)
    requires forall i :: 0 <= i < |key| ==> key[i] != ':'
    ensures Colon(key + ":" + rest) == |key|
  {
    var s := key + ":" + rest;
    assert s[|key|] == ':';
    assert forall i :: 0 <= i < |key| ==> s[i] == key[i];
  }

  lemma {:induction false} UnquoteQuoted(value: string)
    ensures Unquote("\"" + value + "\"") == value
  {
    var quoted := "\"" + value + "\"";
    assert quoted[0] == '"' && quoted[|quoted| - 1] == '"';
    assert quoted[1..|quoted| - 1] == value;
  }

  lemma {:induction false} SplitAt(key: string, rest: string)
    requires forall i :: 0 <= i < |key| ==> key[i] != ':'
    ensures SplitKV(key + ":" + rest) == Some((Strip(key), Unquote(Strip(rest))))
  {
    hide Strip, Unquote;
    var line := key + ":" + rest;
    ColonAfter(key, rest);
    assert line[..|key|] == key && line[|key| + 1..] == rest;
  }

  /** A field is split back into its key and its value, whatever the value holds. */
  lemma {:induction false} FieldSplits(p: Pair)
    requires Key(p.0)
    ensures SplitKV(Field(p)) == Some(p)
  {
    hide Strip, Unquote, SplitKV;
    forall i | 0 <= i < |p.0| ensures !IsSpace(p.0[i]) && p.0[i] != ':' {
      IdentifierIsPlain(p.0[i]);
    }
    var quoted := "\"" + p.1 + "\"";
    assert Field(p) == p.0 + ":" + (" " + quoted);
    SplitAt(p.0, " " + quoted);
    StripKeeps(p.0);
    StripPadding(" ", quoted);
    UnquoteQuoted(p.1);
  }

  /** Such a line is not taken for a comment, a header or the start of an item. */
  lemma {:induction false} FieldIsPlain(p: Pair)
    requires Key(p.0)
    ensures var line := Field(p);
            && line != [] && line[0] != '#' && !StartsWith(line, VERSION) && !StartsWith(line, EXCEPTIONS)
            && !StartsWith(line, DASH)
            && !IsSpace(line[0]) && !IsSpace(line[|line| - 1]) && ':' in line
  {
    var line := Field(p);
    IdentifierIsPlain(p.0[0]);
    assert line[0] == p.0[0] && line[|p.0|] == ':';
    assert line == p.0 + (": \"" + p.1 + "\"");
    NotHeader(p.0, line, "version");
    NotHeader(p.0, line, "exceptions");
    assert VERSION == "version" + ":" && EXCEPTIONS == "exceptions" + ":";
  }

  lemma {:induction false} NotHeader(key: string, line: string, word: string)
    requires Key(key) && key != word && |key| < |line| && line[..|key|] == key && line[|key|] == ':'
    requires forall i :: 0 <= i < |word| ==> IdentifierChar(word[i])
    ensures !StartsWith(line, word + ":")
  {
    if StartsWith(line, word + ":") {
      assert line[|word|] == (word + ":")[|word|] == ':';
      if |word| < |key| {
        assert line[|word|] == key[|word|];
        IdentifierIsPlain(key[|word|]);
      } else if |key| < |word| {
        assert line[|key|] == (word + ":")[|key|] == word[|key|];
        IdentifierIsPlain(word[|key|]);
      }
    }
  }

  // ======== one exception ========

  lemma {:induction false} ReadItem(p: Parsing, raw: string, f: Pair)
    requires var line := Strip(raw);
             && line != [] && line[0] != '#' && !StartsWith(line, VERSION) && !StartsWith(line, EXCEPTIONS)
             && StartsWith(line, DASH) && Strip(line[2..]) != [] && SplitKV(Strip(line[2..])) == Some(f)
    ensures ReadLine(p, raw) == Some(Parsing(Flush(p), Some(map[f.0 := f.1])))
  {
    hide Strip, SplitKV, Flush, StartsWith;
  }

  lemma {:induction false} ReadField(p: Parsing, raw: string, f: Pair)
    requires var line := Strip(raw);
             && line != [] && line[0] != '#' && !StartsWith(line, VERSION) && !StartsWith(line, EXCEPTIONS)
             && !StartsWith(line, DASH) && ':' in line && SplitKV(line) == Some(f)
    requires p.current.Some?
    ensures ReadLine(p, raw) == Some(p.(current := Some(p.current.value[f.0 := f.1])))
  {
    hide Strip, SplitKV, Flush, StartsWith;
  }

  lemma {:induction false} ReadFirst(p: Parsing, f: Pair)
    requires Key(f.0)
    ensures ReadLine(p, "  - " + Field(f)) == Some(Parsing(Flush(p), Some(map[f.0 := f.1])))
  {
    hide ReadLine, Flush, Strip, SplitKV, Field;
    var line := "- " + Field(f);
    FieldIsPlain(f);
    FieldSplits(f);
    assert "  - " + Field(f) == "  " + line;
    assert line[|line| - 1] == Field(f)[|Field(f)| - 1] && line[0] == '-';
    StripPadding("  ", line);
    assert line[2..] == Field(f) && line[..2] == DASH;
    assert line[0] != VERSION[0] && line[0] != EXCEPTIONS[0];
    StripKeeps(Field(f));
    ReadItem(p, "  - " + Field(f), f);
  }

  lemma {:induction false} ReadNext(p: Parsing, f: Pair)
    requires Key(f.0) && p.current.Some?
    ensures ReadLine(p, "    " + Field(f)) == Some(p.(current := Some(p.current.value[f.0 := f.1])))
  {
    hide ReadLine, Strip, SplitKV, Field, StartsWith;
    FieldIsPlain(f);
    FieldSplits(f);
    StripPadding("    ", Field(f));
    ReadField(p, "    " + Field(f), f);
  }

  lemma {:induction false} ReadConcat(p: Parsing, a: seq<string>, b: seq<string>)
    requires ReadLines(p, a).Some?
    ensures ReadLines(p, a + b) == ReadLines(ReadLines(p, a).value, b)
  {
    hide ReadLine;
    if b == [] {
      assert a + b == a;
    } else {
      var n := |b| - 1;
      ReadConcat(p, a, b[..n]);
      assert (a + b)[..|a| + n] == a + b[..n];
      assert (a + b)[|a| + n] == b[n];
    }
  }

  lemma {:induction false} ReadException(p: Parsing, e: seq<Pair>)
    requires Writable(e)
    ensures ReadLines(p, RenderException(e)) == Some(Parsing(Flush(p), Some(FieldsOf(e))))
  {
    hide ReadLine, Flush;
    var n := |e| - 1;
    var lines := RenderException(e);
    if n == 0 {
      ReadFirst(p, e[0]);
      assert lines[..0] == [];
      assert e[..0] == [];
      assert map[][e[0].0 := e[0].1] == map[e[0].0 := e[0].1];
    } else {
      ReadException(p, e[..n]);
      ReadNext(Parsing(Flush(p), Some(FieldsOf(e[..n]))), e[n]);
      assert lines[..|lines| - 1] == RenderException(e[..n]);
    }
  }

  lemma {:induction false} FieldsNonEmpty(e: seq<Pair>)
    requires e != []
    ensures FieldsOf(e) != map[]
  {
    assert e[|e| - 1].0 in FieldsOf(e);
  }

  // ======== the whole file ========

  function AllFields(es: seq<seq<Pair>>): seq<Fields> {
    Map((e: seq<Pair>) => FieldsOf(e), es)
  }

  lemma {:induction false} ReadHeader()
    ensures ReadLines(START, ["version: 1", "exceptions:"]) == Some(START)
  {
    StripKeeps("version: 1");
    StripKeeps("exceptions:");
    assert "version: 1"[..8] == VERSION;
    assert ["version: 1", "exceptions:"][..1] == ["version: 1"];
    assert ["version: 1"][..0] == [];
    assert ReadLine(START, "version: 1") == Some(START);
    assert ReadLines(START, ["version: 1"]) == Some(START);
  }

  lemma {:induction false} ReadAll(es: seq<seq<Pair>>)
    requires forall i :: 0 <= i < |es| ==> Writable(es[i])
    ensures ReadLines(START, RenderAll(es)).Some? && Flush(ReadLines(START, RenderAll(es)).value) == AllFields(es)
  {
    hide ReadLine, ReadLines, FieldsOf, RenderException;
    if es == [] {
      ReadHeader();
    } else {
      var n := |es| - 1;
      ReadAll(es[..n]);
      var p := ReadLines(START, RenderAll(es[..n])).value;
      ReadConcat(START, RenderAll(es[..n]), RenderException(es[n]));
      ReadException(p, es[n]);
      FieldsNonEmpty(es[n]);
      assert AllFields(es) == AllFields(es[..n]) + [FieldsOf(es[n])];
    }
  }

  lemma {:induction false} RenderedOneLine(e: seq<Pair>)
    requires Writable(e)
    ensures forall i :: 0 <= i < |RenderException(e)| ==> OneLine(RenderException(e)[i])
  {
    var n := |e| - 1;
    forall i | 0 <= i < |e[n].0| ensures !Break(e[n].0[i]) {
      IdentifierIsPlain(e[n].0[i]);
    }
    if n > 0 {
      RenderedOneLine(e[..n]);
    }
  }

  lemma {:induction false} AllOneLine(es: seq<seq<Pair>>)
    requires forall i :: 0 <= i < |es| ==> Writable(es[i])
    ensures forall i :: 0 <= i < |RenderAll(es)| ==> OneLine(RenderAll(es)[i])
  {
    if es != [] {
      AllOneLine(es[..|es| - 1]);
      RenderedOneLine(es[|es| - 1]);
    }
  }

  /** The round trip: values may hold colons, hashes, quotes and outer spaces. */
  lemma {:induction false} RenderThenParse(es: seq<seq<Pair>>)
    requires forall i :: 0 <= i < |es| ==> Writable(es[i])
    ensures Parse(Lines(Join(RenderAll(es)))) == Some(AllFields(es))
  {
    AllOneLine(es);
    LinesOfJoin(RenderAll(es), "");
    assert Join(RenderAll(es)) + "" == Join(RenderAll(es));
    assert RenderAll(es) + Lines("") == RenderAll(es);
    ReadAll(es);
  }
}
