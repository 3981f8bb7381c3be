/** Exception files as people write them: plain, single- and double-quoted values, any indentation, blank lines,
    comments and header lines. They are read as what was written. */
module AuditLayout {
  import opened Basics
  import opened AuditText
  import opened AuditRoundTrip

  // ======== one value ========

  predicate EndsQuoted(v: string) {
    v != [] && v[0] == v[|v| - 1] && (v[0] == '"' || v[0] == '\'')
  }

  /** A pair of equal quotes around a value is removed, a lone quote is nothing, and anything else stays. */
  lemma {:induction false} UnquoteExactly(v: string)
    ensures !EndsQuoted(v) ==> Unquote(v) == v
    ensures EndsQuoted(v) && |v| >= 2 ==> Unquote(v) == v[1..|v| - 1]
    ensures EndsQuoted(v) && |v| == 1 ==> Unquote(v) == ""
  {
  }

  datatype Style = Plain | Single | Double

  function Quote(v: string, style: Style): string {
    match style
    case Plain => v
    case Single => "'" + v + "'"
    case Double => "\"" + v + "\""
  }

  /** Plain values have no outer spaces and are not enclosed in quotes. */
  predicate Writes(v: string, style: Style) {
    style.Plain? ==> (v == [] || (!IsSpace(v[0]) && !IsSpace(v[|v| - 1]))) && !EndsQuoted(v)
  }

  lemma {:induction false} QuotedBack(v: string, style: Style)
    requires Writes(v, style)
    ensures var q := Quote(v, style);
            && Unquote(q) == v && (q == [] || (!IsSpace(q[0]) && !IsSpace(q[|q| - 1])))
  {
    var q := Quote(v, style);
    UnquoteExactly(q);
    if style != Plain {
      assert q[0] == q[|q| - 1] && q[1..|q| - 1] == v;
    }
  }

  // ======== one line ========

  predicate Spaces(s: string) {
    forall i :: 0 <= i < |s| ==> IsSpace(s[i])
  }

  lemma {:induction false} LStripPad(pad: string, s: string)
    requires Spaces(pad)
    ensures LStrip(pad + s) == LStrip(s)
  {
    hide IsSpace;
    if pad == [] {
      assert pad + s == s;
    } else {
      assert (pad + s)[1..] == pad[1..] + s && (pad + s)[0] == pad[0];
      LStripPad(pad[1..], s);
    }
  }

  lemma {:induction false} RStripPad(s: string, pad: string)
    requires Spaces(pad)
    ensures RStrip(s + pad) == RStrip(s)
  {
    hide IsSpace;
    if pad == [] {
      assert s + pad == s;
    } else {
      var n := |pad| - 1;
      assert (s + pad)[..|s| + n] == s + pad[..n] && (s + pad)[|s| + n] == pad[n];
      RStripPad(s, pad[..n]);
    }
  }

  /** Spaces around something that has none at its ends are cut off. */
  lemma {:induction false} StripAround(before: string, s: string, after: string)
    requires Spaces(before) && Spaces(after) && (s == [] || (!IsSpace(s[0]) && !IsSpace(s[|s| - 1])))
    ensures Strip(before + s + after) == s
  {
    hide IsSpace, LStrip, RStrip;
    assert before + s + after == before + (s + after);
    LStripPad(before, s + after);
    if s == [] {
      assert s + after == after + [];
      LStripPad(after, []);
      StripNothing();
    } else {
      StripsNothing(s, after);
      RStripPad(s, after);
    }
  }

  lemma {:induction false} StripNothing()
    ensures LStrip([]) == [] && RStrip([]) == []
  {
  }

  lemma {:induction false} StripsNothing(s: string, after: string)
    requires s != [] && !IsSpace(s[0]) && !IsSpace(s[|s| - 1])
    ensures LStrip(s + after) == s + after && RStrip(s) == s
  {
    hide IsSpace;
    assert (s + after)[0] == s[0];
  }

  /** Lines of a file: a field that starts an exception or continues it, or a line that says nothing. */
  datatype Entry =
    | Field(first: bool, before: string, pair: Pair, gap: string, style: Style, after: string)
    | Blank(before: string)
    | Comment(before: string, text: string)
    | Header(before: string, version: bool, text: string)
    | Stray(before: string, text: string)

  function LineOf(e: Entry): string {
    match e
    case Field(first, before, pair, gap, style, after) =>
      before + ((if first then "- " else "") + pair.0 + ":" + gap + Quote(pair.1, style)) + after
    case Blank(before) => before
    case Comment(before, text) => before + ("#" + text)
    case Header(before, version, text) => before + ((if version then "version:" else "exceptions:") + text)
    case Stray(before, text) => before + text
  }

  /** What is asked of a line: spaces where spaces are meant, keys that are identifiers, values that fit their style,
      and stray text without a colon that starts neither an item nor a comment. */
  predicate Legible(e: Entry) {
    match e
    case Field(first, before, pair, gap, style, after) =>
      Spaces(before) && Key(pair.0) && Spaces(gap) && Writes(pair.1, style) && Spaces(after)
      && (pair.1 == "" && style.Plain? ==> gap == "")
    case Blank(before) => Spaces(before)
    case Comment(before, text) => Spaces(before)
    case Header(before, version, text) => Spaces(before)
    case Stray(before, text) =>
      Spaces(before) && ':' !in text && text != [] && !IsSpace(text[0]) && text[0] != '#' && text[0] != '-'
  }

  /** The exceptions written, each with its fields in order. */
  function Collected(entries: seq<Entry>): seq<seq<Pair>> {
    if entries == [] then []
    else
      var e, before := entries[|entries| - 1], Collected(entries[..|entries| - 1]);
      if !e.Field? then before
      else if e.first then before + [[e.pair]]
      else if before == [] then before
      else before[..|before| - 1] + [before[|before| - 1] + [e.pair]]
  }

  // ---- what a line is read as ----

  /** The part of a field line that remains when it is stripped. */
  function Core(e: Entry): string
    requires e.Field?
  {
    e.pair.0 + ":" + e.gap + Quote(e.pair.1, e.style)
  }

  lemma {:induction false} CoreEnds(e: Entry)
    requires e.Field? && Legible(e)
    ensures var core := Core(e);
            && core != [] && !IsSpace(core[0]) && !IsSpace(core[|core| - 1]) && core[0] == e.pair.0[0]
            && core[|e.pair.0|] == ':' && core[..|e.pair.0|] == e.pair.0 && ':' in core
  {
    var core, q := Core(e), Quote(e.pair.1, e.style);
    IdentifierIsPlain(e.pair.0[0]);
    QuotedBack(e.pair.1, e.style);
    assert core == e.pair.0 + (":" + e.gap + q);
    assert core[|e.pair.0|] == ':';
    if q != [] {
      assert core[|core| - 1] == q[|q| - 1];
    } else {
      assert core == e.pair.0 + ":";
    }
  }

  lemma {:induction false} CoreSplits(e: Entry)
    requires e.Field? && Legible(e)
    ensures SplitKV(Core(e)) == Some(e.pair)
  {
    hide Strip, Unquote, SplitKV, Writes, Quote;
    var q := Quote(e.pair.1, e.style);
    forall i | 0 <= i < |e.pair.0| ensures !IsSpace(e.pair.0[i]) && e.pair.0[i] != ':' {
      IdentifierIsPlain(e.pair.0[i]);
    }
    assert Core(e) == e.pair.0 + ":" + (e.gap + q);
    SplitAt(e.pair.0, e.gap + q);
    StripKeeps(e.pair.0);
    QuotedBack(e.pair.1, e.style);
    StripAround(e.gap, q, "");
    assert e.gap + q + "" == e.gap + q;
  }

  lemma {:induction false} CoreIsPlain(e: Entry)
    requires e.Field? && Legible(e)
    ensures var line := Core(e);
            line[..1] != "#" && !StartsWith(line, VERSION) && !StartsWith(line, EXCEPTIONS) && !StartsWith(line, DASH)
  {
    hide Writes, Quote, Spaces;
    var line := Core(e);
    CoreEnds(e);
    IdentifierIsPlain(e.pair.0[0]);
    NotHeader(e.pair.0, line, "version");
    NotHeader(e.pair.0, line, "exceptions");
    assert VERSION == "version" + ":" && EXCEPTIONS == "exceptions" + ":";
    assert line[0] != DASH[0];
  }

  lemma {:induction false} ReadFirstField(p: Parsing, e: Entry)
    requires e.Field? && e.first && Legible(e)
    ensures ReadLine(p, LineOf(e)) == Some(Parsing(Flush(p), Some(map[e.pair.0 := e.pair.1])))
  {
    hide ReadLine, Flush, Strip, SplitKV, Writes, Quote, Spaces, Core;
    var core := Core(e);
    var line := "- " + core;
    CoreEnds(e);
    CoreSplits(e);
    LineIsCore(e);
    assert line[|line| - 1] == core[|core| - 1] && line[0] == '-';
    StripAround(e.before, line, e.after);
    assert line[2..] == core && line[..2] == DASH;
    assert line[0] != VERSION[0] && line[0] != EXCEPTIONS[0];
    StripKeeps(core);
    ReadItem(p, LineOf(e), e.pair);
  }

  lemma {:induction false} LineIsCore(e: Entry)
    requires e.Field?
    ensures LineOf(e) == e.before + ((if e.first then "- " else "") + Core(e)) + e.after
  {
    var q := Quote(e.pair.1, e.style);
    var dash := if e.first then "- " else "";
    assert dash + e.pair.0 + ":" + e.gap + q == dash + (e.pair.0 + ":" + e.gap + q);
  }

  lemma {:induction false} ReadNextField(p: Parsing, e: Entry)
    requires e.Field? && !e.first && Legible(e)
    ensures ReadLine(p, LineOf(e))
         == Some(if p.current.Some? then p.(current := Some(p.current.value[e.pair.0 := e.pair.1])) else p)
  {
    hide Flush, SplitKV, Writes, Quote, Spaces, Core, Strip, StartsWith;
    var core := Core(e);
    CoreEnds(e);
    CoreSplits(e);
    CoreIsPlain(e);
    LineIsCore(e);
    assert "" + core == core;
    StripAround(e.before, core, e.after);
    assert core[..1] == [core[0]];
  }

  lemma {:induction false} ReadNothing(p: Parsing, e: Entry)
    requires !e.Field? && Legible(e)
    ensures ReadLine(p, LineOf(e)) == Some(p)
  {
    hide IsSpace, LStrip, RStrip;
    match e {
      case Blank(before) =>
        assert before == before + "" + "";
        StripAround(before, "", "");
      case Comment(before, text) =>
        StartKept(before, "#" + text);
      case Header(before, version, text) =>
        var word := if version then VERSION else EXCEPTIONS;
        HeadersArePlain();
        StartKept(before, word + text);
        HeaderKept(before, word, text);
      case Stray(before, text) =>
        StartKept(before, text);
        StripKeepsColon(before + text);
        NoColon(before, text);
        assert Strip(before + text)[0] != DASH[0];
    }
  }

  lemma {:induction false} NoColon(before: string, text: string)
    requires Spaces(before) && ':' !in text
    ensures ':' !in before + text
  {
    ColonIsNoSpace();
  }

  /** The first character after the spaces stays the first. */
  lemma {:induction false} StartKept(before: string, s: string)
    requires Spaces(before) && s != [] && (s[0] == '#' || !IsSpace(s[0]))
    ensures Strip(before + s) != [] && Strip(before + s)[0] == s[0] && Strip(before + s) <= s
  {
    hide LStrip, RStrip;
    assert !IsSpace('#');
    LStripPad(before, s);
    StartStays(s);
    RStripped(s);
  }

  lemma {:induction false} StartStays(s: string)
    requires s != [] && !IsSpace(s[0])
    ensures LStrip(s) == s
  {
  }

  lemma {:induction false} HeadersArePlain()
    ensures !IsSpace(VERSION[0]) && !IsSpace(VERSION[|VERSION| - 1])
    ensures !IsSpace(EXCEPTIONS[0]) && !IsSpace(EXCEPTIONS[|EXCEPTIONS| - 1])
  {
  }

  /** A header word is not cut off at the end. */
  lemma {:induction false} HeaderKept(before: string, word: string, text: string)
    requires Spaces(before) && word != [] && !IsSpace(word[0]) && !IsSpace(word[|word| - 1])
    ensures StartsWith(Strip(before + (word + text)), word)
  {
    hide LStrip, RStrip;
    var s := word + text;
    LStripPad(before, s);
    assert s[0] == word[0];
    StartStays(s);
    RStripped(s);
    var r := RStrip(s);
    assert !IsSpace(s[|word| - 1]) by {
      assert s[|word| - 1] == word[|word| - 1];
    }
    assert r == s[..|r|] && s[..|word|] == word;
  }

  // ======== the whole file ========

  function LinesOf(entries: seq<Entry>): seq<string> {
    Map((e: Entry) => LineOf(e), entries)
  }

  /** What has been read after some lines. */
  predicate HasRead(p: Parsing, es: seq<seq<Pair>>) {
    if es == [] then p == START
    else
      && p.done == AllFields(es[..|es| - 1]) && p.current == Some(FieldsOf(es[|es| - 1]))
      && es[|es| - 1] != []
  }

  lemma {:induction false} ReadEntries(entries: seq<Entry>)
    requires forall i :: 0 <= i < |entries| ==> Legible(entries[i])
    ensures ReadLines(START, LinesOf(entries)).Some?
    ensures HasRead(ReadLines(START, LinesOf(entries)).value, Collected(entries))
  {
    hide ReadLine, HasRead, FieldsOf, Legible, LineOf;
    var lines := LinesOf(entries);
    if entries == [] {
      NothingRead();
    } else {
      var n := |entries| - 1;
      var init, e := entries[..n], entries[n];
      assert lines[..n] == LinesOf(init) && lines[n] == LineOf(e);
      ReadEntries(init);
      var p := ReadLines(START, LinesOf(init)).value;
      ReadOne(p, Collected(init), e);
    }
  }

  lemma {:induction false} NothingRead()
    ensures HasRead(START, [])
  {
  }

  lemma {:induction false} ReadOne(p: Parsing, es: seq<seq<Pair>>, e: Entry)
    requires HasRead(p, es) && Legible(e)
    ensures ReadLine(p, LineOf(e)).Some?
    ensures HasRead(ReadLine(p, LineOf(e)).value,
                    if !e.Field? then es
                    else if e.first then es + [[e.pair]]
                    else if es == [] then es
                    else es[..|es| - 1] + [es[|es| - 1] + [e.pair]])
  {
    hide ReadLine, LineOf, Legible, FieldsOf;
    if !e.Field? {
      ReadNothing(p, e);
    } else if e.first {
      ReadFirstField(p, e);
      FlushAll(p, es);
      OneField(e.pair);
      assert (es + [[e.pair]])[..|es|] == es;
    } else {
      ReadNextField(p, e);
      if es != [] {
        var m := |es| - 1;
        MoreFields(es[m], e.pair);
        assert (es[..m] + [es[m] + [e.pair]])[..m] == es[..m];
      }
    }
  }

  lemma {:induction false} OneField(p: Pair)
    ensures FieldsOf([p]) == map[p.0 := p.1]
  {
    assert [p][..0] == [];
  }

  lemma {:induction false} MoreFields(e: seq<Pair>, p: Pair)
    ensures FieldsOf(e + [p]) == FieldsOf(e)[p.0 := p.1]
  {
    assert (e + [p])[..|e|] == e;
  }

  lemma {:induction false} FlushAll(p: Parsing, es: seq<seq<Pair>>)
    requires HasRead(p, es)
    ensures Flush(p) == AllFields(es)
  {
    hide FieldsOf;
    if es != [] {
      FieldsNonEmpty(es[|es| - 1]);
      assert es == es[..|es| - 1] + [es[|es| - 1]];
      assert AllFields(es) == AllFields(es[..|es| - 1]) + [FieldsOf(es[|es| - 1])];
    }
  }

  /** Whatever mixture of styles, indentation, comments and blank lines a file is written in, it is read as the
      exceptions that were written. */
  lemma {:induction false} WrittenThenParsed(entries: seq<Entry>)
    requires forall i :: 0 <= i < |entries| ==> Legible(entries[i])
    ensures Parse(LinesOf(entries)) == Some(AllFields(Collected(entries)))
  {
    hide ReadLines, Flush, HasRead;
    ReadEntries(entries);
    FlushAll(ReadLines(START, LinesOf(entries)).value, Collected(entries));
  }
}
