/** The text handling of the audit gate: stripping, the exception file parser, and the canonical form it reads back. */
module AuditText {
  import opened Basics

  // ======== characters and strings ========

  /** The characters str.strip removes. */
  predicate IsSpace(c: char) {
    || '\t' <= c <= '\r' || '\U{1c}' <= c <= ' ' || c == '\U{85}' || c == '\U{a0}' || c == '\U{1680}'
    || '\U{2000}' <= c <= '\U{200a}' || c == '\U{2028}' || c == '\U{2029}' || c == '\U{202f}' || c == '\U{205f}'
    || c == '\U{3000}'
  }

  function LStrip(s: string): string {
    if s != [] && IsSpace(s[0]) then LStrip(s[1..]) else s
  }

  function RStrip(s: string): string {
    if s != [] && IsSpace(s[|s| - 1]) then RStrip(s[..|s| - 1]) else s
  }

  function Strip(s: string): string {
    RStrip(LStrip(s))
  }

  /** What is cut off in front are spaces, and what stays does not start with one. */
  lemma {:induction false} LStripped(s: string) returns (n: nat)
    ensures n <= |s| && LStrip(s) == s[n..] && forall i :: 0 <= i < n ==> IsSpace(s[i])
    ensures LStrip(s) != [] ==> !IsSpace(LStrip(s)[0])
  {
    hide IsSpace;
    n := 0;
    if s != [] && IsSpace(s[0]) {
      var m := LStripped(s[1..]);
      n := m + 1;
      assert s[1..][m..] == s[n..];
      assert forall i :: 1 <= i < n ==> s[i] == s[1..][i - 1];
    }
  }

  lemma {:induction false} RStripped(s: string)
    ensures RStrip(s) <= s && forall i :: |RStrip(s)| <= i < |s| ==> IsSpace(s[i])
    ensures RStrip(s) != [] ==> !IsSpace(RStrip(s)[|RStrip(s)| - 1])
  {
    hide IsSpace;
    if s != [] && IsSpace(s[|s| - 1]) {
      RStripped(s[..|s| - 1]);
    }
  }

  /** Strip cuts spaces off both ends and nothing else, and leaves none there. */
  lemma {:induction false} Stripped(s: string) returns (n: nat, m: nat)
    ensures n <= m <= |s| && Strip(s) == s[n..m]
    ensures forall i :: 0 <= i < n || m <= i < |s| ==> IsSpace(s[i])
    ensures Strip(s) != [] ==> !IsSpace(Strip(s)[0]) && !IsSpace(Strip(s)[|Strip(s)| - 1])
  {
    hide IsSpace;
    n := LStripped(s);
    RStripped(LStrip(s));
    m := n + |Strip(s)|;
    forall i | m <= i < |s| ensures IsSpace(s[i]) {
      assert s[i] == LStrip(s)[i - n];
    }
  }

  predicate StartsWith(s: string, prefix: string) {
    prefix <= s
  }

  // Only ASCII letters have a lower case here.
  function LowerChar(c: char): char {
    if 'A' <= c <= 'Z' then c - 'A' + 'a' else c
  }

  function Lower(s: string): string {
    Map((c: char) => LowerChar(c), s)
  }

  // ======== the parser ========

  type Fields = map<string, string>

  /** The position of the first colon, or the length. */
  function Colon(s: string): (k: nat)
    ensures k <= |s| && (k < |s| ==> s[k] == ':') && forall i :: 0 <= i < k ==> s[i] != ':'
  {
    if s == [] || s[0] == ':' then 0 else 1 + Colon(s[1..])
  }

  predicate Quoted(v: string, quote: char) {
    v != [] && v[0] == quote && v[|v| - 1] == quote
  }

  /** One pair of quotes is removed; a lone quote character counts as a pair. */
  function Unquote(v: string): string {
    if Quoted(v, '"') || Quoted(v, '\'') then (if |v| == 1 then "" else v[1..|v| - 1]) else v
  }

  /** key: value; None when there is no colon to split at. */
  function SplitKV(line: string): Option<(string, string)> {
    var k := Colon(line);
    if k == |line| then None else Some((Strip(line[..k]), Unquote(Strip(line[k + 1..]))))
  }

  const DASH := "- "
  const VERSION := "version:"
  const EXCEPTIONS := "exceptions:"

  /** The exceptions finished so far, and the one being read. */
  datatype Parsing = Parsing(done: seq<Fields>, current: Option<Fields>)

  function Flush(p: Parsing): seq<Fields> {
    if p.current.Some? && p.current.value != map[] then p.done + [p.current.value] else p.done
  }

  /** One line of the file; None is the ValueError of an item without a colon. */
  function ReadLine(p: Parsing, raw: string): Option<Parsing> {
    var line := Strip(raw);
    if line == [] || line[0] == '#' || StartsWith(line, VERSION) || StartsWith(line, EXCEPTIONS) then Some(p)
    else if StartsWith(line, DASH) then
      var rest := Strip(line[2..]);
      if rest == [] then Some(Parsing(Flush(p), Some(map[])))
      else
        match SplitKV(rest)
        case None => None
        case Some((key, value)) => Some(Parsing(Flush(p), Some(map[key := value])))
    else if p.current.Some? && ':' in line then
      match SplitKV(line)
      case None => None
      case Some((key, value)) => Some(p.(current := Some(p.current.value[key := value])))
    else Some(p)
  }

  function ReadLines(p: Parsing, lines: seq<string>): Option<Parsing> {
    if lines == [] then Some(p)
    else
      match ReadLines(p, lines[..|lines| - 1])
      case None => None
      case Some(q) => ReadLine(q, lines[|lines| - 1])
  }

  const START := Parsing([], None)

  function Parse(lines: seq<string>): Option<seq<Fields>> {
    match ReadLines(START, lines)
    case None => None
    case Some(p) => Some(Flush(p))
  }

  lemma {:induction false} ReadPrefixFails(p: Parsing, lines: seq<string>, n: nat)
    requires n <= |lines| && ReadLines(p, lines[..n]).None?
    ensures ReadLines(p, lines).None?
  {
    if n < |lines| {
      assert lines[..|lines| - 1][..n] == lines[..n];
      ReadPrefixFails(p, lines[..|lines| - 1], n);
    } else {
      assert lines[..n] == lines;
    }
  }

  // ---- when the parser breaks off ----

  /** A line that starts an item but has no colon in the rest. */
  predicate BadItem(raw: string) {
    var line := Strip(raw);
    && StartsWith(line, DASH) && ':' !in line[2..]
  }

  lemma {:induction false} SplitFails(line: string)
    ensures SplitKV(line).None? <==> ':' !in line
  {
    var k := Colon(line);
    if k < |line| {
      assert line[k] in line;
    }
  }

  lemma {:induction false} ColonIsNoSpace()
    ensures !IsSpace(':')
  {
  }

  lemma {:induction false} LStripKeepsColon(s: string)
    ensures ':' in LStrip(s) <==> ':' in s
  {
    ColonIsNoSpace();
    hide IsSpace;
    if s != [] && IsSpace(s[0]) {
      LStripKeepsColon(s[1..]);
      assert s == [s[0]] + s[1..];
    }
  }

  lemma {:induction false} RStripKeepsColon(s: string)
    ensures ':' in RStrip(s) <==> ':' in s
  {
    ColonIsNoSpace();
    hide IsSpace;
    if s != [] && IsSpace(s[|s| - 1]) {
      RStripKeepsColon(s[..|s| - 1]);
      assert s == s[..|s| - 1] + [s[|s| - 1]];
    }
  }

  lemma {:induction false} StripKeepsColon(s: string)
    ensures ':' in Strip(s) <==> ':' in s
  {
    LStripKeepsColon(s);
    RStripKeepsColon(LStrip(s));
  }

  /** A string that does not end in a space is not stripped to nothing. */
  lemma {:induction false} LStripKeepsLast(s: string)
    requires s != [] && !IsSpace(s[|s| - 1])
    ensures LStrip(s) != [] && LStrip(s)[|LStrip(s)| - 1] == s[|s| - 1]
  {
    hide IsSpace;
    if IsSpace(s[0]) {
      assert |s| > 1;
      LStripKeepsLast(s[1..]);
    }
  }

  /** The header words and the comment sign start no item. */
  lemma {:induction false} ItemStart(line: string)
    requires StartsWith(line, DASH)
    ensures line != [] && line[0] != '#' && !StartsWith(line, VERSION) && !StartsWith(line, EXCEPTIONS)
  {
    assert line[0] == DASH[0] && VERSION[0] != DASH[0] && EXCEPTIONS[0] != DASH[0];
  }

  lemma {:induction false} LineFails(p: Parsing, raw: string)
    ensures ReadLine(p, raw).None? <==> BadItem(raw)
  {
    hide Strip, SplitKV, StartsWith;
    var line := Strip(raw);
    SplitFails(line);
    if StartsWith(line, DASH) {
      ItemStart(line);
      DashLength(line);
      ItemIsNotEmpty(raw);
      StripKeepsColon(line[2..]);
      SplitFails(Strip(line[2..]));
    }
  }

  lemma {:induction false} DashLength(line: string)
    requires StartsWith(line, DASH)
    ensures |line| >= 2
  {
  }

  /** A stripped line does not end in the space of its dash, so the rest of an item is never empty. */
  lemma {:induction false} ItemIsNotEmpty(raw: string)
    requires StartsWith(Strip(raw), DASH)
    ensures |Strip(raw)| > 2 && Strip(Strip(raw)[2..]) != []
  {
    hide IsSpace, Strip;
    StrippedEnds(raw);
    LongerThanDash(Strip(raw));
    StripKeepsSome(Strip(raw)[2..]);
  }

  lemma {:induction false} LongerThanDash(line: string)
    requires StartsWith(line, DASH) && !IsSpace(line[|line| - 1])
    ensures |line| > 2
  {
    assert line[1] == DASH[1] == ' ';
  }

  lemma {:induction false} StripKeepsSome(s: string)
    requires s != [] && !IsSpace(s[|s| - 1])
    ensures Strip(s) != []
  {
    hide IsSpace;
    LStripKeepsLast(s);
    RStripKeepsSome(LStrip(s));
  }

  lemma {:induction false} StrippedEnds(s: string)
    ensures Strip(s) != [] ==> !IsSpace(Strip(s)[|Strip(s)| - 1])
  {
    hide LStrip, IsSpace;
    RStripped(LStrip(s));
  }

  lemma {:induction false} RStripKeepsSome(s: string)
    requires s != [] && !IsSpace(s[|s| - 1])
    ensures RStrip(s) != []
  {
  }

  /** The file cannot be parsed exactly if one of its lines is such an item, wherever it stands. */
  lemma {:induction false} ParseFailsExactly(lines: seq<string>)
    ensures Parse(lines).None? <==> exists i :: 0 <= i < |lines| && BadItem(lines[i])
  {
    ReadFails(START, lines);
  }

  lemma {:induction false} ReadFails(p: Parsing, lines: seq<string>)
    ensures ReadLines(p, lines).None? <==> exists i :: 0 <= i < |lines| && BadItem(lines[i])
  {
    hide ReadLine, BadItem;
    if lines != [] {
      var n := |lines| - 1;
      ReadFails(p, lines[..n]);
      assert forall i :: 0 <= i < n ==> lines[..n][i] == lines[i];
      if ReadLines(p, lines[..n]).Some? {
        LineFails(ReadLines(p, lines[..n]).value, lines[n]);
      }
    }
  }

  /** The parser's loop. */
  method ParseExceptions(lines: seq<string>) returns (exceptions: Option<seq<Fields>>)
    ensures exceptions == Parse(lines)
  {
    hide Strip, SplitKV;
    var found: seq<Fields> := [];
    var current: Option<Fields> := None;
    for n := 0 to |lines|
      invariant ReadLines(START, lines[..n]) == Some(Parsing(found, current))
    {
      assert lines[..n + 1][..n] == lines[..n];
      var line := Strip(lines[n]);
      if line == [] || line[0] == '#' {
        continue;
      }
      if StartsWith(line, VERSION) || StartsWith(line, EXCEPTIONS) {
        continue;
      }
      if StartsWith(line, DASH) {
        if current.Some? && current.value != map[] {
          found := found + [current.value];
        }
        current := Some(map[]);
        line := Strip(line[2..]);
        if line != [] {
          var kv := SplitKV(line);
          if kv.None? {
            ReadPrefixFails(START, lines, n + 1);
            return None;
          }
          current := Some(current.value[kv.value.0 := kv.value.1]);
        }
        continue;
      }
      if current.Some? && ':' in line {
        var kv := SplitKV(line);
        if kv.None? {
          ReadPrefixFails(START, lines, n + 1);
          return None;
        }
        current := Some(current.value[kv.value.0 := kv.value.1]);
      }
    }
    assert lines[..|lines|] == lines;
    if current.Some? && current.value != map[] {
      found := found + [current.value];
    }
    return Some(found);
  }
}
