/** Flipping the URI scheme of apt source files in place: planning rows, managed blocks and
    rendering, as they stand in files/apt-srctools/apt-src-scheme.ts. */
module AptScheme {
  import opened Wrappers
  import opened Text
  import opened AptModel

  datatype Scheme = Http | Https

  datatype Format = Classic | Deb822

  function Name(t: Scheme): string {
    if t.Http? then "http" else "https"
  }

  /** `flipUri`: None when the uri is not http(s) or already on the target scheme. */
  function FlipUri(uri: string, target: Scheme): Option<string> {
    if StartsWith(uri, "http://") then
      if target.Http? then None else Some(Name(target) + "://" + uri[7..])
    else if StartsWith(uri, "https://") then
      if target.Https? then None else Some(Name(target) + "://" + uri[8..])
    else None
  }

  function FlipOr(uri: string, target: Scheme): string {
    match FlipUri(uri, target) case None => uri case Some(f) => f
  }

  function FlipOrAll(uris: seq<string>, target: Scheme): (r: seq<string>)
    ensures |r| == |uris| && forall i :: 0 <= i < |r| ==> r[i] == FlipOr(uris[i], target)
  {
    if uris == [] then [] else [FlipOr(uris[0], target)] + FlipOrAll(uris[1..], target)
  }

  function FlipEntry(e: Entry, target: Scheme): Entry {
    e.(uris := FlipOrAll(e.uris, target))
  }

  function FlipEntries(es: seq<Entry>, target: Scheme): (r: seq<Entry>)
    ensures |r| == |es| && forall i :: 0 <= i < |r| ==> r[i] == FlipEntry(es[i], target)
  {
    if es == [] then [] else [FlipEntry(es[0], target)] + FlipEntries(es[1..], target)
  }

  /** What `verify` asks of a uri. */
  predicate OnTarget(u: string, target: Scheme) {
    StartsWith(u, "http://") || StartsWith(u, "https://") ==> StartsWith(u, Name(target) + "://")
  }

  // ------------------------------------------------------------ finding the uri

  predicate BlankUpTo(s: string, n: nat) {
    n <= |s| && Blank(s[..n])
  }

  /** Length of the leading white space. */
  function Lead(s: string): (n: nat)
    ensures n <= |s| && BlankUpTo(s, n)
    ensures n < |s| ==> !IsSpace(s[n])
  {
    if s == "" || !IsSpace(s[0]) then 0
    else
      var m := Lead(s[1..]);
      assert s[..1 + m] == [s[0]] + s[1..][..m];
      1 + m
  }

  /** Past a bracket group and the white space after it, from its opening; the end of the text
      when it never closes. */
  function AfterBracket(s: string): (n: nat)
    ensures n <= |s|
  {
    var c := Find(s, ']');
    if c == |s| then c else c + 1 + Lead(s[c + 1..])
  }

  /** Start and length of the uri in a text that starts at it or at its bracket. */
  function UriAfterSpace(w: string): (r: Option<(nat, nat)>)
    requires w != ""
    ensures r.Some? ==> r.value.0 + r.value.1 <= |w|
  {
    var k := if w[0] == '[' then AfterBracket(w) else 0;
    if k == |w| then None else Some((k, Run(w[k..], Space)))
  }

  /** Start and length of the uri in a text that starts at the type word. */
  function UriAfterType(s: string): (r: Option<(nat, nat)>)
    ensures r.Some? ==> r.value.0 + r.value.1 <= |s|
  {
    var n := Run(s, Space);
    var l := Lead(s[n..]);
    if !IsType(s[..n]) || n + l == |s| then None else Shift(UriAfterSpace(s[n + l..]), n + l)
  }

  /** Where a source line starts: past leading white space and at most one `#`; None for `##`. */
  function SourceStart(raw: string): (r: Option<nat>)
    ensures r.Some? ==> r.value <= |raw|
  {
    var i := Lead(raw);
    if i < |raw| && raw[i] == '#' then
      if i + 1 < |raw| && raw[i + 1] == '#' then None else Some(i + 1 + Lead(raw[i + 1..]))
    else Some(i)
  }

  /** `findClassicUri`, as start and length. */
  function FindUri(raw: string): (r: Option<(nat, nat)>)
    ensures r.Some? ==> r.value.0 + r.value.1 <= |raw|
  {
    match SourceStart(raw)
    case None => None
    case Some(i) => Shift(UriAfterType(raw[i..]), i)
  }

  function Shift(at: Option<(nat, nat)>, base: nat): Option<(nat, nat)> {
    match at case None => None case Some(p) => Some((base + p.0, p.1))
  }

  lemma {:induction false} LeadIs(s: string, n: nat)
    requires n <= |s| && Blank(s[..n]) && (n < |s| ==> !IsSpace(s[n]))
    ensures Lead(s) == n
  {
    if n > 0 {
      assert s[0] == s[..n][0];
      assert s[1..][..n - 1] == s[..n][1..];
      LeadIs(s[1..], n - 1);
    }
  }

  /** One of the white-space loops. */
  method SkipSpace(raw: string, start: nat) returns (i: nat)
    requires start <= |raw|
    ensures i <= |raw| && i == start + Lead(raw[start..])
  {
    i := start;
    while i < |raw| && IsSpace(raw[i])
      invariant start <= i <= |raw|
      invariant forall k :: start <= k < i ==> IsSpace(raw[k])
    {
      i := i + 1;
    }
    assert raw[start..][..i - start] == raw[start..i];
    LeadIs(raw[start..], i - start);
  }

  /** One of the word loops. */
  method SkipWord(raw: string, start: nat) returns (i: nat)
    requires start <= |raw|
    ensures i <= |raw| && i == start + Run(raw[start..], Space)
  {
    i := start;
    while i < |raw| && !IsSpace(raw[i])
      invariant start <= i <= |raw|
      invariant forall k :: start <= k < i ==> !IsSpace(raw[k])
    {
      i := i + 1;
    }
    assert raw[start..][..i - start] == raw[start..i];
    RunIs(raw[start..], Space, i - start);
  }

  method SkipBracket(raw: string, from: nat) returns (k: nat)
    requires from <= |raw|
    ensures k <= |raw| && k == from + AfterBracket(raw[from..])
  {
    hide Find; hide Lead;
    k := from;
    while k < |raw| && raw[k] != ']'
      invariant from <= k <= |raw|
      invariant forall i :: from <= i < k ==> raw[i] != ']'
    {
      k := k + 1;
    }
    FindIs(raw[from..], ']', k - from);
    if k < |raw| {
      assert raw[from..][k - from + 1..] == raw[k + 1..];
      k := SkipSpace(raw, k + 1);
    }
  }

  /** `findClassicUri` from the bracket or the uri on. */
  method FindAfterSpace(raw: string, i: nat) returns (at: Option<(nat, nat)>)
    requires i < |raw|
    ensures at == Shift(UriAfterSpace(raw[i..]), i)
  {
    hide Run; hide AfterBracket;
    var k := i;
    if raw[k] == '[' {
      k := SkipBracket(raw, k);
      if k >= |raw| {
        return None;
      }
    }
    assert raw[i..][k - i..] == raw[k..];
    var uriEnd := SkipWord(raw, k);
    return Some((k, uriEnd - k));
  }

  /** `findClassicUri` from the type word on. */
  method FindAfterType(raw: string, i: nat) returns (at: Option<(nat, nat)>)
    requires i <= |raw|
    ensures at == Shift(UriAfterType(raw[i..]), i)
  {
    hide Run; hide Lead; hide IsType; hide UriAfterSpace;
    var end := SkipWord(raw, i);
    assert raw[i..][..end - i] == raw[i..end] && raw[i..][end - i..] == raw[end..];
    if !IsType(raw[i..end]) {
      return None;
    }
    var k := SkipSpace(raw, end);
    if k >= |raw| {
      return None;
    }
    assert raw[i..][k - i..] == raw[k..];
    at := FindAfterSpace(raw, k);
  }

  /** `findClassicUri`. */
  method FindClassicUri(raw: string) returns (t: Option<Token>)
    ensures t.None? <==> FindUri(raw).None?
    ensures t.Some? ==> var at := FindUri(raw).value;
      at.0 + at.1 <= |raw| && t.value == Token(raw[at.0..at.0 + at.1], at.0, at.0 + at.1)
  {
    hide UriAfterType; hide Lead; hide IsSpace;
    assert raw[0..] == raw;
    var i := SkipSpace(raw, 0);
    if i < |raw| && raw[i] == '#' {
      if i + 1 < |raw| && raw[i + 1] == '#' {
        return None;
      }
      i := SkipSpace(raw, i + 1);
    }
    var at := FindAfterType(raw, i);
    if at.None? {
      return None;
    }
    var (start, len) := at.value;
    return Some(Token(raw[start..start + len], start, start + len));
  }

  // -------------------------------------------------------------- planning rows

  /** The changed form of a one-line-style row. */
  function FlipClassicLine(line: string, target: Scheme): Option<string> {
    match FindUri(line)
    case None => None
    case Some(at) =>
      match FlipUri(line[at.0..at.0 + at.1], target)
      case None => None
      case Some(f) => Some(line[..at.0] + f + line[at.0 + at.1..])
  }

  predicate AnyFlips(vals: seq<string>, target: Scheme) {
    exists i :: 0 <= i < |vals| && FlipUri(vals[i], target).Some?
  }

  /** The changed form of a `URIs:` row. */
  function FlipDeb822Line(line: string, target: Scheme): Option<string> {
    if !StartsWith(line, "URIs:") || !OneLine(line[5..]) then None
    else
      var vals := Words(DropOneBlank(line[5..]), SpaceComma);
      if AnyFlips(vals, target) then Some("URIs: " + Join(FlipOrAll(vals, target), " ")) else None
  }

  function NewLine(line: string, fmt: Format, target: Scheme): Option<string> {
    match fmt
    case Classic => FlipClassicLine(line, target)
    case Deb822 => FlipDeb822Line(line, target)
  }

  datatype Row = Row(lineIdx: nat, newLine: string)

  function RowsFrom(lines: seq<string>, fmt: Format, target: Scheme, i: nat): seq<Row>
    decreases |lines| - i
  {
    if i >= |lines| then []
    else
      (match NewLine(lines[i], fmt, target) case None => [] case Some(l) => [Row(i, l)])
      + RowsFrom(lines, fmt, target, i + 1)
  }

  lemma RowsStep(rows: seq<Row>, lines: seq<string>, fmt: Format, target: Scheme, i: nat)
    requires i < |lines|
    ensures rows + RowsFrom(lines, fmt, target, i) ==
      (match NewLine(lines[i], fmt, target) case None => rows case Some(l) => rows + [Row(i, l)]) + RowsFrom(lines, fmt, target, i + 1)
  {
    hide NewLine;
    var rest := RowsFrom(lines, fmt, target, i + 1);
    match NewLine(lines[i], fmt, target)
    case None => assert [] + rest == rest;
    case Some(l) => Assoc(rows, [Row(i, l)], rest);
  }

  /** `planRows`. */
  method PlanRows(lines: seq<string>, fmt: Format, target: Scheme) returns (rows: seq<Row>)
    ensures rows == RowsFrom(lines, fmt, target, 0)
  {
    hide FlipDeb822Line; hide FindUri; hide FlipUri; hide RowsFrom;
    rows := [];
    var i := 0;
    assert [] + RowsFrom(lines, fmt, target, 0) == RowsFrom(lines, fmt, target, 0);
    while i < |lines|
      invariant 0 <= i <= |lines|
      invariant RowsFrom(lines, fmt, target, 0) == rows + RowsFrom(lines, fmt, target, i)
    {
      var line := lines[i];
      RowsStep(rows, lines, fmt, target, i);
      if fmt.Classic? {
        var tok := FindClassicUri(line);
        if tok.Some? {
          var flipped := FlipUri(tok.value.text, target);
          if flipped.Some? {
            var row := Row(i, line[..tok.value.start] + flipped.value + line[tok.value.end..]);
            rows := rows + [row];
          }
        }
      } else {
        var l := FlipDeb822Line(line, target);
        if l.Some? {
          rows := rows + [Row(i, l.value)];
        }
      }
      i := i + 1;
    }
    NoRows(lines, fmt, target);
  }

  lemma NoRows(lines: seq<string>, fmt: Format, target: Scheme)
    ensures RowsFrom(lines, fmt, target, |lines|) == []
  {
  }

  // ------------------------------------------------------------- managed blocks

  predicate IsDigit(c: char) { '0' <= c <= '9' }

  function Digits(s: string): (n: nat)
    ensures n <= |s| && (forall i :: 0 <= i < n ==> IsDigit(s[i])) && (n < |s| ==> !IsDigit(s[n]))
  {
    if s == "" || !IsDigit(s[0]) then 0 else 1 + Digits(s[1..])
  }

  function DigitValue(c: char): nat
    requires IsDigit(c)
  {
    (c - '0') as nat
  }

  /** `Number(digits)`, without the rounding of very long ids. */
  function Value(s: string): nat
    requires forall i :: 0 <= i < |s| ==> IsDigit(s[i])
  {
    if s == "" then 0 else 10 * Value(s[..|s| - 1]) + DigitValue(s[|s| - 1])
  }

  function DigitChar(n: nat): (c: char)
    requires n < 10
    ensures IsDigit(c) && DigitValue(c) == n
  {
    '0' + n as char
  }

  function Decimal(n: nat): (s: string)
    ensures s != "" && forall i :: 0 <= i < |s| ==> IsDigit(s[i])
    ensures Value(s) == n
  {
    if n < 10 then
      assert [DigitChar(n)][..0] == "";
      [DigitChar(n)]
    else
      var front := Decimal(n / 10);
      var s := front + [DigitChar(n % 10)];
      assert s[..|s| - 1] == front;
      s
  }

  datatype Mark = Begin(id: nat) | End(id: nat) | NoMark

  const PREFIX := "# apt-scheme-"

  predicate BlankTail(s: string) {
    forall i :: 0 <= i < |s| ==> s[i] == ' ' || s[i] == '\t'
  }

  /** BEGIN_RE and END_RE on one line. */
  function MarkOf(line: string): Mark {
    if !StartsWith(line, PREFIX) then NoMark
    else
      var p := line[|PREFIX|..];
      var d := Digits(p);
      if d == 0 then NoMark
      else if StartsWith(p[d..], " begin") && BlankTail(p[d + 6..]) then Begin(Value(p[..d]))
      else if StartsWith(p[d..], " end") && BlankTail(p[d + 4..]) then End(Value(p[..d]))
      else NoMark
  }

  predicate IsProvenance(line: string) {
    StartsWith(line, "# source: ")
  }

  datatype Block = Block(id: nat, begin: nat, end: nat, content: seq<nat>)

  datatype ScanError = Nested(id: nat, line: nat) | Unmatched(id: nat, line: nat) | NoEnd(id: nat, line: nat)

  type Scanned = Result<seq<Block>, ScanError>

  /** Line indices from `j` below `end` that are not provenance lines. */
  function Content(lines: seq<string>, j: nat, end: nat): seq<nat>
    requires end <= |lines|
    decreases end - j
  {
    if j >= end then []
    else (if IsProvenance(lines[j]) then [] else [j]) + Content(lines, j + 1, end)
  }

  function AddBlock(b: Block, r: Scanned): Scanned {
    if r.Ok? then Ok([b] + r.value) else r
  }

  datatype Open = Open(id: nat, begin: nat)

  function Scan(lines: seq<string>, i: nat, open: Option<Open>): Scanned
    decreases |lines| - i
  {
    if i >= |lines| then
      if open.None? then Ok([]) else Err(NoEnd(open.value.id, open.value.begin + 1))
    else
      match MarkOf(lines[i])
      case NoMark => Scan(lines, i + 1, open)
      case Begin(id) =>
        if open.Some? then Err(Nested(id, i + 1)) else Scan(lines, i + 1, Some(Open(id, i)))
      case End(id) =>
        if open.None? || open.value.id != id then Err(Unmatched(id, i + 1))
        else AddBlock(Block(id, open.value.begin, i, Content(lines, open.value.begin + 1, i)), Scan(lines, i + 1, None))
  }

  function AddBlocks(bs: seq<Block>, r: Scanned): (p: Scanned)
    ensures bs == [] ==> p == r
  {
    assert r.Ok? ==> [] + r.value == r.value;
    if r.Ok? then Ok(bs + r.value) else r
  }

  /** `scanBlocks`. */
  method ScanBlocks(lines: seq<string>) returns (r: Scanned)
    ensures r == Scan(lines, 0, None)
  {
    hide MarkOf;
    var blocks: seq<Block> := [];
    var open: Option<Open> := None;
    var i := 0;
    while i < |lines|
      invariant 0 <= i <= |lines|
      invariant Scan(lines, 0, None) == AddBlocks(blocks, Scan(lines, i, open))
    {
      match MarkOf(lines[i]) {
        case NoMark =>
        case Begin(id) =>
          if open.Some? {
            return Err(Nested(id, i + 1));
          }
          open := Some(Open(id, i));
        case End(id) =>
          if open.None? || open.value.id != id {
            return Err(Unmatched(id, i + 1));
          }
          var content := CollectContent(lines, open.value.begin + 1, i);
          var b := Block(id, open.value.begin, i, content);
          ghost var rest := Scan(lines, i + 1, None);
          assert rest.Ok? ==> blocks + ([b] + rest.value) == blocks + [b] + rest.value;
          blocks := blocks + [b];
          open := None;
      }
      i := i + 1;
    }
    if open.Some? {
      return Err(NoEnd(open.value.id, open.value.begin + 1));
    }
    assert blocks + [] == blocks;
    return Ok(blocks);
  }

  method CollectContent(lines: seq<string>, from: nat, end: nat) returns (content: seq<nat>)
    requires end <= |lines|
    ensures content == Content(lines, from, end)
  {
    content := [];
    var j := from;
    while j < end
      invariant from <= j && (j <= end || j == from)
      invariant Content(lines, from, end) == content + Content(lines, j, end)
    {
      if !IsProvenance(lines[j]) {
        Assoc(content, [j], Content(lines, j + 1, end));
        content := content + [j];
      }
      j := j + 1;
    }
  }

  // ----------------------------------------------------------------- adoption

  function MaxId(blocks: seq<Block>): (m: nat)
    ensures forall b :: b in blocks ==> b.id <= m
  {
    if blocks == [] then 0
    else
      var rest := MaxId(blocks[..|blocks| - 1]);
      var last := blocks[|blocks| - 1];
      assert blocks == blocks[..|blocks| - 1] + [last];
      if rest < last.id then last.id else rest
  }

  /** Lines that are the only content of a managed block, with that block's id. */
  function SingleContent(blocks: seq<Block>): map<nat, nat> {
    if blocks == [] then map[]
    else
      var rest := SingleContent(blocks[..|blocks| - 1]);
      var b := blocks[|blocks| - 1];
      if |b.content| == 1 then rest[b.content[0] := b.id] else rest
  }

  /** The rows in no single-row block, numbered on from `id`, added to `acc`. */
  function Adopt(rows: seq<Row>, single: map<nat, nat>, id: nat, acc: map<nat, nat>): map<nat, nat>
    decreases |rows|
  {
    if rows == [] then acc
    else if rows[0].lineIdx in single then Adopt(rows[1..], single, id, acc)
    else Adopt(rows[1..], single, id + 1, acc[rows[0].lineIdx := id])
  }

  function RowMap(rows: seq<Row>): map<nat, string> {
    if rows == [] then map[]
    else RowMap(rows[..|rows| - 1])[rows[|rows| - 1].lineIdx := rows[|rows| - 1].newLine]
  }

  function BeginLine(id: nat): string { PREFIX + Decimal(id) + " begin" }

  function EndLine(id: nat): string { PREFIX + Decimal(id) + " end" }

  /** The lines written for input line `i`. */
  function Group(lines: seq<string>, byLine: map<nat, string>, adopt: map<nat, nat>, i: nat): seq<string>
    requires i < |lines|
  {
    var l := if i in byLine then byLine[i] else lines[i];
    if i in adopt then [BeginLine(adopt[i]), l, EndLine(adopt[i])] else [l]
  }

  function Rendered(lines: seq<string>, byLine: map<nat, string>, adopt: map<nat, nat>, i: nat): seq<string>
    decreases |lines| - i
  {
    if i >= |lines| then [] else Group(lines, byLine, adopt, i) + Rendered(lines, byLine, adopt, i + 1)
  }

  /** `render`. */
  method Render(lines: seq<string>, rows: seq<Row>, adopt: map<nat, nat>) returns (text: string)
    requires forall i :: i in adopt ==> i in RowMap(rows)
    ensures text == Join(Rendered(lines, RowMap(rows), adopt, 0), "\n")
  {
    hide BeginLine; hide EndLine; hide Join;
    var byLine := RowMap(rows);
    var out: seq<string> := [];
    var i := 0;
    while i < |lines|
      invariant 0 <= i <= |lines|
      invariant Rendered(lines, byLine, adopt, 0) == out + Rendered(lines, byLine, adopt, i)
    {
      Assoc(out, Group(lines, byLine, adopt, i), Rendered(lines, byLine, adopt, i + 1));
      if i in adopt {
        out := out + [BeginLine(adopt[i]), byLine[i], EndLine(adopt[i])];
      } else {
        out := out + [if i in byLine then byLine[i] else lines[i]];
      }
      i := i + 1;
    }
    assert out + [] == out;
    text := Join(out, "\n");
  }

  lemma {:induction false} RowMapKeys(rows: seq<Row>)
    ensures forall k :: 0 <= k < |rows| ==> rows[k].lineIdx in RowMap(rows)
  {
    if rows != [] {
      RowMapKeys(rows[..|rows| - 1]);
      assert forall k :: 0 <= k < |rows| - 1 ==> rows[..|rows| - 1][k] == rows[k];
    }
  }

  /** The adoption loops of `processFileInner`. */
  method PlanAdoption(rows: seq<Row>, blocks: seq<Block>) returns (adopt: map<nat, nat>)
    ensures adopt == Adopt(rows, SingleContent(blocks), MaxId(blocks) + 1, map[])
    ensures forall i :: i in adopt ==> i in RowMap(rows)
  {
    var single := SingleContent(blocks);
    var id: nat := MaxId(blocks) + 1;
    adopt := map[];
    var k := 0;
    assert rows[0..] == rows;
    RowMapKeys(rows);
    hide SingleContent; hide RowMap;
    while k < |rows|
      invariant 0 <= k <= |rows|
      invariant Adopt(rows, single, MaxId(blocks) + 1, map[]) == Adopt(rows[k..], single, id, adopt)
      invariant forall i :: i in adopt ==> i in RowMap(rows)
    {
      assert rows[k..][1..] == rows[k + 1..];
      if rows[k].lineIdx !in single {
        adopt := adopt[rows[k].lineIdx := id];
        id := id + 1;
      }
      k := k + 1;
    }
  }
}
