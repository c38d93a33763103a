/** The canonical apt source model: both parsers and both printers, as they stand in
    files/apt-srctools/apt-src-model.ts. Each loop of the source is a method; the function
    next to it is its specification, and the round-trip proofs are about the functions. */
module AptModel {
  import opened Wrappers
  import opened Text

  // ---------------------------------------------------------------- the model

  /** A JavaScript record: its own entries in insertion order. */
  type Record = seq<(string, string)>

  function Lookup(r: Record, k: string): Option<string> {
    if r == [] then None else if r[0].0 == k then Some(r[0].1) else Lookup(r[1..], k)
  }

  /** `r[k] = v`: replaces in place or appends. */
  function Put(r: Record, k: string, v: string): Record {
    if r == [] then [(k, v)]
    else if r[0].0 == k then [(k, v)] + r[1..]
    else [r[0]] + Put(r[1..], k, v)
  }

  /** Assigning a string to `__proto__` of an ordinary object has no effect. */
  function Assign(r: Record, k: string, v: string): Record {
    if k == "__proto__" then r else Put(r, k, v)
  }

  predicate DistinctKeys(r: Record) {
    forall i, j :: 0 <= i < j < |r| ==> r[i].0 != r[j].0
  }

  datatype Entry = Entry(
    types: seq<string>,
    uris: seq<string>,
    suites: seq<string>,
    components: seq<string>,
    signedBy: Option<string>,
    architectures: Option<seq<string>>,
    trusted: bool,
    enabled: bool,
    options: Record,
    fields: Record)

  datatype Reason =
    | UnterminatedBracket | UnsupportedType(name: string) | OptionLacksEquals(part: string)
    | MissingUri | MissingSuite
    | DuplicateField(key: string) | FieldMissing(key: string) | FieldContinued(key: string)
    | ContinuationFirst | MalformedLine(text: string)

  datatype ParseError = ParseError(reason: Reason, line: nat)

  type Parsed = Result<seq<Entry>, ParseError>

  datatype EmitError = NoTypes(index: nat) | NoUris(index: nat) | NoSuites(index: nat)
                     | BadType(index: nat, name: string)

  function Prepend(es: seq<Entry>, r: Parsed): (p: Parsed)
    ensures es == [] ==> p == r
  {
    assert r.Ok? ==> [] + r.value == r.value;
    if r.Ok? then Ok(es + r.value) else r
  }

  lemma PrependTwice(a: seq<Entry>, b: seq<Entry>, r: Parsed)
    ensures Prepend(a, Prepend(b, r)) == Prepend(a + b, r)
  {
    assert r.Ok? ==> a + (b + r.value) == a + b + r.value;
  }

  // ------------------------------------------------------ units apt acts upon

  datatype Triple = Triple(kind: string, uri: string, suite: string)

  function SuiteTriples(t: string, u: string, suites: seq<string>): seq<Triple> {
    if suites == [] then [] else [Triple(t, u, suites[0])] + SuiteTriples(t, u, suites[1..])
  }

  function UriTriples(t: string, uris: seq<string>, suites: seq<string>): seq<Triple> {
    if uris == [] then [] else SuiteTriples(t, uris[0], suites) + UriTriples(t, uris[1..], suites)
  }

  /** types x uris x suites in loop order. */
  function Triples(types: seq<string>, uris: seq<string>, suites: seq<string>): seq<Triple> {
    if types == [] then [] else UriTriples(types[0], uris, suites) + Triples(types[1..], uris, suites)
  }

  /** One line of `semanticUnits`. `JSON.stringify` is injective on these records, so two
      sorted lists of such lines agree exactly when the multisets of units agree. */
  datatype SemUnit = SemUnit(
    at: Triple,
    components: seq<string>,
    signedBy: Option<string>,
    architectures: Option<seq<string>>,
    trusted: bool,
    enabled: bool)

  function UnitOf(e: Entry, at: Triple): SemUnit {
    SemUnit(at, e.components, e.signedBy, e.architectures, e.trusted, e.enabled)
  }

  function UnitsAt(e: Entry, ats: seq<Triple>): (us: seq<SemUnit>)
    ensures |us| == |ats| && forall i :: 0 <= i < |ats| ==> us[i] == UnitOf(e, ats[i])
  {
    if ats == [] then [] else [UnitOf(e, ats[0])] + UnitsAt(e, ats[1..])
  }

  function EntryUnits(e: Entry): seq<SemUnit> {
    UnitsAt(e, Triples(e.types, e.uris, e.suites))
  }

  /** The units before sorting. */
  function Units(json: seq<Entry>): seq<SemUnit> {
    if json == [] then [] else EntryUnits(json[0]) + Units(json[1..])
  }

  predicate SameUnits(a: seq<Entry>, b: seq<Entry>) {
    multiset(Units(a)) == multiset(Units(b))
  }

  // --------------------------------------------------------------- validation

  predicate IsType(t: string) {
    t == "deb" || t == "deb-src"
  }

  function FirstBadType(types: seq<string>, index: nat): Option<EmitError> {
    if types == [] then None
    else if !IsType(types[0]) then Some(BadType(index, types[0]))
    else FirstBadType(types[1..], index)
  }

  function Validate(e: Entry, index: nat): Option<EmitError> {
    if e.types == [] then Some(NoTypes(index))
    else if e.uris == [] then Some(NoUris(index))
    else if e.suites == [] then Some(NoSuites(index))
    else FirstBadType(e.types, index)
  }

  predicate Valid(e: Entry) {
    && e.types != [] && e.uris != [] && e.suites != []
    && forall i :: 0 <= i < |e.types| ==> IsType(e.types[i])
  }

  lemma {:induction false} ValidateExact(e: Entry, index: nat)
    ensures Validate(e, index).None? <==> Valid(e)
  {
    FirstBadTypeExact(e.types, index);
  }

  lemma {:induction false} FirstBadTypeExact(types: seq<string>, index: nat)
    ensures FirstBadType(types, index).None? <==> forall i :: 0 <= i < |types| ==> IsType(types[i])
  {
    if types != [] {
      FirstBadTypeExact(types[1..], index);
      assert forall i :: 1 <= i < |types| ==> types[i] == types[1..][i - 1];
    }
  }

  // ------------------------------------- option names, as JavaScript looks them up

  /** Members every ordinary object inherits: the alias tables are object literals, so a
      lookup by one of these names finds the inherited member. */
  predicate IsInheritedMember(k: string) {
    k in ["constructor", "toString", "valueOf", "hasOwnProperty", "isPrototypeOf",
          "propertyIsEnumerable", "toLocaleString", "__proto__", "__defineGetter__",
          "__defineSetter__", "__lookupGetter__", "__lookupSetter__"]
  }

  /** That member turned into a string. */
  function InheritedText(k: string): string {
    if k == "__proto__" then "[object Object]"
    else if k == "constructor" then "function Object() { [native code] }"
    else "function " + k + "() { [native code] }"
  }

  /** `OPTION_ALIASES[k]` */
  function OptionAlias(k: string): Option<string> {
    if k == "lang" then Some("Languages")
    else if k == "target" then Some("Targets")
    else if k == "pdiffs" then Some("PDiffs")
    else if k == "by-hash" then Some("By-Hash")
    else if IsInheritedMember(k) then Some(InheritedText(k))
    else None
  }

  /** `ALIAS_TO_OPTION[k.toLowerCase()]` */
  function FieldAlias(k: string): Option<string> {
    var l := Lower(k);
    if l == "languages" then Some("lang")
    else if l == "targets" then Some("target")
    else if l == "pdiffs" then Some("pdiffs")
    else if l == "by-hash" then Some("by-hash")
    else if IsInheritedMember(l) then Some(InheritedText(l))
    else None
  }

  // ------------------------------------------------------- classic: tokenizing

  /** Length of the token at the head of `s`; None for a bracket that never closes. */
  function TokenLength(s: string): (n: Option<nat>)
    requires s != "" && !IsSpace(s[0])
    ensures n.Some? ==> 0 < n.value <= |s|
  {
    if s[0] == '[' then
      var n := Find(s, ']');
      if n == |s| then None else Some(n + 1)
    else
      Some(Run(s, Space))
  }

  /** The token texts of a line: bracket groups and white-space separated words. */
  function Tokens(s: string): (ts: Option<seq<string>>)
    decreases |s|
  {
    if s == "" then Some([])
    else if IsSpace(s[0]) then Tokens(s[1..])
    else
      match TokenLength(s)
      case None => None
      case Some(n) =>
        match Tokens(s[n..])
        case None => None
        case Some(rest) => Some([s[..n]] + rest)
  }

  datatype Token = Token(text: string, start: nat, end: nat)

  predicate TokenOf(line: string, t: Token) {
    t.start < t.end <= |line| && t.text == line[t.start..t.end]
  }

  function Texts(ts: seq<Token>): (r: seq<string>)
    ensures |r| == |ts|
  {
    if ts == [] then [] else Texts(ts[..|ts| - 1]) + [ts[|ts| - 1].text]
  }

  function AddTokens(front: seq<string>, rest: Option<seq<string>>): (r: Option<seq<string>>)
    ensures front == [] ==> r == rest
  {
    assert rest.Some? ==> [] + rest.value == rest.value;
    if rest.None? then None else Some(front + rest.value)
  }

  lemma AddTokensTwice(a: seq<string>, b: seq<string>, r: Option<seq<string>>)
    ensures AddTokens(a, AddTokens(b, r)) == AddTokens(a + b, r)
  {
    assert r.Some? ==> a + (b + r.value) == a + b + r.value;
  }

  lemma {:induction false} TokensTake(line: string, i: nat, end: nat)
    requires i < end <= |line| && !IsSpace(line[i]) && TokenLength(line[i..]) == Some(end - i)
    ensures Tokens(line[i..]) == AddTokens([line[i..end]], Tokens(line[end..]))
  {
    hide TokenLength;
    assert line[i..][end - i..] == line[end..];
    assert line[i..][..end - i] == line[i..end];
  }

  /** The two inner loops of `tokenizeClassic`: where the token starting here ends. */
  method ScanToken(line: string, start: nat) returns (end: Option<nat>)
    requires start < |line| && !IsSpace(line[start])
    ensures end.None? <==> TokenLength(line[start..]).None?
    ensures end.Some? ==> start < end.value <= |line| && TokenLength(line[start..]) == Some(end.value - start)
  {
    var i := start;
    if line[i] == '[' {
      while i < |line| && line[i] != ']'
        invariant start <= i <= |line|
        invariant ']' !in line[start..i]
      {
        i := i + 1;
      }
      assert line[start..][..i - start] == line[start..i];
      FindIs(line[start..], ']', i - start);
      if i == |line| {
        return None;
      }
      i := i + 1;
    } else {
      while i < |line| && !IsSpace(line[i])
        invariant start <= i <= |line|
        invariant forall k :: start <= k < i ==> !IsSpace(line[k])
      {
        i := i + 1;
      }
      assert line[start..][..i - start] == line[start..i];
      RunIs(line[start..], Space, i - start);
    }
    return Some(i);
  }

  /** The scanning loop of `tokenizeClassic`: the words of `Tokens`, with their offsets. */
  method TokenizeClassic(line: string) returns (ts: Option<seq<Token>>)
    ensures ts.None? <==> Tokens(line).None?
    ensures ts.Some? ==> Tokens(line) == Some(Texts(ts.value))
    ensures ts.Some? ==> forall t :: t in ts.value ==> TokenOf(line, t)
  {
    var toks: seq<Token> := [];
    var i := 0;
    assert line[0..] == line;
    while i < |line|
      invariant 0 <= i <= |line|
      invariant Tokens(line) == AddTokens(Texts(toks), Tokens(line[i..]))
      invariant forall t :: t in toks ==> TokenOf(line, t)
    {
      if IsSpace(line[i]) {
        i := i + 1;
      } else {
        var end := ScanToken(line, i);
        if end.None? {
          return None;
        }
        TokensTake(line, i, end.value);
        AddTokensTwice(Texts(toks), [line[i..end.value]], Tokens(line[end.value..]));
        toks := toks + [Token(line[i..end.value], i, end.value)];
        i := end.value;
      }
    }
    assert Texts(toks) + [] == Texts(toks);
    return Some(toks);
  }

  // --------------------------------------------------------- classic: parsing

  /** The tokens before the first one that starts a comment. */
  function Active(ts: seq<string>): seq<string> {
    if ts == [] || StartsWith(ts[0], "#") then [] else [ts[0]] + Active(ts[1..])
  }

  datatype Bracket = Bracket(
    signedBy: Option<string>,
    architectures: Option<seq<string>>,
    trusted: bool,
    options: Record)

  const NO_BRACKET := Bracket(None, None, false, [])

  predicate IsYes(v: string) { v == "yes" || v == "true" || v == "1" }

  predicate IsNo(v: string) { v == "no" || v == "false" || v == "0" }

  /** One `key=value` part of the bracket; None when it lacks the equals sign. */
  function ApplyOption(b: Bracket, part: string): Option<Bracket> {
    var eq := Find(part, '=');
    if eq == |part| then None
    else
      var key, value := part[..eq], part[eq + 1..];
      if key == "signed-by" then Some(b.(signedBy := Some(value)))
      else if key == "arch" then Some(b.(architectures := Some(Words(value, Comma))))
      else if key == "trusted" then
        if IsYes(value) then Some(b.(trusted := true))
        else if IsNo(value) then Some(b.(trusted := false))
        else Some(b.(options := Assign(b.options, key, value)))
      else Some(b.(options := Assign(b.options, key, value)))
  }

  function ApplyOptions(b: Bracket, parts: seq<string>): Result<Bracket, Reason>
    decreases |parts|
  {
    if parts == [] then Ok(b)
    else
      match ApplyOption(b, parts[0])
      case None => Err(OptionLacksEquals(parts[0]))
      case Some(next) => ApplyOptions(next, parts[1..])
  }

  /** `text.slice(1, -1)` */
  function Inner(t: string): string {
    if |t| < 2 then "" else t[1..|t| - 1]
  }

  /** The fields of a source line after its type and its bracket. */
  function ParseSource(kind: string, b: Bracket, rest: seq<string>, enabled: bool): Result<Entry, Reason> {
    if rest == [] then Err(MissingUri)
    else if |rest| == 1 then Err(MissingSuite)
    else Ok(Entry([kind], [rest[0]], [rest[1]], rest[2..], b.signedBy, b.architectures,
                  b.trusted, enabled, b.options, []))
  }

  /** The active tokens of a line: a source, nothing (a comment), or an error. */
  function ParseActive(active: seq<string>, enabled: bool): Result<Option<Entry>, Reason> {
    if active == [] then Ok(None)
    else if !IsType(active[0]) then
      if !enabled then Ok(None) else Err(UnsupportedType(active[0]))
    else
      var bracketed := |active| > 1 && StartsWith(active[1], "[");
      var b := if bracketed then ApplyOptions(NO_BRACKET, Words(Inner(active[1]), Space)) else Ok(NO_BRACKET);
      match b
      case Err(why) => Err(why)
      case Ok(opts) =>
        match ParseSource(active[0], opts, active[if bracketed then 2 else 1..], enabled)
        case Err(why) => Err(why)
        case Ok(e) => Ok(Some(e))
  }

  /** The part of a line that is tokenized, and whether the line is active. */
  function Uncomment(raw: string): (string, bool) {
    var trimmed := TrimStart(raw);
    if StartsWith(trimmed, "#") then (trimmed[1..], false) else (trimmed, true)
  }

  function ParseClassicLine(raw: string): Result<Option<Entry>, Reason> {
    var (work, enabled) := Uncomment(raw);
    match Tokens(work)
    case None => Err(UnterminatedBracket)
    case Some(ts) => ParseActive(Active(ts), enabled)
  }

  function ParseClassicLines(lines: seq<string>, lineNo: nat): Parsed {
    if lines == [] then Ok([])
    else
      match ParseClassicLine(lines[0])
      case Err(why) => Err(ParseError(why, lineNo))
      case Ok(None) => ParseClassicLines(lines[1..], lineNo + 1)
      case Ok(Some(e)) => Prepend([e], ParseClassicLines(lines[1..], lineNo + 1))
  }

  function ClassicEntries(text: string): Parsed {
    ParseClassicLines(Split(text, '\n'), 1)
  }

  /** The body of the `parseClassic` loop. */
  method ReadClassicLine(raw: string) returns (r: Result<Option<Entry>, Reason>)
    ensures r == ParseClassicLine(raw)
  {
    var (work, enabled) := Uncomment(raw);
    var toks := TokenizeClassic(work);
    if toks.None? {
      return Err(UnterminatedBracket);
    }
    r := ParseActive(Active(Texts(toks.value)), enabled);
  }

  /** `parseClassic`: the loop over the lines of a one-line-style file. */
  method ParseClassic(text: string) returns (r: Parsed)
    ensures r == ClassicEntries(text)
  {
    hide ParseClassicLine;
    var sources: seq<Entry> := [];
    var lines := Split(text, '\n');
    var idx := 0;
    assert lines[0..] == lines;
    while idx < |lines|
      invariant 0 <= idx <= |lines|
      invariant ClassicEntries(text) == Prepend(sources, ParseClassicLines(lines[idx..], idx + 1))
    {
      assert lines[idx..][1..] == lines[idx + 1..];
      var line := ReadClassicLine(lines[idx]);
      idx := idx + 1;
      match line {
        case Err(why) => return Err(ParseError(why, idx));
        case Ok(None) =>
        case Ok(Some(e)) =>
          PrependTwice(sources, [e], ParseClassicLines(lines[idx..], idx + 1));
          sources := sources + [e];
      }
    }
    assert sources + [] == sources;
    return Ok(sources);
  }

  // -------------------------------------------------------- classic: printing

  function OptionParts(r: Record): seq<string> {
    if r == [] then [] else [r[0].0 + "=" + r[0].1] + OptionParts(r[1..])
  }

  /** Record entries with an alias in the other format, under that alias. */
  function AliasedFields(r: Record): Record {
    if r == [] then []
    else (match FieldAlias(r[0].0) case None => [] case Some(opt) => [(opt, r[0].1)]) + AliasedFields(r[1..])
  }

  function SignedByParts(e: Entry): seq<string> {
    if e.signedBy.Some? && '\n' !in e.signedBy.value then
      ["signed-by=" + Join(Words(e.signedBy.value, SpaceComma), ",")]
    else []
  }

  function ArchParts(e: Entry): seq<string> {
    if e.architectures.Some? then ["arch=" + Join(e.architectures.value, ",")] else []
  }

  function TrustedParts(e: Entry): seq<string> {
    if e.trusted then ["trusted=yes"] else []
  }

  function BracketParts(e: Entry): seq<string> {
    SignedByParts(e) + ArchParts(e) + TrustedParts(e) + OptionParts(e.options)
    + OptionParts(AliasedFields(e.fields))
  }

  function ClassicBracket(e: Entry): string {
    var parts := BracketParts(e);
    if parts == [] then "" else "[ " + Join(parts, " ") + " ]"
  }

  function NonEmpty(ts: seq<string>): seq<string> {
    if ts == [] then [] else (if ts[0] == "" then [] else [ts[0]]) + NonEmpty(ts[1..])
  }

  function ClassicLine(e: Entry, at: Triple): string {
    var line := Join(NonEmpty([at.kind, ClassicBracket(e), at.uri, at.suite] + e.components), " ");
    if e.enabled then line else "#" + line
  }

  function LinesAt(e: Entry, ats: seq<Triple>): (ls: seq<string>)
    ensures |ls| == |ats| && forall i :: 0 <= i < |ats| ==> ls[i] == ClassicLine(e, ats[i])
  {
    if ats == [] then [] else [ClassicLine(e, ats[0])] + LinesAt(e, ats[1..])
  }

  function ClassicLines(json: seq<Entry>, index: nat): Result<seq<string>, EmitError> {
    if json == [] then Ok([])
    else
      match Validate(json[0], index)
      case Some(why) => Err(why)
      case None =>
        match ClassicLines(json[1..], index + 1)
        case Err(why) => Err(why)
        case Ok(rest) => Ok(LinesAt(json[0], Triples(json[0].types, json[0].uris, json[0].suites)) + rest)
  }

  function ClassicText(json: seq<Entry>): Result<string, EmitError> {
    match ClassicLines(json, 0)
    case Err(why) => Err(why)
    case Ok(out) => Ok(if out == [] then "" else Join(out, "\n") + "\n")
  }

  function PrependLines(front: seq<string>, r: Result<seq<string>, EmitError>): (p: Result<seq<string>, EmitError>)
    ensures front == [] ==> p == r
  {
    assert r.Ok? ==> [] + r.value == r.value;
    if r.Ok? then Ok(front + r.value) else r
  }

  lemma PrependLinesTwice(a: seq<string>, b: seq<string>, r: Result<seq<string>, EmitError>)
    ensures PrependLines(a, PrependLines(b, r)) == PrependLines(a + b, r)
  {
    assert r.Ok? ==> a + (b + r.value) == a + b + r.value;
  }

  /** The innermost of the three loops of one entry in `emitClassic`. */
  method EmitSuites(e: Entry, t: string, u: string) returns (out: seq<string>)
    ensures out == LinesAt(e, SuiteTriples(t, u, e.suites))
  {
    hide ClassicLine;
    hide LinesAt;
    out := [];
    ghost var done: seq<Triple> := [];
    var s := 0;
    while s < |e.suites|
      invariant 0 <= s <= |e.suites|
      invariant SuiteTriples(t, u, e.suites) == done + SuiteTriples(t, u, e.suites[s..])
      invariant out == LinesAt(e, done)
    {
      assert e.suites[s..][1..] == e.suites[s + 1..];
      Assoc(done, [Triple(t, u, e.suites[s])], SuiteTriples(t, u, e.suites[s + 1..]));
      assert LinesAt(e, [Triple(t, u, e.suites[s])]) == [ClassicLine(e, Triple(t, u, e.suites[s]))];
      out := out + [ClassicLine(e, Triple(t, u, e.suites[s]))];
      done := done + [Triple(t, u, e.suites[s])];
      s := s + 1;
    }
  }

  method EmitUris(e: Entry, t: string) returns (out: seq<string>)
    ensures out == LinesAt(e, UriTriples(t, e.uris, e.suites))
  {
    hide ClassicLine;
    hide SuiteTriples;
    hide LinesAt;
    out := [];
    ghost var done: seq<Triple> := [];
    var u := 0;
    while u < |e.uris|
      invariant 0 <= u <= |e.uris|
      invariant UriTriples(t, e.uris, e.suites) == done + UriTriples(t, e.uris[u..], e.suites)
      invariant out == LinesAt(e, done)
    {
      assert e.uris[u..][1..] == e.uris[u + 1..];
      var lines := EmitSuites(e, t, e.uris[u]);
      Assoc(done, SuiteTriples(t, e.uris[u], e.suites), UriTriples(t, e.uris[u + 1..], e.suites));
      out := out + lines;
      done := done + SuiteTriples(t, e.uris[u], e.suites);
      u := u + 1;
    }
  }

  method EmitClassicEntry(e: Entry) returns (out: seq<string>)
    ensures out == LinesAt(e, Triples(e.types, e.uris, e.suites))
  {
    hide ClassicLine;
    hide UriTriples;
    hide LinesAt;
    out := [];
    ghost var done: seq<Triple> := [];
    var t := 0;
    while t < |e.types|
      invariant 0 <= t <= |e.types|
      invariant Triples(e.types, e.uris, e.suites) == done + Triples(e.types[t..], e.uris, e.suites)
      invariant out == LinesAt(e, done)
    {
      assert e.types[t..][1..] == e.types[t + 1..];
      var lines := EmitUris(e, e.types[t]);
      Assoc(done, UriTriples(e.types[t], e.uris, e.suites), Triples(e.types[t + 1..], e.uris, e.suites));
      out := out + lines;
      done := done + UriTriples(e.types[t], e.uris, e.suites);
      t := t + 1;
    }
  }

  /** `emitClassic`. */
  method EmitClassic(json: seq<Entry>) returns (r: Result<string, EmitError>)
    ensures r == ClassicText(json)
  {
    var out: seq<string> := [];
    var index := 0;
    assert json[0..] == json;
    while index < |json|
      invariant 0 <= index <= |json|
      invariant ClassicLines(json, 0) == PrependLines(out, ClassicLines(json[index..], index))
    {
      assert json[index..][1..] == json[index + 1..];
      var e := json[index];
      var bad := Validate(e, index);
      if bad.Some? {
        return Err(bad.value);
      }
      var lines := EmitClassicEntry(e);
      PrependLinesTwice(out, lines, ClassicLines(json[index + 1..], index + 1));
      out := out + lines;
      index := index + 1;
    }
    assert json[index..] == [];
    assert out + [] == out;
    return Ok(if out == [] then "" else Join(out, "\n") + "\n");
  }

  // ----------------------------------------------------------- deb822: parsing

  datatype Field = Field(key: string, first: string, conts: seq<string>)

  predicate IsKeyChar(c: char) {
    c == '-' || 'A' <= c <= 'Z' || 'a' <= c <= 'z' || '0' <= c <= '9'
  }

  /** The characters `.` does not match in a JavaScript pattern. */
  predicate IsLineEnd(c: char) {
    c == '\n' || c == '\r' || c == '\U{2028}' || c == '\U{2029}'
  }

  predicate OneLine(s: string) {
    forall i :: 0 <= i < |s| ==> !IsLineEnd(s[i])
  }

  function KeyLength(s: string): (n: nat)
    ensures n <= |s| && (forall i :: 0 <= i < n ==> IsKeyChar(s[i]))
    ensures n < |s| ==> !IsKeyChar(s[n])
  {
    if s == "" || !IsKeyChar(s[0]) then 0 else 1 + KeyLength(s[1..])
  }

  function DropOneBlank(s: string): string {
    if s != "" && (s[0] == ' ' || s[0] == '\t') then s[1..] else s
  }

  /** `/^([-A-Za-z0-9]+):[ \t]?(.*)$/` on one line. */
  function MatchField(raw: string): Option<Field> {
    var n := KeyLength(raw);
    if n == 0 || n == |raw| || raw[n] != ':' || !OneLine(raw[n + 1..]) then None
    else Some(Field(raw[..n], DropOneBlank(raw[n + 1..]), []))
  }

  datatype Line = BlankLine | CommentLine | ContLine | FieldLine(field: Field) | BadLine

  function Classify(raw: string): Line {
    if Blank(raw) then BlankLine
    else if StartsWith(raw, "#") then CommentLine
    else if StartsWith(raw, " ") || StartsWith(raw, "\t") then ContLine
    else match MatchField(raw) case None => BadLine case Some(f) => FieldLine(f)
  }

  function Unstuff(raw: string): string {
    var body := DropOneBlank(raw);
    if body == "." then "" else body
  }

  function UnstuffAll(conts: seq<string>): (r: seq<string>)
    ensures |r| == |conts| && forall i :: 0 <= i < |r| ==> r[i] == Unstuff(conts[i])
  {
    if conts == [] then [] else [Unstuff(conts[0])] + UnstuffAll(conts[1..])
  }

  function FindField(fs: seq<Field>, key: string): Option<Field> {
    if fs == [] then None else if fs[0].key == key then Some(fs[0]) else FindField(fs[1..], key)
  }

  /** `map.get(key) ?? map.get(key.toLowerCase())` */
  function GetField(fs: seq<Field>, key: string): Option<Field> {
    var f := FindField(fs, key);
    if f.Some? then f else FindField(fs, Lower(key))
  }

  function FirstDuplicate(fs: seq<Field>): Option<string> {
    if fs == [] then None
    else
      match FirstDuplicate(fs[..|fs| - 1])
      case Some(k) => Some(k)
      case None =>
        var last := fs[|fs| - 1].key;
        if FindField(fs[..|fs| - 1], last).Some? then Some(last) else None
  }

  predicate IsKnown(key: string) {
    Lower(key) in ["types", "uris", "suites", "components", "signed-by", "architectures", "trusted", "enabled"]
  }

  function Passthrough(fs: seq<Field>): Record {
    if fs == [] then []
    else
      var rest := Passthrough(fs[..|fs| - 1]);
      var f := fs[|fs| - 1];
      if IsKnown(f.key) then rest
      else Put(rest, f.key, Join([f.first] + UnstuffAll(f.conts), "\n"))
  }

  function SignedByOf(f: Option<Field>): Option<string> {
    match f
    case None => None
    case Some(f) =>
      var conts := UnstuffAll(f.conts);
      if Trim(f.first) == "" && conts != [] then Some(Join(conts, "\n"))
      else if StartsWith(f.first, "-----BEGIN") && conts != [] then Some(Join([f.first] + conts, "\n"))
      else Some(Trim(f.first))
  }

  predicate IsTrue822(v: string) { v == "yes" || v == "true" }

  predicate IsFalse822(v: string) { v == "no" || v == "false" }

  /** The first complaint about a field that must be there and fit on one line. */
  function Required(fs: seq<Field>, key: string): Option<Reason> {
    match GetField(fs, key)
    case None => Some(FieldMissing(key))
    case Some(f) => if f.conts != [] then Some(FieldContinued(key)) else None
  }

  function ValuesOf(fs: seq<Field>, key: string): seq<string> {
    match GetField(fs, key)
    case None => []
    case Some(f) => Words(f.first, SpaceComma)
  }

  function StanzaProblem(fs: seq<Field>): Option<Reason> {
    match FirstDuplicate(fs)
    case Some(k) => Some(DuplicateField(k))
    case None =>
      if Required(fs, "Types").Some? then Required(fs, "Types")
      else if Required(fs, "URIs").Some? then Required(fs, "URIs")
      else Required(fs, "Suites")
  }

  function ArchOf(f: Option<Field>): Option<seq<string>> {
    if f.None? then None else Some(Words(f.value.first, SpaceComma))
  }

  function TrustedOf(f: Option<Field>): bool {
    f.Some? && IsTrue822(Trim(f.value.first))
  }

  /** A Trusted value that is no clean boolean is kept as an option. */
  function BlobOf(f: Option<Field>): Record {
    if f.None? then []
    else
      var v := Trim(f.value.first);
      if IsTrue822(v) || IsFalse822(v) then [] else [("trusted", v)]
  }

  function EnabledOf(f: Option<Field>): bool {
    f.Some? ==> !IsFalse822(Trim(f.value.first))
  }

  /** The entry of a stanza without problems. */
  function StanzaEntry(fs: seq<Field>): Entry {
    Entry(ValuesOf(fs, "Types"), ValuesOf(fs, "URIs"), ValuesOf(fs, "Suites"), ValuesOf(fs, "Components"),
          SignedByOf(GetField(fs, "Signed-By")), ArchOf(GetField(fs, "Architectures")),
          TrustedOf(GetField(fs, "Trusted")), EnabledOf(GetField(fs, "Enabled")),
          BlobOf(GetField(fs, "Trusted")), Passthrough(fs))
  }

  function StanzaToEntry(fs: seq<Field>): Result<Entry, Reason> {
    match StanzaProblem(fs)
    case Some(why) => Err(why)
    case None => Ok(StanzaEntry(fs))
  }

  /** Ending a stanza: nothing when no field was read. */
  function Flush(cur: seq<Field>, curLine: nat): Parsed {
    if cur == [] then Ok([])
    else
      match StanzaToEntry(cur)
      case Err(why) => Err(ParseError(why, curLine))
      case Ok(e) => Ok([e])
  }

  function AddCont(cur: seq<Field>, raw: string): (r: seq<Field>)
    requires cur != []
    ensures |r| == |cur|
  {
    var last := cur[|cur| - 1];
    cur[..|cur| - 1] + [last.(conts := last.conts + [raw])]
  }

  /** What one line does: the entries it completes and the stanza then being read, which
      started at the returned line. */
  function ReadLine(raw: string, cur: seq<Field>, lineNo: nat, curLine: nat)
    : Result<(seq<Entry>, seq<Field>, nat), ParseError>
  {
    match Classify(raw)
    case BlankLine =>
      (match Flush(cur, curLine)
       case Err(why) => Err(why)
       case Ok(es) => Ok((es, [], curLine)))
    case CommentLine => Ok(([], cur, curLine))
    case ContLine =>
      if cur == [] then Err(ParseError(ContinuationFirst, lineNo))
      else Ok(([], AddCont(cur, raw), curLine))
    case FieldLine(f) => Ok(([], cur + [f], if cur == [] then lineNo else curLine))
    case BadLine => Err(ParseError(MalformedLine(raw[..if |raw| < 40 then |raw| else 40]), lineNo))
  }

  /** The stanza parser from a line on, with the fields read so far. */
  function ParseStanzas(lines: seq<string>, cur: seq<Field>, lineNo: nat, curLine: nat): Parsed
    decreases |lines|
  {
    if lines == [] then Flush(cur, curLine)
    else
      match ReadLine(lines[0], cur, lineNo, curLine)
      case Err(why) => Err(why)
      case Ok(step) => Prepend(step.0, ParseStanzas(lines[1..], step.1, lineNo + 1, step.2))
  }

  function Deb822Entries(text: string): Parsed {
    ParseStanzas(Split(text, '\n'), [], 1, 0)
  }

  /** `parseDeb822`: the loop over the lines of a deb822-style file. */
  method ParseDeb822(text: string) returns (r: Parsed)
    ensures r == Deb822Entries(text)
  {
    hide ReadLine;
    hide Flush;
    var sources: seq<Entry> := [];
    var lines := Split(text, '\n');
    var cur: seq<Field> := [];
    var curLine := 0;
    var idx := 0;
    assert lines[0..] == lines;
    while idx < |lines|
      invariant 0 <= idx <= |lines|
      invariant Deb822Entries(text) == Prepend(sources, ParseStanzas(lines[idx..], cur, idx + 1, curLine))
    {
      assert lines[idx..][1..] == lines[idx + 1..];
      var step := ReadLine(lines[idx], cur, idx + 1, curLine);
      if step.Err? {
        return Err(step.error);
      }
      idx := idx + 1;
      PrependTwice(sources, step.value.0, ParseStanzas(lines[idx..], step.value.1, idx + 1, step.value.2));
      sources := sources + step.value.0;
      cur := step.value.1;
      curLine := step.value.2;
    }
    r := Prepend(sources, Flush(cur, curLine));
  }

  // ---------------------------------------------------------- deb822: printing

  /** Content line -> continuation line, with an empty line dot-stuffed. */
  function Stuff(l: string): string {
    " " + (if l == "" then "." else l)
  }

  function StuffAll(ls: seq<string>): (r: seq<string>)
    ensures |r| == |ls| && forall i :: 0 <= i < |r| ==> r[i] == Stuff(ls[i])
  {
    if ls == [] then [] else [Stuff(ls[0])] + StuffAll(ls[1..])
  }

  function SignedByLines(s: Option<string>): seq<string> {
    match s
    case None => []
    case Some(v) =>
      var kl := Split(v, '\n');
      if |kl| == 1 then ["Signed-By: " + v] else ["Signed-By:"] + StuffAll(kl)
  }

  function AliasLines(options: Record): seq<string> {
    if options == [] then []
    else
      (match OptionAlias(options[0].0)
       case None => []
       case Some(field) => [field + ": " + options[0].1]) + AliasLines(options[1..])
  }

  function FieldLines(fields: Record): seq<string> {
    if fields == [] then []
    else
      var vl := Split(fields[0].1, '\n');
      [fields[0].0 + ": " + vl[0]] + StuffAll(vl[1..]) + FieldLines(fields[1..])
  }

  function TrustedLines(e: Entry): seq<string> {
    if e.trusted then ["Trusted: yes"]
    else match Lookup(e.options, "trusted") case None => [] case Some(v) => ["Trusted: " + v]
  }

  function HeadLines(e: Entry): seq<string> {
    ["Types: " + Join(e.types, " "), "URIs: " + Join(e.uris, " "), "Suites: " + Join(e.suites, " ")]
  }

  function ComponentLines(e: Entry): seq<string> {
    if e.components == [] then [] else ["Components: " + Join(e.components, " ")]
  }

  function ArchLines(e: Entry): seq<string> {
    if e.architectures.None? then [] else ["Architectures: " + Join(e.architectures.value, " ")]
  }

  function EnabledLines(e: Entry): seq<string> {
    if e.enabled then [] else ["Enabled: no"]
  }

  function StanzaLines(e: Entry): seq<string> {
    HeadLines(e) + ComponentLines(e) + ArchLines(e) + EnabledLines(e) + TrustedLines(e)
    + SignedByLines(e.signedBy) + AliasLines(e.options) + FieldLines(e.fields)
  }

  function Stanzas(json: seq<Entry>, index: nat): Result<seq<string>, EmitError> {
    if json == [] then Ok([])
    else
      match Validate(json[0], index)
      case Some(why) => Err(why)
      case None =>
        match Stanzas(json[1..], index + 1)
        case Err(why) => Err(why)
        case Ok(rest) => Ok([Join(StanzaLines(json[0]), "\n")] + rest)
  }

  function Deb822Text(json: seq<Entry>): Result<string, EmitError> {
    match Stanzas(json, 0)
    case Err(why) => Err(why)
    case Ok(stanzas) => Ok(if stanzas == [] then "" else Join(stanzas, "\n\n") + "\n")
  }

  method EmitAliases(options: Record) returns (out: seq<string>)
    ensures out == AliasLines(options)
  {
    hide OptionAlias;
    out := [];
    var i := 0;
    while i < |options|
      invariant 0 <= i <= |options|
      invariant AliasLines(options) == out + AliasLines(options[i..])
    {
      assert options[i..][1..] == options[i + 1..];
      var field := OptionAlias(options[i].0);
      if field.Some? {
        Assoc(out, [field.value + ": " + options[i].1], AliasLines(options[i + 1..]));
        out := out + [field.value + ": " + options[i].1];
      } else {
        assert [] + AliasLines(options[i + 1..]) == AliasLines(options[i + 1..]);
      }
      i := i + 1;
    }
  }

  method EmitFields(fields: Record) returns (out: seq<string>)
    ensures out == FieldLines(fields)
  {
    hide Split;
    hide StuffAll;
    out := [];
    var i := 0;
    while i < |fields|
      invariant 0 <= i <= |fields|
      invariant FieldLines(fields) == out + FieldLines(fields[i..])
    {
      assert fields[i..][1..] == fields[i + 1..];
      var vl := Split(fields[i].1, '\n');
      ghost var rest := FieldLines(fields[i + 1..]);
      Assoc(out, [fields[i].0 + ": " + vl[0]] + StuffAll(vl[1..]), rest);
      out := out + ([fields[i].0 + ": " + vl[0]] + StuffAll(vl[1..]));
      i := i + 1;
    }
  }

  /** The lines one entry pushes in `emitDeb822`. */
  method EmitStanza(e: Entry) returns (out: seq<string>)
    ensures out == StanzaLines(e)
  {
    out := HeadLines(e) + ComponentLines(e) + ArchLines(e) + EnabledLines(e) + TrustedLines(e)
           + SignedByLines(e.signedBy);
    var aliases := EmitAliases(e.options);
    var fields := EmitFields(e.fields);
    out := out + aliases + fields;
  }

  /** `emitDeb822`. */
  method EmitDeb822(json: seq<Entry>) returns (r: Result<string, EmitError>)
    ensures r == Deb822Text(json)
  {
    var stanzas: seq<string> := [];
    var index := 0;
    assert json[0..] == json;
    while index < |json|
      invariant 0 <= index <= |json|
      invariant Stanzas(json, 0) == PrependLines(stanzas, Stanzas(json[index..], index))
    {
      assert json[index..][1..] == json[index + 1..];
      var e := json[index];
      var bad := Validate(e, index);
      if bad.Some? {
        return Err(bad.value);
      }
      var lines := EmitStanza(e);
      PrependLinesTwice(stanzas, [Join(lines, "\n")], Stanzas(json[index + 1..], index + 1));
      stanzas := stanzas + [Join(lines, "\n")];
      index := index + 1;
    }
    assert json[index..] == [];
    assert stanzas + [] == stanzas;
    return Ok(if stanzas == [] then "" else Join(stanzas, "\n\n") + "\n");
  }
}
