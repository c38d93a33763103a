/** One run of the scheme tool over one file: the rewritten text, the verification step, and
    what a second run would do. */
module AptProcess {
  import opened Wrappers
  import opened Text
  import opened AptModel
  import opened AptDeb822
  import opened AptStanza
  import opened AptScheme
  import opened AptFlip
  import opened AptRewrite
  import opened AptSurgery
  import opened AptVerify

  function Parse(text: string, fmt: Format): Parsed {
    match fmt case Classic => ClassicEntries(text) case Deb822 => Deb822Entries(text)
  }

  /** `render` of the planned rows, with any set of lines wrapped in markers. */
  function RewrittenText(text: string, fmt: Format, target: Scheme, adopt: map<nat, nat>): string {
    var lines := Split(text, '\n');
    Join(Rendered(lines, RowMap(RowsFrom(lines, fmt, target, 0)), adopt, 0), "\n")
  }

  // ------------------------------------------------------------------- clean lines

  lemma FlipLineClean(raw: string, target: Scheme)
    requires '\n' !in raw && FlipClassicLine(raw, target).Some?
    ensures '\n' !in FlipClassicLine(raw, target).value
  {
    hide FindUri;
    var at := FindUri(raw).value;
    var u := raw[at.0..at.0 + at.1];
    assert '\n' !in FlipUri(u, target).value by {
      FlipClean(u, target);
    }
  }

  lemma FlipClean(u: string, target: Scheme)
    requires '\n' !in u && FlipUri(u, target).Some?
    ensures '\n' !in FlipUri(u, target).value
  {
  }

  lemma RowClean(raw: string, fmt: Format, target: Scheme)
    requires '\n' !in raw && NewLine(raw, fmt, target).Some?
    ensures '\n' !in NewLine(raw, fmt, target).value
  {
    hide FlipClassicLine; hide FlipDeb822Line; hide Words; hide FlipOrAll; hide AllWords; hide Join;
    if fmt.Classic? {
      FlipLineClean(raw, target);
    } else {
      FlipLineParts(raw, target);
      JoinOneLine(FlipOrAll(Words(DropOneBlank(raw[5..]), SpaceComma), target));
    }
  }

  lemma MarkerClean(id: nat)
    ensures '\n' !in BeginLine(id) && '\n' !in EndLine(id)
  {
  }

  /** Changed rows are lines. */
  predicate CleanRows(lines: seq<string>, byLine: map<nat, string>) {
    forall i :: 0 <= i < |lines| && i in byLine ==> '\n' !in byLine[i]
  }

  lemma {:induction false} RenderedClean(lines: seq<string>, byLine: map<nat, string>, adopt: map<nat, nat>, i: nat)
    requires i <= |lines| && CleanLines(lines) && CleanRows(lines, byLine)
    ensures CleanLines(Rendered(lines, byLine, adopt, i))
    ensures i < |lines| ==> Rendered(lines, byLine, adopt, i) != []
    decreases |lines| - i
  {
    hide BeginLine; hide EndLine;
    if i < |lines| {
      if i in adopt {
        MarkerClean(adopt[i]);
      }
      RenderedClean(lines, byLine, adopt, i + 1);
      CleanAppend(Group(lines, byLine, adopt, i), Rendered(lines, byLine, adopt, i + 1));
    }
  }

  lemma MatchesClean(lines: seq<string>, byLine: map<nat, string>, fmt: Format, target: Scheme)
    requires CleanLines(lines) && RowsMatch(lines, byLine, fmt, target)
    ensures CleanRows(lines, byLine)
  {
    hide NewLine;
    forall i | 0 <= i < |lines| && i in byLine ensures '\n' !in byLine[i] {
      assert NewLine(lines[i], fmt, target) == Some(byLine[i]);
      RowClean(lines[i], fmt, target);
    }
  }

  lemma RewrittenLines(text: string, fmt: Format, target: Scheme, adopt: map<nat, nat>)
    ensures var lines := Split(text, '\n'); var byLine := RowMap(RowsFrom(lines, fmt, target, 0));
      RowsMatch(lines, byLine, fmt, target)
      && Split(RewrittenText(text, fmt, target, adopt), '\n') == Rendered(lines, byLine, adopt, 0)
  {
    hide Split; hide Join; hide Rendered; hide RowMap; hide RowsFrom; hide NewLine; hide RowsMatch;
    var lines := Split(text, '\n');
    JoinOfSplit(text, '\n');
    PlanMatches(lines, fmt, target);
    MatchesClean(lines, RowMap(RowsFrom(lines, fmt, target, 0)), fmt, target);
    RenderedClean(lines, RowMap(RowsFrom(lines, fmt, target, 0)), adopt, 0);
    SplitOfJoin(Rendered(lines, RowMap(RowsFrom(lines, fmt, target, 0)), adopt, 0), '\n');
  }

  // ---------------------------------------------------------- what the parsers read

  /** The uris of the stanza come from a field spelled `uris`, which the planner passes by, and
      one of them is off target. */
  predicate Overlooked(fs: seq<Field>, target: Scheme) {
    FindField(fs, "URIs").None? && exists u :: u in ValuesOf(fs, "URIs") && !OnTarget(u, target)
  }

  predicate AllInSight(text: string, fmt: Format, target: Scheme) {
    fmt.Deb822? ==> forall fs :: fs in StanzasOf(Split(text, '\n'), []) ==> !Overlooked(fs, target)
  }

  lemma ParseOf(text: string, fmt: Format)
    ensures Entries(Parse(text, fmt)) ==
      if fmt.Classic? then ClassicSources(Split(text, '\n')) else Sources(Split(text, '\n'), [])
  {
    ClassicNumbers(Split(text, '\n'), 1);
    NumbersOnlyInErrors(Split(text, '\n'), [], 1, 0);
    hide Split; hide ParseClassicLines; hide ParseStanzas;
  }

  /** What the rewritten file reads as: every uri flipped, but for those from fields spelled
      `uris`. */
  function Seen(text: string, fmt: Format, target: Scheme): Option<seq<Entry>> {
    match fmt
    case Classic => FlipAll(Entries(Parse(text, fmt)), target)
    case Deb822 => SeenAll(Entries(Parse(text, fmt)), StanzasOf(Split(text, '\n'), []), target)
  }

  /** Whichever lines were wrapped in markers, and whether or not the file parses. */
  lemma RewriteSeen(text: string, fmt: Format, target: Scheme, adopt: map<nat, nat>)
    ensures Entries(Parse(RewrittenText(text, fmt, target, adopt), fmt)) == Seen(text, fmt, target)
    ensures fmt.Deb822? && Parse(text, fmt).Ok? ==> Parse(text, fmt).value == StanzaEntries(StanzasOf(Split(text, '\n'), []))
  {
    hide Parse; hide RewrittenText; hide Split; hide Rendered; hide RowMap; hide RowsFrom; hide RowsMatch; hide FlipAll;
    hide ClassicSources; hide Sources; hide FlippedField; hide SeenAll; hide StanzasOf; hide StanzaEntries;
    var lines := Split(text, '\n');
    var byLine := RowMap(RowsFrom(lines, fmt, target, 0));
    RewrittenLines(text, fmt, target, adopt);
    ParseOf(text, fmt);
    ParseOf(RewrittenText(text, fmt, target, adopt), fmt);
    assert lines[0..] == lines;
    match fmt {
      case Classic => ClassicRendered(lines, byLine, adopt, target, 0);
      case Deb822 => Deb822Rendered(lines, byLine, adopt, target, 0, [], []);
    }
  }

  lemma OnTargetStays(u: string, target: Scheme)
    ensures OnTarget(u, target) <==> FlipUri(u, target).None?
  {
    if StartsWith(u, "http://") {
      assert u[4] == u[..7][4] == ':';
    }
    if StartsWith(u, "https://") {
      assert u[4] == u[..8][4] == 's';
    }
  }

  lemma SeenFlips(fs: seq<Field>, target: Scheme)
    requires !Overlooked(fs, target)
    ensures SeenEntry(fs, target) == FlipEntry(StanzaEntry(fs), target)
  {
    hide FindField; hide ValuesOf; hide OnTarget; hide FlipUri;
    if FindField(fs, "URIs").None? {
      var vals := ValuesOf(fs, "URIs");
      forall k | 0 <= k < |vals| ensures FlipUri(vals[k], target).None? {
        assert vals[k] in vals;
        OnTargetStays(vals[k], target);
      }
      FlipsNone(vals, target);
    }
  }

  /** When no stanza is overlooked, the rewritten file reads as the original entries with only
      their uris flipped. */
  lemma RewriteReads(text: string, fmt: Format, target: Scheme, adopt: map<nat, nat>)
    requires AllInSight(text, fmt, target)
    ensures Entries(Parse(RewrittenText(text, fmt, target, adopt), fmt)) == FlipAll(Entries(Parse(text, fmt)), target)
    ensures Parse(text, fmt).Ok? ==>
      Parse(RewrittenText(text, fmt, target, adopt), fmt).Ok?
      && EntriesAfter(Parse(text, fmt).value, Parse(RewrittenText(text, fmt, target, adopt), fmt).value, target)
  {
    hide EntriesAfter; hide FlipEntries;
    RewriteSeen(text, fmt, target, adopt);
    if Parse(text, fmt).Ok? {
      FlippedAfter(Parse(text, fmt).value, target);
    }
    hide Parse; hide RewrittenText; hide Split; hide StanzasOf; hide SeenEntry; hide Overlooked; hide StanzaEntry; hide FlipEntry;
    if fmt.Deb822? && Parse(text, fmt).Ok? {
      var fss := StanzasOf(Split(text, '\n'), []);
      forall k | 0 <= k < |fss| ensures SeenEntry(fss[k], target) == FlipEntry(StanzaEntry(fss[k]), target) {
        assert fss[k] in fss;
        SeenFlips(fss[k], target);
      }
      assert SeenEntries(fss, target) == FlipEntries(StanzaEntries(fss), target);
    }
  }

  // ------------------------------------------------------------ the verification step

  datatype Problem = ReparseFailed(error: ParseError) | CountChanged(expected: nat, found: nat) | OffTarget(uri: string)

  function FirstOff(uris: seq<string>, target: Scheme): (r: Option<string>)
    ensures r.None? <==> forall u :: u in uris ==> OnTarget(u, target)
  {
    if uris == [] then None
    else if !OnTarget(uris[0], target) then Some(uris[0])
    else
      assert uris == [uris[0]] + uris[1..];
      FirstOff(uris[1..], target)
  }

  function FirstOffEntry(es: seq<Entry>, target: Scheme): (r: Option<string>)
    ensures r.None? <==> forall e :: e in es ==> FirstOff(e.uris, target).None?
  {
    if es == [] then None
    else if FirstOff(es[0].uris, target).Some? then FirstOff(es[0].uris, target)
    else
      assert es == [es[0]] + es[1..];
      FirstOffEntry(es[1..], target)
  }

  function Verdict(text: string, fmt: Format, target: Scheme, expected: nat): Option<Problem> {
    match Parse(text, fmt)
    case Err(e) => Some(ReparseFailed(e))
    case Ok(es) =>
      if |es| != expected then Some(CountChanged(expected, |es|))
      else match FirstOffEntry(es, target) case None => None case Some(u) => Some(OffTarget(u))
  }

  lemma FlippedOnTarget(es: seq<Entry>, target: Scheme)
    ensures FirstOffEntry(FlipEntries(es, target), target).None?
  {
    hide OnTarget; hide FlipOr; hide FirstOff; hide FirstOffEntry; hide FlipEntries; hide FlipOrAll;
    forall i | 0 <= i < |es| ensures FirstOff(FlipEntries(es, target)[i].uris, target).None? {
      forall k | 0 <= k < |es[i].uris| ensures OnTarget(FlipOrAll(es[i].uris, target)[k], target) {
        FlipOrFacts(es[i].uris[k], target);
      }
    }
  }

  lemma SeenOff(fs: seq<Field>, target: Scheme)
    ensures FirstOff(SeenEntry(fs, target).uris, target).Some? <==> Overlooked(fs, target)
  {
    hide FindField; hide ValuesOf; hide OnTarget; hide FlipOr; hide StanzaEntry;
    var vals := ValuesOf(fs, "URIs");
    if FindField(fs, "URIs").Some? {
      forall k | 0 <= k < |vals| ensures OnTarget(FlipOrAll(vals, target)[k], target) {
        FlipOrFacts(vals[k], target);
      }
    }
  }

  lemma SeenAllOff(fss: seq<seq<Field>>, target: Scheme)
    ensures FirstOffEntry(SeenEntries(fss, target), target).None? <==> forall fs :: fs in fss ==> !Overlooked(fs, target)
  {
    hide FirstOff; hide Overlooked; hide SeenEntry;
    var es := SeenEntries(fss, target);
    forall k | 0 <= k < |fss| ensures FirstOff(es[k].uris, target).Some? <==> Overlooked(fss[k], target) {
      SeenOff(fss[k], target);
    }
    if FirstOffEntry(es, target).None? {
      forall fs | fs in fss ensures !Overlooked(fs, target) {
        var k :| 0 <= k < |fss| && fss[k] == fs;
        assert es[k] in es;
      }
    }
  }

  /** `verify` accepts the rewrite of a file that parses exactly when no stanza is overlooked. */
  lemma RewriteAccepted(text: string, fmt: Format, target: Scheme, adopt: map<nat, nat>)
    requires Parse(text, fmt).Ok?
    ensures Verdict(RewrittenText(text, fmt, target, adopt), fmt, target, |Parse(text, fmt).value|) == None
      <==> AllInSight(text, fmt, target)
  {
    hide Parse; hide RewrittenText; hide FirstOffEntry; hide FlipEntries; hide SeenEntries; hide StanzasOf; hide Split; hide Overlooked;
    RewriteSeen(text, fmt, target, adopt);
    match fmt {
      case Classic => FlippedOnTarget(Parse(text, fmt).value, target);
      case Deb822 => SeenAllOff(StanzasOf(Split(text, '\n'), []), target);
    }
  }

  /** `verify`. */
  method Verify(text: string, fmt: Format, target: Scheme, expected: nat) returns (problem: Option<Problem>)
    ensures problem == Verdict(text, fmt, target, expected)
  {
    var json: Parsed;
    if fmt.Deb822? {
      json := ParseDeb822(text);
    } else {
      json := ParseClassic(text);
    }
    hide ClassicEntries; hide Deb822Entries; hide OnTarget;
    if json.Err? {
      return Some(ReparseFailed(json.error));
    }
    var es := json.value;
    if |es| != expected {
      return Some(CountChanged(expected, |es|));
    }
    var i := 0;
    assert es[0..] == es;
    while i < |es|
      invariant 0 <= i <= |es| && FirstOffEntry(es, target) == FirstOffEntry(es[i..], target)
    {
      assert es[i..][1..] == es[i + 1..];
      var off := FindOff(es[i].uris, target);
      if off.Some? {
        return Some(OffTarget(off.value));
      }
      i := i + 1;
    }
    return None;
  }

  method FindOff(uris: seq<string>, target: Scheme) returns (off: Option<string>)
    ensures off == FirstOff(uris, target)
  {
    hide OnTarget;
    var i := 0;
    assert uris[0..] == uris;
    while i < |uris|
      invariant 0 <= i <= |uris| && FirstOff(uris, target) == FirstOff(uris[i..], target)
    {
      assert uris[i..][1..] == uris[i + 1..];
      if !OnTarget(uris[i], target) {
        return Some(uris[i]);
      }
      i := i + 1;
    }
    return None;
  }

  // ------------------------------------------------------------------- a second run

  lemma {:induction false} NothingPlanned(lines: seq<string>, fmt: Format, target: Scheme, i: nat)
    requires forall l :: l in lines ==> NewLine(l, fmt, target).None?
    ensures RowsFrom(lines, fmt, target, i) == []
    decreases |lines| - i
  {
    hide NewLine;
    if i < |lines| {
      assert lines[i] in lines;
      NothingPlanned(lines, fmt, target, i + 1);
    }
  }

  lemma RowSettles(raw: string, fmt: Format, target: Scheme)
    requires NewLine(raw, fmt, target).Some?
    ensures NewLine(NewLine(raw, fmt, target).value, fmt, target).None?
  {
    hide FlipClassicLine; hide FlipDeb822Line; hide ParseClassicLine; hide FindUri; hide MarkOf;
    if fmt.Classic? {
      LineFlips(raw, target);
    } else {
      UrisSettle(raw, target);
    }
  }

  lemma {:induction false} RenderedSettles(lines: seq<string>, byLine: map<nat, string>, adopt: map<nat, nat>,
                                           fmt: Format, target: Scheme, i: nat)
    requires i <= |lines| && RowsMatch(lines, byLine, fmt, target)
    ensures forall l :: l in Rendered(lines, byLine, adopt, i) ==> NewLine(l, fmt, target).None?
    decreases |lines| - i
  {
    hide NewLine; hide BeginLine; hide EndLine; hide MarkerLine;
    if i < |lines| {
      assert NewLine(lines[i], fmt, target) == if i in byLine then Some(byLine[i]) else None;
      if i in byLine {
        RowSettles(lines[i], fmt, target);
      }
      if i in adopt {
        MarkerForm(adopt[i]);
        MarkerNoRow(adopt[i], "begin", fmt, target);
        MarkerNoRow(adopt[i], "end", fmt, target);
      }
      RenderedSettles(lines, byLine, adopt, fmt, target, i + 1);
    }
  }

  /** The tool is idempotent: nothing is planned on a rewritten file. */
  lemma SecondRunIdle(text: string, fmt: Format, target: Scheme, adopt: map<nat, nat>)
    ensures RowsFrom(Split(RewrittenText(text, fmt, target, adopt), '\n'), fmt, target, 0) == []
  {
    hide Split; hide RewrittenText; hide Rendered; hide RowMap; hide RowsFrom; hide RowsMatch; hide NewLine;
    RewrittenLines(text, fmt, target, adopt);
    var lines := Split(text, '\n');
    var byLine := RowMap(RowsFrom(lines, fmt, target, 0));
    RenderedSettles(lines, byLine, adopt, fmt, target, 0);
    NothingPlanned(Rendered(lines, byLine, adopt, 0), fmt, target, 0);
  }

  // --------------------------------------------------------------- a file that verifies

  /** No uri of any entry is to be flipped. */
  predicate Quiet(es: seq<Entry>, target: Scheme) {
    forall e :: e in es ==> !AnyFlips(e.uris, target)
  }

  lemma QuietLine(raw: string, rest: Option<seq<Entry>>, target: Scheme)
    requires ParseClassicLine(raw).Ok? && rest.Some?
    requires var e := ParseClassicLine(raw).value; Quiet(if e.None? then rest.value else [e.value] + rest.value, target)
    ensures FlipClassicLine(raw, target).None? && Quiet(rest.value, target)
  {
    hide ParseClassicLine; hide FlipClassicLine; hide FlipUri;
    var read := ParseClassicLine(raw).value;
    if read.Some? {
      assert ([read.value] + rest.value)[0] == read.value;
      assert forall e :: e in rest.value ==> e in [read.value] + rest.value;
    }
    if FlipClassicLine(raw, target).Some? {
      FlippableRead(raw, target);
    }
  }

  lemma {:induction false} QuietLines(lines: seq<string>, target: Scheme)
    requires ClassicSources(lines).Some? && Quiet(ClassicSources(lines).value, target)
    ensures forall l :: l in lines ==> FlipClassicLine(l, target).None?
    decreases |lines|
  {
    hide ClassicSources; hide ParseClassicLine; hide FlipClassicLine; hide FlipUri;
    if lines != [] {
      var raw, rest := lines[0], lines[1..];
      assert lines == [raw] + rest;
      ClassicStep(raw, rest);
      QuietLine(raw, ClassicSources(rest), target);
      QuietLines(rest, target);
    }
  }

  /** The `URIs` fields read so far hold nothing to flip. */
  predicate QuietFields(fs: seq<Field>, target: Scheme) {
    forall i :: 0 <= i < |fs| && fs[i].key == "URIs" ==> !AnyFlips(Words(fs[i].first, SpaceComma), target)
  }

  lemma QuietStanza(cur: seq<Field>, target: Scheme)
    requires Flush(cur, 0).Ok? && Quiet(Flush(cur, 0).value, target)
    ensures QuietFields(cur, target)
  {
    hide AnyFlips; hide Words; hide FindField; hide FirstDuplicate; hide Required; hide StanzaEntry;
    if cur != [] {
      var e := StanzaEntry(cur);
      assert e in Flush(cur, 0).value;
      FirstDuplicateExact(cur);
      forall i | 0 <= i < |cur| && cur[i].key == "URIs" ensures !AnyFlips(Words(cur[i].first, SpaceComma), target) {
        FindsIt(cur, i);
        UrisOfStanza(cur);
      }
    }
  }

  lemma UrisOfStanza(cur: seq<Field>)
    ensures FindField(cur, "URIs").Some? ==> StanzaEntry(cur).uris == Words(FindField(cur, "URIs").value.first, SpaceComma)
  {
    hide FindField; hide Words; hide Passthrough; hide SignedByOf;
  }

  lemma {:induction false} FindsIt(fs: seq<Field>, i: nat)
    requires DistinctFields(fs) && i < |fs|
    ensures FindField(fs, fs[i].key) == Some(fs[i])
    decreases |fs|
  {
    if i > 0 {
      assert fs[0].key != fs[i].key;
      assert forall a :: 0 <= a < |fs| - 1 ==> fs[1..][a] == fs[a + 1];
      FindsIt(fs[1..], i - 1);
    }
  }

  lemma {:induction false} QuietRows(lines: seq<string>, cur: seq<Field>, target: Scheme)
    requires Sources(lines, cur).Some? && Quiet(Sources(lines, cur).value, target)
    ensures QuietFields(cur, target) && forall l :: l in lines ==> FlipDeb822Line(l, target).None?
    decreases |lines|
  {
    hide Sources; hide ReadLine; hide Flush; hide FlipDeb822Line; hide AnyFlips; hide QuietFields;
    if lines == [] {
      LastStanza(cur);
      QuietStanza(cur, target);
    } else {
      var raw, rest := lines[0], lines[1..];
      assert lines == [raw] + rest;
      SourcesStep(raw, rest, cur);
      var step := ReadLine(raw, cur, 0, 0);
      QuietRows(rest, step.value.1, target);
      QuietRow(raw, cur, target);
    }
  }

  lemma QuietRow(raw: string, cur: seq<Field>, target: Scheme)
    requires ReadLine(raw, cur, 0, 0).Ok? && Quiet(ReadLine(raw, cur, 0, 0).value.0, target)
    requires QuietFields(ReadLine(raw, cur, 0, 0).value.1, target)
    ensures QuietFields(cur, target) && FlipDeb822Line(raw, target).None?
  {
    hide Classify; hide Flush; hide FlipDeb822Line; hide AnyFlips; hide Words;
    if FlipDeb822Line(raw, target).Some? {
      FlippedRowReads(raw, target);
    }
    match Classify(raw) {
      case BlankLine => QuietStanza(cur, target);
      case FieldLine(f) =>
        assert (cur + [f])[|cur|] == f;
        assert forall i :: 0 <= i < |cur| ==> (cur + [f])[i] == cur[i];
      case ContLine =>
        var grown := AddCont(cur, raw);
        assert forall i :: 0 <= i < |cur| ==> grown[i].key == cur[i].key && grown[i].first == cur[i].first;
      case _ =>
    }
  }

  lemma FlippedRowReads(raw: string, target: Scheme)
    requires FlipDeb822Line(raw, target).Some?
    ensures Classify(raw).FieldLine? && Classify(raw).field.key == "URIs"
    ensures AnyFlips(Words(Classify(raw).field.first, SpaceComma), target)
  {
    hide Classify; hide Words; hide FlipOrAll; hide OneLine; hide AnyFlips;
    UrisLine(raw);
  }

  lemma QuietVerdict(text: string, fmt: Format, target: Scheme, expected: nat)
    requires Verdict(text, fmt, target, expected).None?
    ensures Parse(text, fmt).Ok? && Quiet(Parse(text, fmt).value, target)
  {
    hide Parse; hide FlipUri; hide OnTarget;
    var es := Parse(text, fmt).value;
    forall e, i | e in es && 0 <= i < |e.uris| ensures FlipUri(e.uris[i], target).None? {
      assert FirstOff(e.uris, target).None? && e.uris[i] in e.uris;
      OnTargetStays(e.uris[i], target);
    }
  }

  /** Nothing is planned on a text that `verify` accepts, whoever wrote it. */
  lemma VerifiedIsIdle(text: string, fmt: Format, target: Scheme, expected: nat)
    requires Verdict(text, fmt, target, expected).None?
    ensures Parse(text, fmt).Ok? && RowsFrom(Split(text, '\n'), fmt, target, 0) == []
  {
    hide Split; hide Parse; hide Verdict; hide RowsFrom; hide ClassicSources; hide Sources; hide FlipClassicLine; hide FlipDeb822Line; hide Quiet;
    QuietVerdict(text, fmt, target, expected);
    ParseOf(text, fmt);
    if fmt.Classic? {
      QuietLines(Split(text, '\n'), target);
    } else {
      QuietRows(Split(text, '\n'), [], target);
    }
    NothingPlanned(Split(text, '\n'), fmt, target, 0);
  }

  // ------------------------------------------------------------------- the other spelling

  /** A whole file whose uris stand in a field spelled `uris`: no row is planned, so a run has
      nothing to do, and `verify` would reject the file as it is and as any run rewrites it. */
  lemma OtherSpelling(text: string, adopt: map<nat, nat>)
    requires text == Join(["Types: deb", "uris: http://a", "Suites: s"], "\n")
    ensures Parse(text, Deb822).Ok? && |Parse(text, Deb822).value| == 1
    ensures RowsFrom(Split(text, '\n'), Deb822, Https, 0) == [] && !AllInSight(text, Deb822, Https)
    ensures Verdict(text, Deb822, Https, 1) == Some(OffTarget("http://a"))
    ensures Verdict(RewrittenText(text, Deb822, Https, adopt), Deb822, Https, 1).Some?
  {
    hide Join; hide Split; hide Parse; hide RowsFrom; hide Verdict; hide RewrittenText; hide AllInSight;
    OtherSpellingLines(text);
    OtherSpellingPlan();
    OtherSpellingOff(text);
    RewriteAccepted(text, Deb822, Https, adopt);
  }

  const OTHER: seq<string> := ["Types: deb", "uris: http://a", "Suites: s"]

  const OTHER_FIELDS: seq<Field> := [Field("Types", "deb", []), Field("uris", "http://a", []), Field("Suites", "s", [])]

  lemma OtherSpellingLines(text: string)
    requires text == Join(OTHER, "\n")
    ensures Split(text, '\n') == OTHER
  {
    hide Join; hide Split;
    SplitOfJoin(OTHER, '\n');
  }

  lemma NamedReads(key: string, v: string, cur: seq<Field>)
    requires IsKey(key) && OneLine(v)
    ensures ReadLine(key + ": " + v, cur, 0, 0).Ok? && ReadLine(key + ": " + v, cur, 0, 0).value.0 == []
    ensures ReadLine(key + ": " + v, cur, 0, 0).value.1 == cur + [Field(key, v, [])]
    ensures Completed(key + ": " + v, cur) == []
  {
    FieldLineReads(key, v);
    ClassifyBlank(key + ": " + v);
    hide Classify; hide IsKey; hide OneLine; hide Blank;
  }

  /** One field more of the stanza at hand. */
  lemma NamedStep(key: string, v: string, rest: seq<string>, cur: seq<Field>)
    requires IsKey(key) && OneLine(v)
    ensures Sources([key + ": " + v] + rest, cur) == Sources(rest, cur + [Field(key, v, [])])
    ensures StanzasOf([key + ": " + v] + rest, cur) == StanzasOf(rest, cur + [Field(key, v, [])])
  {
    hide Sources; hide StanzasOf; hide ReadLine; hide Completed; hide IsKey; hide OneLine;
    NamedReads(key, v, cur);
    SourcesStep(key + ": " + v, rest, cur);
    StanzasStep(key + ": " + v, rest, cur);
    NothingBefore(Sources(rest, cur + [Field(key, v, [])]));
  }

  lemma OtherSpellingStanza()
    ensures StanzasOf(OTHER, []) == [OTHER_FIELDS] && Sources(OTHER, []) == Entries(Flush(OTHER_FIELDS, 0))
  {
    hide Sources; hide StanzasOf; hide Flush;
    var t, u, v := Field("Types", "deb", []), Field("uris", "http://a", []), Field("Suites", "s", []);
    assert OTHER[0] == "Types" + ": " + "deb" && OTHER[1] == "uris" + ": " + "http://a" && OTHER[2] == "Suites" + ": " + "s";
    assert OTHER == [OTHER[0]] + [OTHER[1], OTHER[2]] && [OTHER[1], OTHER[2]] == [OTHER[1]] + [OTHER[2]] && [OTHER[2]] == [OTHER[2]] + [];
    NamedStep("Types", "deb", [OTHER[1], OTHER[2]], []);
    NamedStep("uris", "http://a", [OTHER[2]], [] + [t]);
    NamedStep("Suites", "s", [], [] + [t] + [u]);
    assert [] + [t] + [u] + [v] == OTHER_FIELDS;
    LastStanza(OTHER_FIELDS);
  }

  lemma OtherSpellingEntry()
    ensures ValuesOf(OTHER_FIELDS, "URIs") == ["http://a"] && FindField(OTHER_FIELDS, "URIs").None?
    ensures StanzaProblem(OTHER_FIELDS).None?
  {
    hide Lower; hide Words;
    LowerIs("URIs", "uris");
    WordsOfJoin(["http://a"], ' ', SpaceComma);
    FirstDuplicateExact(OTHER_FIELDS);
  }

  lemma NoUrisRow(l: string)
    requires l != "" && l[0] != 'U'
    ensures FlipDeb822Line(l, Https).None?
  {
    hide OneLine; hide Words; hide AnyFlips; hide FlipOrAll; hide Join;
    assert |l| >= 5 ==> l[..5][0] == l[0];
  }

  lemma OtherSpellingPlan()
    ensures RowsFrom(OTHER, Deb822, Https, 0) == []
  {
    hide RowsFrom; hide FlipDeb822Line;
    assert OTHER[0][0] == 'T' && OTHER[1][0] == 'u' && OTHER[2][0] == 'S';
    forall i | 0 <= i < 3 ensures NewLine(OTHER[i], Deb822, Https).None? {
      NoUrisRow(OTHER[i]);
    }
    NothingPlanned(OTHER, Deb822, Https, 0);
  }

  lemma OtherSpellingOff(text: string)
    requires Split(text, '\n') == OTHER
    ensures Parse(text, Deb822) == Ok([StanzaEntry(OTHER_FIELDS)]) && !AllInSight(text, Deb822, Https)
    ensures Verdict(text, Deb822, Https, 1) == Some(OffTarget("http://a"))
  {
    hide Split; hide Parse; hide StanzasOf; hide StanzaProblem; hide ValuesOf; hide FindField; hide Sources;
    hide FirstOffEntry; hide OnTarget; hide Overlooked; hide OTHER_FIELDS; hide OTHER;
    OtherSpellingStanza();
    OtherSpellingEntry();
    OtherSpellingOverlooked();
    ParseOf(text, Deb822);
    SomeFields();
    assert OTHER_FIELDS in StanzasOf(OTHER, []);
  }

  lemma SomeFields()
    ensures OTHER_FIELDS != []
  {
  }

  lemma OtherSpellingOverlooked()
    requires ValuesOf(OTHER_FIELDS, "URIs") == ["http://a"] && FindField(OTHER_FIELDS, "URIs").None?
    ensures Overlooked(OTHER_FIELDS, Https) && FirstOffEntry([StanzaEntry(OTHER_FIELDS)], Https) == Some("http://a")
  {
    hide ValuesOf; hide FindField; hide OTHER_FIELDS;
    var off := "http://a";
    assert !OnTarget(off, Https) by {
      assert off[4] == ':';
    }
    assert off in ValuesOf(OTHER_FIELDS, "URIs");
    assert StanzaEntry(OTHER_FIELDS).uris == [off];
  }
}
