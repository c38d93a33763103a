/** Rewriting a whole file: whatever lines get wrapped in markers, the rewritten text reads as
    the original entries with flipped uris, the verification step accepts it, and a second
    run finds nothing to do. */
module AptVerify {
  import opened Wrappers
  import opened Text
  import opened AptModel
  import opened AptDeb822
  import opened AptClassic
  import opened AptScheme
  import opened AptFlip
  import opened AptRewrite
  import opened AptSurgery

  // ------------------------------------------------------------------ marker lines

  function MarkerLine(id: nat, tail: string): string { PREFIX + Decimal(id) + " " + tail }

  lemma MarkerForm(id: nat)
    ensures BeginLine(id) == MarkerLine(id, "begin") && EndLine(id) == MarkerLine(id, "end")
  {
    hide Decimal;
    assert " " + "begin" == " begin" && " " + "end" == " end";
    Assoc(PREFIX + Decimal(id), " ", "begin");
    Assoc(PREFIX + Decimal(id), " ", "end");
  }

  lemma MarkerTokens(id: nat, tail: string)
    requires tail == "begin" || tail == "end"
    ensures var s := "apt-scheme-" + Decimal(id) + " " + tail;
      Tokens(s) == Some(["apt-scheme-" + Decimal(id), tail])
  {
    var a, b := "apt-scheme-" + Decimal(id), tail;
    assert IsToken(a) by {
      assert forall i :: 0 <= i < |a| ==> !IsSpace(a[i]);
    }
    assert IsToken(b);
    hide IsToken; hide Decimal; hide Tokens;
    TokensOfJoin([a, b]);
    assert Join([a, b], " ") == a + " " + b by {
      assert [a, b][1..] == [b];
    }
  }

  /** Markers are comments in both formats. */
  lemma MarkerIsComment(id: nat, tail: string)
    requires tail == "begin" || tail == "end"
    ensures Classify(MarkerLine(id, tail)) == CommentLine
    ensures ParseClassicLine(MarkerLine(id, tail)) == Ok(None)
  {
    hide Decimal; hide Tokens;
    var s := "apt-scheme-" + Decimal(id) + " " + tail;
    var raw := MarkerLine(id, tail);
    assert raw == "" + ("#" + (" " + s));
    assert raw[0] == '#' && raw[..1] == "#";
    UncommentHash("", " " + s);
    BlankSkip(" ", s);
    MarkerTokens(id, tail);
  }

  lemma NotTyped(s: string)
    requires s != "" && !IsSpace(s[0]) && s[0] != 'd'
    ensures UriAfterType(s).None?
  {
    hide Run; hide Lead; hide IsSpace; hide UriAfterSpace;
  }

  lemma HashSpaceStart(line: string)
    requires |line| > 2 && line[0] == '#' && line[1] == ' ' && !IsSpace(line[2])
    ensures SourceStart(line) == Some(2)
  {
    assert Lead(line) == 0;
    var rest := line[1..];
    assert Lead(rest[1..]) == 0;
    assert Lead(rest) == 1;
    hide Lead;
  }

  /** A comment whose first word does not start like a source type holds no uri. */
  lemma CommentNotFound(line: string)
    requires |line| > 2 && line[0] == '#' && line[1] == ' ' && (line[2] == 'a' || line[2] == 's')
    ensures FindUri(line).None?
    ensures forall fmt, target :: NewLine(line, fmt, target).None?
  {
    hide UriAfterType; hide SourceStart;
    HashSpaceStart(line);
    NotTyped(line[2..]);
    assert !StartsWith(line, "URIs:") by {
      assert |line| >= 5 ==> line[..5][0] == '#';
    }
    hide FindUri;
  }

  lemma PrefixHead(line: string)
    requires StartsWith(line, PREFIX)
    ensures |line| > 2 && line[0] == '#' && line[1] == ' ' && line[2] == 'a'
  {
    var p := line[..|PREFIX|];
    assert line[0] == p[0] && line[1] == p[1] && line[2] == p[2];
  }

  /** A line the tool wrote as a marker is never planned as a row. */
  lemma PrefixNoRow(line: string, fmt: Format, target: Scheme)
    requires StartsWith(line, PREFIX)
    ensures NewLine(line, fmt, target).None?
  {
    hide NewLine;
    PrefixHead(line);
    CommentNotFound(line);
  }

  lemma MarkerNoRow(id: nat, tail: string, fmt: Format, target: Scheme)
    ensures NewLine(MarkerLine(id, tail), fmt, target).None?
  {
    hide Decimal; hide NewLine;
    assert MarkerLine(id, tail)[..|PREFIX|] == PREFIX;
    PrefixNoRow(MarkerLine(id, tail), fmt, target);
  }

  // -------------------------------------------------------------------- planned rows

  /** Rows in file order, each the changed form of its line. */
  predicate Planned(rows: seq<Row>, lines: seq<string>, fmt: Format, target: Scheme, from: nat) {
    && (forall r :: r in rows ==>
          from <= r.lineIdx < |lines| && NewLine(lines[r.lineIdx], fmt, target) == Some(r.newLine))
    && forall a, b :: 0 <= a < b < |rows| ==> rows[a].lineIdx < rows[b].lineIdx
  }

  lemma PlannedCons(r: Row, rest: seq<Row>, lines: seq<string>, fmt: Format, target: Scheme, i: nat)
    requires Planned(rest, lines, fmt, target, i + 1)
    requires i < |lines| && r.lineIdx == i && NewLine(lines[i], fmt, target) == Some(r.newLine)
    ensures Planned([r] + rest, lines, fmt, target, i)
  {
    hide NewLine;
    var rows := [r] + rest;
    forall a, b | 0 <= a < b < |rows| ensures rows[a].lineIdx < rows[b].lineIdx {
      assert rest[b - 1] in rest;
      if a > 0 {
        assert rows[a] == rest[a - 1];
      }
    }
  }

  lemma {:induction false} PlannedRows(lines: seq<string>, fmt: Format, target: Scheme, i: nat)
    requires i <= |lines|
    ensures Planned(RowsFrom(lines, fmt, target, i), lines, fmt, target, i)
    decreases |lines| - i
  {
    hide NewLine;
    if i < |lines| {
      PlannedRows(lines, fmt, target, i + 1);
      var rest := RowsFrom(lines, fmt, target, i + 1);
      var changed := NewLine(lines[i], fmt, target);
      if changed.Some? {
        PlannedCons(Row(i, changed.value), rest, lines, fmt, target, i);
      } else {
        assert [] + rest == rest;
      }
    }
  }

  lemma {:induction false} EveryRowPlanned(lines: seq<string>, fmt: Format, target: Scheme, i: nat, j: nat)
    requires i <= j < |lines| && NewLine(lines[j], fmt, target).Some?
    ensures Row(j, NewLine(lines[j], fmt, target).value) in RowsFrom(lines, fmt, target, i)
    decreases j - i
  {
    hide NewLine; hide RowsFrom;
    RowsStep([], lines, fmt, target, i);
    assert [] + RowsFrom(lines, fmt, target, i) == RowsFrom(lines, fmt, target, i);
    if i < j {
      EveryRowPlanned(lines, fmt, target, i + 1, j);
    } else {
      assert [Row(i, NewLine(lines[i], fmt, target).value)][0] in [] + [Row(i, NewLine(lines[i], fmt, target).value)];
    }
  }

  lemma {:induction false} RowMapRows(rows: seq<Row>)
    ensures forall i :: i in RowMap(rows) ==> Row(i, RowMap(rows)[i]) in rows
  {
    if rows != [] {
      var front := rows[..|rows| - 1];
      RowMapRows(front);
      assert rows == front + [rows[|rows| - 1]];
    }
  }

  /** The map from lines to their changed forms is the planner's. */
  predicate RowsMatch(lines: seq<string>, byLine: map<nat, string>, fmt: Format, target: Scheme) {
    forall i :: 0 <= i < |lines| ==>
      NewLine(lines[i], fmt, target) == if i in byLine then Some(byLine[i]) else None
  }

  lemma PlanMatches(lines: seq<string>, fmt: Format, target: Scheme)
    ensures RowsMatch(lines, RowMap(RowsFrom(lines, fmt, target, 0)), fmt, target)
  {
    hide NewLine; hide RowMap; hide RowsFrom;
    var rows := RowsFrom(lines, fmt, target, 0);
    PlannedRows(lines, fmt, target, 0);
    RowMapRows(rows);
    RowMapKeys(rows);
    forall i | 0 <= i < |lines|
      ensures NewLine(lines[i], fmt, target) == if i in RowMap(rows) then Some(RowMap(rows)[i]) else None
    {
      if NewLine(lines[i], fmt, target).Some? {
        EveryRowPlanned(lines, fmt, target, 0, i);
      }
    }
  }

  // ------------------------------------------------------ one-line-style files, rewritten

  function FlipAll(r: Option<seq<Entry>>, target: Scheme): Option<seq<Entry>> {
    match r case None => None case Some(es) => Some(FlipEntries(es, target))
  }

  function ClassicSources(lines: seq<string>): Option<seq<Entry>> {
    Entries(ParseClassicLines(lines, 0))
  }

  lemma {:induction false} ClassicNumbers(lines: seq<string>, n: nat)
    ensures Entries(ParseClassicLines(lines, n)) == ClassicSources(lines)
  {
    hide ParseClassicLine;
    if lines != [] {
      ClassicNumbers(lines[1..], n + 1);
      ClassicNumbers(lines[1..], 1);
    }
  }

  lemma ClassicStep(raw: string, rest: seq<string>)
    ensures ClassicSources([raw] + rest) ==
      match ParseClassicLine(raw)
      case Err(_) => None
      case Ok(None) => ClassicSources(rest)
      case Ok(Some(e)) => After([e], ClassicSources(rest))
  {
    hide ParseClassicLine;
    assert ([raw] + rest)[1..] == rest;
    ClassicNumbers(rest, 1);
  }

  lemma ClassicMarker(id: nat, tail: string, rest: seq<string>)
    requires tail == "begin" || tail == "end"
    ensures ClassicSources([MarkerLine(id, tail)] + rest) == ClassicSources(rest)
  {
    hide ClassicSources; hide ParseClassicLine; hide MarkerLine;
    ClassicStep(MarkerLine(id, tail), rest);
    MarkerIsComment(id, tail);
  }

  /** Wrapping a line in markers changes nothing. */
  lemma ClassicWrapped(id: nat, l: string, rest: seq<string>)
    ensures ClassicSources([BeginLine(id), l, EndLine(id)] + rest) == ClassicSources([l] + rest)
  {
    hide ClassicSources; hide MarkerLine; hide BeginLine; hide EndLine; hide ParseClassicLine;
    MarkerForm(id);
    ClassicMarker(id, "begin", [l, EndLine(id)] + rest);
    assert [BeginLine(id), l, EndLine(id)] + rest == [BeginLine(id)] + ([l, EndLine(id)] + rest);
    ClassicMarker(id, "end", rest);
    ClassicStep(l, [EndLine(id)] + rest);
    assert [l, EndLine(id)] + rest == [l] + ([EndLine(id)] + rest);
    ClassicStep(l, rest);
  }

  lemma FlipAfter(e: Entry, r: Option<seq<Entry>>, target: Scheme)
    ensures FlipAll(After([e], r), target) == After([FlipEntry(e, target)], FlipAll(r, target))
  {
    hide FlipEntry;
    if r.Some? {
      assert ([e] + r.value)[1..] == r.value;
    }
  }

  lemma ClassicFlipStep(raw: string, l: string, rest: seq<string>, rest2: seq<string>, target: Scheme)
    requires ParseClassicLine(l) == FlipResult(ParseClassicLine(raw), target)
    requires ClassicSources(rest2) == FlipAll(ClassicSources(rest), target)
    ensures ClassicSources([l] + rest2) == FlipAll(ClassicSources([raw] + rest), target)
  {
    hide ClassicSources; hide ParseClassicLine; hide FlipAll; hide FlipEntry;
    ClassicStep(raw, rest);
    ClassicStep(l, rest2);
    var r := ParseClassicLine(raw);
    NoneFlipped(target);
    if r.Ok? && r.value.Some? {
      FlipAfter(r.value.value, ClassicSources(rest), target);
    }
  }

  lemma NoneFlipped(target: Scheme)
    ensures FlipAll(None, target) == None
    ensures FlipAll(Some([]), target) == Some([])
  {
  }

  lemma GroupIs(lines: seq<string>, byLine: map<nat, string>, adopt: map<nat, nat>, i: nat)
    requires i < |lines|
    ensures var l := if i in byLine then byLine[i] else lines[i];
      Group(lines, byLine, adopt, i) == if i in adopt then [BeginLine(adopt[i]), l, EndLine(adopt[i])] else [l]
    ensures Rendered(lines, byLine, adopt, i) == Group(lines, byLine, adopt, i) + Rendered(lines, byLine, adopt, i + 1)
    ensures lines[i..] == [lines[i]] + lines[i + 1..]
  {
  }

  lemma {:induction false} ClassicRendered(lines: seq<string>, byLine: map<nat, string>, adopt: map<nat, nat>, target: Scheme, i: nat)
    requires i <= |lines| && RowsMatch(lines, byLine, Classic, target)
    ensures ClassicSources(Rendered(lines, byLine, adopt, i)) == FlipAll(ClassicSources(lines[i..]), target)
    decreases |lines| - i
  {
    hide ClassicSources; hide FlipAll; hide ParseClassicLine; hide FlipClassicLine; hide FlipResult; hide BeginLine; hide EndLine;
    hide Group;
    if i < |lines| {
      RowFlips(lines[i], target);
      assert NewLine(lines[i], Classic, target) == if i in byLine then Some(byLine[i]) else None;
      GroupIs(lines, byLine, adopt, i);
      ClassicRendered(lines, byLine, adopt, target, i + 1);
      var l := if i in byLine then byLine[i] else lines[i];
      var rest := Rendered(lines, byLine, adopt, i + 1);
      ClassicFlipStep(lines[i], l, lines[i + 1..], rest, target);
      if i in adopt {
        ClassicWrapped(adopt[i], l, rest);
      }
    } else {
      assert lines[i..] == [];
      NoClassicSources();
      NoneFlipped(target);
    }
  }

  lemma NoClassicSources()
    ensures ClassicSources([]) == Some([])
  {
  }

  // ------------------------------------------------------------ deb822 files, rewritten

  lemma Deb822Marker(id: nat, tail: string, rest: seq<string>, cur: seq<Field>)
    requires tail == "begin" || tail == "end"
    ensures Sources([MarkerLine(id, tail)] + rest, cur) == Sources(rest, cur)
  {
    MarkerIsComment(id, tail);
    hide Sources; hide MarkerLine; hide Classify;
    SourcesStep(MarkerLine(id, tail), rest, cur);
    NothingBefore(Sources(rest, cur));
  }

  lemma NothingBefore(r: Option<seq<Entry>>)
    ensures After([], r) == r
  {
    if r.Some? {
      assert [] + r.value == r.value;
    }
  }

  lemma Deb822Wrapped(id: nat, l: string, rest: seq<string>, cur: seq<Field>)
    ensures Sources([BeginLine(id), l, EndLine(id)] + rest, cur) == Sources([l] + rest, cur)
  {
    hide Sources; hide MarkerLine; hide BeginLine; hide EndLine; hide ReadLine;
    MarkerForm(id);
    Deb822Marker(id, "begin", [l, EndLine(id)] + rest, cur);
    assert [BeginLine(id), l, EndLine(id)] + rest == [BeginLine(id)] + ([l, EndLine(id)] + rest);
    assert [l, EndLine(id)] + rest == [l] + ([EndLine(id)] + rest);
    SourcesStep(l, [EndLine(id)] + rest, cur);
    SourcesStep(l, rest, cur);
    var step := ReadLine(l, cur, 0, 0);
    if step.Ok? {
      Deb822Marker(id, "end", rest, step.value.1);
    }
  }

  // The stanzas of a file: the field lists its entries are made of.

  /** The stanza a line completes, if any. */
  function Completed(raw: string, cur: seq<Field>): seq<seq<Field>> {
    if Blank(raw) then Pending(cur) else []
  }

  function Pending(cur: seq<Field>): seq<seq<Field>> {
    if cur == [] then [] else [cur]
  }

  /** The stanzas of some lines, the one read so far being `cur`, up to a line that stops the
      parser. */
  function StanzasOf(lines: seq<string>, cur: seq<Field>): seq<seq<Field>>
    decreases |lines|
  {
    if lines == [] then Pending(cur)
    else
      var step := ReadLine(lines[0], cur, 0, 0);
      if step.Err? then [] else Completed(lines[0], cur) + StanzasOf(lines[1..], step.value.1)
  }

  function StanzaEntries(fss: seq<seq<Field>>): (r: seq<Entry>)
    ensures |r| == |fss| && forall i :: 0 <= i < |r| ==> r[i] == StanzaEntry(fss[i])
  {
    seq(|fss|, i requires 0 <= i < |fss| => StanzaEntry(fss[i]))
  }

  /** The entries read from the rewritten stanzas. */
  function SeenEntries(fss: seq<seq<Field>>, target: Scheme): (r: seq<Entry>)
    ensures |r| == |fss| && forall i :: 0 <= i < |r| ==> r[i] == SeenEntry(fss[i], target)
  {
    seq(|fss|, i requires 0 <= i < |fss| => SeenEntry(fss[i], target))
  }

  function SeenAll(r: Option<seq<Entry>>, fss: seq<seq<Field>>, target: Scheme): Option<seq<Entry>> {
    if r.None? then None else Some(SeenEntries(fss, target))
  }

  lemma SeenAppend(a: seq<seq<Field>>, b: seq<seq<Field>>, target: Scheme)
    ensures SeenEntries(a + b, target) == SeenEntries(a, target) + SeenEntries(b, target)
    ensures StanzaEntries(a + b) == StanzaEntries(a) + StanzaEntries(b)
  {
    hide SeenEntry; hide StanzaEntry; hide SeenEntries; hide StanzaEntries;
  }

  lemma FlushFlipped(cur: seq<Field>, cur2: seq<Field>, target: Scheme)
    requires FlippedFields(cur, cur2, target)
    ensures Entries(Flush(cur2, 0)) == SeenAll(Entries(Flush(cur, 0)), Pending(cur), target)
    ensures Flush(cur, 0).Ok? ==> Flush(cur, 0).value == StanzaEntries(Pending(cur))
    ensures |cur| == |cur2|
  {
    hide StanzaProblem; hide StanzaEntry; hide SeenEntry; hide FlippedField;
    if cur != [] {
      StanzaFlipped(cur, cur2, target);
      assert SeenEntries([cur], target) == [SeenEntry(cur, target)];
    }
  }

  predicate ReadsFlipped(a: Result<(seq<Entry>, seq<Field>, nat), ParseError>, b: Result<(seq<Entry>, seq<Field>, nat), ParseError>,
                         done: seq<seq<Field>>, target: Scheme) {
    if a.Err? then b.Err?
    else b.Ok? && b.value.0 == SeenEntries(done, target) && a.value.0 == StanzaEntries(done) && FlippedFields(a.value.1, b.value.1, target)
  }

  lemma ContFlipped(cur: seq<Field>, cur2: seq<Field>, raw: string, target: Scheme)
    requires cur != [] && FlippedFields(cur, cur2, target)
    ensures cur2 != [] && FlippedFields(AddCont(cur, raw), AddCont(cur2, raw), target)
  {
    var f, g := cur[|cur| - 1], cur2[|cur| - 1];
    assert FlippedField(f, g, target);
    assert FlippedField(f.(conts := f.conts + [raw]), g.(conts := g.conts + [raw]), target);
    FlippedFront(cur, cur2, target);
    hide FlippedField;
  }

  lemma UnchangedReads(raw: string, cur: seq<Field>, cur2: seq<Field>, target: Scheme)
    requires FlippedFields(cur, cur2, target) && FlipDeb822Line(raw, target).None?
    ensures ReadsFlipped(ReadLine(raw, cur, 0, 0), ReadLine(raw, cur2, 0, 0), Completed(raw, cur), target)
  {
    ClassifyBlank(raw);
    hide Classify; hide Flush; hide AddCont; hide FlippedField; hide FlipDeb822Line; hide SeenEntry; hide StanzaEntry; hide Blank;
    FlushFlipped(cur, cur2, target);
    match Classify(raw) {
      case ContLine =>
        if cur != [] {
          ContFlipped(cur, cur2, raw, target);
        }
      case FieldLine(f) =>
        UrisStay(raw, target);
      case _ =>
    }
  }

  lemma ClassifyBlank(raw: string)
    ensures Classify(raw).BlankLine? <==> Blank(raw)
  {
    hide MatchField;
  }

  lemma ChangedReads(raw: string, cur: seq<Field>, cur2: seq<Field>, target: Scheme)
    requires FlippedFields(cur, cur2, target) && FlipDeb822Line(raw, target).Some?
    ensures ReadsFlipped(ReadLine(raw, cur, 0, 0), ReadLine(FlipDeb822Line(raw, target).value, cur2, 0, 0), Completed(raw, cur), target)
  {
    ClassifyBlank(raw);
    hide Classify; hide Flush; hide AddCont; hide FlippedField; hide FlipDeb822Line; hide SeenEntry; hide StanzaEntry; hide Blank;
    UrisFlip(raw, target);
  }

  lemma StanzasStep(raw: string, rest: seq<string>, cur: seq<Field>)
    ensures var step := ReadLine(raw, cur, 0, 0);
      StanzasOf([raw] + rest, cur) == if step.Err? then [] else Completed(raw, cur) + StanzasOf(rest, step.value.1)
  {
    hide ReadLine; hide Completed;
    assert ([raw] + rest)[1..] == rest;
  }

  lemma SeenStep(a: seq<Entry>, b: seq<Entry>, done: seq<seq<Field>>, r: Option<seq<Entry>>, rest: seq<seq<Field>>, target: Scheme)
    requires b == SeenEntries(done, target) && a == StanzaEntries(done)
    requires r.Some? ==> r.value == StanzaEntries(rest)
    ensures After(b, SeenAll(r, rest, target)) == SeenAll(After(a, r), done + rest, target)
    ensures After(a, r).Some? ==> After(a, r).value == StanzaEntries(done + rest)
  {
    SeenAppend(done, rest, target);
    hide SeenEntries; hide StanzaEntries;
  }

  /** The rewritten lines read as the entries of the rewritten stanzas, whichever lines were
      wrapped; the original lines read as the entries of the stanzas. */
  lemma {:induction false} Deb822Rendered(lines: seq<string>, byLine: map<nat, string>, adopt: map<nat, nat>, target: Scheme, i: nat,
                                          cur: seq<Field>, cur2: seq<Field>)
    requires i <= |lines| && RowsMatch(lines, byLine, Deb822, target) && FlippedFields(cur, cur2, target)
    ensures Sources(Rendered(lines, byLine, adopt, i), cur2) == SeenAll(Sources(lines[i..], cur), StanzasOf(lines[i..], cur), target)
    ensures Sources(lines[i..], cur).Some? ==> Sources(lines[i..], cur).value == StanzaEntries(StanzasOf(lines[i..], cur))
    decreases |lines| - i
  {
    hide FlippedField; hide FlippedFields; hide Flush; hide BeginLine; hide EndLine; hide ReadLine;
    hide FlipDeb822Line; hide After; hide Sources; hide Group; hide StanzasOf; hide Completed; hide SeenEntries; hide StanzaEntries;
    if i < |lines| {
      var raw := lines[i];
      assert NewLine(raw, Deb822, target) == if i in byLine then Some(byLine[i]) else None;
      var l := if i in byLine then byLine[i] else raw;
      var rest := Rendered(lines, byLine, adopt, i + 1);
      if i in byLine {
        ChangedReads(raw, cur, cur2, target);
      } else {
        UnchangedReads(raw, cur, cur2, target);
      }
      GroupIs(lines, byLine, adopt, i);
      SourcesStep(raw, lines[i + 1..], cur);
      StanzasStep(raw, lines[i + 1..], cur);
      SourcesStep(l, rest, cur2);
      var a, b := ReadLine(raw, cur, 0, 0), ReadLine(l, cur2, 0, 0);
      if a.Ok? {
        Deb822Rendered(lines, byLine, adopt, target, i + 1, a.value.1, b.value.1);
        SeenStep(a.value.0, b.value.0, Completed(raw, cur), Sources(lines[i + 1..], a.value.1), StanzasOf(lines[i + 1..], a.value.1), target);
      }
      if i in adopt {
        Deb822Wrapped(adopt[i], l, rest, cur2);
      }
    } else {
      assert lines[i..] == [];
      FlushFlipped(cur, cur2, target);
      LastStanza(cur);
      LastStanza(cur2);
    }
  }

  lemma LastStanza(cur: seq<Field>)
    ensures Sources([], cur) == Entries(Flush(cur, 0)) && StanzasOf([], cur) == Pending(cur)
  {
    hide Flush;
  }
}
