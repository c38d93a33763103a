/** The conversion gate towards one-line-style files: every source is printed on a line of its own,
    parsed again and compared. */
module AptList {
  import opened Wrappers
  import opened Text
  import opened AptModel
  import AptDeb822
  import AptRoundTrip
  import opened AptClassic
  import opened AptConvert

  /** The gate of the directory converter, target classic: print, parse again, compare. */
  predicate ListAccepts(json: seq<Entry>) {
    match ClassicText(json)
    case Err(_) => false
    case Ok(text) =>
      match ClassicEntries(text)
      case Err(_) => false
      case Ok(again) => SameUnits(json, again)
  }

  // ------------------------------------------------------------------ what is in scope

  /** A printed option with a word that is no assignment. */
  predicate Torn(kv: (string, string)) {
    var part := kv.0 + "=" + kv.1;
    ']' !in part && '\n' !in part && exists i :: 0 <= i < |Words(part, Space)| && '=' !in Words(part, Space)[i]
  }

  /** The options print as one assignment each, or as something that is none: none of them ends
      the bracket or holds further assignments. A trusted flag is not kept beside a trusted text.
      A bracketed uri has a bracket before it. */
  predicate Whole(e: Entry) {
    && (forall i :: 0 <= i < |Carried(e)| ==> OptionOk(Carried(e)[i]) || Torn(Carried(e)[i]))
    && (forall i :: 0 <= i < |Carried(e)| && IsFlag(Carried(e)[i]) ==> !e.trusted)
    && (forall i :: 0 <= i < |e.uris| ==> e.uris[i] != "" && (e.uris[i][0] == '[' ==> BracketParts(e) != []))
  }

  predicate AllWhole(json: seq<Entry>) {
    forall i :: 0 <= i < |json| ==> Whole(json[i])
  }

  // --------------------------------------------------------------- what a line can hold

  /** What the line parser can yield as a unit. */
  predicate UnitHeld(u: SemUnit) {
    && IsToken(u.at.uri) && IsToken(u.at.suite) && AllTokens(u.components)
    && (u.signedBy.Some? ==> Plain(u.signedBy.value)) && ArchPlain(u.architectures)
  }

  lemma {:induction false} UnitsHeld(es: seq<Entry>)
    requires AllLineImage(es)
    ensures forall u :: u in Units(es) ==> UnitHeld(u)
  {
    if es != [] {
      var e := es[0];
      assert LineImage(e);
      var at := Triple(e.types[0], e.uris[0], e.suites[0]);
      assert e.types == [at.kind] && e.uris == [at.uri] && e.suites == [at.suite];
      hide IsToken; hide Triples; hide Plain; hide ArchPlain; hide OptionsRead;
      OneTriple(at);
      assert EntryUnits(e) == [UnitOf(e, at)];
      UnitsHeld(es[1..]);
    }
  }

  lemma {:induction false} SuiteIn(t: string, u: string, suites: seq<string>, j: nat)
    requires j < |suites|
    ensures Triple(t, u, suites[j]) in SuiteTriples(t, u, suites)
  {
    if j > 0 {
      SuiteIn(t, u, suites[1..], j - 1);
    }
  }

  lemma {:induction false} UriIn(t: string, uris: seq<string>, suites: seq<string>, i: nat, j: nat)
    requires i < |uris| && j < |suites|
    ensures Triple(t, uris[i], suites[j]) in UriTriples(t, uris, suites)
  {
    hide SuiteTriples;
    if i > 0 {
      UriIn(t, uris[1..], suites, i - 1, j);
    } else {
      SuiteIn(t, uris[0], suites, j);
    }
  }

  lemma UnitAt(e: Entry, i: nat, j: nat)
    requires e.types != [] && i < |e.uris| && j < |e.suites|
    ensures UnitOf(e, Triple(e.types[0], e.uris[i], e.suites[j])) in EntryUnits(e)
  {
    hide UriTriples;
    UriIn(e.types[0], e.uris, e.suites, i, j);
    var ats := Triples(e.types, e.uris, e.suites);
    assert Triple(e.types[0], e.uris[i], e.suites[j]) in ats;
    hide Triples;
    var k :| 0 <= k < |ats| && ats[k] == Triple(e.types[0], e.uris[i], e.suites[j]);
    assert UnitsAt(e, ats)[k] == UnitOf(e, ats[k]);
  }

  /** An entry of which every unit can stand on a line. */
  predicate Held(e: Entry) {
    && Valid(e) && AllTokens(e.uris) && AllTokens(e.suites) && AllTokens(e.components)
    && (e.signedBy.Some? ==> Plain(e.signedBy.value)) && ArchPlain(e.architectures)
  }

  lemma EntryHeld(e: Entry)
    requires Valid(e) && forall u :: u in EntryUnits(e) ==> UnitHeld(u)
    ensures Held(e)
  {
    hide EntryUnits; hide IsToken; hide Plain; hide ArchPlain; hide IsType;
    UnitAt(e, 0, 0);
    forall i | 0 <= i < |e.uris| ensures IsToken(e.uris[i]) {
      UnitAt(e, i, 0);
    }
    forall j | 0 <= j < |e.suites| ensures IsToken(e.suites[j]) {
      UnitAt(e, 0, j);
    }
  }

  lemma {:induction false} PrintedValid(json: seq<Entry>, index: nat)
    requires ClassicLines(json, index).Ok?
    ensures forall i :: 0 <= i < |json| ==> Valid(json[i])
    decreases |json|
  {
    hide Valid; hide LinesAt; hide Triples; hide Validate;
    if json != [] {
      ValidateExact(json[0], index);
      PrintedValid(json[1..], index + 1);
    }
  }

  /** Entries that come through the gate can stand on lines. */
  lemma AcceptedHeld(json: seq<Entry>, k: nat)
    requires ListAccepts(json) && k < |json|
    ensures Held(json[k])
  {
    hide ClassicLines; hide ClassicEntries; hide Units; hide EntryUnits; hide UnitHeld; hide Held; hide Valid; hide Join; hide LineImage;
    PrintedValid(json, 0);
    var again := ClassicEntries(ClassicText(json).value).value;
    ClassicImage(ClassicText(json).value);
    UnitsHeld(again);
    forall u | u in EntryUnits(json[k]) ensures UnitHeld(u) {
      UnitInside(json, k, u);
      assert u in multiset(Units(json));
    }
    EntryHeld(json[k]);
  }

  // ------------------------------------------------------------------------ torn options

  lemma {:induction false} WordsSpaced(a: string, b: string)
    ensures Words(a + (" " + b), Space) == Words(a, Space) + Words(b, Space)
    decreases |a|
  {
    if a == "" {
      assert a + (" " + b) == " " + b && (" " + b)[1..] == b;
    } else if IsSpace(a[0]) {
      assert (a + (" " + b))[1..] == a[1..] + (" " + b);
      WordsSpaced(a[1..], b);
    } else {
      var n := Run(a, Space);
      assert a + (" " + b) == a[..n] + (a[n..] + (" " + b));
      WordsStep(a[..n], a[n..] + (" " + b), Space);
      WordsSpaced(a[n..], b);
    }
  }

  lemma {:induction false} PartWords(parts: seq<string>, i: nat, w: string)
    requires i < |parts| && w in Words(parts[i], Space)
    ensures w in Words(Join(parts, " "), Space)
    decreases |parts|
  {
    hide Words;
    if |parts| > 1 {
      WordsSpaced(parts[0], Join(parts[1..], " "));
      assert Join(parts, " ") == parts[0] + (" " + Join(parts[1..], " "));
      if i > 0 {
        PartWords(parts[1..], i - 1, w);
      }
    }
  }

  lemma InnerWords(parts: seq<string>, i: nat, w: string)
    requires i < |parts| && w in Words(parts[i], Space)
    ensures w in Words(" " + Join(parts, " ") + " ", Space)
  {
    hide Join; hide Words;
    PartWords(parts, i, w);
    PaddedSame(Join(parts, " "));
  }

  lemma PaddedSame(s: string)
    ensures Words(" " + s + " ", Space) == Words(s, Space)
  {
    assert Words("", Space) == [];
    hide Words;
    WordsSpaced(s, "");
    WordsSpaced("", s + " ");
    assert "" + (" " + (s + " ")) == " " + s + " ";
    assert s + (" " + "") == s + " ";
  }

  lemma {:induction false} NoAssignment(b: Bracket, parts: seq<string>, w: string)
    requires w in parts && '=' !in w
    ensures ApplyOptions(b, parts).Err?
    decreases |parts|
  {
    if parts[0] == w {
      FindIs(w, '=', |w|);
    } else {
      hide ApplyOption;
      assert parts == [parts[0]] + parts[1..];
      if ApplyOption(b, parts[0]).Some? {
        NoAssignment(ApplyOption(b, parts[0]).value, parts[1..], w);
      }
    }
  }

  lemma {:induction false} OptionPart(r: Record, i: nat)
    requires i < |r|
    ensures |OptionParts(r)| == |r| && OptionParts(r)[i] == r[i].0 + "=" + r[i].1
  {
    if i > 0 {
      OptionPart(r[1..], i - 1);
    } else if |r| > 1 {
      OptionPart(r[1..], 0);
    }
  }

  lemma CarriedPart(e: Entry, i: nat) returns (j: nat)
    requires i < |Carried(e)|
    ensures j < |BracketParts(e)| && BracketParts(e)[j] == Carried(e)[i].0 + "=" + Carried(e)[i].1
  {
    hide Carried; hide OptionParts; hide SignedByParts; hide ArchParts; hide TrustedParts;
    BracketPartsAre(e);
    OptionPart(Carried(e), i);
    j := |SignedByParts(e) + ArchParts(e) + TrustedParts(e)| + i;
  }

  /** A line with a torn option cannot be read. */
  lemma TornLine(e: Entry, at: Triple, i: nat)
    requires TripleOk(e, at) && AllTokens(e.components) && Closed(BracketParts(e))
    requires i < |Carried(e)| && Torn(Carried(e)[i])
    ensures ParseClassicLine(ClassicLine(e, at)).Err?
  {
    hide ParseClassicLine; hide ClassicLine; hide BracketParts; hide Carried; hide Closed; hide AllTokens; hide Words; hide ApplyOptions;
    hide Inner; hide Join; hide IsToken;
    LineActive(e, at);
    var j := CarriedPart(e, i);
    var parts := BracketParts(e);
    var words := Words(parts[j], Space);
    var k :| 0 <= k < |words| && '=' !in words[k];
    InnerWords(parts, j, words[k]);
    BracketCloses(parts);
    NoAssignment(NO_BRACKET, Words(Inner(ClassicBracket(e)), Space), words[k]);
  }

  // ------------------------------------------------------------------------- whole texts

  lemma ClosedAppend(a: seq<string>, b: seq<string>)
    requires Closed(a) && Closed(b)
    ensures Closed(a + b)
  {
  }

  lemma OptionsClosed(e: Entry)
    requires forall i :: 0 <= i < |Carried(e)| ==> OptionOk(Carried(e)[i]) || Torn(Carried(e)[i])
    ensures Closed(OptionParts(Carried(e)))
  {
    hide Carried; hide OptionParts; hide Words;
    var r := Carried(e);
    if r != [] {
      OptionPart(r, 0);
    } else {
      NoParts();
    }
    forall i | 0 <= i < |r| ensures ']' !in OptionParts(r)[i] && '\n' !in OptionParts(r)[i] {
      OptionPart(r, i);
      if OptionOk(r[i]) {
        PlainOption(r[i].0, r[i].1);
      }
    }
  }

  lemma NoParts()
    ensures OptionParts([]) == []
  {
  }

  lemma SignedClosed(e: Entry)
    requires e.signedBy.Some? ==> Plain(e.signedBy.value)
    ensures Closed(SignedByParts(e))
  {
    if e.signedBy.Some? {
      var v := e.signedBy.value;
      assert '\n' !in v;
      WordsWithout(v, SpaceComma, ']');
      WordsWithout(v, SpaceComma, '\n');
      hide Words;
      JoinWithout(Words(v, SpaceComma), ",", ']');
      JoinWithout(Words(v, SpaceComma), ",", '\n');
    }
  }

  lemma HeadClosed(e: Entry)
    requires Held(e)
    ensures Closed(SignedByParts(e)) && Closed(ArchParts(e)) && Closed(TrustedParts(e))
  {
    SignedClosed(e);
    hide SignedByParts; hide Valid; hide IsToken;
    if e.architectures.Some? {
      CommaJoin(e.architectures.value);
      hide Join;
      var v := Join(e.architectures.value, ",");
      assert '\n' !in v;
    }
  }

  lemma HeldClosed(e: Entry)
    requires Held(e) && Whole(e)
    ensures Closed(BracketParts(e))
  {
    BracketPartsAre(e);
    HeadClosed(e);
    OptionsClosed(e);
    hide Held; hide Whole; hide BracketParts; hide SignedByParts; hide ArchParts; hide TrustedParts; hide OptionParts; hide Carried; hide Closed;
    ClosedAppend(SignedByParts(e), ArchParts(e));
    ClosedAppend(SignedByParts(e) + ArchParts(e), TrustedParts(e));
    ClosedAppend(SignedByParts(e) + ArchParts(e) + TrustedParts(e), OptionParts(Carried(e)));
  }

  lemma HeldTriples(e: Entry)
    requires Held(e) && Whole(e)
    ensures TriplesOk(e, Triples(e.types, e.uris, e.suites))
  {
    hide IsToken; hide BracketParts; hide Carried; hide OptionOk; hide Torn; hide Triples; hide TriplesOk;
    AllTriplesOk(e, e.types, e.uris, e.suites);
  }

  lemma {:induction false} EntryLinesClean(e: Entry, ats: seq<Triple>)
    requires TriplesOk(e, ats) && AllTokens(e.components) && Closed(BracketParts(e))
    ensures CleanLines(LinesAt(e, ats))
  {
    hide ClassicLine; hide TripleOk; hide AllTokens; hide BracketParts; hide Closed;
    forall i | 0 <= i < |ats| ensures '\n' !in LinesAt(e, ats)[i] {
      LineClean(e, ats[i]);
    }
  }

  lemma {:induction false} AllClean(json: seq<Entry>, index: nat)
    requires ClassicLines(json, index).Ok? && forall i :: 0 <= i < |json| ==> Held(json[i]) && Whole(json[i])
    ensures CleanLines(ClassicLines(json, index).value)
    decreases |json|
  {
    hide LinesAt; hide Triples; hide Validate; hide Held; hide Whole; hide CleanLines;
    if json == [] {
      NoLines(index, 0);
    } else {
      AllClean(json[1..], index + 1);
      var e := json[0];
      EntryClean(e);
      CleanAppend(LinesAt(e, Triples(e.types, e.uris, e.suites)), ClassicLines(json[1..], index + 1).value);
    }
  }

  lemma EntryClean(e: Entry)
    requires Held(e) && Whole(e)
    ensures CleanLines(LinesAt(e, Triples(e.types, e.uris, e.suites)))
  {
    hide Whole; hide LinesAt; hide Triples; hide Closed; hide TriplesOk; hide BracketParts;
    HeldClosed(e);
    HeldTriples(e);
    EntryLinesClean(e, Triples(e.types, e.uris, e.suites));
  }

  lemma {:induction false} LineIn(json: seq<Entry>, index: nat, k: nat, line: string)
    requires ClassicLines(json, index).Ok? && k < |json| && line in LinesAt(json[k], Triples(json[k].types, json[k].uris, json[k].suites))
    ensures line in ClassicLines(json, index).value
    decreases |json|
  {
    hide LinesAt; hide Triples; hide Validate;
    if k > 0 {
      LineIn(json[1..], index + 1, k - 1, line);
    }
  }

  lemma {:induction false} OneUnread(lines: seq<string>, n: nat, line: string)
    requires line in lines && ParseClassicLine(line).Err?
    ensures ParseClassicLines(lines, n).Err?
    decreases |lines|
  {
    hide ParseClassicLine;
    if lines[0] != line {
      assert lines == [lines[0]] + lines[1..];
      OneUnread(lines[1..], n + 1, line);
    }
  }

  lemma UnreadText(json: seq<Entry>, line: string)
    requires ClassicLines(json, 0).Ok? && CleanLines(ClassicLines(json, 0).value)
    requires line in ClassicLines(json, 0).value && ParseClassicLine(line).Err?
    ensures !ListAccepts(json)
  {
    hide ClassicLines; hide ParseClassicLine; hide ParseClassicLines; hide Join; hide Split; hide CleanLines; hide SameUnits;
    var lines := ClassicLines(json, 0).value;
    LinesOfText(lines);
    OneUnread(lines + [""], 1, line);
  }

  /** Options of several words are refused, such as more than one language. */
  lemma TornRefused(json: seq<Entry>, k: nat, i: nat)
    requires AllWhole(json) && k < |json| && i < |Carried(json[k])| && Torn(Carried(json[k])[i])
    ensures !ListAccepts(json)
  {
    hide ClassicLines; hide Whole; hide Held; hide Carried; hide Torn; hide ParseClassicLine; hide ClassicEntries; hide SameUnits; hide CleanLines;
    if ListAccepts(json) {
      forall m | 0 <= m < |json| ensures Held(json[m]) && Whole(json[m]) {
        AcceptedHeld(json, m);
      }
      AllClean(json, 0);
      var line := FirstLine(json[k], i);
      LineIn(json, 0, k, line);
      UnreadText(json, line);
    }
  }

  lemma FirstLine(e: Entry, i: nat) returns (line: string)
    requires Held(e) && Whole(e) && i < |Carried(e)| && Torn(Carried(e)[i])
    ensures line in LinesAt(e, Triples(e.types, e.uris, e.suites)) && ParseClassicLine(line).Err?
  {
    hide Whole; hide Carried; hide Torn; hide ParseClassicLine; hide ClassicLine; hide IsToken; hide Closed; hide BracketParts; hide EntryUnits;
    HeldClosed(e);
    HeldTriples(e);
    var ats := Triples(e.types, e.uris, e.suites);
    UnitAt(e, 0, 0);
    SomeTriple(e);
    hide Triples;
    TornLine(e, ats[0], i);
    line := ClassicLine(e, ats[0]);
    assert LinesAt(e, ats)[0] == line;
  }

  lemma SomeTriple(e: Entry)
    requires Valid(e)
    ensures Triples(e.types, e.uris, e.suites) != []
  {
  }

  // ---------------------------------------------------------------------- the signature

  /** The entry with its keyring paths joined by single commas, as a bracket prints them. */
  function Norm(e: Entry): Entry {
    if e.signedBy.Some? then e.(signedBy := Some(Join(Words(e.signedBy.value, SpaceComma), ","))) else e
  }

  function NormAll(json: seq<Entry>): (r: seq<Entry>)
    ensures |r| == |json| && forall i :: 0 <= i < |r| ==> r[i] == Norm(json[i])
  {
    seq(|json|, i requires 0 <= i < |json| => Norm(json[i]))
  }

  lemma NormSigned(v: string)
    requires Plain(v)
    ensures var n := Join(Words(v, SpaceComma), ","); '\n' !in n && '\n' !in v && ']' !in n && Words(n, SpaceComma) == Words(v, SpaceComma)
  {
    WordsWithout(v, SpaceComma, ']');
    assert '\n' !in v;
    WordsWithout(v, SpaceComma, '\n');
    WordsOfJoin(Words(v, SpaceComma), ',', SpaceComma);
    hide Words;
    JoinWithout(Words(v, SpaceComma), ",", ']');
    JoinWithout(Words(v, SpaceComma), ",", '\n');
  }

  lemma NormPrints(e: Entry)
    requires e.signedBy.Some? ==> Plain(e.signedBy.value)
    ensures BracketParts(Norm(e)) == BracketParts(e) && SignedPlain(Norm(e).signedBy)
  {
    hide Words; hide Join; hide OptionParts; hide AliasedFields;
    if e.signedBy.Some? {
      NormSigned(e.signedBy.value);
    }
  }

  lemma {:induction false} NormLines(e: Entry, ats: seq<Triple>)
    requires Held(e)
    ensures LinesAt(Norm(e), ats) == LinesAt(e, ats)
  {
    hide BracketParts; hide Words; hide Join; hide NonEmpty;
    NormPrints(e);
    forall i | 0 <= i < |ats| ensures ClassicLine(Norm(e), ats[i]) == ClassicLine(e, ats[i]) {
    }
    hide ClassicLine; hide Norm;
    assert forall i :: 0 <= i < |ats| ==> LinesAt(Norm(e), ats)[i] == LinesAt(e, ats)[i];
  }

  lemma {:induction false} NormText(json: seq<Entry>, index: nat)
    requires forall i :: 0 <= i < |json| ==> Held(json[i])
    ensures ClassicLines(NormAll(json), index) == ClassicLines(json, index)
    decreases |json|
  {
    hide LinesAt; hide Triples; hide Held;
    if json != [] {
      assert NormAll(json)[1..] == NormAll(json[1..]);
      hide NormAll;
      var e := json[0];
      NormText(json[1..], index + 1);
      NormLines(e, Triples(e.types, e.uris, e.suites));
      assert Validate(Norm(e), index) == Validate(e, index);
    }
  }

  lemma NormOk(e: Entry)
    requires Held(e) && Whole(e) && AllOptionsOk(Carried(e))
    ensures Readable(Norm(e))
  {
    hide BracketParts; hide IsToken; hide OptionOk; hide Torn; hide Words; hide Join; hide AliasedFields; hide SignedPlain;
    NormPrints(e);
    assert Carried(Norm(e)) == Carried(e);
  }

  lemma {:induction false} SignedUnits(json: seq<Entry>)
    requires forall i :: 0 <= i < |json| ==> SignedPlain(json[i].signedBy)
    ensures forall u :: u in Units(json) ==> SignedPlain(u.signedBy)
  {
    hide SignedPlain; hide Triples;
    if json != [] {
      SignedUnits(json[1..]);
      forall u | u in EntryUnits(json[0]) ensures SignedPlain(u.signedBy) {
        var i :| 0 <= i < |EntryUnits(json[0])| && EntryUnits(json[0])[i] == u;
      }
    }
  }

  /** Keyring paths that are not joined by single commas come back as another value. */
  lemma SignedRefused(json: seq<Entry>, k: nat)
    requires k < |json| && ListAccepts(json) && forall i :: 0 <= i < |json| ==> Whole(json[i]) && AllOptionsOk(Carried(json[i]))
    ensures SignedPlain(json[k].signedBy)
  {
    hide ClassicLines; hide Whole; hide Held; hide Carried; hide AllOptionsOk; hide ClassicEntries; hide Readable; hide Units; hide EntryUnits;
    hide Expand; hide Norm; hide SignedPlain; hide Join; hide Valid; hide Carry; hide SaidAll;
    forall i | 0 <= i < |json| ensures Held(json[i]) && Readable(Norm(json[i])) {
      AcceptedHeld(json, i);
      NormOk(json[i]);
    }
    NormText(json, 0);
    var other := NormAll(json);
    LinesRead(other);
    ExpandUnits(other);
    ReadableSigned(other);
    SignedUnits(SaidAll(other));
    HeldUnit(json[k]);
    var u :| u in EntryUnits(json[k]) && u.signedBy == json[k].signedBy;
    UnitInside(json, k, u);
    assert u in multiset(Units(json)) && multiset(Units(json)) == multiset(Units(SaidAll(other)));
  }

  lemma ReadableSigned(json: seq<Entry>)
    requires forall i :: 0 <= i < |json| ==> Readable(json[i])
    ensures forall i :: 0 <= i < |json| ==> SignedPlain(json[i].signedBy)
  {
    hide Valid; hide ArchPlain; hide SignedPlain; hide AllOptionsOk; hide Carried; hide AllTokens; hide BracketParts;
  }

  lemma HeldUnit(e: Entry)
    requires Held(e)
    ensures exists u :: u in EntryUnits(e) && u.signedBy == e.signedBy
  {
    hide EntryUnits; hide IsToken; hide Plain; hide ArchPlain;
    UnitAt(e, 0, 0);
    assert UnitOf(e, Triple(e.types[0], e.uris[0], e.suites[0])).signedBy == e.signedBy;
  }

  // ------------------------------------------------------------------ the trusted flag

  /** How many units are trusted. */
  function Trusting(us: seq<SemUnit>): nat {
    if us == [] then 0 else (if us[0].trusted then 1 else 0) + Trusting(us[1..])
  }

  lemma {:induction false} TrustingAppend(a: seq<SemUnit>, b: seq<SemUnit>)
    ensures Trusting(a + b) == Trusting(a) + Trusting(b)
  {
    if a == [] {
      assert a + b == b;
    } else {
      assert (a + b)[1..] == a[1..] + b;
      TrustingAppend(a[1..], b);
    }
  }

  lemma {:induction false} TrustingSame(a: seq<SemUnit>, b: seq<SemUnit>)
    requires multiset(a) == multiset(b)
    ensures Trusting(a) == Trusting(b)
    decreases |a|
  {
    if a == [] {
      assert |multiset(b)| == 0;
    } else {
      assert a == [a[0]] + a[1..];
      assert a[0] in multiset(b);
      var j :| 0 <= j < |b| && b[j] == a[0];
      TakeOut(a, 0);
      TakeOut(b, j);
      assert a[..0] + a[1..] == a[1..];
      TrustingSame(a[1..], b[..j] + b[j + 1..]);
      TrustingWithout(b, j);
    }
  }

  lemma TakeOut<T>(s: seq<T>, j: nat)
    requires j < |s|
    ensures multiset(s[..j] + s[j + 1..]) == multiset(s) - multiset{s[j]}
  {
    assert s == s[..j] + ([s[j]] + s[j + 1..]);
  }

  lemma TrustingWithout(us: seq<SemUnit>, j: nat)
    requires j < |us|
    ensures Trusting(us) == (if us[j].trusted then 1 else 0) + Trusting(us[..j] + us[j + 1..])
  {
    var front, back := us[..j], us[j + 1..];
    TrustingCons(us[j], back);
    hide Trusting;
    assert us == front + ([us[j]] + back);
    TrustingAppend(front, [us[j]] + back);
    TrustingAppend(front, back);
  }

  lemma TrustingCons(u: SemUnit, rest: seq<SemUnit>)
    ensures Trusting([u] + rest) == (if u.trusted then 1 else 0) + Trusting(rest)
  {
    assert ([u] + rest)[1..] == rest;
  }

  lemma {:induction false} TrustingAt(e: Entry, ats: seq<Triple>)
    ensures Trusting(UnitsAt(e, ats)) == if e.trusted then |ats| else 0
  {
    if ats != [] {
      TrustingAt(e, ats[1..]);
      assert UnitsAt(e, ats)[1..] == UnitsAt(e, ats[1..]);
    }
  }

  /** Lines only add trust; the trusted units are as many only when no line adds any. */
  lemma {:induction false} TrustGrows(json: seq<Entry>)
    requires forall i :: 0 <= i < |json| ==> Valid(json[i]) && (json[i].trusted ==> Said(json[i]).trusted)
    ensures Trusting(Units(json)) <= Trusting(Units(SaidAll(json)))
    ensures Trusting(Units(json)) == Trusting(Units(SaidAll(json))) ==> forall i :: 0 <= i < |json| ==> Said(json[i]) == json[i]
  {
    hide Carry; hide Valid; hide Triples;
    if json != [] {
      var e, rest := json[0], json[1..];
      assert forall i :: 0 <= i < |rest| ==> rest[i] == json[i + 1];
      TrustGrows(rest);
      assert SaidAll(json)[1..] == SaidAll(rest);
      var ats := Triples(e.types, e.uris, e.suites);
      TrustingAt(e, ats);
      TrustingAt(Said(e), ats);
      TrustingAppend(EntryUnits(e), Units(rest));
      TrustingAppend(EntryUnits(Said(e)), Units(SaidAll(rest)));
      SomeTriple(e);
    }
  }

  lemma {:induction false} NoFlags(b: Bracket, r: Record)
    requires forall i :: 0 <= i < |r| ==> !IsFlag(r[i])
    ensures AssignAll(b, r).trusted == b.trusted
    decreases |r|
  {
    if r != [] {
      assert !IsFlag(r[0]);
      hide IsFlag; hide Assign;
      forall i | 0 <= i < |r| - 1 ensures !IsFlag(r[1..][i]) {
        assert r[1..][i] == r[i + 1];
      }
      NoFlags(AssignOne(b, r[0]), r[1..]);
    }
  }

  lemma TrustStays(e: Entry)
    requires Whole(e) && e.trusted
    ensures Said(e).trusted
  {
    hide Carried; hide OptionOk; hide Torn; hide BracketParts;
    NoFlags(Bracket(e.signedBy, e.architectures, e.trusted, []), Carried(e));
  }

  /** A trusted text that a bracket takes for the flag comes back as another unit. */
  lemma TrustRefused(json: seq<Entry>)
    requires AllWhole(json) && ListAccepts(json) && forall i :: 0 <= i < |json| ==> Readable(json[i])
    ensures forall i :: 0 <= i < |json| ==> ClassicOk(json[i])
  {
    hide ClassicText; hide ClassicEntries; hide Whole; hide Units; hide Expand; hide SaidAll; hide Carry; hide Valid; hide BracketOk;
    hide AllTokens; hide BracketParts;
    LinesRead(json);
    ExpandUnits(json);
    TrustingSame(Units(json), Units(SaidAll(json)));
    forall i | 0 <= i < |json| && json[i].trusted ensures Said(json[i]).trusted {
      TrustStays(json[i]);
    }
    TrustGrows(json);
    forall i | 0 <= i < |json| ensures Carry(json[i]).trusted == json[i].trusted {
      assert Said(json[i]) == json[i];
    }
  }

  // ---------------------------------------------------------------------------- the gate

  /** The gate opens exactly when classic syntax can express every entry: supported types, tokens
      that start no comment and close their brackets, keyring paths joined by single commas, one
      assignment per option, and no text that a bracket takes for another trusted flag. */
  lemma ListGateExactly(json: seq<Entry>)
    requires AllWhole(json)
    ensures ListAccepts(json) <==> forall i :: 0 <= i < |json| ==> ClassicOk(json[i])
  {
    hide ClassicText; hide ClassicEntries; hide ClassicOk; hide Readable; hide Whole; hide Carried; hide Torn; hide OptionOk; hide Held; hide Expand; hide Units;
    if forall i :: 0 <= i < |json| ==> ClassicOk(json[i]) {
      ClassicRoundTrip(json);
    } else if ListAccepts(json) {
      forall k | 0 <= k < |json| ensures AllOptionsOk(Carried(json[k])) {
        WholeOptions(json, k);
      }
      forall k | 0 <= k < |json| ensures Readable(json[k]) {
        AcceptedHeld(json, k);
        SignedRefused(json, k);
        HeldReadable(json[k]);
      }
      TrustRefused(json);
    }
  }

  lemma WholeOptions(json: seq<Entry>, k: nat)
    requires AllWhole(json) && k < |json| && ListAccepts(json)
    ensures AllOptionsOk(Carried(json[k]))
  {
    hide ListAccepts; hide Carried; hide Torn; hide OptionOk; hide BracketParts;
    var r := Carried(json[k]);
    assert Whole(json[k]);
    forall i | 0 <= i < |r| ensures OptionOk(r[i]) {
      if !OptionOk(r[i]) {
        TornRefused(json, k, i);
      }
    }
  }

  lemma HeldReadable(e: Entry)
    requires Held(e) && Whole(e) && AllOptionsOk(Carried(e)) && SignedPlain(e.signedBy)
    ensures Readable(e)
  {
    hide BracketParts; hide IsToken; hide OptionOk; hide Torn; hide Words; hide Join; hide AliasedFields; hide SignedPlain; hide Carried;
  }

  /** A stanza with two languages: deb822 files hold it and read it back, towards classic syntax
      it is printed as two bracket words and refused. */
  lemma TwoLanguages(uri: string)
    requires Word(uri, SpaceComma)
    ensures var json := [Entry(["deb"], [uri], ["s"], [], None, None, false, true, [], [("Languages", "en de")])];
      Deb822Text(json).Ok? && Deb822Entries(Deb822Text(json).value) == Ok(json) && !ListAccepts(json)
  {
    hide Deb822Text; hide Deb822Entries; hide ListAccepts; hide Torn; hide Carried;
    var e := Entry(["deb"], [uri], ["s"], [], None, None, false, true, [], [("Languages", "en de")]);
    LanguagesPrint(e);
    AptRoundTrip.Deb822RoundTrip([e]);
    LanguagesTorn(e);
    TornRefused([e], 0, 0);
  }

  /** A stanza with `Trusted: 1`: deb822 keeps the text beside a flag that is not set, a bracket
      reads it as the flag, and the gate towards classic refuses it. */
  lemma TrustedOne(uri: string)
    requires Word(uri, SpaceComma)
    ensures var json := [Entry(["deb"], [uri], ["s"], [], None, None, false, true, [("trusted", "1")], [])];
      Deb822Text(json).Ok? && Deb822Entries(Deb822Text(json).value) == Ok(json) && !ListAccepts(json)
  {
    hide Deb822Text; hide Deb822Entries; hide ListAccepts; hide Carried; hide Readable; hide Carry; hide Whole;
    var e := Entry(["deb"], [uri], ["s"], [], None, None, false, true, [("trusted", "1")], []);
    TrustedPrints(e);
    AptRoundTrip.Deb822RoundTrip([e]);
    TrustedReads(e);
    ListGateExactly([e]);
    assert [e][0] == e;
  }

  lemma TrustedPrints(e: Entry)
    requires Valid(e) && AllWords(e.uris, SpaceComma) && AllWords(e.suites, SpaceComma) && e.components == [] && e.architectures.None?
    requires e.signedBy.None? && e.options == [("trusted", "1")] && e.fields == [] && !e.trusted
    ensures AptRoundTrip.Expressible(e)
  {
    hide Valid;
    assert AptDeb822.BlobOk("1");
  }

  lemma OneAssigned(b: Bracket, kv: (string, string))
    ensures AssignAll(b, [kv]) == AssignOne(b, kv)
  {
    hide AssignOne;
    assert [kv][1..] == [] && [kv][0] == kv;
  }

  lemma TrustedReads(e: Entry)
    requires e.options == [("trusted", "1")] && e.fields == [] && !e.trusted && |e.uris| == 1 && e.uris[0] != ""
    ensures Whole(e) && Carry(e).trusted
  {
    hide BracketParts; hide Torn;
    assert Carried(e) == [("trusted", "1")];
    hide Carried;
    var kv, b := ("trusted", "1"), Bracket(e.signedBy, e.architectures, e.trusted, []);
    assert IsFlag(kv) && IsYes("1");
    OneAssigned(b, kv);
    OptionParted(e);
  }

  lemma LanguagesPrint(e: Entry)
    requires Valid(e) && AllWords(e.uris, SpaceComma) && AllWords(e.suites, SpaceComma) && e.components == [] && e.architectures.None?
    requires e.signedBy.None? && e.options == [] && e.fields == [("Languages", "en de")]
    ensures AptRoundTrip.Expressible(e)
  {
    LanguagesField();
    hide AptDeb822.FieldOk; hide Valid;
  }

  lemma LanguagesField()
    ensures AptDeb822.FieldOk(("Languages", "en de"))
  {
    hide AptDeb822.ValueOk; hide Lower; hide AptDeb822.IsKey;
    LanguagesName();
    LanguagesValue();
  }

  lemma LanguagesName()
    ensures AptDeb822.IsKey("Languages") && !IsKnown("Languages")
  {
    hide Lower;
    LowerLanguages();
  }

  lemma LanguagesValue()
    ensures AptDeb822.ValueOk("en de")
  {
    hide Split;
    SplitWhole("en de", '\n');
  }

  lemma LanguagesTorn(e: Entry)
    requires e.options == [] && e.fields == [("Languages", "en de")] && |e.uris| == 1 && e.uris[0] != ""
    ensures |Carried(e)| == 1 && Torn(Carried(e)[0]) && Whole(e)
  {
    hide Carried; hide Torn; hide BracketParts;
    LanguagesOption(e);
    TwoWords();
    OptionParted(e);
  }

  lemma TwoWords()
    ensures Torn(("lang", "en de"))
  {
    hide Words;
    var part := "lang" + "=" + "en de";
    assert part == "lang=en" + (" " + "de");
    assert "lang=en" == Join(["lang=en"], " ") && "de" == Join(["de"], " ");
    WordsSpaced("lang=en", "de");
    WordsOfJoin(["lang=en"], ' ', Space);
    WordsOfJoin(["de"], ' ', Space);
    assert Words(part, Space)[1] == "de";
  }

  lemma LanguagesOption(e: Entry)
    requires e.options == [] && e.fields == [("Languages", "en de")]
    ensures Carried(e) == [("lang", "en de")]
  {
    LowerLanguages();
    hide Lower;
    assert e.fields[1..] == [];
    assert AliasedFields(e.fields) == [("lang", "en de")] + [];
  }

  lemma LowerLanguages()
    ensures Lower("Languages") == "languages"
  {
    var l := Lower("Languages");
    hide Lower;
    forall i | 0 <= i < 9 ensures l[i] == "languages"[i] {
    }
  }

  lemma OptionParted(e: Entry)
    requires |Carried(e)| == 1
    ensures BracketParts(e) != []
  {
    hide Carried; hide BracketParts;
    var j := CarriedPart(e, 0);
  }
}
