/** The surgical rewrite of a whole file: what both parsers read afterwards, and why the
    verification step of the tool accepts it. */
module AptSurgery {
  import opened Wrappers
  import opened Text
  import opened AptModel
  import opened AptDeb822
  import opened AptStanza
  import opened AptScheme
  import opened AptFlip

  // ---------------------------------------------------------------- URIs: rows

  /** A field and its rewritten form: only a field spelled `URIs` is rewritten. */
  predicate FlippedField(f: Field, g: Field, target: Scheme) {
    && g.key == f.key && g.conts == f.conts
    && (if f.key == "URIs" then Words(g.first, SpaceComma) == FlipOrAll(Words(f.first, SpaceComma), target)
        else g.first == f.first)
  }

  predicate FlippedFields(fs: seq<Field>, gs: seq<Field>, target: Scheme) {
    |fs| == |gs| && forall i :: 0 <= i < |fs| ==> FlippedField(fs[i], gs[i], target)
  }

  lemma UrisLine(raw: string)
    requires StartsWith(raw, "URIs:") && OneLine(raw[5..])
    ensures Classify(raw) == FieldLine(Field("URIs", DropOneBlank(raw[5..]), []))
  {
    var key := "URIs";
    var rest := raw[5..];
    assert raw == key + (":" + rest);
    assert IsKey(key);
    hide OneLine;
    KeyLengthIs(key, ":" + rest);
    assert raw[..4] == key && raw[4 + 1..] == rest && raw[0] == 'U';
  }

  lemma {:induction false} FlippedWords(vals: seq<string>, target: Scheme)
    requires AllWords(vals, SpaceComma)
    ensures AllWords(FlipOrAll(vals, target), SpaceComma)
  {
    forall i | 0 <= i < |vals| ensures Word(FlipOrAll(vals, target)[i], SpaceComma) {
      FlipOrFacts(vals[i], target);
    }
  }

  /** The printed row of some values, read back. */
  lemma UrisPrinted(vals: seq<string>)
    requires AllWords(vals, SpaceComma)
    ensures var l := "URIs: " + Join(vals, " ");
      StartsWith(l, "URIs:") && OneLine(l[5..]) && DropOneBlank(l[5..]) == Join(vals, " ") && MarkOf(l) == NoMark
    ensures Words(Join(vals, " "), SpaceComma) == vals
  {
    hide Words; hide Join;
    var joined := Join(vals, " ");
    JoinOneLine(vals);
    WordsOfJoin(vals, ' ', SpaceComma);
    var l := "URIs: " + joined;
    assert l[5..] == " " + joined && (" " + joined)[1..] == joined;
    assert forall i :: 0 <= i < |joined| ==> (" " + joined)[i + 1] == joined[i];
    assert l[..5] == "URIs:" && l[0] == 'U';
  }

  lemma FlipLineParts(raw: string, target: Scheme)
    requires FlipDeb822Line(raw, target).Some?
    ensures StartsWith(raw, "URIs:") && OneLine(raw[5..])
    ensures var vals := FlipOrAll(Words(DropOneBlank(raw[5..]), SpaceComma), target);
      AllWords(vals, SpaceComma) && FlipDeb822Line(raw, target) == Some("URIs: " + Join(vals, " "))
  {
    hide OneLine; hide Words; hide Join; hide FlipOrAll; hide AnyFlips;
    FlippedWords(Words(DropOneBlank(raw[5..]), SpaceComma), target);
  }

  lemma UrisText(l: string, vals: seq<string>)
    requires AllWords(vals, SpaceComma) && l == "URIs: " + Join(vals, " ")
    ensures Classify(l) == FieldLine(Field("URIs", Join(vals, " "), []))
    ensures Words(Join(vals, " "), SpaceComma) == vals
  {
    hide OneLine; hide Words; hide Join; hide Classify; hide AllWords; hide MarkOf;
    UrisPrinted(vals);
    UrisLine(l);
  }

  /** A changed `URIs:` row reads as the field with flipped values. */
  lemma UrisFlip(raw: string, target: Scheme)
    requires FlipDeb822Line(raw, target).Some?
    ensures Classify(raw).FieldLine? && Classify(FlipDeb822Line(raw, target).value).FieldLine?
    ensures FlippedField(Classify(raw).field, Classify(FlipDeb822Line(raw, target).value).field, target)
  {
    hide Classify; hide Words; hide Join; hide FlipOrAll; hide FlipDeb822Line; hide OneLine; hide AllWords;
    FlipLineParts(raw, target);
    UrisLine(raw);
    UrisText(FlipDeb822Line(raw, target).value, FlipOrAll(Words(DropOneBlank(raw[5..]), SpaceComma), target));
  }

  /** A changed row does not change again and is no marker. */
  lemma UrisSettle(raw: string, target: Scheme)
    requires FlipDeb822Line(raw, target).Some?
    ensures FlipDeb822Line(FlipDeb822Line(raw, target).value, target).None?
    ensures MarkOf(FlipDeb822Line(raw, target).value) == NoMark
  {
    FlipLineParts(raw, target);
    var vals := Words(DropOneBlank(raw[5..]), SpaceComma);
    SettledRow(FlipDeb822Line(raw, target).value, vals, target);
  }

  lemma SettledRow(l: string, vals: seq<string>, target: Scheme)
    requires AllWords(FlipOrAll(vals, target), SpaceComma) && l == "URIs: " + Join(FlipOrAll(vals, target), " ")
    ensures FlipDeb822Line(l, target).None? && MarkOf(l) == NoMark
  {
    hide Words; hide Join; hide FlipOrAll; hide AnyFlips; hide OneLine; hide AllWords; hide MarkOf;
    UrisPrinted(FlipOrAll(vals, target));
    NoFlipLeft(vals, target);
  }

  lemma NoFlipLeft(vals: seq<string>, target: Scheme)
    ensures !AnyFlips(FlipOrAll(vals, target), target)
  {
    hide FlipUri; hide FlipOr;
    forall i | 0 <= i < |vals| ensures FlipUri(FlipOrAll(vals, target)[i], target).None? {
      FlipOrFacts(vals[i], target);
    }
  }

  lemma FlipsNone(vals: seq<string>, target: Scheme)
    requires !AnyFlips(vals, target)
    ensures FlipOrAll(vals, target) == vals
  {
    forall i | 0 <= i < |vals| ensures FlipOr(vals[i], target) == vals[i] {
    }
  }

  /** A row that is not changed is the flipped form of itself. */
  lemma UrisStay(raw: string, target: Scheme)
    requires FlipDeb822Line(raw, target).None? && Classify(raw).FieldLine?
    ensures FlippedField(Classify(raw).field, Classify(raw).field, target)
  {
    var f := Classify(raw).field;
    hide Classify; hide OneLine; hide Words; hide FlipUri;
    if f.key == "URIs" {
      assert f.key + ":" == "URIs:";
      FlipsNone(Words(DropOneBlank(raw[5..]), SpaceComma), target);
    }
  }

  // ---------------------------------------------------------------------- stanzas

  lemma {:induction false} FindFlipped(fs: seq<Field>, gs: seq<Field>, key: string, target: Scheme)
    requires FlippedFields(fs, gs, target)
    ensures FindField(fs, key).Some? <==> FindField(gs, key).Some?
    ensures FindField(fs, key).Some? ==> FlippedField(FindField(fs, key).value, FindField(gs, key).value, target)
  {
    hide FlippedField;
    if fs != [] {
      assert FlippedField(fs[0], gs[0], target);
      assert fs[0].key == gs[0].key by { SameKey(fs[0], gs[0], target); }
      FindFlipped(fs[1..], gs[1..], key, target);
    }
  }

  lemma SameKey(f: Field, g: Field, target: Scheme)
    requires FlippedField(f, g, target)
    ensures f.key == g.key && f.conts == g.conts && (f.key != "URIs" ==> f == g)
  {
  }

  lemma GetFlipped(fs: seq<Field>, gs: seq<Field>, key: string, target: Scheme)
    requires FlippedFields(fs, gs, target)
    ensures GetField(fs, key).Some? <==> GetField(gs, key).Some?
    ensures GetField(fs, key).Some? ==> FlippedField(GetField(fs, key).value, GetField(gs, key).value, target)
  {
    hide FlippedField; hide FlippedFields;
    FindFlipped(fs, gs, key, target);
    FindFlipped(fs, gs, Lower(key), target);
  }

  lemma FlippedFront(fs: seq<Field>, gs: seq<Field>, target: Scheme)
    requires fs != [] && FlippedFields(fs, gs, target)
    ensures FlippedFields(fs[..|fs| - 1], gs[..|gs| - 1], target) && FlippedField(fs[|fs| - 1], gs[|gs| - 1], target)
  {
    hide FlippedField;
  }

  lemma {:induction false} DuplicatesFlipped(fs: seq<Field>, gs: seq<Field>, target: Scheme)
    requires FlippedFields(fs, gs, target)
    ensures FirstDuplicate(gs) == FirstDuplicate(fs)
    decreases |fs|
  {
    if fs != [] {
      FlippedFront(fs, gs, target);
      SameKey(fs[|fs| - 1], gs[|gs| - 1], target);
      hide FlippedField; hide FlippedFields;
      DuplicatesFlipped(fs[..|fs| - 1], gs[..|gs| - 1], target);
      FindFlipped(fs[..|fs| - 1], gs[..|gs| - 1], fs[|fs| - 1].key, target);
    }
  }

  lemma UrisKnown()
    ensures IsKnown("URIs")
  {
    LowerNames("URIs");
  }

  lemma {:induction false} PassFlipped(fs: seq<Field>, gs: seq<Field>, target: Scheme)
    requires FlippedFields(fs, gs, target)
    ensures Passthrough(gs) == Passthrough(fs)
    decreases |fs|
  {
    if fs != [] {
      FlippedFront(fs, gs, target);
      var f, g := fs[|fs| - 1], gs[|gs| - 1];
      SameKey(f, g, target);
      hide FlippedField; hide FlippedFields; hide IsKnown; hide Join; hide UnstuffAll; hide Put;
      PassFlipped(fs[..|fs| - 1], gs[..|gs| - 1], target);
      if f.key == "URIs" {
        UrisKnown();
      }
    }
  }

  lemma RequiredFlipped(fs: seq<Field>, gs: seq<Field>, key: string, target: Scheme)
    requires FlippedFields(fs, gs, target)
    ensures Required(gs, key) == Required(fs, key)
  {
    GetFlipped(fs, gs, key, target);
    hide GetField; hide FlippedFields; hide Words;
  }

  lemma ProblemFlipped(fs: seq<Field>, gs: seq<Field>, target: Scheme)
    requires FlippedFields(fs, gs, target)
    ensures StanzaProblem(gs) == StanzaProblem(fs)
  {
    hide Required; hide FlippedFields; hide FirstDuplicate;
    DuplicatesFlipped(fs, gs, target);
    RequiredFlipped(fs, gs, "Types", target);
    RequiredFlipped(fs, gs, "URIs", target);
    RequiredFlipped(fs, gs, "Suites", target);
  }

  lemma GetSame(fs: seq<Field>, gs: seq<Field>, key: string, target: Scheme)
    requires FlippedFields(fs, gs, target) && key != "URIs" && Lower(key) != "URIs"
    ensures GetField(gs, key) == GetField(fs, key)
  {
    GetFlipped(fs, gs, key, target);
    FindExact(fs, key);
    FindExact(fs, Lower(key));
    hide FlippedFields; hide FindField; hide Words; hide Lower;
  }

  /** The uris read from a rewritten stanza: flipped when they come from a field spelled
      `URIs`, the same when they come from one spelled `uris`, which the planner passes by. */
  function SeenUris(fs: seq<Field>, target: Scheme): seq<string> {
    if FindField(fs, "URIs").Some? then FlipOrAll(ValuesOf(fs, "URIs"), target) else ValuesOf(fs, "URIs")
  }

  function SeenEntry(fs: seq<Field>, target: Scheme): Entry {
    StanzaEntry(fs).(uris := SeenUris(fs, target))
  }

  lemma UrisFlipped(fs: seq<Field>, gs: seq<Field>, target: Scheme)
    requires FlippedFields(fs, gs, target) && Required(fs, "URIs").None?
    ensures ValuesOf(gs, "URIs") == SeenUris(fs, target)
  {
    hide Lower;
    LowerIs("URIs", "uris");
    FindFlipped(fs, gs, "URIs", target);
    FindFlipped(fs, gs, "uris", target);
    FindExact(fs, "URIs");
    FindExact(fs, "uris");
    hide FlippedFields; hide FindField; hide Words;
  }

  lemma EntryFlipped(fs: seq<Field>, gs: seq<Field>, target: Scheme)
    requires FlippedFields(fs, gs, target) && Required(fs, "URIs").None?
    ensures StanzaEntry(gs) == SeenEntry(fs, target)
  {
    hide FlippedFields; hide Required; hide GetField; hide Lower; hide FlipOrAll; hide SeenUris;
    hide Words; hide SignedByOf; hide ArchOf; hide TrustedOf; hide EnabledOf; hide BlobOf; hide Passthrough;
    OtherFields(fs, gs, target);
    UrisFlipped(fs, gs, target);
    PassFlipped(fs, gs, target);
  }

  lemma OtherFields(fs: seq<Field>, gs: seq<Field>, target: Scheme)
    requires FlippedFields(fs, gs, target)
    ensures GetField(gs, "Types") == GetField(fs, "Types") && GetField(gs, "Suites") == GetField(fs, "Suites")
    ensures GetField(gs, "Components") == GetField(fs, "Components") && GetField(gs, "Signed-By") == GetField(fs, "Signed-By")
    ensures GetField(gs, "Architectures") == GetField(fs, "Architectures") && GetField(gs, "Trusted") == GetField(fs, "Trusted")
    ensures GetField(gs, "Enabled") == GetField(fs, "Enabled")
  {
    hide FlippedFields; hide GetField; hide Lower;
    OtherField(fs, gs, "Types", target);
    OtherField(fs, gs, "Suites", target);
    OtherField(fs, gs, "Components", target);
    OtherField(fs, gs, "Signed-By", target);
    OtherField(fs, gs, "Architectures", target);
    OtherField(fs, gs, "Trusted", target);
    OtherField(fs, gs, "Enabled", target);
  }

  lemma OtherField(fs: seq<Field>, gs: seq<Field>, key: string, target: Scheme)
    requires FlippedFields(fs, gs, target) && key != "" && LowerChar(key[0]) != 'u'
    ensures GetField(gs, key) == GetField(fs, key)
  {
    hide FlippedFields; hide GetField;
    GetSame(fs, gs, key, target);
  }

  lemma StanzaFlipped(fs: seq<Field>, gs: seq<Field>, target: Scheme)
    requires FlippedFields(fs, gs, target)
    ensures StanzaToEntry(gs) ==
      match StanzaToEntry(fs) case Err(why) => Err(why) case Ok(_) => Ok(SeenEntry(fs, target))
  {
    hide FlippedFields; hide StanzaProblem; hide StanzaEntry; hide Required; hide SeenEntry;
    ProblemFlipped(fs, gs, target);
    if StanzaProblem(fs).None? {
      RequiredUris(fs);
      EntryFlipped(fs, gs, target);
    }
  }

  lemma RequiredUris(fs: seq<Field>)
    requires StanzaProblem(fs).None?
    ensures Required(fs, "URIs").None?
  {
    hide Required;
  }
}
