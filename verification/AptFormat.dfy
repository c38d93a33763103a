/** The two file formats and the units apt acts upon, spelled out: what a stanza and its fields mean,
    what a source line and its bracket mean, and how both are printed. */
module AptFormat {
  import opened Wrappers
  import opened Text
  import opened AptModel
  import opened AptClassic
  import AptStanza

  // --------------------------------------------------------------------------- units

  /** One type, uri and suite of an entry with everything else that apt acts upon. */
  predicate UnitAt(e: Entry, u: SemUnit, a: int, b: int, c: int) {
    && 0 <= a < |e.types| && 0 <= b < |e.uris| && 0 <= c < |e.suites|
    && u.at.kind == e.types[a] && u.at.uri == e.uris[b] && u.at.suite == e.suites[c]
    && u.components == e.components && u.signedBy == e.signedBy && u.architectures == e.architectures
    && u.trusted == e.trusted && u.enabled == e.enabled
  }

  lemma {:induction false} SuitesExact(t: string, u: string, suites: seq<string>)
    ensures |SuiteTriples(t, u, suites)| == |suites|
    ensures forall c :: 0 <= c < |suites| ==> SuiteTriples(t, u, suites)[c] == Triple(t, u, suites[c])
  {
    if suites != [] {
      SuitesExact(t, u, suites[1..]);
    }
  }

  lemma SuitesHold(t: string, u: string, suites: seq<string>)
    ensures |SuiteTriples(t, u, suites)| == |suites|
    ensures forall x :: x in SuiteTriples(t, u, suites) <==> x.kind == t && x.uri == u && x.suite in suites
  {
    SuitesExact(t, u, suites);
    var all := SuiteTriples(t, u, suites);
    hide SuiteTriples;
    forall x ensures x in all <==> x.kind == t && x.uri == u && x.suite in suites {
      if x.kind == t && x.uri == u && x.suite in suites {
        var c :| 0 <= c < |suites| && suites[c] == x.suite;
        assert all[c] == x;
      }
    }
  }

  ghost predicate InUris(x: Triple, t: string, uris: seq<string>, suites: seq<string>) {
    x.kind == t && x.uri in uris && x.suite in suites
  }

  lemma {:induction false} UrisExact(t: string, uris: seq<string>, suites: seq<string>)
    ensures |UriTriples(t, uris, suites)| == |uris| * |suites|
    ensures forall x :: x in UriTriples(t, uris, suites) <==> InUris(x, t, uris, suites)
  {
    if uris != [] {
      hide SuiteTriples;
      var first, rest := SuiteTriples(t, uris[0], suites), UriTriples(t, uris[1..], suites);
      SuitesHold(t, uris[0], suites);
      UrisExact(t, uris[1..], suites);
      OneMore(|uris| - 1, |suites|);
      assert |first + rest| == |first| + |rest|;
      assert uris == [uris[0]] + uris[1..];
      assert forall x :: x in first + rest <==> x in first || x in rest;
    }
  }

  lemma OneMore(n: nat, size: nat)
    ensures (n + 1) * size == size + n * size
  {
  }

  lemma {:induction false} TriplesExact(types: seq<string>, uris: seq<string>, suites: seq<string>)
    ensures |Triples(types, uris, suites)| == |types| * (|uris| * |suites|)
    ensures forall x :: x in Triples(types, uris, suites) <==> x.kind in types && x.uri in uris && x.suite in suites
  {
    if types != [] {
      hide UriTriples;
      var first, rest := UriTriples(types[0], uris, suites), Triples(types[1..], uris, suites);
      UrisExact(types[0], uris, suites);
      TriplesExact(types[1..], uris, suites);
      OneMore(|types| - 1, |uris| * |suites|);
      assert |first + rest| == |first| + |rest|;
      assert types == [types[0]] + types[1..];
      assert forall x :: x in first + rest <==> x in first || x in rest;
    }
  }

  /** An entry's units are its types, uris and suites in all combinations, as many as there are,
      each with all that apt acts upon. */
  lemma UnitsExact(e: Entry, u: SemUnit)
    ensures u in EntryUnits(e) <==> exists a, b, c :: UnitAt(e, u, a, b, c)
    ensures |EntryUnits(e)| == |e.types| * (|e.uris| * |e.suites|)
  {
    TriplesExact(e.types, e.uris, e.suites);
    var ats := Triples(e.types, e.uris, e.suites);
    hide Triples;
    if u in EntryUnits(e) {
      var i :| 0 <= i < |ats| && UnitsAt(e, ats)[i] == u;
      assert ats[i] in ats;
      var a :| 0 <= a < |e.types| && e.types[a] == u.at.kind;
      var b :| 0 <= b < |e.uris| && e.uris[b] == u.at.uri;
      var c :| 0 <= c < |e.suites| && e.suites[c] == u.at.suite;
      assert UnitAt(e, u, a, b, c);
    }
    if a, b, c :| UnitAt(e, u, a, b, c) {
      assert u.at in ats;
      var i :| 0 <= i < |ats| && ats[i] == u.at;
      assert UnitsAt(e, ats)[i] == u;
    }
  }

  /** How often a unit stands in the entries. */
  function Times(es: seq<Entry>, u: SemUnit): nat {
    if es == [] then 0 else TimesIn(EntryUnits(es[0]), u) + Times(es[1..], u)
  }

  function TimesIn(us: seq<SemUnit>, u: SemUnit): nat {
    if us == [] then 0 else (if us[0] == u then 1 else 0) + TimesIn(us[1..], u)
  }

  lemma {:induction false} TimesInIs(us: seq<SemUnit>, u: SemUnit)
    ensures multiset(us)[u] == TimesIn(us, u)
  {
    if us != [] {
      TimesInIs(us[1..], u);
      assert us == [us[0]] + us[1..];
    }
  }

  lemma {:induction false} TimesIs(es: seq<Entry>, u: SemUnit)
    ensures multiset(Units(es))[u] == Times(es, u)
  {
    hide EntryUnits;
    if es != [] {
      TimesInIs(EntryUnits(es[0]), u);
      TimesIs(es[1..], u);
    }
  }

  /** Two lists of entries mean the same to apt when every unit stands as often in either. */
  lemma SameExact(a: seq<Entry>, b: seq<Entry>)
    ensures SameUnits(a, b) <==> forall u :: Times(a, u) == Times(b, u)
  {
    hide Units; hide Times;
    forall u ensures multiset(Units(a))[u] == Times(a, u) && multiset(Units(b))[u] == Times(b, u) {
      TimesIs(a, u);
      TimesIs(b, u);
    }
    var x, y := multiset(Units(a)), multiset(Units(b));
    if x == y {
      assert forall u :: x[u] == y[u];
    } else {
      var u :| x[u] != y[u];
      assert Times(a, u) != Times(b, u);
    }
  }

  // ------------------------------------------------------------------ deb822, by line

  /** A field line: a name of letters, digits and `-`, a colon, and a value without line ends,
      of which one blank in front does not count. */
  ghost predicate FieldReads(raw: string, f: Field) {
    exists value ::
      raw == f.key + ":" + value && f.key != "" && (forall c :: c in f.key ==> NameChar(c)) && f.conts == []
      && (forall c :: c in value ==> c !in {'\n', '\r', '\U{2028}', '\U{2029}'})
      && f.first == if value != "" && value[0] in {' ', '\t'} then value[1..] else value
  }

  predicate NameChar(c: char) {
    'a' <= c <= 'z' || 'A' <= c <= 'Z' || '0' <= c <= '9' || c == '-'
  }

  predicate AllBlank(s: string) {
    forall c :: c in s ==> IsSpace(c)
  }

  lemma BlankIs(s: string)
    ensures Blank(s) <==> AllBlank(s)
  {
    if AllBlank(s) {
      forall i | 0 <= i < |s| ensures IsSpace(s[i]) { assert s[i] in s; }
    }
  }

  lemma OneLineIs(s: string)
    ensures OneLine(s) <==> forall c :: c in s ==> c !in {'\n', '\r', '\U{2028}', '\U{2029}'}
  {
    if forall c :: c in s ==> c !in {'\n', '\r', '\U{2028}', '\U{2029}'} {
      forall i | 0 <= i < |s| ensures !IsLineEnd(s[i]) { assert s[i] in s; }
    }
  }

  lemma {:induction false} KeyLengthIs(s: string, n: nat)
    requires n <= |s| && (forall i :: 0 <= i < n ==> IsKeyChar(s[i])) && (n < |s| ==> !IsKeyChar(s[n]))
    ensures KeyLength(s) == n
    decreases n
  {
    if n > 0 {
      KeyLengthIs(s[1..], n - 1);
    }
  }

  lemma MatchExact(raw: string, f: Field)
    ensures MatchField(raw) == Some(f) <==> FieldReads(raw, f)
  {
    hide OneLine;
    if FieldReads(raw, f) {
      var value :| raw == f.key + ":" + value && f.key != "" && (forall c :: c in f.key ==> NameChar(c)) && f.conts == []
        && (forall c :: c in value ==> c !in {'\n', '\r', '\U{2028}', '\U{2029}'})
        && f.first == if value != "" && value[0] in {' ', '\t'} then value[1..] else value;
      forall i | 0 <= i < |f.key| ensures IsKeyChar(raw[i]) { assert raw[i] in f.key; }
      KeyLengthIs(raw, |f.key|);
      assert raw[|f.key| + 1..] == value && raw[..|f.key|] == f.key;
      OneLineIs(value);
    } else if MatchField(raw) == Some(f) {
      var n := KeyLength(raw);
      OneLineIs(raw[n + 1..]);
      MatchedReads(raw, f);
    }
  }

  lemma MatchedReads(raw: string, f: Field)
    requires MatchField(raw) == Some(f)
    ensures FieldReads(raw, f)
  {
    hide OneLine;
    var n := KeyLength(raw);
    var value := raw[n + 1..];
    OneLineIs(value);
    assert raw == raw[..n] + ":" + value;
  }

  /** What kind of line a line is. */
  lemma ClassifyExact(raw: string)
    ensures Classify(raw).BlankLine? <==> AllBlank(raw)
    ensures !AllBlank(raw) ==> (Classify(raw).CommentLine? <==> raw[0] == '#') && (Classify(raw).ContLine? <==> raw[0] in {' ', '\t'})
    ensures forall f :: Classify(raw) == FieldLine(f) <==> !AllBlank(raw) && raw[0] !in {'#', ' ', '\t'} && FieldReads(raw, f)
    ensures Classify(raw).BadLine? <==> !AllBlank(raw) && raw[0] !in {'#', ' ', '\t'} && !exists f :: FieldReads(raw, f)
  {
    hide Blank; hide MatchField; hide FieldReads;
    BlankIs(raw);
    if !AllBlank(raw) {
      assert raw[..1] == [raw[0]];
      forall f ensures MatchField(raw) == Some(f) <==> FieldReads(raw, f) { MatchExact(raw, f); }
    }
  }

  /** A continuation line without its first blank; a lone dot is an empty line. */
  lemma UnstuffExact(raw: string)
    ensures raw != "" && raw[0] in {' ', '\t'} ==> Unstuff(raw) == if raw[1..] == "." then "" else raw[1..]
  {
  }

  // --------------------------------------------------------------- deb822, by stanza

  /** The field a name stands for: as it is written here, else in lower case. */
  predicate Says(fs: seq<Field>, name: string, low: string, f: Field) {
    f in fs && (f.key == name || (f.key == low && forall x :: x in fs ==> x.key != name))
  }

  predicate Unsaid(fs: seq<Field>, name: string, low: string) {
    forall x :: x in fs ==> x.key != name && x.key != low
  }

  /** A field that must be there, on one line; its words are the values. */
  ghost predicate Lists(fs: seq<Field>, name: string, low: string, values: seq<string>) {
    exists f :: Says(fs, name, low, f) && f.conts == [] && values == Words(f.first, SpaceComma)
  }

  ghost predicate Value(fs: seq<Field>, name: string, low: string, v: string) {
    exists f :: Says(fs, name, low, f) && v == Trim(f.first)
  }

  /** The lines of a value after its first, without their blank, a lone dot being empty. */
  predicate Unstuffed(conts: seq<string>, lines: seq<string>) {
    |lines| == |conts| && forall i :: 0 <= i < |lines| ==> lines[i] == Unstuff(conts[i])
  }

  /** A keyring or fingerprint on the line, or a key block on the lines after it. */
  ghost predicate SignedAs(f: Field, v: string) {
    exists lines :: Unstuffed(f.conts, lines) &&
      v == if lines != [] && AllBlank(f.first) then Join(lines, "\n")
           else if lines != [] && StartsWith(f.first, "-----BEGIN") then Join([f.first] + lines, "\n")
           else Trim(f.first)
  }

  predicate Modelled(key: string) {
    Lower(key) in {"types", "uris", "suites", "components", "signed-by", "architectures", "trusted", "enabled"}
  }

  /** The other fields, in order, with their lines. */
  function Others(fs: seq<Field>): Record {
    if fs == [] then []
    else
      Others(fs[..|fs| - 1]) + Other(fs[|fs| - 1])
  }

  ghost predicate MeansRows(fs: seq<Field>, e: Entry) {
    && Lists(fs, "Types", "types", e.types) && Lists(fs, "URIs", "uris", e.uris) && Lists(fs, "Suites", "suites", e.suites)
    && (if Unsaid(fs, "Components", "components") then e.components == []
        else exists f :: Says(fs, "Components", "components", f) && e.components == Words(f.first, SpaceComma))
    && (if Unsaid(fs, "Architectures", "architectures") then e.architectures == None
        else exists f :: Says(fs, "Architectures", "architectures", f) && e.architectures == Some(Words(f.first, SpaceComma)))
  }

  ghost predicate MeansFlags(fs: seq<Field>, e: Entry) {
    && (e.enabled <==> !Value(fs, "Enabled", "enabled", "no") && !Value(fs, "Enabled", "enabled", "false"))
    && (e.trusted <==> Value(fs, "Trusted", "trusted", "yes") || Value(fs, "Trusted", "trusted", "true"))
    && (forall v :: e.options == [("trusted", v)] <==> Value(fs, "Trusted", "trusted", v) && v !in {"yes", "true", "no", "false"})
    && (e.options == [] || exists v :: e.options == [("trusted", v)])
  }

  ghost predicate MeansRest(fs: seq<Field>, e: Entry) {
    && (if Unsaid(fs, "Signed-By", "signed-by") then e.signedBy == None
        else exists f :: Says(fs, "Signed-By", "signed-by", f) && e.signedBy.Some? && SignedAs(f, e.signedBy.value))
    && e.fields == Others(fs)
  }

  /** What a stanza means. */
  ghost predicate Means(fs: seq<Field>, e: Entry) {
    MeansRows(fs, e) && MeansFlags(fs, e) && MeansRest(fs, e)
  }

  lemma {:induction false} FindIsIn(fs: seq<Field>, key: string)
    ensures FindField(fs, key).Some? ==> FindField(fs, key).value in fs && FindField(fs, key).value.key == key
    ensures FindField(fs, key).None? ==> forall x :: x in fs ==> x.key != key
  {
    if fs != [] {
      FindIsIn(fs[1..], key);
      assert fs == [fs[0]] + fs[1..];
    }
  }

  lemma OnlyOne(fs: seq<Field>, x: Field, y: Field)
    requires AptStanza.DistinctFields(fs) && x in fs && y in fs && x.key == y.key
    ensures x == y
  {
    var i :| 0 <= i < |fs| && fs[i] == x;
    var j :| 0 <= j < |fs| && fs[j] == y;
  }

  lemma GetExact(fs: seq<Field>, name: string, low: string)
    requires AptStanza.DistinctFields(fs) && Lower(name) == low
    ensures forall f :: GetField(fs, name) == Some(f) <==> Says(fs, name, low, f)
    ensures GetField(fs, name).None? <==> Unsaid(fs, name, low)
  {
    FindIsIn(fs, name);
    FindIsIn(fs, low);
    hide FindField; hide AptStanza.DistinctFields; hide Lower;
    forall f | Says(fs, name, low, f) ensures GetField(fs, name) == Some(f) {
      var g := GetField(fs, name);
      assert g.Some? && g.value in fs && g.value.key == f.key;
      OnlyOne(fs, f, g.value);
    }
  }

  lemma Lowered()
    ensures Lower("Types") == "types" && Lower("URIs") == "uris" && Lower("Suites") == "suites" && Lower("Components") == "components"
    ensures Lower("Architectures") == "architectures" && Lower("Enabled") == "enabled" && Lower("Trusted") == "trusted"
    ensures Lower("Signed-By") == "signed-by"
  {
    hide Lower;
    AptStanza.LowerIs("Types", "types");
    AptStanza.LowerIs("URIs", "uris");
    AptStanza.LowerIs("Suites", "suites");
    AptStanza.LowerIs("Components", "components");
    AptStanza.LowerIs("Architectures", "architectures");
    AptStanza.LowerIs("Enabled", "enabled");
    AptStanza.LowerIs("Trusted", "trusted");
    AptStanza.LowerIs("Signed-By", "signed-by");
  }

  function Other(f: Field): Record {
    if Modelled(f.key) then [] else [(f.key, Join([f.first] + UnstuffAll(f.conts), "\n"))]
  }

  lemma {:induction false} OthersAre(fs: seq<Field>)
    requires AptStanza.DistinctFields(fs)
    ensures Passthrough(fs) == Others(fs)
    ensures forall kv :: kv in Others(fs) ==> kv.0 in AptStanza.Keys(fs)
  {
    if fs != [] {
      var front, f := fs[..|fs| - 1], fs[|fs| - 1];
      assert fs == front + [f];
      OthersAre(front);
      FrontKeys(front, f);
      OtherAdds(front, f);
    }
  }

  lemma FrontKeys(front: seq<Field>, f: Field)
    requires AptStanza.DistinctFields(front + [f])
    ensures f.key !in AptStanza.Keys(front) && AptStanza.Keys(front + [f]) == AptStanza.Keys(front) + {f.key}
  {
    AptStanza.KeysAppend(front, [f]);
    assert AptStanza.Keys([f]) == {f.key} by {
      assert [f][0].key == f.key;
    }
    var fs := front + [f];
    forall i | 0 <= i < |front| ensures front[i].key != f.key {
      assert fs[i].key != fs[|front|].key;
    }
  }

  lemma OtherAdds(front: seq<Field>, f: Field)
    requires Passthrough(front) == Others(front) && forall kv :: kv in Others(front) ==> kv.0 != f.key
    ensures Passthrough(front + [f]) == Others(front + [f]) == Others(front) + Other(f)
  {
    var fs := front + [f];
    assert fs[..|fs| - 1] == front && fs[|fs| - 1] == f;
    hide Join; hide Lower; hide UnstuffAll; hide Put;
    if !Modelled(f.key) {
      forall i | 0 <= i < |Others(front)| ensures Others(front)[i].0 != f.key {
        assert Others(front)[i] in Others(front);
      }
      AptStanza.PutNew(Others(front), f.key, Join([f.first] + UnstuffAll(f.conts), "\n"));
    }
  }

  lemma RequiredExact(fs: seq<Field>, name: string, low: string)
    requires AptStanza.DistinctFields(fs) && Lower(name) == low
    ensures Required(fs, name).None? <==> exists values :: Lists(fs, name, low, values)
    ensures Required(fs, name).None? ==> forall values :: Lists(fs, name, low, values) <==> values == ValuesOf(fs, name)
  {
    hide GetField; hide AptStanza.DistinctFields; hide Lower; hide Says; hide Words;
    GetExact(fs, name, low);
    if Required(fs, name).None? {
      assert Lists(fs, name, low, ValuesOf(fs, name));
    }
  }

  lemma ValueExact(fs: seq<Field>, name: string, low: string)
    requires AptStanza.DistinctFields(fs) && Lower(name) == low
    ensures forall v :: Value(fs, name, low, v) <==> GetField(fs, name).Some? && v == Trim(GetField(fs, name).value.first)
  {
    hide GetField; hide AptStanza.DistinctFields; hide Lower; hide Says; hide Trim;
    GetExact(fs, name, low);
  }

  lemma SignedExact(f: Field)
    ensures SignedByOf(Some(f)).Some?
    ensures forall v :: SignedAs(f, v) <==> SignedByOf(Some(f)) == Some(v)
  {
    hide Trim; hide Join; hide UnstuffAll; hide Blank; hide Unstuff;
    TrimBlank(f.first);
    BlankIs(f.first);
    assert Unstuffed(f.conts, UnstuffAll(f.conts));
    forall lines | Unstuffed(f.conts, lines) ensures lines == UnstuffAll(f.conts) {
    }
  }

  lemma ComponentsExact(fs: seq<Field>)
    ensures GetField(fs, "Components").None? ==> ValuesOf(fs, "Components") == []
    ensures GetField(fs, "Components").Some? ==> ValuesOf(fs, "Components") == Words(GetField(fs, "Components").value.first, SpaceComma)
  {
  }

  lemma Unsigned()
    ensures SignedByOf(None) == None
  {
  }

  /** The options a Trusted field leaves. */
  lemma TrustedExact(fs: seq<Field>)
    requires AptStanza.DistinctFields(fs) && Lower("Trusted") == "trusted"
    ensures var f := GetField(fs, "Trusted");
      && (TrustedOf(f) <==> Value(fs, "Trusted", "trusted", "yes") || Value(fs, "Trusted", "trusted", "true"))
      && (BlobOf(f) == [] || exists v :: BlobOf(f) == [("trusted", v)])
      && forall v :: BlobOf(f) == [("trusted", v)] <==> Value(fs, "Trusted", "trusted", v) && v !in {"yes", "true", "no", "false"}
  {
    hide GetField; hide AptStanza.DistinctFields; hide Lower; hide Value; hide Trim;
    ValueExact(fs, "Trusted", "trusted");
    var f := GetField(fs, "Trusted");
    if f.Some? && BlobOf(f) != [] {
      assert BlobOf(f) == [("trusted", Trim(f.value.first))];
    }
  }

  predicate Complete(fs: seq<Field>) {
    Required(fs, "Types").None? && Required(fs, "URIs").None? && Required(fs, "Suites").None?
  }

  predicate RowsAre(fs: seq<Field>, e: Entry) {
    && e.types == ValuesOf(fs, "Types") && e.uris == ValuesOf(fs, "URIs") && e.suites == ValuesOf(fs, "Suites")
    && e.components == ValuesOf(fs, "Components") && e.architectures == ArchOf(GetField(fs, "Architectures"))
  }

  predicate FlagsAre(fs: seq<Field>, e: Entry) {
    && e.enabled == EnabledOf(GetField(fs, "Enabled"))
    && e.trusted == TrustedOf(GetField(fs, "Trusted")) && e.options == BlobOf(GetField(fs, "Trusted"))
  }

  lemma RowsExact(fs: seq<Field>, e: Entry)
    requires AptStanza.DistinctFields(fs)
    ensures MeansRows(fs, e) <==> Complete(fs) && RowsAre(fs, e)
  {
    hide AptStanza.DistinctFields; hide Required; hide ValuesOf; hide GetField; hide Words; hide Lower; hide Lists; hide Says; hide Unsaid;
    Lowered();
    RequiredExact(fs, "Types", "types");
    RequiredExact(fs, "URIs", "uris");
    RequiredExact(fs, "Suites", "suites");
    GetExact(fs, "Components", "components");
    GetExact(fs, "Architectures", "architectures");
    ComponentsExact(fs);
  }

  lemma FlagsExact(fs: seq<Field>, e: Entry)
    requires AptStanza.DistinctFields(fs)
    ensures MeansFlags(fs, e) <==> FlagsAre(fs, e)
  {
    hide AptStanza.DistinctFields; hide GetField; hide TrustedOf; hide BlobOf; hide Trim; hide Lower; hide Value;
    Lowered();
    ValueExact(fs, "Enabled", "enabled");
    TrustedExact(fs);
  }

  lemma RestExact(fs: seq<Field>, e: Entry)
    requires AptStanza.DistinctFields(fs)
    ensures MeansRest(fs, e) <==> e.signedBy == SignedByOf(GetField(fs, "Signed-By")) && e.fields == Passthrough(fs)
  {
    hide AptStanza.DistinctFields; hide GetField; hide SignedByOf; hide Passthrough; hide Lower; hide Says; hide Unsaid; hide SignedAs; hide Others;
    Lowered();
    GetExact(fs, "Signed-By", "signed-by");
    OthersAre(fs);
    Unsigned();
    if GetField(fs, "Signed-By").Some? {
      SignedExact(GetField(fs, "Signed-By").value);
    }
  }

  /** A stanza is read exactly when no field stands twice and types, uris and suites are there on
      one line each, and then it is the one entry that the stanza means. */
  lemma StanzaExact(fs: seq<Field>, e: Entry)
    ensures StanzaToEntry(fs) == Ok(e) <==> AptStanza.DistinctFields(fs) && Means(fs, e)
  {
    hide AptStanza.DistinctFields; hide FirstDuplicate; hide Required; hide ValuesOf; hide SignedByOf; hide Passthrough; hide GetField;
    hide TrustedOf; hide BlobOf; hide EnabledOf; hide ArchOf; hide MeansRows; hide MeansFlags; hide MeansRest;
    AptStanza.FirstDuplicateExact(fs);
    if AptStanza.DistinctFields(fs) {
      RowsExact(fs, e);
      FlagsExact(fs, e);
      RestExact(fs, e);
    }
  }

  // ------------------------------------------------------------------ classic, by line

  /** An assignment a bracket can hold. */
  predicate Assignable(kv: (string, string)) {
    Free(kv.0, Space) && Free(kv.1, Space) && ']' !in kv.0 && ']' !in kv.1 && '=' !in kv.0
  }

  predicate Assignments(parts: Record, texts: seq<string>) {
    |texts| == |parts| && forall i :: 0 <= i < |parts| ==> Assignable(parts[i]) && texts[i] == parts[i].0 + "=" + parts[i].1
  }

  predicate Flag(kv: (string, string)) {
    kv.0 == "trusted" && kv.1 in {"yes", "true", "1", "no", "false", "0"}
  }

  /** The value of the last assignment to a name. */
  function LastTo(parts: Record, k: string): Option<string> {
    if parts == [] then None
    else if parts[|parts| - 1].0 == k then Some(parts[|parts| - 1].1)
    else LastTo(parts[..|parts| - 1], k)
  }

  /** The same, flags left aside. */
  function LastKept(parts: Record, k: string): Option<string> {
    if parts == [] then None
    else if parts[|parts| - 1].0 == k && !Flag(parts[|parts| - 1]) then Some(parts[|parts| - 1].1)
    else LastKept(parts[..|parts| - 1], k)
  }

  predicate LastFlagTrusts(parts: Record) {
    if parts == [] then false
    else if Flag(parts[|parts| - 1]) then parts[|parts| - 1].1 in {"yes", "true", "1"}
    else LastFlagTrusts(parts[..|parts| - 1])
  }

  predicate OptionName(k: string) { k !in {"signed-by", "arch", "__proto__"} }

  /** What a bracket means: the last key and architectures named, the last flag, and the last of
      each other assignment. */
  ghost predicate BracketMeans(parts: Record, b: Bracket) {
    && b.signedBy == LastTo(parts, "signed-by")
    && b.architectures == (match LastTo(parts, "arch") case None => None case Some(v) => Some(Words(v, Comma)))
    && b.trusted == LastFlagTrusts(parts)
    && DistinctKeys(b.options) && forall k, v :: (k, v) in b.options <==> OptionName(k) && LastKept(parts, k) == Some(v)
  }

  lemma AssignmentIs(kv: (string, string))
    ensures var s := kv.0 + "=" + kv.1; '=' !in kv.0 ==> Find(s, '=') == |kv.0| && s[..|kv.0|] == kv.0 && s[|kv.0| + 1..] == kv.1
  {
    if '=' !in kv.0 {
      OptionSplits(kv.0, kv.1);
    }
  }

  /** What one more assignment does. */
  function Next(b: Bracket, kv: (string, string)): Bracket {
    if kv.0 == "signed-by" then b.(signedBy := Some(kv.1))
    else if kv.0 == "arch" then b.(architectures := Some(Words(kv.1, Comma)))
    else if Flag(kv) then b.(trusted := kv.1 in {"yes", "true", "1"})
    else if kv.0 == "__proto__" then b
    else b.(options := Put(b.options, kv.0, kv.1))
  }

  lemma OneOption(b: Bracket, kv: (string, string))
    requires Assignable(kv)
    ensures ApplyOption(b, kv.0 + "=" + kv.1) == Some(Next(b, kv))
  {
    AssignmentIs(kv);
    hide Find; hide Words; hide Put;
  }

  lemma {:induction false} PutExact(r: Record, k: string, v: string)
    requires DistinctKeys(r)
    ensures DistinctKeys(Put(r, k, v))
    ensures forall kv :: kv in Put(r, k, v) <==> kv == (k, v) || (kv in r && kv.0 != k)
  {
    if r != [] {
      assert r == [r[0]] + r[1..];
      PutExact(r[1..], k, v);
      var p := Put(r, k, v);
      if r[0].0 == k {
        assert forall kv :: kv in r[1..] ==> kv.0 != k;
      } else {
        var rest := Put(r[1..], k, v);
        assert p == [r[0]] + rest;
        forall i | 0 <= i < |rest| ensures rest[i].0 != r[0].0 {
          assert rest[i] in rest;
        }
      }
    }
  }

  lemma NextMeans(parts: Record, b: Bracket, kv: (string, string))
    requires BracketMeans(parts, b)
    ensures BracketMeans(parts + [kv], Next(b, kv))
  {
    hide Put; hide Words; hide DistinctKeys;
    var all := parts + [kv];
    assert all[|parts|] == kv && all[..|parts|] == parts;
    if !Flag(kv) && OptionName(kv.0) {
      PutExact(b.options, kv.0, kv.1);
    }
  }

  /** A bracket's assignments are read as what they mean. */
  lemma {:induction false} BracketExact(parts: Record, texts: seq<string>)
    requires Assignments(parts, texts)
    ensures ApplyOptions(NO_BRACKET, texts).Ok? && BracketMeans(parts, ApplyOptions(NO_BRACKET, texts).value)
    decreases |parts|
  {
    hide ApplyOption; hide BracketMeans; hide Next; hide Assignable;
    if parts == [] {
      NothingMeant();
    } else {
      var n := |parts| - 1;
      BracketExact(parts[..n], texts[..n]);
      var b := ApplyOptions(NO_BRACKET, texts[..n]).value;
      assert texts == texts[..n] + [texts[n]] && parts == parts[..n] + [parts[n]];
      ApplyAppend(NO_BRACKET, texts[..n], [texts[n]]);
      OneOption(b, parts[n]);
      assert [texts[n]][1..] == [];
      NextMeans(parts[..n], b, parts[n]);
    }
  }

  lemma NothingMeant()
    ensures BracketMeans([], NO_BRACKET)
  {
  }

  /** The texts of a source line. */
  function SourceTokens(kind: string, texts: seq<string>, uri: string, suite: string, components: seq<string>): seq<string> {
    [kind] + (if texts == [] then [] else ["[ " + Join(texts, " ") + " ]"]) + [uri, suite] + components
  }

  /** What a source line means. */
  ghost predicate LineMeans(kind: string, parts: Record, uri: string, suite: string, components: seq<string>, enabled: bool, e: Entry) {
    && e.types == [kind] && e.uris == [uri] && e.suites == [suite] && e.components == components && e.enabled == enabled && e.fields == []
    && BracketMeans(parts, Bracket(e.signedBy, e.architectures, e.trusted, e.options))
  }

  lemma {:induction false} AssignedPlain(parts: Record, texts: seq<string>)
    requires Assignments(parts, texts)
    ensures PlainParts(texts)
  {
    forall i | 0 <= i < |texts| ensures Word(texts[i], Space) && ']' !in texts[i] {
      PlainOption(parts[i].0, parts[i].1);
    }
  }

  lemma SourceTokensOk(kind: string, texts: seq<string>, uri: string, suite: string, components: seq<string>)
    requires IsType(kind) && PlainParts(texts) && IsToken(uri) && IsToken(suite) && AllTokens(components)
    ensures AllTokens(SourceTokens(kind, texts, uri, suite, components))
  {
    TypeToken(kind);
    BracketToken(texts);
    hide IsToken; hide PlainParts; hide Inner; hide Join;
    var head := if texts == [] then [] else ["[ " + Join(texts, " ") + " ]"];
    assert AllTokens([kind]) && AllTokens(head) && AllTokens([uri, suite]);
  }

  lemma SourceLineTokens(kind: string, texts: seq<string>, uri: string, suite: string, components: seq<string>, enabled: bool)
    requires kind in {"deb", "deb-src"} && PlainParts(texts) && IsToken(uri) && IsToken(suite) && AllTokens(components)
    ensures var ts := SourceTokens(kind, texts, uri, suite, components);
      ParseClassicLine((if enabled then "" else "#") + Join(ts, " ")) == ParseActive(ts, enabled)
  {
    var ts := SourceTokens(kind, texts, uri, suite, components);
    SourceTokensOk(kind, texts, uri, suite, components);
    hide PlainParts; hide IsToken; hide ParseActive; hide Join; hide Tokens; hide Active; hide Uncomment; hide AllTokens;
    var text := Join(ts, " ");
    assert ts == [kind] + ts[1..];
    JoinCons(kind, ts[1..], " ");
    assert text != "" && text[0] == kind[0] && kind[0] == 'd';
    UncommentBack(text, enabled);
    TokensOfJoin(ts);
    ActiveAll(ts);
    assert (if enabled then "" else "#") + text == if enabled then text else "#" + text;
  }

  /** A source line: `deb` or `deb-src`, perhaps a bracket, a uri, a suite and components, each after
      a blank; a `#` in front of it makes it a disabled source. */
  lemma ClassicReads(kind: string, parts: Record, texts: seq<string>, uri: string, suite: string, components: seq<string>, enabled: bool)
    requires kind in {"deb", "deb-src"} && Assignments(parts, texts)
    requires IsToken(uri) && IsToken(suite) && AllTokens(components) && uri[0] != '['
    ensures var line := (if enabled then "" else "#") + Join(SourceTokens(kind, texts, uri, suite, components), " ");
      && ParseClassicLine(line).Ok? && ParseClassicLine(line).value.Some?
      && LineMeans(kind, parts, uri, suite, components, enabled, ParseClassicLine(line).value.value)
  {
    assert !StartsWith(uri, "[") by {
      assert uri[..1] == [uri[0]];
    }
    AssignedPlain(parts, texts);
    SourceLineTokens(kind, texts, uri, suite, components, enabled);
    BracketExact(parts, texts);
    BracketToken(texts);
    hide Assignments; hide PlainParts; hide IsToken; hide ApplyOptions; hide BracketMeans; hide Words; hide Inner; hide ParseActive; hide Join;
    hide ParseClassicLine; hide AllTokens; hide StartsWith; hide SourceTokens; hide LineMeans; hide Free;
    TokensShape(kind, texts, uri, suite, components);
    if texts == [] {
      ActiveBare(kind, uri, suite, components, enabled);
      BareMeans(parts, texts);
      ReadsLine(kind, parts, uri, suite, components, enabled, NO_BRACKET);
    } else {
      ActiveBracketed(kind, "[ " + Join(texts, " ") + " ]", ApplyOptions(NO_BRACKET, texts).value, uri, suite, components, enabled);
      ReadsLine(kind, parts, uri, suite, components, enabled, ApplyOptions(NO_BRACKET, texts).value);
    }
  }

  lemma ReadsLine(kind: string, parts: Record, uri: string, suite: string, components: seq<string>, enabled: bool, b: Bracket)
    requires BracketMeans(parts, b)
    ensures LineMeans(kind, parts, uri, suite, components, enabled,
      Entry([kind], [uri], [suite], components, b.signedBy, b.architectures, b.trusted, enabled, b.options, []))
  {
    hide BracketMeans;
  }

  lemma TokensShape(kind: string, texts: seq<string>, uri: string, suite: string, components: seq<string>)
    ensures SourceTokens(kind, texts, uri, suite, components) ==
      if texts == [] then [kind, uri, suite] + components else [kind, "[ " + Join(texts, " ") + " ]", uri, suite] + components
  {
    hide Join;
  }

  lemma BareMeans(parts: Record, texts: seq<string>)
    requires texts == [] && BracketMeans(parts, ApplyOptions(NO_BRACKET, texts).value) && ApplyOptions(NO_BRACKET, texts).Ok?
    ensures BracketMeans(parts, NO_BRACKET)
  {
    hide BracketMeans;
  }

  /** What comes of a line's tokens: those from the first that starts a comment do not count;
      nothing is left of a comment, and a line that is active names a supported type, every
      assignment of its bracket, a uri and a suite, or is an error. */
  lemma {:induction false} ActiveExact(ts: seq<string>)
    ensures |Active(ts)| <= |ts| && Active(ts) == ts[..|Active(ts)|]
    ensures forall i :: 0 <= i < |Active(ts)| ==> ts[i] == "" || ts[i][0] != '#'
    ensures |Active(ts)| < |ts| ==> ts[|Active(ts)|] != "" && ts[|Active(ts)|][0] == '#'
  {
    if ts != [] {
      ActiveExact(ts[1..]);
      assert ts[0] != "" ==> ts[0][..1] == [ts[0][0]];
      if !StartsWith(ts[0], "#") {
        assert Active(ts) == [ts[0]] + Active(ts[1..]);
        assert forall i :: 0 < i < |ts| ==> ts[i] == ts[1..][i - 1];
      }
    }
  }

  lemma OtherLines(raw: string, enabled: bool, ts: seq<string>)
    ensures AllBlank(raw) ==> ParseClassicLine(raw) == Ok(None)
    ensures ts == [] ==> ParseActive(ts, enabled) == Ok(None)
    ensures ts != [] && ts[0] !in {"deb", "deb-src"} ==>
      ParseActive(ts, enabled) == if enabled then Err(UnsupportedType(ts[0])) else Ok(None)
    ensures |ts| == 1 && ts[0] in {"deb", "deb-src"} ==> ParseActive(ts, enabled) == Err(MissingUri)
    ensures |ts| == 2 && ts[0] in {"deb", "deb-src"} && (ts[1] == "" || ts[1][0] != '[') ==> ParseActive(ts, enabled) == Err(MissingSuite)
  {
    hide ApplyOptions;
    if AllBlank(raw) {
      BlankIs(raw);
      BlankTrims(raw);
      assert Tokens("") == Some([]);
    }
    assert |ts| >= 2 && ts[1] != "" ==> ts[1][..1] == [ts[1][0]];
  }

  lemma {:induction false} BlankTrims(raw: string)
    requires Blank(raw)
    ensures TrimStart(raw) == ""
    decreases |raw|
  {
    if raw != "" {
      BlankTrims(raw[1..]);
    }
  }

  // -------------------------------------------------------------------------- printing

  lemma PrintedFlags(e: Entry)
    ensures EnabledLines(e) == if e.enabled then [] else ["Enabled: no"]
    ensures e.trusted ==> TrustedLines(e) == ["Trusted: yes"]
    ensures forall v :: !e.trusted && e.options == [("trusted", v)] ==> TrustedLines(e) == ["Trusted: " + v]
    ensures !e.trusted && e.options == [] ==> TrustedLines(e) == []
  {
  }

  /** A key on one line, or a block on lines of its own with a dot for an empty one. */
  lemma PrintedKey(key: string, lines: seq<string>)
    requires '\n' !in key && |lines| > 1 && forall i :: 0 <= i < |lines| ==> '\n' !in lines[i]
    ensures SignedByLines(None) == [] && SignedByLines(Some(key)) == ["Signed-By: " + key]
    ensures var printed := SignedByLines(Some(Join(lines, "\n")));
      |printed| == 1 + |lines| && printed[0] == "Signed-By:"
      && forall i :: 0 <= i < |lines| ==> printed[i + 1] == if lines[i] == "" then " ." else " " + lines[i]
  {
    SplitWhole(key, '\n');
    SplitOfJoin(lines, '\n');
    hide Split; hide Join;
  }

  lemma PrintedOption(k: string, v: string)
    ensures AliasLines([("lang", v)]) == ["Languages: " + v] && AliasLines([("target", v)]) == ["Targets: " + v]
    ensures AliasLines([("pdiffs", v)]) == ["PDiffs: " + v] && AliasLines([("by-hash", v)]) == ["By-Hash: " + v]
    ensures k !in {"lang", "target", "pdiffs", "by-hash"} && !IsInheritedMember(k) ==> AliasLines([(k, v)]) == []
  {
    hide IsInheritedMember; hide AliasLines;
    AliasOne(("lang", v));
    AliasOne(("target", v));
    AliasOne(("pdiffs", v));
    AliasOne(("by-hash", v));
    AliasOne((k, v));
    assert "Languages" + ": " == "Languages: " && "Targets" + ": " == "Targets: " && "PDiffs" + ": " == "PDiffs: " && "By-Hash" + ": " == "By-Hash: ";
  }

  lemma AliasOne(x: (string, string))
    ensures AliasLines([x]) == match OptionAlias(x.0) case None => [] case Some(field) => [field + ": " + x.1]
  {
    hide OptionAlias;
    assert [x][1..] == [] && AliasLines([]) == [];
  }

  lemma PrintedParts(e: Entry)
    ensures e.signedBy.Some? && Word(e.signedBy.value, SpaceComma) ==> SignedByParts(e) == ["signed-by=" + e.signedBy.value]
    ensures e.architectures.Some? ==> ArchParts(e) == ["arch=" + Join(e.architectures.value, ",")]
    ensures TrustedParts(e) == if e.trusted then ["trusted=yes"] else []
    ensures e.signedBy.None? ==> SignedByParts(e) == []
    ensures e.architectures.None? ==> ArchParts(e) == []
  {
    hide Words;
    if e.signedBy.Some? && Word(e.signedBy.value, SpaceComma) {
      WordsOfJoin([e.signedBy.value], ',', SpaceComma);
      assert Join([e.signedBy.value], ",") == e.signedBy.value;
      forall i | 0 <= i < |e.signedBy.value| ensures e.signedBy.value[i] != '\n' {
        assert !IsSep(e.signedBy.value[i], SpaceComma);
      }
    }
  }

  /** A source line as it is printed: the disabling `#`, then what is not empty, blanks between. */
  lemma PrintedLine(e: Entry, at: Triple)
    requires at.kind != "" && at.uri != "" && at.suite != "" && forall i :: 0 <= i < |e.components| ==> e.components[i] != ""
    ensures var texts := BracketParts(e);
      ClassicLine(e, at) == (if e.enabled then "" else "#") + Join(SourceTokens(at.kind, texts, at.uri, at.suite, e.components), " ")
  {
    hide BracketParts; hide Join; hide NonEmpty;
    var bracket := ClassicBracket(e);
    NonEmptyAll(e.components);
    NonEmptyPair(at);
    NonEmptyOne(at.kind);
    NonEmptyOne(bracket);
    assert [at.kind, bracket, at.uri, at.suite] == [at.kind] + [bracket] + [at.uri, at.suite];
    NonEmptyAppend([at.kind], [bracket]);
    NonEmptyAppend([at.kind] + [bracket], [at.uri, at.suite]);
    NonEmptyAppend([at.kind] + [bracket] + [at.uri, at.suite], e.components);
    var line := Join(SourceTokens(at.kind, BracketParts(e), at.uri, at.suite, e.components), " ");
    assert "" + line == line;
  }
}
