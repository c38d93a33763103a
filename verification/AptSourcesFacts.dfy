/** What the deb822 parser makes of the text the second printer writes: one entry per authored
    mapping, holding the fields in force after merging by name whatever its case. */
module AptSourcesFacts {
  import opened Wrappers
  import opened Text
  import opened AptModel
  import opened AptDeb822
  import opened AptStanza
  import AptRoundTrip
  import opened AptSources

  // ------------------------------------------------------------------ fields in force

  /** The last item of that name, whatever its case. */
  function InForce(m: Mapping, key: string): Option<(string, Value)> {
    if m == [] then None
    else if InForce(m[1..], key).Some? then InForce(m[1..], key)
    else if Lower(m[0].0) == key then Some(m[0])
    else None
  }

  lemma {:induction false} InForceAppend(a: Mapping, b: Mapping, key: string)
    ensures InForce(a + b, key) == if InForce(b, key).Some? then InForce(b, key) else InForce(a, key)
  {
    if a == [] {
      assert a + b == b;
    } else {
      assert (a + b)[1..] == a[1..] + b;
      InForceAppend(a[1..], b, key);
    }
  }

  lemma InForceOne(name: string, v: Value, key: string)
    ensures InForce([(name, v)], key) == if Lower(name) == key then Some((name, v)) else None
  {
    assert InForce([(name, v)][1..], key).None?;
  }

  lemma {:induction false} InForceNamed(m: Mapping, key: string)
    ensures InForce(m, key).Some? ==> InForce(m, key).value in m && Lower(InForce(m, key).value.0) == key
    ensures InForce(m, key).Some? <==> exists i :: 0 <= i < |m| && Lower(m[i].0) == key
  {
    if m != [] {
      InForceNamed(m[1..], key);
      assert forall i :: 1 <= i < |m| ==> m[i] == m[1..][i - 1];
      assert m[0] in m;
    }
  }

  // ------------------------------------------------------------------- the merged fields

  predicate SlotSound(s: Slot) {
    IsFieldName(s.name) && Canonical(s.name) == s.name && Lower(s.name) == s.key
  }

  predicate DistinctSlots(slots: seq<Slot>) {
    forall i, j :: 0 <= i < j < |slots| ==> slots[i].key != slots[j].key
  }

  predicate Sound(slots: seq<Slot>) {
    DistinctSlots(slots) && forall i :: 0 <= i < |slots| ==> SlotSound(slots[i])
  }

  lemma LowerTwice(s: string)
    ensures Lower(Lower(s)) == Lower(s)
  {
    var l := Lower(s);
    assert forall i :: 0 <= i < |l| ==> LowerChar(LowerChar(s[i])) == l[i];
    LowerIs(l, l);
  }

  lemma LowerSpellings()
    ensures Lower("Types") == "types" && Lower("URIs") == "uris" && Lower("Suites") == "suites"
    ensures Lower("Components") == "components" && Lower("Signed-By") == "signed-by" && Lower("Architectures") == "architectures"
    ensures Lower("Trusted") == "trusted" && Lower("Enabled") == "enabled" && Lower("Package") == "package"
    ensures Lower("Pin") == "pin" && Lower("Pin-Priority") == "pin-priority"
  {
    hide Lower;
    LowerIs("Types", "types");
    LowerIs("URIs", "uris");
    LowerIs("Suites", "suites");
    LowerIs("Components", "components");
    LowerIs("Signed-By", "signed-by");
    LowerIs("Architectures", "architectures");
    LowerIs("Trusted", "trusted");
    LowerIs("Enabled", "enabled");
    LowerIs("Package", "package");
    LowerIs("Pin", "pin");
    LowerIs("Pin-Priority", "pin-priority");
  }

  /** The canonical spelling is another case of the same name. */
  lemma CanonicalCase(name: string)
    ensures Lower(Canonical(name)) == Lower(name) && Canonical(Canonical(name)) == Canonical(name)
    ensures IsFieldName(name) ==> IsFieldName(Canonical(name))
  {
    LowerSpellings();
    hide Lower;
  }

  lemma SlotOfSound(item: (string, Value))
    requires IsFieldName(item.0)
    ensures SlotSound(SlotOf(item)) && SlotOf(item).key == Lower(item.0)
  {
    CanonicalCase(item.0);
    hide Canonical; hide Lower; hide IsFieldName;
  }

  lemma {:induction false} PlaceFind(slots: seq<Slot>, s: Slot, key: string)
    ensures FindSlot(Place(slots, s), key) == if s.key == key then Some(s) else FindSlot(slots, key)
  {
    if slots != [] {
      PlaceFind(slots[1..], s, key);
    } else {
      assert [s][1..] == [];
    }
  }

  lemma {:induction false} FindSlotExact(slots: seq<Slot>, key: string)
    ensures FindSlot(slots, key).Some? ==> FindSlot(slots, key).value in slots && FindSlot(slots, key).value.key == key
    ensures FindSlot(slots, key).None? ==> forall i :: 0 <= i < |slots| ==> slots[i].key != key
  {
    if slots != [] {
      FindSlotExact(slots[1..], key);
      assert forall i :: 1 <= i < |slots| ==> slots[i] == slots[1..][i - 1];
    }
  }

  lemma {:induction false} PlaceSound(slots: seq<Slot>, s: Slot)
    requires Sound(slots) && SlotSound(s)
    ensures Sound(Place(slots, s))
    ensures forall t :: t in Place(slots, s) ==> t == s || t in slots
  {
    hide SlotSound;
    if slots != [] && slots[0].key != s.key {
      var rest := slots[1..];
      assert forall i :: 0 <= i < |rest| ==> rest[i] == slots[i + 1];
      PlaceSound(rest, s);
      var r := Place(slots, s);
      assert r == [slots[0]] + Place(rest, s);
      forall i, j | 0 <= i < j < |r| ensures r[i].key != r[j].key {
        assert r[j] == Place(rest, s)[j - 1];
        assert r[j] in Place(rest, s);
      }
    }
  }

  /** Merging keeps one field per name, the last item in force, in canonical spelling. */
  lemma {:induction false} MergeExact(slots: seq<Slot>, m: Mapping)
    requires Sound(slots)
    ensures Merge(slots, m).Some? <==> forall i :: 0 <= i < |m| ==> IsFieldName(m[i].0)
    ensures Merge(slots, m).Some? ==> Sound(Merge(slots, m).value)
    ensures Merge(slots, m).Some? ==> forall key ::
      FindSlot(Merge(slots, m).value, key) ==
        match InForce(m, key) case None => FindSlot(slots, key) case Some(item) => Some(SlotOf(item))
    decreases |m|
  {
    hide Sound; hide SlotSound; hide IsFieldName; hide SlotOf; hide Place; hide Lower;
    if m != [] {
      assert forall i :: 1 <= i < |m| ==> m[i] == m[1..][i - 1];
      if IsFieldName(m[0].0) {
        SlotOfSound(m[0]);
        var next := Place(slots, SlotOf(m[0]));
        PlaceSound(slots, SlotOf(m[0]));
        MergeExact(next, m[1..]);
        if Merge(next, m[1..]).Some? {
          forall key ensures FindSlot(Merge(slots, m).value, key) ==
            match InForce(m, key) case None => FindSlot(slots, key) case Some(item) => Some(SlotOf(item))
          {
            PlaceFind(slots, SlotOf(m[0]), key);
          }
        }
      }
    }
  }

  lemma {:induction false} MergeAppend(slots: seq<Slot>, a: Mapping, b: Mapping)
    ensures Merge(slots, a + b) == match Merge(slots, a) case None => None case Some(mid) => Merge(mid, b)
    decreases |a|
  {
    hide Place; hide SlotOf; hide IsFieldName;
    if a == [] {
      assert a + b == b;
    } else {
      assert (a + b)[1..] == a[1..] + b;
      MergeAppend(Place(slots, SlotOf(a[0])), a[1..], b);
    }
  }

  /** The merged fields of a stanza. */
  function Slots(m: Mapping): seq<Slot>
    requires Merge([], m).Some?
  {
    Merge([], m).value
  }

  function SlotFor(m: Mapping, key: string): Option<Slot> {
    match InForce(m, key) case None => None case Some(item) => Some(SlotOf(item))
  }

  lemma SlotsExact(m: Mapping)
    requires Merge([], m).Some?
    ensures Sound(Slots(m))
    ensures forall key :: FindSlot(Slots(m), key) == SlotFor(m, key)
  {
    hide Merge; hide SlotOf;
    assert Sound([]);
    MergeExact([], m);
    hide Sound; hide InForce;
    assert forall key :: FindSlot([], key) == None;
  }

  // ------------------------------------------------------------------ texts in force

  /** The text a field shows; None when it is absent or skipped. */
  function TextOf(m: Mapping, key: string): Option<string> {
    match InForce(m, key)
    case None => None
    case Some(item) => match Show(key, item.1) case Text(s) => Some(s) case _ => None
  }

  /** The lines of a keyblock are read as continuation lines: none is white space only. */
  predicate KeyFits(text: string) {
    '\n' in text ==> forall i :: 0 <= i < |PyLines(Strip(text))| ==> Continues(PyLines(Strip(text))[i])
  }

  predicate Fits(m: Mapping) {
    TextOf(m, "signed-by").Some? ==> KeyFits(TextOf(m, "signed-by").value)
  }

  predicate Ascii(s: string) {
    forall i :: 0 <= i < |s| ==> s[i] < '\U{0080}'
  }

  predicate ScalarAscii(s: Scalar) {
    s.Str? ==> Ascii(s.text)
  }

  predicate ValueAscii(v: Value) {
    match v
    case One(s) => ScalarAscii(s)
    case Items(ps) => forall i :: 0 <= i < |ps| ==> ScalarAscii(ps[i])
  }

  predicate MappingAscii(m: Mapping) {
    forall i :: 0 <= i < |m| ==> ValueAscii(m[i].1)
  }

  lemma AsciiAppend(a: string, b: string)
    requires Ascii(a) && Ascii(b)
    ensures Ascii(a + b)
  {
  }

  lemma NumberAscii(n: int)
    ensures Ascii(Number(n))
  {
    hide AptScheme.Decimal;
    var d := AptScheme.Decimal(if n < 0 then -n else n);
    assert forall i :: 0 <= i < |d| ==> AptScheme.IsDigit(d[i]);
    AsciiAppend("-", d);
  }

  lemma PartAscii(p: Scalar)
    requires ScalarAscii(p) && PartText(p).Some?
    ensures Ascii(PartText(p).value)
  {
    if p.Num? {
      NumberAscii(p.n);
    }
    hide Number;
  }

  lemma {:induction false} PartsAscii(ps: seq<Scalar>)
    requires (forall i :: 0 <= i < |ps| ==> ScalarAscii(ps[i])) && PartTexts(ps).Some?
    ensures Ascii(Join(PartTexts(ps).value, " "))
    ensures |PartTexts(ps).value| == |ps|
  {
    hide ScalarAscii; hide PartText; hide Ascii;
    if ps == [] {
      assert Ascii("") by { EmptyAscii(); }
    } else {
      PartAscii(ps[0]);
      PartsAscii(ps[1..]);
      var t, rest := PartText(ps[0]).value, PartTexts(ps[1..]).value;
      JoinCons(t, rest, " ");
      hide PartTexts; hide Join;
      assert Ascii(" ") by { EmptyAscii(); }
      AsciiAppend(t, " ");
      AsciiAppend(t + " ", Join(rest, " "));
    }
  }

  lemma EmptyAscii()
    ensures Ascii("") && Ascii(" ")
  {
  }

  lemma ShowAscii(key: string, v: Value)
    requires ValueAscii(v) && Show(key, v).Text?
    ensures Ascii(Show(key, v).text)
  {
    match v
    case Items(ps) => PartsAscii(ps);
    case One(s) => if s.Num? { NumberAscii(s.n); }
  }

  // ------------------------------------------------------------------------ rows read

  function FieldOfText(name: string, text: string): Field {
    if '\n' in text then Field(name, "", StuffAll(PyLines(Strip(text)))) else Field(name, text, [])
  }

  function SlotFields(s: Slot): seq<Field> {
    match Show(s.key, s.value) case Text(text) => [FieldOfText(s.name, text)] case _ => []
  }

  function FieldsOfSlots(slots: seq<Slot>): seq<Field> {
    if slots == [] then [] else SlotFields(slots[0]) + FieldsOfSlots(slots[1..])
  }

  predicate SlotFits(s: Slot) {
    Show(s.key, s.value).Text? ==> KeyFits(Show(s.key, s.value).text)
  }

  lemma NameIsKey(s: Slot)
    requires SlotSound(s)
    ensures IsKey(s.name)
  {
    hide Canonical; hide Lower;
  }

  lemma KeyRowReads(name: string, ls: seq<string>, cur: seq<Field>)
    requires IsKey(name) && forall i :: 0 <= i < |ls| ==> Continues(ls[i])
    ensures ReadStanza([name + ":"] + StuffAll(ls), cur) == Some(cur + [Field(name, "", StuffAll(ls))])
  {
    BareLineReads(name);
    assert [name + ":"][1..] == [];
    assert ReadStanza([name + ":"], cur) == Some(cur + [Field(name, "", [])]);
    hide ReadStanza; hide Continues; hide IsKey;
    ContsRead(ls, cur, Field(name, "", []));
    ReadStanzaAppend([name + ":"], StuffAll(ls), cur);
    assert [] + StuffAll(ls) == StuffAll(ls);
  }

  lemma RowReads(s: Slot, cur: seq<Field>)
    requires SlotSound(s) && ValueAscii(s.value) && Row(s).Some? && SlotFits(s)
    ensures ReadStanza(Row(s).value, cur) == Some(cur + SlotFields(s))
  {
    hide ReadStanza; hide Strip; hide PyLines; hide Continues; hide ValueAscii; hide Show; hide IsInlineKey; hide IsKey; hide SlotSound;
    NameIsKey(s);
    match Show(s.key, s.value)
    case Skipped => NoFieldReads(cur);
    case Text(text) =>
      if '\n' in text {
        KeyRowReads(s.name, PyLines(Strip(text)), cur);
      } else {
        ShowAscii(s.key, s.value);
        OneFieldReads(s.name, text, cur);
      }
  }

  predicate Readable(slots: seq<Slot>) {
    forall i :: 0 <= i < |slots| ==> SlotSound(slots[i]) && ValueAscii(slots[i].value)
  }

  lemma RowsStep(slots: seq<Slot>)
    requires slots != [] && Rows(slots).Some?
    ensures Row(slots[0]).Some? && Rows(slots[1..]).Some? && Rows(slots).value == Row(slots[0]).value + Rows(slots[1..]).value
  {
    hide Row;
  }

  lemma {:induction false} RowsRead(slots: seq<Slot>, cur: seq<Field>)
    requires Readable(slots) && Rows(slots).Some? && forall i :: 0 <= i < |slots| ==> SlotFits(slots[i])
    ensures ReadStanza(Rows(slots).value, cur) == Some(cur + FieldsOfSlots(slots))
    decreases |slots|
  {
    hide ReadStanza; hide SlotSound; hide ValueAscii; hide SlotFits; hide SlotFields; hide Row;
    if slots == [] {
      NoFieldReads(cur);
    } else {
      RowsStep(slots);
      RowReads(slots[0], cur);
      ReadStanzaAppend(Row(slots[0]).value, Rows(slots[1..]).value, cur);
      RowsRead(slots[1..], cur + SlotFields(slots[0]));
      Assoc(cur, SlotFields(slots[0]), FieldsOfSlots(slots[1..]));
    }
  }

  // --------------------------------------------------- a blank line inside a keyblock

  predicate Solid(l: string) { l != "" && !Blank(l) }

  lemma StuffHead(ls: seq<string>, rest: seq<string>)
    requires ls != []
    ensures StuffAll(ls) + rest == [Stuff(ls[0])] + (StuffAll(ls[1..]) + rest)
  {
    hide Stuff; hide StuffAll;
    Assoc([Stuff(ls[0])], StuffAll(ls[1..]), rest);
  }

  /** Reading a stuffed line before further lines. */
  lemma StuffedStep(l: string, tail: seq<string>, cur: seq<Field>)
    ensures Continues(l) && cur == [] ==> Sources([Stuff(l)] + tail, cur) == None
    ensures Continues(l) && cur != [] ==> Sources([Stuff(l)] + tail, cur) == Sources(tail, AddCont(cur, Stuff(l)))
    ensures !Continues(l) ==> Sources(tail, []) == None ==> Sources([Stuff(l)] + tail, cur) == None
  {
    hide Sources; hide Continues; hide Stuff; hide Classify; hide StanzaToEntry; hide AddCont;
    StuffContinues(l);
    SourcesStep(Stuff(l), tail, cur);
    if Continues(l) && cur != [] {
      var r := Sources(tail, AddCont(cur, Stuff(l)));
      assert r.Some? ==> [] + r.value == r.value;
    }
  }

  lemma SolidContinues(l: string)
    ensures Solid(l) ==> Continues(l)
  {
  }

  /** Continuation lines without a stanza fail, once a line with text comes. */
  lemma {:induction false} OrphanFails(ls: seq<string>, rest: seq<string>)
    requires ls != [] && Solid(ls[|ls| - 1])
    ensures Sources(StuffAll(ls) + rest, []) == None
    decreases |ls|
  {
    hide Solid; hide Continues; hide Sources; hide Stuff; hide StuffAll;
    StuffHead(ls, rest);
    StuffedStep(ls[0], StuffAll(ls[1..]) + rest, []);
    if !Continues(ls[0]) {
      SolidContinues(ls[0]);
      OrphanFails(ls[1..], rest);
    }
  }

  /** A white space line cuts the stanza, and what follows has none. */
  lemma {:induction false} CutFails(ls: seq<string>, rest: seq<string>, cur: seq<Field>)
    requires cur != [] && ls != [] && Solid(ls[|ls| - 1]) && exists i :: 0 <= i < |ls| && !Continues(ls[i])
    ensures Sources(StuffAll(ls) + rest, cur) == None
    decreases |ls|
  {
    hide Solid; hide Continues; hide Sources; hide Stuff; hide StuffAll; hide AddCont;
    StuffHead(ls, rest);
    StuffedStep(ls[0], StuffAll(ls[1..]) + rest, cur);
    SolidContinues(ls[|ls| - 1]);
    if Continues(ls[0]) {
      assert forall i :: 1 <= i < |ls| ==> ls[i] == ls[1..][i - 1];
      CutFails(ls[1..], rest, AddCont(cur, Stuff(ls[0])));
    } else {
      OrphanFails(ls[1..], rest);
    }
  }

  predicate EndsOn(ls: seq<string>, c: char) {
    ls != [] && ls[|ls| - 1] != "" && ls[|ls| - 1][|ls[|ls| - 1]| - 1] == c
  }

  lemma EndsOnCons(l: string, tail: seq<string>, c: char)
    requires EndsOn(tail, c)
    ensures EndsOn([l] + tail, c)
  {
  }

  /** The last line ends where the text does. */
  lemma {:induction false} LastLine(s: string)
    requires s != "" && !IsBreak(s[|s| - 1])
    ensures EndsOn(PyLines(s), s[|s| - 1])
    decreases |s|
  {
    hide IsBreak; hide EndsOn;
    var n := FindBreak(s);
    hide FindBreak;
    if n == |s| {
      OneLineEnds(s);
    } else {
      LinesFirst(s, n);
      LastLine(s[n + 1..]);
      hide PyLines;
      EndsOnCons(s[..n], PyLines(s[n + 1..]), s[|s| - 1]);
    }
  }

  lemma OneLineEnds(s: string)
    requires s != "" && FindBreak(s) == |s|
    ensures EndsOn(PyLines(s), s[|s| - 1])
  {
    hide FindBreak;
    assert PyLines(s) == [s];
  }

  lemma NoSpace(c: char)
    requires !IsPySpace(c) && c < '\U{0080}'
    ensures !IsSpace(c) && !IsBreak(c)
  {
  }

  lemma SolidEnd(l: string, c: char)
    requires l != "" && l[|l| - 1] == c && !IsSpace(c)
    ensures Solid(l)
  {
  }

  lemma {:induction false} LeftStripAscii(s: string)
    requires Ascii(s)
    ensures Ascii(LeftStrip(s))
  {
    if s != "" && IsPySpace(s[0]) {
      LeftStripAscii(s[1..]);
    }
  }

  lemma StripAscii(s: string)
    requires Ascii(s)
    ensures Ascii(Strip(s))
  {
    LeftStripAscii(s);
    hide LeftStrip; hide IsPySpace;
    var l := LeftStrip(s);
    assert RightStrip(l) <= l;
  }

  /** A keyblock has text left after stripping. */
  lemma KeyHasText(text: string)
    requires IsInlineKey(text)
    ensures Strip(text) != ""
  {
    var l := LeftStrip(text);
    assert BEGIN_KEY[0] == '-';
    assert l[..|BEGIN_KEY|][0] == l[0] == '-';
    RightStripKeeps(l);
  }

  lemma {:induction false} RightStripKeeps(s: string)
    requires s != "" && !IsPySpace(s[0])
    ensures RightStrip(s) != ""
  {
    if |s| > 1 && IsPySpace(s[|s| - 1]) {
      RightStripKeeps(s[..|s| - 1]);
    }
  }

  lemma LastSolid(text: string)
    requires Ascii(text) && Strip(text) != ""
    ensures !IsSpace(Strip(text)[|Strip(text)| - 1]) && !IsBreak(Strip(text)[|Strip(text)| - 1])
  {
    hide IsSpace; hide LeftStrip;
    StripAscii(text);
    var s := Strip(text);
    assert !IsPySpace(s[|s| - 1]) && s[|s| - 1] < '\U{0080}';
    NoSpace(s[|s| - 1]);
  }

  lemma KeyEndsSolid(text: string)
    requires Ascii(text) && IsInlineKey(text)
    ensures var ls := PyLines(Strip(text)); ls != [] && Solid(ls[|ls| - 1])
  {
    hide IsInlineKey; hide LeftStrip; hide PyLines; hide Solid; hide IsPySpace; hide IsSpace; hide Strip; hide Ascii;
    KeyHasText(text);
    var s := Strip(text);
    LastSolid(text);
    var c := s[|s| - 1];
    LastLine(s);
    SolidEnd(PyLines(s)[|PyLines(s)| - 1], c);
  }

  lemma RowFails(s: Slot, rest: seq<string>, cur: seq<Field>)
    requires SlotSound(s) && ValueAscii(s.value) && Row(s).Some? && !SlotFits(s)
    ensures Sources(Row(s).value + rest, cur) == None
  {
    hide Strip; hide PyLines; hide Continues; hide ValueAscii; hide Show; hide IsInlineKey; hide IsKey; hide SlotSound; hide Sources; hide Solid; hide Ascii; hide ReadStanza;
    var text := Show(s.key, s.value).text;
    NameIsKey(s);
    ShowAscii(s.key, s.value);
    KeyEndsSolid(text);
    var ls := PyLines(Strip(text));
    KeyRowReads(s.name, [], cur);
    var next := cur + [Field(s.name, "", StuffAll([]))];
    assert [s.name + ":"] + StuffAll([]) == [s.name + ":"];
    SourcesExtend([s.name + ":"], StuffAll(ls) + rest, cur);
    CutFails(ls, rest, next);
    Assoc([s.name + ":"], StuffAll(ls), rest);
  }

  lemma {:induction false} RowsFail(slots: seq<Slot>, rest: seq<string>, cur: seq<Field>)
    requires Readable(slots) && Rows(slots).Some? && exists i :: 0 <= i < |slots| && !SlotFits(slots[i])
    ensures Sources(Rows(slots).value + rest, cur) == None
    decreases |slots|
  {
    hide ReadStanza; hide SlotSound; hide ValueAscii; hide SlotFits; hide SlotFields; hide Row; hide Sources; hide Rows;
    RowsStep(slots);
    var head, tail := Row(slots[0]).value, Rows(slots[1..]).value;
    assert head + tail + rest == head + (tail + rest);
    if SlotFits(slots[0]) {
      assert forall i :: 1 <= i < |slots| ==> slots[i] == slots[1..][i - 1];
      RowReads(slots[0], cur);
      SourcesExtend(head, tail + rest, cur);
      RowsFail(slots[1..], rest, cur + SlotFields(slots[0]));
    } else {
      RowFails(slots[0], tail + rest, cur);
    }
  }

  // ------------------------------------------------------------- fields of a stanza

  function FieldFor(slots: seq<Slot>, name: string): Option<Field> {
    match FindSlot(slots, Lower(name))
    case None => None
    case Some(s) =>
      if s.name != name then None
      else match Show(s.key, s.value) case Text(t) => Some(FieldOfText(name, t)) case _ => None
  }

  lemma SoundTail(slots: seq<Slot>)
    requires Sound(slots) && slots != []
    ensures SlotSound(slots[0]) && Sound(slots[1..]) && FindSlot(slots[1..], slots[0].key).None?
  {
    var rest := slots[1..];
    assert forall i :: 0 <= i < |rest| ==> rest[i] == slots[i + 1];
    hide SlotSound;
    FindSlotExact(rest, slots[0].key);
  }

  lemma {:induction false} FieldsFind(slots: seq<Slot>, name: string)
    requires Sound(slots)
    ensures FindField(FieldsOfSlots(slots), name) == FieldFor(slots, name)
  {
    if slots != [] {
      SoundTail(slots);
      FieldsFind(slots[1..], name);
      FindAppend(SlotFields(slots[0]), FieldsOfSlots(slots[1..]), name);
      hide Lower; hide Show; hide FieldOfText; hide Sound; hide Canonical; hide IsFieldName; hide FieldsOfSlots;
    }
  }

  lemma {:induction false} FieldsDistinct(slots: seq<Slot>)
    requires Sound(slots)
    ensures DistinctFields(FieldsOfSlots(slots))
  {
    if slots != [] {
      SoundTail(slots);
      FieldsDistinct(slots[1..]);
      var a, b := SlotFields(slots[0]), FieldsOfSlots(slots[1..]);
      FieldsFind(slots[1..], slots[0].name);
      FindExact(b, slots[0].name);
      hide Sound; hide Canonical; hide IsFieldName; hide Lower; hide Show; hide FieldOfText; hide FindField; hide FindSlot;
      assert Keys(a) <= {slots[0].name};
      DistinctAppend(a, b);
    }
  }

  /** A modelled name is spelled in one way only. */
  lemma CanonicalName(n: string, name: string)
    requires IsName(name) && Lower(n) == Lower(name)
    ensures Canonical(n) == name
  {
    LowerSpellings();
    hide Lower;
  }

  lemma NamedField(m: Mapping, name: string)
    requires Merge([], m).Some? && IsName(name)
    ensures FieldFor(Slots(m), name) ==
      match TextOf(m, Lower(name)) case None => None case Some(t) => Some(FieldOfText(name, t))
    ensures FieldFor(Slots(m), Lower(name)).None?
  {
    hide IsName; hide Lower; hide Slots; hide InForce; hide Canonical; hide Sound; hide Show; hide FieldOfText; hide IsKnown; hide Merge; hide FindSlot;
    var key := Lower(name);
    SlotsExact(m);
    LowerTwice(name);
    NameNotLower(name);
    InForceNamed(m, key);
    if InForce(m, key).Some? {
      CanonicalName(InForce(m, key).value.0, name);
      CanonicalCase(InForce(m, key).value.0);
    }
  }

  lemma NameNotLower(name: string)
    requires IsName(name)
    ensures Lower(name) != name
  {
    LowerSpellings();
    hide Lower;
  }

  /** What the parser finds under a modelled name. */
  lemma GetNamed(m: Mapping, name: string)
    requires Merge([], m).Some? && IsName(name)
    ensures GetField(FieldsOfSlots(Slots(m)), name) ==
      match TextOf(m, Lower(name)) case None => None case Some(t) => Some(FieldOfText(name, t))
  {
    hide FieldOfText; hide FieldsOfSlots; hide FieldFor; hide TextOf; hide IsName; hide Lower; hide Merge;
    SlotsExact(m);
    hide Slots; hide Sound;
    NamedField(m, name);
    FieldsFind(Slots(m), name);
    FieldsFind(Slots(m), Lower(name));
  }

  // -------------------------------------------------------------------- the entry

  function Values(m: Mapping, key: string): seq<string> {
    match TextOf(m, key) case None => [] case Some(t) => Words(t, SpaceComma)
  }

  /** A Signed-By value as it is read back: trimmed, or the stripped lines of the keyblock with
      a line that is just a dot read as empty. */
  function SignedText(t: string): string {
    if '\n' in t then Join(UnstuffAll(StuffAll(PyLines(Strip(t)))), "\n") else Trim(t)
  }

  /** The value of a field that is passed through, under the spelling it was last given. */
  function Unmodelled(m: Mapping, name: string): Option<string> {
    if IsKnown(name) then None
    else
      match InForce(m, Lower(name))
      case None => None
      case Some(item) => if Canonical(item.0) == name then TextOf(m, Lower(name)) else None
  }

  ghost predicate FieldsInForce(r: Record, m: Mapping) {
    forall name: string :: Lookup(r, name) == Unmodelled(m, name)
  }

  /** The entry holds exactly what is in force in the merged mapping. */
  ghost predicate Merged(e: Entry, m: Mapping) {
    && e.types == Values(m, "types") && e.uris == Values(m, "uris") && e.suites == Values(m, "suites")
    && e.components == Values(m, "components")
    && e.signedBy == (match TextOf(m, "signed-by") case None => None case Some(t) => Some(SignedText(t)))
    && e.architectures == (if TextOf(m, "architectures").None? then None else Some(Values(m, "architectures")))
    && FlagsInForce(e, TextOf(m, "trusted"), TextOf(m, "enabled"))
    && FieldsInForce(e.fields, m) && DistinctKeys(e.fields)
  }

  predicate FlagsInForce(e: Entry, trusted: Option<string>, enabled: Option<string>) {
    && (e.trusted <==> trusted.Some? && IsTrue822(Trim(trusted.value)))
    && (e.enabled <==> (enabled.Some? ==> !IsFalse822(Trim(enabled.value))))
    && e.options == (if trusted.None? || IsTrue822(Trim(trusted.value)) || IsFalse822(Trim(trusted.value)) then []
                     else [("trusted", Trim(trusted.value))])
  }

  lemma {:induction false} LookupPut(r: Record, k: string, v: string, name: string)
    ensures Lookup(Put(r, k, v), name) == if name == k then Some(v) else Lookup(r, name)
    ensures DistinctKeys(r) ==> DistinctKeys(Put(r, k, v))
    ensures forall i :: 0 <= i < |Put(r, k, v)| ==> Put(r, k, v)[i].0 == k || exists j :: 0 <= j < |r| && r[j].0 == Put(r, k, v)[i].0
  {
    if r == [] {
      assert [(k, v)][1..] == [];
    } else if r[0].0 == k {
      assert ([(k, v)] + r[1..])[1..] == r[1..];
    } else {
      var rest := r[1..];
      LookupPut(rest, k, v, name);
      var p := [r[0]] + Put(rest, k, v);
      assert p[1..] == Put(rest, k, v);
      assert forall i :: 0 <= i < |rest| ==> rest[i] == r[i + 1];
      forall i | 0 <= i < |p| ensures p[i].0 == k || exists j :: 0 <= j < |r| && r[j].0 == p[i].0 {
        if i == 0 {
          assert r[0].0 == p[0].0;
        } else if Put(rest, k, v)[i - 1].0 != k {
          var j :| 0 <= j < |rest| && rest[j].0 == Put(rest, k, v)[i - 1].0;
          assert r[j + 1].0 == p[i].0;
        }
      }
    }
  }

  function PassText(f: Field): string {
    Join([f.first] + UnstuffAll(f.conts), "\n")
  }

  lemma {:induction false} PassFind(fs: seq<Field>, name: string)
    requires DistinctFields(fs)
    ensures Lookup(Passthrough(fs), name) ==
      if IsKnown(name) || FindField(fs, name).None? then None else Some(PassText(FindField(fs, name).value))
    ensures DistinctKeys(Passthrough(fs))
  {
    hide IsKnown; hide Join; hide DistinctKeys; hide Put; hide FindField;
    if fs == [] {
      NoFields(name);
    } else {
      var front, last := fs[..|fs| - 1], fs[|fs| - 1];
      assert fs == front + [last];
      PassFind(front, name);
      LookupPut(Passthrough(front), last.key, PassText(last), name);
      FindAppend(front, [last], name);
      FindOnly(last, name);
      FindExact(front, name);
      assert last.key !in Keys(front);
    }
  }

  lemma NoFields(name: string)
    ensures FindField([], name).None? && Lookup([], name).None? && DistinctKeys([])
  {
  }

  lemma FindOnly(f: Field, name: string)
    ensures FindField([f], name) == if f.key == name then Some(f) else None
  {
    assert [f][1..] == [];
  }

  lemma {:induction false} RowsAll(slots: seq<Slot>, s: Slot)
    requires Rows(slots).Some? && s in slots
    ensures Row(s).Some?
  {
    hide Row;
    RowsStep(slots);
    if s != slots[0] {
      RowsAll(slots[1..], s);
    }
  }

  predicate Printed(m: Mapping) {
    Merge([], m).Some? && Rows(Slots(m)).Some?
  }

  /** The slot that shows a text in force, and its printed row. */
  lemma TextPrinted(m: Mapping, key: string)
    requires Printed(m) && InForce(m, key).Some?
    ensures var item := InForce(m, key).value; SlotOf(item).key == key && SlotOf(item) in Slots(m) && Row(SlotOf(item)).Some?
  {
    hide Rows; hide Row; hide Sound; hide Canonical; hide Lower; hide Merge; hide Slots;
    SlotsExact(m);
    FindSlotExact(Slots(m), key);
    var item := InForce(m, key).value;
    RowsAll(Slots(m), SlotOf(item));
  }

  lemma TextLines(m: Mapping, key: string)
    requires Printed(m) && TextOf(m, key).Some?
    ensures var t := TextOf(m, key).value; '\r' !in t && ('\n' in t ==> key == "signed-by" && IsInlineKey(t))
  {
    TextPrinted(m, key);
    hide Slots; hide Show; hide Canonical; hide Lower; hide IsInlineKey; hide Rows; hide Merge; hide InForce; hide Printed;
    assert RowLines(SlotOf(InForce(m, key).value), TextOf(m, key).value).Some?;
  }

  lemma RequiredShown(m: Mapping, name: string)
    requires Printed(m) && name in REQUIRED && Complete(Slots(m), REQUIRED)
    ensures TextOf(m, Lower(name)).Some?
  {
    hide Rows; hide Canonical; hide Lower; hide Merge; hide RowLines;
    SlotsExact(m);
    hide Slots; hide Sound; hide Lacking;
    assert FindSlot(Slots(m), Lower(name)).Some?;
    TextPrinted(m, Lower(name));
    hide Printed;
    ShownUnlessLacking(Lower(name), InForce(m, Lower(name)).value.1);
    LowerSpellings();
  }

  lemma ShownUnlessLacking(key: string, v: Value)
    requires !Lacking(v) && key != "components"
    ensures !Show(key, v).Skipped?
  {
  }

  lemma EntryUsable(m: Mapping)
    requires Printed(m) && Complete(Slots(m), REQUIRED)
    ensures StanzaProblem(FieldsOfSlots(Slots(m))).None?
  {
    hide Complete; hide Printed; hide FieldsOfSlots; hide Slots; hide TextOf; hide Merge; hide Lower; hide IsInlineKey; hide GetField;
    assert Merge([], m).Some? by { PrintedMerges(m); }
    SlotsExact(m);
    var fs := FieldsOfSlots(Slots(m));
    FieldsDistinct(Slots(m));
    FirstDuplicateExact(fs);
    LowerSpellings();
    assert REQUIRED[0] == "Types" && REQUIRED[1] == "URIs" && REQUIRED[2] == "Suites";
    FieldUsable(m, "Types");
    FieldUsable(m, "URIs");
    FieldUsable(m, "Suites");
  }

  lemma PrintedMerges(m: Mapping)
    requires Printed(m)
    ensures Merge([], m).Some?
  {
    hide Merge; hide Rows;
  }

  lemma FieldUsable(m: Mapping, name: string)
    requires Printed(m) && Complete(Slots(m), REQUIRED) && name in REQUIRED
    ensures Required(FieldsOfSlots(Slots(m)), name).None?
  {
    hide Complete; hide Printed; hide FieldsOfSlots; hide Slots; hide TextOf; hide Merge; hide Lower; hide IsInlineKey; hide GetField;
    PrintedMerges(m);
    RequiredShown(m, name);
    GetNamed(m, name);
    TextLines(m, Lower(name));
    LowerSpellings();
  }

  lemma ValuesRead(m: Mapping, name: string)
    requires Printed(m) && IsName(name) && name != "Signed-By"
    ensures ValuesOf(FieldsOfSlots(Slots(m)), name) == Values(m, Lower(name))
    ensures var f := GetField(FieldsOfSlots(Slots(m)), name); var t := TextOf(m, Lower(name));
      f.Some? == t.Some? && (f.Some? ==> f.value.first == t.value)
  {
    hide Printed; hide FieldsOfSlots; hide Slots; hide TextOf; hide Merge; hide Lower; hide IsInlineKey; hide GetField; hide Words;
    PrintedMerges(m);
    GetNamed(m, name);
    if TextOf(m, Lower(name)).Some? {
      TextLines(m, Lower(name));
    }
    LowerSpellings();
  }

  lemma SignedRead(m: Mapping)
    requires Printed(m)
    ensures SignedByOf(GetField(FieldsOfSlots(Slots(m)), "Signed-By")) ==
      match TextOf(m, "signed-by") case None => None case Some(t) => Some(SignedText(t))
  {
    hide Printed; hide FieldsOfSlots; hide Slots; hide TextOf; hide Merge; hide Lower; hide IsInlineKey; hide GetField; hide Strip; hide PyLines; hide Join; hide Trim;
    PrintedMerges(m);
    GetNamed(m, "Signed-By");
    LowerSpellings();
    if TextOf(m, "signed-by").Some? {
      var t := TextOf(m, "signed-by").value;
      TextLines(m, "signed-by");
      TrimEmpty();
      if '\n' in t {
        KeyHasText(t);
        LinesOfText(Strip(t));
      }
    }
  }

  lemma TrimEmpty()
    ensures Trim("") == ""
  {
  }

  lemma LinesOfText(s: string)
    requires s != ""
    ensures PyLines(s) != []
  {
  }

  lemma PassRead(m: Mapping)
    requires Printed(m)
    ensures FieldsInForce(Passthrough(FieldsOfSlots(Slots(m))), m) && DistinctKeys(Passthrough(FieldsOfSlots(Slots(m))))
  {
    hide Printed; hide FieldsOfSlots; hide Slots; hide TextOf; hide Merge; hide Lower; hide DistinctFields; hide Passthrough; hide Lookup; hide FindField; hide DistinctKeys; hide Sound; hide Unmodelled;
    PrintedMerges(m);
    SlotsExact(m);
    var fs := FieldsOfSlots(Slots(m));
    FieldsDistinct(Slots(m));
    forall name: string ensures Lookup(Passthrough(fs), name) == Unmodelled(m, name) {
      PassFind(fs, name);
      FieldsFind(Slots(m), name);
      PassOne(m, name);
    }
    PassFind(fs, "");
  }

  lemma PassOne(m: Mapping, name: string)
    requires Printed(m) && Merge([], m).Some?
    ensures Unmodelled(m, name) == if IsKnown(name) || FieldFor(Slots(m), name).None? then None else Some(PassText(FieldFor(Slots(m), name).value))
  {
    hide Slots; hide Merge; hide Lower; hide Sound; hide IsInlineKey; hide Printed; hide Show; hide Canonical; hide InForce; hide PassText;
    SlotsExact(m);
    var key := Lower(name);
    if !IsKnown(name) && InForce(m, key).Some? {
      TextPrinted(m, key);
      if TextOf(m, key).Some? {
        TextLines(m, key);
        PlainPasses(name, TextOf(m, key).value);
      }
    }
  }

  lemma PlainPasses(name: string, t: string)
    requires '\n' !in t
    ensures PassText(FieldOfText(name, t)) == t
  {
    assert [t] + UnstuffAll([]) == [t];
  }

  /** The stanza of a printed mapping is read as the entry holding what is in force. */
  lemma EntryMerged(m: Mapping)
    requires Printed(m) && Complete(Slots(m), REQUIRED)
    ensures StanzaToEntry(FieldsOfSlots(Slots(m))).Ok? && Merged(StanzaToEntry(FieldsOfSlots(Slots(m))).value, m)
  {
    hide Printed; hide FieldsOfSlots; hide Slots; hide TextOf; hide Merge; hide Lower; hide GetField; hide StanzaProblem; hide Complete;
    hide Passthrough; hide FieldsInForce; hide DistinctKeys; hide Trim; hide ValuesOf; hide Values; hide SignedText; hide SignedByOf; hide Words;
    EntryUsable(m);
    LowerSpellings();
    ValuesRead(m, "Types");
    ValuesRead(m, "URIs");
    ValuesRead(m, "Suites");
    ValuesRead(m, "Components");
    ArchRead(m);
    ValuesRead(m, "Trusted");
    ValuesRead(m, "Enabled");
    SignedRead(m);
    PassRead(m);
  }

  lemma ArchRead(m: Mapping)
    requires Printed(m)
    ensures ArchOf(GetField(FieldsOfSlots(Slots(m)), "Architectures")) ==
      if TextOf(m, "architectures").None? then None else Some(Values(m, "architectures"))
  {
    hide Printed; hide FieldsOfSlots; hide Slots; hide TextOf; hide Merge; hide Lower; hide GetField; hide Words;
    LowerSpellings();
    ValuesRead(m, "Architectures");
  }

  // ------------------------------------------------------------- the whole text

  lemma {:induction false} FindSelf(slots: seq<Slot>, s: Slot)
    requires DistinctSlots(slots) && s in slots
    ensures FindSlot(slots, s.key) == Some(s)
  {
    if s != slots[0] {
      assert forall i :: 0 <= i < |slots| - 1 ==> slots[1..][i] == slots[i + 1];
      FindSelf(slots[1..], s);
    }
  }

  /** Every slot is that of an item in force. */
  lemma SlotInForce(m: Mapping, s: Slot)
    requires Merge([], m).Some? && s in Slots(m)
    ensures SlotSound(s) && InForce(m, s.key).Some? && s == SlotOf(InForce(m, s.key).value)
  {
    hide SlotSound; hide Slots; hide SlotOf; hide InForce;
    SlotsExact(m);
    FindSelf(Slots(m), s);
  }

  lemma SlotsReadable(m: Mapping)
    requires Merge([], m).Some? && MappingAscii(m)
    ensures Readable(Slots(m))
  {
    hide SlotSound; hide Slots; hide ValueAscii; hide InForce; hide Merge; hide Canonical;
    forall i | 0 <= i < |Slots(m)| ensures SlotSound(Slots(m)[i]) && ValueAscii(Slots(m)[i].value) {
      var s := Slots(m)[i];
      SlotInForce(m, s);
      InForceNamed(m, s.key);
    }
  }

  /** Only a keyblock can fail to be read. */
  lemma FitsExactly(m: Mapping)
    requires Printed(m)
    ensures (forall i :: 0 <= i < |Slots(m)| ==> SlotFits(Slots(m)[i])) <==> Fits(m)
  {
    hide Slots; hide InForce; hide KeyFits; hide Show; hide Canonical; hide SlotSound; hide Merge; hide IsInlineKey; hide Rows; hide Printed;
    PrintedMerges(m);
    if TextOf(m, "signed-by").Some? {
      TextPrinted(m, "signed-by");
    }
    if Fits(m) {
      forall i | 0 <= i < |Slots(m)| ensures SlotFits(Slots(m)[i]) {
        var s := Slots(m)[i];
        SlotInForce(m, s);
        if TextOf(m, s.key).Some? {
          TextLines(m, s.key);
          PlainFits(TextOf(m, s.key).value);
        }
      }
    }
  }

  lemma PlainFits(t: string)
    ensures '\n' !in t ==> KeyFits(t)
  {
  }

  lemma {:induction false} PyLinesClean(s: string)
    ensures CleanLines(PyLines(s))
    decreases |s|
  {
    if s != "" {
      var n := FindBreak(s);
      if n < |s| {
        PyLinesClean(s[n + 1..]);
      }
    }
  }

  lemma RowClean(s: Slot)
    requires SlotSound(s) && Row(s).Some?
    ensures CleanLines(Row(s).value)
  {
    hide SlotSound; hide Show; hide IsInlineKey; hide PyLines; hide Strip;
    NameIsKey(s);
    match Show(s.key, s.value)
    case Skipped =>
    case Text(text) =>
      if '\n' in text {
        PyLinesClean(Strip(text));
        AptRoundTrip.CleanStuffed(PyLines(Strip(text)));
        hide CleanLines; hide StuffAll;
        CleanAppend([s.name + ":"], StuffAll(PyLines(Strip(text))));
      } else {
        AptRoundTrip.CleanOne(s.name, text);
      }
  }

  lemma {:induction false} RowsClean(slots: seq<Slot>)
    requires Rows(slots).Some? && forall i :: 0 <= i < |slots| ==> SlotSound(slots[i])
    ensures CleanLines(Rows(slots).value)
  {
    hide SlotSound; hide Row; hide CleanLines;
    if slots == [] {
      NoLinesClean();
    } else {
      RowsStep(slots);
      RowClean(slots[0]);
      RowsClean(slots[1..]);
      CleanAppend(Row(slots[0]).value, Rows(slots[1..]).value);
    }
  }

  lemma NoLinesClean()
    ensures CleanLines([])
  {
  }

  /** The mapping is printed: its names and values are accepted and nothing required lacks. */
  predicate Stands(m: Mapping) {
    Printed(m) && Complete(Slots(m), REQUIRED)
  }

  function Lines(m: Mapping): seq<string>
    requires Stands(m)
  {
    Rows(Slots(m)).value
  }

  lemma StanzaStands(spec: Mapping, base: Mapping)
    ensures Stanza(spec, base, REQUIRED).Some? <==> Stands(base + spec)
    ensures Stands(base + spec) ==> Stanza(spec, base, REQUIRED) == Some(Lines(base + spec))
  {
    hide Merge; hide Rows; hide Complete;
    MergeAppend([], base, spec);
  }

  predicate AllStand(specs: seq<Mapping>, base: Mapping) {
    forall i :: 0 <= i < |specs| ==> Stands(base + specs[i])
  }

  lemma StandsTail(specs: seq<Mapping>, base: Mapping)
    requires specs != []
    ensures AllStand(specs, base) <==> Stands(base + specs[0]) && AllStand(specs[1..], base)
  {
    hide Stands;
    assert forall i :: 1 <= i < |specs| ==> specs[i] == specs[1..][i - 1];
    assert forall i :: 0 <= i < |specs| - 1 ==> specs[1..][i] == specs[i + 1];
  }

  function Body(specs: seq<Mapping>, base: Mapping): seq<string>
    requires AllStand(specs, base)
  {
    if specs == [] then []
    else
      StandsTail(specs, base);
      Lines(base + specs[0]) + [""] + Body(specs[1..], base)
  }

  lemma LinesStand(m: Mapping)
    requires Stands(m)
    ensures CleanLines(Lines(m)) && Lines(m) != []
  {
    hide Rows; hide Merge; hide Slots; hide SlotSound; hide CleanLines; hide Complete; hide Canonical; hide Lower; hide Row;
    forall i | 0 <= i < |Slots(m)| ensures SlotSound(Slots(m)[i]) {
      SlotInForce(m, Slots(m)[i]);
    }
    RowsClean(Slots(m));
    assert REQUIRED[0] == "Types";
    RequiredShown(m, "Types");
    LowerSpellings();
    TextPrinted(m, "types");
    var s := SlotOf(InForce(m, "types").value);
    RowThere(m, s);
  }

  lemma RowThere(m: Mapping, s: Slot)
    requires Stands(m) && s in Slots(m) && Row(s).Some? && Show(s.key, s.value).Text?
    ensures Lines(m) != []
  {
    hide Slots; hide Merge; hide Show; hide IsInlineKey; hide Strip; hide PyLines; hide Rows; hide Complete;
    assert Row(s).value != [];
    hide Row;
    RowNotLost(Slots(m), s);
  }

  lemma {:induction false} RowNotLost(slots: seq<Slot>, s: Slot)
    requires Rows(slots).Some? && s in slots && Row(s).Some? && Row(s).value != []
    ensures Rows(slots).value != []
  {
    hide Row;
    RowsStep(slots);
    if s != slots[0] {
      RowNotLost(slots[1..], s);
    }
  }

  lemma {:induction false} TextBody(specs: seq<Mapping>, base: Mapping)
    requires specs != []
    ensures StanzaTexts(specs, base).Some? <==> AllStand(specs, base)
    ensures AllStand(specs, base) ==> StanzaTexts(specs, base).value != []
    ensures AllStand(specs, base) ==> Split(Join(StanzaTexts(specs, base).value, "\n\n") + "\n", '\n') == Body(specs, base)
    decreases |specs|
  {
    hide Stanza; hide Stands; hide Lines; hide CleanLines; hide Split; hide Join; hide AllStand;
    StanzaStands(specs[0], base);
    StandsTail(specs, base);
    if |specs| == 1 {
      assert specs[1..] == [];
      NoneStand(base);
      if Stands(base + specs[0]) {
        LinesStand(base + specs[0]);
        AptRoundTrip.LastStanza(Lines(base + specs[0]));
        JoinCons(Join(Lines(base + specs[0]), "\n"), [], "\n\n");
      }
    } else {
      TextBody(specs[1..], base);
      if AllStand(specs, base) {
        var lines := Lines(base + specs[0]);
        var tail := StanzaTexts(specs[1..], base).value;
        LinesStand(base + specs[0]);
        AptRoundTrip.NextStanza(lines, Join(tail, "\n\n") + "\n");
        JoinCons(Join(lines, "\n"), tail, "\n\n");
        Assoc(Join(lines, "\n") + "\n\n", Join(tail, "\n\n"), "\n");
      }
    }
  }

  lemma NoneStand(base: Mapping)
    ensures AllStand([], base)
  {
  }

  // -------------------------------------------------------------------- main result

  lemma StanzaFields(m: Mapping)
    requires Stands(m) && MappingAscii(m) && Fits(m)
    ensures ReadStanza(Lines(m), []) == Some(FieldsOfSlots(Slots(m))) && FieldsOfSlots(Slots(m)) != []
  {
    hide Rows; hide Slots; hide Merge; hide Readable; hide SlotFits; hide Complete; hide FieldsOfSlots; hide ReadStanza; hide Fits; hide MappingAscii;
    SlotsReadable(m);
    FitsExactly(m);
    RowsRead(Slots(m), []);
    var fs := FieldsOfSlots(Slots(m));
    assert [] + fs == fs;
    assert REQUIRED[0] == "Types";
    FieldUsable(m, "Types");
    hide Lower;
    assert fs == [] ==> GetField(fs, "Types").None?;
  }

  lemma StanzaFails(m: Mapping, rest: seq<string>)
    requires Stands(m) && MappingAscii(m) && !Fits(m)
    ensures Sources(Lines(m) + [""] + rest, []) == None
  {
    hide Rows; hide Slots; hide Merge; hide Readable; hide SlotFits; hide Complete; hide Sources; hide Fits; hide MappingAscii;
    SlotsReadable(m);
    FitsExactly(m);
    RowsFail(Slots(m), [""] + rest, []);
    assert Lines(m) + [""] + rest == Lines(m) + ([""] + rest);
  }

  predicate AllFit(specs: seq<Mapping>, base: Mapping) {
    forall i :: 0 <= i < |specs| ==> Fits(base + specs[i])
  }

  predicate AllAscii(specs: seq<Mapping>, base: Mapping) {
    forall i :: 0 <= i < |specs| ==> MappingAscii(base + specs[i])
  }

  ghost predicate AllMerged(es: seq<Entry>, specs: seq<Mapping>, base: Mapping) {
    |es| == |specs| && forall i :: 0 <= i < |specs| ==> Merged(es[i], base + specs[i])
  }

  lemma AllTail(specs: seq<Mapping>, base: Mapping)
    requires specs != []
    ensures AllFit(specs, base) <==> Fits(base + specs[0]) && AllFit(specs[1..], base)
    ensures AllAscii(specs, base) <==> MappingAscii(base + specs[0]) && AllAscii(specs[1..], base)
  {
    hide Fits; hide MappingAscii;
    assert forall i :: 1 <= i < |specs| ==> specs[i] == specs[1..][i - 1];
    assert forall i :: 0 <= i < |specs| - 1 ==> specs[1..][i] == specs[i + 1];
  }

  lemma MergedCons(e: Entry, es: seq<Entry>, specs: seq<Mapping>, base: Mapping)
    requires specs != [] && Merged(e, base + specs[0]) && AllMerged(es, specs[1..], base)
    ensures AllMerged([e] + es, specs, base)
  {
    hide Merged;
    forall i | 0 <= i < |specs| ensures Merged(([e] + es)[i], base + specs[i]) {
      if i > 0 {
        assert specs[i] == specs[1..][i - 1] && ([e] + es)[i] == es[i - 1];
      }
    }
  }

  lemma {:induction false} BodyReads(specs: seq<Mapping>, base: Mapping)
    requires AllStand(specs, base) && AllAscii(specs, base)
    ensures Sources(Body(specs, base), []).Some? <==> AllFit(specs, base)
    ensures AllFit(specs, base) ==> AllMerged(Sources(Body(specs, base), []).value, specs, base)
    decreases |specs|
  {
    hide Stands; hide Lines; hide Fits; hide MappingAscii; hide Sources; hide Merged; hide AllStand; hide AllFit; hide AllAscii; hide AllMerged; hide ReadStanza; hide FieldsOfSlots; hide StanzaToEntry; hide Slots;
    if specs == [] {
      NothingReads(base);
    } else {
      StandsTail(specs, base);
      AllTail(specs, base);
      var m := base + specs[0];
      BodyReads(specs[1..], base);
      var rest := Body(specs[1..], base);
      if Fits(m) {
        StanzaFields(m);
        StandsEntry(m);
        StanzaEnds(Lines(m), rest);
        if AllFit(specs, base) {
          MergedCons(StanzaToEntry(FieldsOfSlots(Slots(m))).value, Sources(rest, []).value, specs, base);
        }
      } else {
        StanzaFails(m, rest);
      }
    }
  }

  lemma StandsEntry(m: Mapping)
    requires Stands(m)
    ensures Merge([], m).Some?
    ensures StanzaToEntry(FieldsOfSlots(Slots(m))).Ok? && Merged(StanzaToEntry(FieldsOfSlots(Slots(m))).value, m)
  {
    hide Slots; hide Merged; hide FieldsOfSlots; hide StanzaToEntry; hide Complete; hide Rows; hide Merge;
    EntryMerged(m);
  }

  lemma NothingReads(base: Mapping)
    ensures Sources([], []) == Some([]) && AllFit([], base) && AllMerged([], [], base)
  {
  }

  /** What the printer writes from ASCII mappings is parsed exactly when no line inside a
      keyblock is white space only; then there is one entry per mapping, with what is in force. */
  lemma PrintedReads(specs: seq<Mapping>, defaults: Mapping, signedBy: string)
    requires Print(specs, defaults, signedBy).Some? && AllAscii(specs, Base(defaults, signedBy))
    ensures var r := Deb822Entries(Print(specs, defaults, signedBy).value);
      var base := Base(defaults, signedBy);
      (r.Ok? <==> AllFit(specs, base)) && (r.Ok? ==> AllMerged(r.value, specs, base))
  {
    hide StanzaTexts; hide Base; hide AllStand; hide AllAscii; hide Body; hide Join; hide Split; hide ParseStanzas; hide AllFit; hide AllMerged;
    var base := Base(defaults, signedBy);
    TextBody(specs, base);
    BodyReads(specs, base);
    NumbersOnlyInErrors(Body(specs, base), [], 1, 0);
  }

  // ------------------------------------------------------- which mappings are printed

  predicate NoReturn(s: string) { '\r' !in s }

  /** A part of a list: a flag, a number, or a text on one line. */
  predicate PartAccepted(p: Scalar) {
    match p
    case Flag(_) => true
    case Num(_) => true
    case Str(s) => '\n' !in s && NoReturn(s)
    case _ => false
  }

  /** The values a field may have: nothing, flags, numbers, one-line texts, lists of those three,
      and for Signed-By a public key block. */
  predicate Accepted(key: string, v: Value) {
    match v
    case Items(ps) => forall i :: 0 <= i < |ps| ==> PartAccepted(ps[i])
    case One(Str(s)) => NoReturn(s) && ('\n' in s ==> key == "signed-by" && IsInlineKey(s))
    case One(Other) => false
    case One(_) => true
  }

  /** Valid names, nothing required lacking, and no value in force that is refused. */
  predicate Presentable(m: Mapping) {
    && (forall i :: 0 <= i < |m| ==> IsFieldName(m[i].0))
    && (forall i :: 0 <= i < |m| && InForce(m, Lower(m[i].0)) == Some(m[i]) ==> Accepted(Lower(m[i].0), m[i].1))
    && (forall k :: 0 <= k < |REQUIRED| ==> InForce(m, Lower(REQUIRED[k])).Some? && !Lacking(InForce(m, Lower(REQUIRED[k])).value.1))
  }

  lemma NumberPlain(n: int)
    ensures '\n' !in Number(n) && '\r' !in Number(n)
  {
    hide AptScheme.Decimal;
    var d := AptScheme.Decimal(if n < 0 then -n else n);
    assert forall i :: 0 <= i < |d| ==> AptScheme.IsDigit(d[i]);
    assert '\n' !in d && '\r' !in d;
  }

  lemma PartPlain(p: Scalar)
    ensures PartText(p).Some? && '\r' !in PartText(p).value <==> PartAccepted(p)
    ensures PartText(p).Some? ==> '\n' !in PartText(p).value
  {
    if p.Num? {
      NumberPlain(p.n);
    }
    hide Number;
  }

  lemma {:induction false} PartsPlain(ps: seq<Scalar>)
    ensures PartTexts(ps).Some? ==> '\n' !in Join(PartTexts(ps).value, " ") && |PartTexts(ps).value| == |ps|
    ensures PartTexts(ps).Some? && '\r' !in Join(PartTexts(ps).value, " ") <==> forall i :: 0 <= i < |ps| ==> PartAccepted(ps[i])
  {
    hide PartText; hide PartAccepted;
    if ps != [] {
      PartPlain(ps[0]);
      PartsPlain(ps[1..]);
      assert forall i :: 1 <= i < |ps| ==> ps[i] == ps[1..][i - 1];
      if PartTexts(ps).Some? {
        var t, rest := PartText(ps[0]).value, PartTexts(ps[1..]).value;
        JoinCons(t, rest, " ");
        hide Join; hide PartTexts;
      }
    }
  }

  /** A row is refused for a value that is not accepted, and for no other reason. */
  lemma RowExactly(s: Slot)
    ensures Row(s).Some? <==> Accepted(s.key, s.value)
  {
    hide IsInlineKey; hide PartAccepted; hide Number; hide Join; hide PyLines; hide Strip; hide PartTexts;
    match s.value
    case Items(ps) => PartsPlain(ps);
    case One(scalar) =>
      if scalar.Num? {
        NumberPlain(scalar.n);
      }
  }

  lemma {:induction false} RowsExactly(slots: seq<Slot>)
    ensures Rows(slots).Some? <==> forall i :: 0 <= i < |slots| ==> Accepted(slots[i].key, slots[i].value)
  {
    hide Row; hide Accepted;
    if slots != [] {
      RowExactly(slots[0]);
      RowsExactly(slots[1..]);
      assert forall i :: 1 <= i < |slots| ==> slots[i] == slots[1..][i - 1];
    }
  }

  lemma ForcedSlot(m: Mapping, key: string)
    requires Merge([], m).Some? && InForce(m, key).Some?
    ensures SlotOf(InForce(m, key).value) in Slots(m) && SlotOf(InForce(m, key).value).key == key
  {
    hide SlotOf; hide Slots; hide InForce; hide Merge; hide Sound;
    SlotsExact(m);
    FindSlotExact(Slots(m), key);
  }

  lemma SlotsAccepted(m: Mapping)
    requires Merge([], m).Some?
    ensures (forall i :: 0 <= i < |Slots(m)| ==> Accepted(Slots(m)[i].key, Slots(m)[i].value))
      <==> forall i :: 0 <= i < |m| && InForce(m, Lower(m[i].0)) == Some(m[i]) ==> Accepted(Lower(m[i].0), m[i].1)
  {
    hide Accepted; hide Slots; hide InForce; hide Merge; hide Lower; hide Canonical; hide SlotSound;
    forall i | 0 <= i < |m| && InForce(m, Lower(m[i].0)) == Some(m[i])
      ensures SlotOf(m[i]) in Slots(m) && SlotOf(m[i]).key == Lower(m[i].0)
    {
      ForcedSlot(m, Lower(m[i].0));
    }
    forall k | 0 <= k < |Slots(m)|
      ensures exists i :: 0 <= i < |m| && InForce(m, Lower(m[i].0)) == Some(m[i]) && Slots(m)[k] == SlotOf(m[i]) && Lower(m[i].0) == Slots(m)[k].key
    {
      var s := Slots(m)[k];
      SlotInForce(m, s);
      InForceNamed(m, s.key);
      var item := InForce(m, s.key).value;
      var i :| 0 <= i < |m| && m[i] == item;
    }
  }

  lemma CompleteExactly(m: Mapping)
    requires Merge([], m).Some?
    ensures Complete(Slots(m), REQUIRED) <==>
      forall k :: 0 <= k < |REQUIRED| ==> InForce(m, Lower(REQUIRED[k])).Some? && !Lacking(InForce(m, Lower(REQUIRED[k])).value.1)
  {
    hide Slots; hide InForce; hide Merge; hide Lower; hide Canonical; hide Lacking; hide FindSlot; hide Sound;
    SlotsExact(m);
  }

  lemma StandsExactly(m: Mapping)
    ensures Stands(m) <==> Presentable(m)
  {
    hide Complete; hide Accepted; hide InForce; hide Lacking; hide IsFieldName; hide Rows; hide Lower; hide Slots; hide Merge;
    MergeNames(m);
    if Merge([], m).Some? {
      RowsExactly(Slots(m));
      SlotsAccepted(m);
      CompleteExactly(m);
    }
  }

  lemma MergeNames(m: Mapping)
    ensures Merge([], m).Some? <==> forall i :: 0 <= i < |m| ==> IsFieldName(m[i].0)
  {
    hide Merge; hide IsFieldName;
    MergeExact([], m);
  }

  /** Printing succeeds exactly for a non-empty list of mappings that, put over the base, have
      valid names, everything required, and no refused value in force. */
  lemma PrintedExactly(specs: seq<Mapping>, defaults: Mapping, signedBy: string)
    ensures Print(specs, defaults, signedBy).Some? <==>
      specs != [] && forall i :: 0 <= i < |specs| ==> Presentable(Base(defaults, signedBy) + specs[i])
  {
    hide StanzaTexts; hide Base; hide Body; hide Join; hide Split; hide Stands; hide Presentable;
    if specs != [] {
      TextBody(specs, Base(defaults, signedBy));
      forall i | 0 <= i < |specs| ensures Stands(Base(defaults, signedBy) + specs[i]) == Presentable(Base(defaults, signedBy) + specs[i]) {
        StandsExactly(Base(defaults, signedBy) + specs[i]);
      }
    }
  }

  // ---------------------------------------------------------- what the base holds

  predicate DistinctNames(m: Mapping) {
    forall i, j :: 0 <= i < j < |m| ==> m[i].0 != m[j].0
  }

  predicate Unnamed(m: Mapping, name: string) {
    forall i :: 0 <= i < |m| ==> m[i].0 != name
  }

  /** The items under other names than `Types`, and the value of `Types` itself. */
  function Others(m: Mapping): Mapping {
    if m == [] then [] else (if m[0].0 == "Types" then [] else [m[0]]) + Others(m[1..])
  }

  function TypesIn(m: Mapping, x: Value): Value {
    if m == [] then x else TypesIn(m[1..], if m[0].0 == "Types" then m[0].1 else x)
  }

  lemma {:induction false} UpdateNew(m: Mapping, name: string, v: Value)
    requires Unnamed(m, name)
    ensures Update(m, name, v) == m + [(name, v)]
  {
    if m != [] {
      assert forall i :: 0 <= i < |m| - 1 ==> m[1..][i] == m[i + 1];
      UpdateNew(m[1..], name, v);
    }
  }

  lemma {:induction false} UpdateAllTypes(x: Value, o: Mapping, more: Mapping)
    requires DistinctNames(more) && Unnamed(o, "Types") && forall i :: 0 <= i < |more| ==> Unnamed(o, more[i].0)
    ensures UpdateAll([("Types", x)] + o, more) == [("Types", TypesIn(more, x))] + (o + Others(more))
    decreases |more|
  {
    if more == [] {
      assert o + [] == o;
    } else {
      var name, v := more[0].0, more[0].1;
      var m := [("Types", x)] + o;
      assert m[1..] == o;
      assert forall i :: 0 <= i < |more| - 1 ==> more[1..][i] == more[i + 1];
      if name == "Types" {
        assert Update(m, name, v) == [("Types", v)] + o;
        UpdateAllTypes(v, o, more[1..]);
        assert [] + Others(more[1..]) == Others(more[1..]);
      } else {
        UpdateNew(o, name, v);
        assert Update(m, name, v) == [("Types", x)] + (o + [more[0]]);
        UpdateAllTypes(x, o + [more[0]], more[1..]);
        Assoc(o, [more[0]], Others(more[1..]));
      }
    }
  }

  lemma LowerTypes()
    ensures Lower("Types") == "types"
  {
    hide Lower;
    LowerIs("Types", "types");
  }

  lemma {:induction false} OthersInForce(m: Mapping, key: string)
    requires key != "types"
    ensures InForce(Others(m), key) == InForce(m, key)
  {
    hide Lower;
    if m != [] {
      OthersInForce(m[1..], key);
      LowerTypes();
      OthersStep(m);
    }
  }

  lemma OthersStep(m: Mapping)
    requires m != []
    ensures Others(m) == if m[0].0 == "Types" then Others(m[1..]) else [m[0]] + Others(m[1..])
    ensures m[0].0 != "Types" ==> Others(m)[1..] == Others(m[1..])
  {
    assert [] + Others(m[1..]) == Others(m[1..]);
  }

  /** The exact spelling comes last in the defaults, after another one with another value: what
      the merge puts first in the base. */
  predicate Displaced(m: Mapping) {
    var t, u := InForce(m, "types"), InForce(Others(m), "types");
    t.Some? && t.value.0 == "Types" && u.Some? && u.value.1 != t.value.1
  }

  /** The value of an item, whatever its spelling. */
  function Valued(item: Option<(string, Value)>): Option<Value> {
    if item.Some? then Some(item.value.1) else None
  }

  lemma DistinctTail(m: Mapping)
    requires DistinctNames(m) && m != []
    ensures DistinctNames(m[1..]) && forall item :: item in m[1..] ==> item.0 != m[0].0
  {
    var rest := m[1..];
    assert forall i :: 0 <= i < |rest| ==> rest[i] == m[i + 1];
  }

  /** The item in force among all items, and among those not spelled exactly `Types`. */
  predicate TypesSettled(m: Mapping, x: Value, t: Option<(string, Value)>, u: Option<(string, Value)>) {
    && (t.None? ==> u.None? && TypesIn(m, x) == x)
    && (t.Some? && t.value.0 == "Types" ==> TypesIn(m, x) == t.value.1)
    && (t.Some? && t.value.0 != "Types" ==> u == t)
    && (u.Some? ==> u.value.0 != "Types")
  }

  lemma {:induction false} TypesInForce(m: Mapping, x: Value)
    requires DistinctNames(m)
    ensures TypesSettled(m, x, InForce(m, "types"), InForce(Others(m), "types"))
  {
    hide Lower; hide Others; hide DistinctNames;
    if m == [] {
      NoOthers();
    } else {
      LowerTypes();
      DistinctTail(m);
      InForceNamed(m[1..], "types");
      OthersStep(m);
      TypesInForce(m[1..], if m[0].0 == "Types" then m[0].1 else x);
    }
  }

  lemma NoOthers()
    ensures Others([]) == []
  {
  }

  lemma {:induction false} UpdateSigned(m: Mapping, v: Value)
    requires !HasSignedBy(m)
    ensures Update(m, "Signed-By", v) == m + [("Signed-By", v)]
  {
    LowerSpellings();
    hide Lower;
    hide Update;
    UpdateNew(m, "Signed-By", v);
  }

  /** What a stanza should fall back to: the defaults by name whatever its case, else `Types: deb`
      and the acquired key. */
  function Fallback(defaults: Mapping, signedBy: string, key: string): Option<(string, Value)> {
    if InForce(defaults, key).Some? then InForce(defaults, key)
    else if key == "types" then Some(("Types", One(Str("deb"))))
    else if key == "signed-by" && signedBy != "" then Some(("Signed-By", One(Str(signedBy))))
    else None
  }

  /** It does for every name, except for the value of Types when the defaults spell it exactly so
      last, after another spelling with another value. */
  lemma BaseExact(defaults: Mapping, signedBy: string, key: string)
    requires DistinctNames(defaults)
    ensures Valued(InForce(Base(defaults, signedBy), key)) == Valued(Fallback(defaults, signedBy, key))
      <==> !(key == "types" && Displaced(defaults))
    ensures key != "types" ==> InForce(Base(defaults, signedBy), key) == Fallback(defaults, signedBy, key)
  {
    hide Lower; hide InForce; hide Others; hide TypesIn; hide UpdateAll; hide Update; hide DistinctNames; hide Displaced;
    LowerSpellings();
    var deb := One(Str("deb"));
    assert [("Types", deb)] + [] == [("Types", deb)];
    UpdateAllTypes(deb, [], defaults);
    assert [] + Others(defaults) == Others(defaults);
    var m := UpdateAll([("Types", deb)], defaults);
    MergedDefaults(defaults, deb, key);
    MergedDefaults(defaults, deb, "signed-by");
    InForceNamed(m, "signed-by");
    if signedBy != "" && !HasSignedBy(m) {
      UpdateSigned(m, One(Str(signedBy)));
      InForceAppend(m, [("Signed-By", One(Str(signedBy)))], key);
      InForceOne("Signed-By", One(Str(signedBy)), key);
    }
  }

  /** The defaults put over one built-in item. */
  function Settled(defaults: Mapping, x: Value, key: string): Option<(string, Value)> {
    if InForce(defaults, key).Some? then InForce(defaults, key) else if key == "types" then Some(("Types", x)) else None
  }

  lemma MergedDefaults(defaults: Mapping, x: Value, key: string)
    requires DistinctNames(defaults)
    ensures Valued(InForce([("Types", TypesIn(defaults, x))] + Others(defaults), key)) == Valued(Settled(defaults, x, key))
      <==> !(key == "types" && Displaced(defaults))
    ensures InForce([("Types", TypesIn(defaults, x))] + Others(defaults), key).Some? <==> Settled(defaults, x, key).Some?
    ensures key != "types" ==> InForce([("Types", TypesIn(defaults, x))] + Others(defaults), key) == Settled(defaults, x, key)
  {
    hide Lower; hide InForce; hide Others; hide TypesIn; hide DistinctNames;
    LowerTypes();
    InForceAppend([("Types", TypesIn(defaults, x))], Others(defaults), key);
    InForceOne("Types", TypesIn(defaults, x), key);
    if key == "types" {
      TypesInForce(defaults, x);
    } else {
      OthersInForce(defaults, key);
    }
  }

  /** With two spellings of Types the exact one takes the place of the built-in default, so that
      it is not the later one that stays in force. */
  lemma TwoSpellings(a: Value, b: Value)
    ensures var defaults := [("types", a), ("Types", b)];
      InForce(defaults, "types") == Some(("Types", b)) && InForce(Base(defaults, ""), "types") == Some(("types", a))
  {
    hide Lower; hide UpdateAll; hide Others; hide TypesIn; hide InForce; hide Update;
    LowerTypes();
    LowerIs("types", "types");
    var deb, defaults := One(Str("deb")), [("types", a), ("Types", b)];
    assert defaults == [("types", a)] + [("Types", b)];
    InForceAppend([("types", a)], [("Types", b)], "types");
    InForceOne("Types", b, "types");
    InForceOne("types", a, "types");
    assert [("Types", deb)] + [] == [("Types", deb)];
    UpdateAllTypes(deb, [], defaults);
    TwoItems(a, b, deb);
    InForceAppend([("Types", b)], [("types", a)], "types");
    assert [] + [("types", a)] == [("types", a)];
  }

  lemma TwoItems(a: Value, b: Value, x: Value)
    ensures Others([("types", a), ("Types", b)]) == [("types", a)] && TypesIn([("types", a), ("Types", b)], x) == b
  {
    var m := [("types", a), ("Types", b)];
    assert m[1..] == [("Types", b)] && [("Types", b)][1..] == [];
    hide Others;
    OthersStep(m);
    OthersStep([("Types", b)]);
    NoOthers();
    assert [("types", a)] + [] == [("types", a)];
    assert TypesIn([("Types", b)], x) == TypesIn([("Types", b)][1..], b) == b;
    assert m[0].0 == "types" && m[0].0[0] == 't' && m[0].0 != "Types";
  }

  // ------------------------------------------------------------- keyblocks read back

  lemma UnstuffStuffed(l: string)
    ensures Unstuff(Stuff(l)) == if l == "." then "" else l
  {
    var body := if l == "" then "." else l;
    assert Stuff(l)[1..] == body;
  }

  predicate NoDots(ls: seq<string>) {
    forall i :: 0 <= i < |ls| ==> ls[i] != "."
  }

  predicate FeedsOnly(s: string) {
    forall i :: 0 <= i < |s| && IsBreak(s[i]) ==> s[i] == '\n'
  }

  /** No line is just a dot, and lines break at line feeds only. */
  predicate Plain(s: string) {
    NoDots(PyLines(s)) && FeedsOnly(s)
  }

  lemma FeedsFirst(s: string, n: nat)
    requires n == FindBreak(s) && n < |s|
    ensures FeedsOnly(s) <==> s[n] == '\n' && FeedsOnly(s[n + 1..])
  {
    hide FindBreak;
    var rest := s[n + 1..];
    assert forall i :: 0 <= i < |rest| ==> rest[i] == s[i + n + 1];
    if s[n] == '\n' && FeedsOnly(rest) {
      forall i | 0 <= i < |s| && IsBreak(s[i]) ensures s[i] == '\n' {
        if i > n {
          assert s[i] == rest[i - n - 1];
        }
      }
    }
  }

  lemma DotsFirst(l: string, tail: seq<string>)
    ensures NoDots([l] + tail) <==> l != "." && NoDots(tail)
  {
    var ls := [l] + tail;
    assert ls[0] == l;
    forall i | 0 <= i < |tail| ensures tail[i] == ls[i + 1] {
    }
    assert NoDots(ls) ==> NoDots(tail);
    forall i | 0 <= i < |ls| ensures ls[i] == if i == 0 then l else tail[i - 1] {
    }
  }

  lemma FirstBreak(s: string, n: nat)
    requires n == FindBreak(s) && n < |s|
    ensures Plain(s) <==> s[..n] != "." && s[n] == '\n' && Plain(s[n + 1..])
    ensures s == s[..n] + [s[n]] + s[n + 1..]
  {
    hide NoDots; hide FeedsOnly; hide FindBreak; hide PyLines; hide IsBreak;
    LinesFirst(s, n);
    FeedsFirst(s, n);
    DotsFirst(s[..n], PyLines(s[n + 1..]));
    AroundIndex(s, n);
  }

  lemma AroundIndex(s: string, n: nat)
    requires n < |s|
    ensures s == s[..n] + [s[n]] + s[n + 1..]
  {
  }

  lemma LinesFirst(s: string, n: nat)
    requires n == FindBreak(s) && n < |s|
    ensures PyLines(s) == [s[..n]] + PyLines(s[n + 1..])
  {
    hide FindBreak;
  }

  /** The stripped keyblock comes back exactly when it is plain. */
  lemma {:induction false} LinesKept(s: string)
    requires s != "" && !IsBreak(s[|s| - 1])
    ensures var r := Join(UnstuffAll(StuffAll(PyLines(s))), "\n"); |r| <= |s| && (r == s <==> Plain(s))
    decreases |s|
  {
    var n := FindBreak(s);
    hide Stuff; hide Unstuff; hide NoDots; hide FeedsOnly; hide Join;
    if n == |s| {
      OneLineKept(s);
    } else {
      var rest := s[n + 1..];
      var tail := UnstuffAll(StuffAll(PyLines(rest)));
      var r := Join(tail, "\n");
      LinesKept(rest);
      FirstBreak(s, n);
      UnstuffStuffed(s[..n]);
      LinesOfText(rest);
      var u := Unstuff(Stuff(s[..n]));
      assert PyLines(s) == [s[..n]] + PyLines(rest);
      assert UnstuffAll(StuffAll(PyLines(s))) == [u] + tail;
      JoinCons(u, tail, "\n");
    }
  }

  lemma OneLineKept(s: string)
    requires s != "" && FindBreak(s) == |s|
    ensures var r := Join(UnstuffAll(StuffAll(PyLines(s))), "\n"); |r| <= |s| && (r == s <==> Plain(s))
  {
    hide Stuff; hide Unstuff;
    UnstuffStuffed(s);
    assert PyLines(s) == [s];
    assert UnstuffAll(StuffAll([s])) == [Unstuff(Stuff(s))];
  }

  lemma BreakIs(a: string, b: string)
    requires forall i :: 0 <= i < |a| ==> !IsBreak(a[i])
    ensures FindBreak(a + ("\n" + b)) == |a|
    ensures PyLines(a + ("\n" + b)) == [a] + PyLines(b)
  {
    var s := a + ("\n" + b);
    FindBreakIs(s, |a|);
    hide FindBreak;
    assert s[..|a|] == a && s[|a| + 1..] == b;
  }

  lemma FindBreakIs(s: string, n: nat)
    requires n < |s| && IsBreak(s[n]) && forall i :: 0 <= i < n ==> !IsBreak(s[i])
    ensures FindBreak(s) == n
  {
  }

  function SpacedKey(): string {
    BEGIN_KEY + ("\n" + (" " + ("\n" + END_KEY)))
  }

  lemma SpacedKeyInline()
    ensures IsInlineKey(SpacedKey()) && Strip(SpacedKey()) == SpacedKey()
  {
    hide Includes;
    var t := SpacedKey();
    assert t[0] == '-' && t[|t| - 1] == END_KEY[|END_KEY| - 1] == '-';
    assert t[..|BEGIN_KEY|] == BEGIN_KEY;
    assert t[|t| - |END_KEY|..] == END_KEY;
    IncludesAt(t, END_KEY, |t| - |END_KEY|);
  }

  lemma IncludesAt(s: string, t: string, i: nat)
    requires i <= |s| && s[i..] == t
    ensures Includes(s, t)
  {
    assert StartsWith(s[i..], t);
  }

  lemma SpacedKeyLines()
    ensures PyLines(SpacedKey()) == [BEGIN_KEY] + ([" "] + PyLines(END_KEY)) && !Continues(" ")
  {
    hide PyLines; hide FindBreak;
    NoBreakIn(BEGIN_KEY);
    BreakIs(BEGIN_KEY, " " + ("\n" + END_KEY));
    BreakIs(" ", END_KEY);
    assert Blank(" ");
  }

  lemma NoBreakIn(s: string)
    requires s == BEGIN_KEY || s == END_KEY
    ensures forall i :: 0 <= i < |s| ==> s[i] >= ' ' && s[i] <= 'Z' && !IsBreak(s[i])
  {
  }

  lemma SpacedKeyFeeds()
    ensures '\n' in SpacedKey() && '\r' !in SpacedKey()
  {
    NoBreakIn(BEGIN_KEY);
    NoBreakIn(END_KEY);
    var a, b, t := BEGIN_KEY, END_KEY, SpacedKey();
    assert t[|a|] == '\n';
    assert t == a + "\n \n" + b;
    forall i | 0 <= i < |t| ensures t[i] != '\r' {
      if i < |a| {
        assert t[i] == a[i];
      } else if i >= |a| + 3 {
        assert t[i] == b[i - |a| - 3];
      }
    }
  }

  /** A keyblock that is printed though a line in it is a lone space. */
  lemma SpacedKeySample(s: Slot)
    requires s.key == "signed-by"
    ensures RowLines(s, SpacedKey()).Some? && !KeyFits(SpacedKey())
  {
    hide IsInlineKey; hide Strip; hide PyLines; hide Continues;
    SpacedKeyInline();
    SpacedKeyLines();
    SpacedKeyFeeds();
    var ls := PyLines(Strip(SpacedKey()));
    assert ls[1] == " ";
    hide SpacedKey;
  }

  /** A mapping with that key, over no defaults. */
  function SpacedSpec(): Mapping {
    [("URIs", One(Str("u"))), ("Suites", One(Str("s"))), ("Signed-By", One(Str(SpacedKey())))]
  }

  lemma SpacedForced()
    ensures Base([], "") == [("Types", One(Str("deb")))]
    ensures var m := Base([], "") + SpacedSpec();
      InForce(m, "types") == Some(m[0]) && InForce(m, "uris") == Some(m[1]) && InForce(m, "suites") == Some(m[2])
      && InForce(m, "signed-by") == Some(m[3])
  {
    hide Lower; hide SpacedKey;
    LowerSpellings();
    var a, b := [("Types", One(Str("deb")))], SpacedSpec();
    assert Base([], "") == a;
    assert b == [b[0]] + ([b[1]] + [b[2]]);
    forall key ensures InForce(a + b, key) ==
      if key == "signed-by" then Some(b[2]) else if key == "suites" then Some(b[1]) else if key == "uris" then Some(b[0])
      else if key == "types" then Some(a[0]) else None
    {
      InForceAppend(a, b, key);
      InForceAppend([b[0]], [b[1]] + [b[2]], key);
      InForceAppend([b[1]], [b[2]], key);
      InForceOne(a[0].0, a[0].1, key);
      InForceOne(b[0].0, b[0].1, key);
      InForceOne(b[1].0, b[1].1, key);
      InForceOne(b[2].0, b[2].1, key);
    }
  }

  lemma SpacedNames()
    ensures IsFieldName("Types") && IsFieldName("URIs") && IsFieldName("Suites") && IsFieldName("Signed-By")
  {
  }

  lemma SpacedAccepted()
    ensures Accepted("signed-by", One(Str(SpacedKey()))) && Ascii(SpacedKey())
    ensures Accepted("types", One(Str("deb"))) && Accepted("uris", One(Str("u"))) && Accepted("suites", One(Str("s")))
  {
    hide IsInlineKey;
    SpacedKeyInline();
    SpacedKeyFeeds();
    KeyAscii();
    hide SpacedKey;
  }

  lemma KeyAscii()
    ensures Ascii(SpacedKey())
  {
    NoBreakIn(BEGIN_KEY);
    NoBreakIn(END_KEY);
    AsciiAppend("\n", END_KEY);
    AsciiAppend(" ", "\n" + END_KEY);
    AsciiAppend("\n", " " + ("\n" + END_KEY));
    AsciiAppend(BEGIN_KEY, "\n" + (" " + ("\n" + END_KEY)));
  }

  lemma SpacedPresentable()
    ensures Presentable(Base([], "") + SpacedSpec()) && MappingAscii(Base([], "") + SpacedSpec())
  {
    hide Lower; hide InForce; hide Accepted; hide IsFieldName; hide SpacedKey; hide Ascii; hide Base;
    LowerSpellings();
    SpacedForced();
    SpacedNames();
    SpacedAccepted();
    EmptyAscii();
    ShortAscii();
    assert REQUIRED == ["Types", "URIs", "Suites"];
  }

  lemma ShortAscii()
    ensures Ascii("deb") && Ascii("u") && Ascii("s")
  {
  }

  /** A whole text that is printed and that the parser refuses. */
  lemma SpacedFileSample()
    ensures Print([SpacedSpec()], [], "").Some? && Deb822Entries(Print([SpacedSpec()], [], "").value).Err?
  {
    hide Presentable; hide MappingAscii; hide Base; hide SpacedSpec; hide Print; hide Deb822Entries; hide KeyFits; hide InForce; hide SpacedKey;
    SpacedPresentable();
    PrintedExactly([SpacedSpec()], [], "");
    PrintedReads([SpacedSpec()], [], "");
    SpacedUnfit();
    assert [SpacedSpec()][0] == SpacedSpec();
  }

  lemma SpacedUnfit()
    ensures !Fits(Base([], "") + SpacedSpec())
  {
    hide InForce; hide KeyFits; hide SpacedKey; hide Base;
    SpacedForced();
    SpacedKeySample(Slot("signed-by", "Signed-By", One(Str(SpacedKey()))));
  }
}
