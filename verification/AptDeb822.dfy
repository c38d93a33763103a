/** deb822 round trips: what the stanza parser makes of what the stanza printer wrote, for
    every model, and which parsed files survive a second trip. */
module AptDeb822 {
  import opened Wrappers
  import opened Text
  import opened AptModel

  // --------------------------------------------------- results without positions

  function Entries(r: Parsed): Option<seq<Entry>> {
    match r case Ok(es) => Some(es) case Err(_) => None
  }

  function After(es: seq<Entry>, r: Option<seq<Entry>>): Option<seq<Entry>> {
    match r case None => None case Some(rest) => Some(es + rest)
  }

  /** The entries of a list of lines, the stanza read so far being `cur`. */
  function Sources(lines: seq<string>, cur: seq<Field>): Option<seq<Entry>> {
    Entries(ParseStanzas(lines, cur, 0, 0))
  }

  /** Line numbers only show up in error messages. */
  lemma {:induction false} NumbersOnlyInErrors(lines: seq<string>, cur: seq<Field>, n: nat, c: nat)
    ensures Entries(ParseStanzas(lines, cur, n, c)) == Sources(lines, cur)
    decreases |lines|
  {
    if lines != [] {
      var a := ReadLine(lines[0], cur, n, c);
      var b := ReadLine(lines[0], cur, 0, 0);
      assert a.Ok? <==> b.Ok?;
      if a.Ok? {
        assert a.value.0 == b.value.0 && a.value.1 == b.value.1;
        hide ReadLine;
        NumbersOnlyInErrors(lines[1..], a.value.1, n + 1, a.value.2);
        NumbersOnlyInErrors(lines[1..], a.value.1, 1, b.value.2);
      }
    }
  }

  lemma {:induction false} SourcesStep(raw: string, rest: seq<string>, cur: seq<Field>)
    ensures Sources([raw] + rest, cur) ==
      match ReadLine(raw, cur, 0, 0)
      case Err(_) => None
      case Ok(step) => After(step.0, Sources(rest, step.1))
  {
    hide ReadLine;
    assert ([raw] + rest)[1..] == rest;
    var step := ReadLine(raw, cur, 0, 0);
    if step.Ok? {
      NumbersOnlyInErrors(rest, step.value.1, 1, step.value.2);
    }
  }

  // ------------------------------------------------------------ lines to fields

  /** The fields read from lines that hold no blank line and no comment. */
  function ReadStanza(lines: seq<string>, cur: seq<Field>): Option<seq<Field>>
    decreases |lines|
  {
    if lines == [] then Some(cur)
    else
      match Classify(lines[0])
      case FieldLine(f) => ReadStanza(lines[1..], cur + [f])
      case ContLine => if cur == [] then None else ReadStanza(lines[1..], AddCont(cur, lines[0]))
      case _ => None
  }

  lemma {:induction false} ReadStanzaAppend(a: seq<string>, b: seq<string>, cur: seq<Field>)
    ensures ReadStanza(a + b, cur) ==
      match ReadStanza(a, cur) case None => None case Some(fs) => ReadStanza(b, fs)
    decreases |a|
  {
    hide Classify;
    if a == [] {
      assert a + b == b;
    } else {
      assert (a + b)[1..] == a[1..] + b;
      match Classify(a[0])
      case FieldLine(f) => ReadStanzaAppend(a[1..], b, cur + [f]);
      case ContLine => if cur != [] { ReadStanzaAppend(a[1..], b, AddCont(cur, a[0])); }
      case _ =>
    }
  }

  /** Lines that read as fields extend the stanza at hand. */
  lemma {:induction false} SourcesExtend(lines: seq<string>, rest: seq<string>, cur: seq<Field>)
    requires ReadStanza(lines, cur).Some?
    ensures Sources(lines + rest, cur) == Sources(rest, ReadStanza(lines, cur).value)
    decreases |lines|
  {
    if lines == [] {
      assert lines + rest == rest;
    } else {
      var step := ReadLine(lines[0], cur, 0, 0);
      hide ReadLine;
      hide ReadStanza;
      assert lines + rest == [lines[0]] + (lines[1..] + rest);
      SourcesStep(lines[0], lines[1..] + rest, cur);
      SourcesExtend(lines[1..], rest, step.value.1);
      var tail := Sources(lines[1..] + rest, step.value.1);
      assert tail.Some? ==> [] + tail.value == tail.value;
    }
  }

  /** A blank line after readable lines ends a stanza. */
  lemma StanzaEnds(lines: seq<string>, rest: seq<string>)
    requires ReadStanza(lines, []).Some? && ReadStanza(lines, []).value != []
    ensures Sources(lines + [""] + rest, []) ==
      match StanzaToEntry(ReadStanza(lines, []).value)
      case Err(_) => None
      case Ok(e) => After([e], Sources(rest, []))
  {
    var fs := ReadStanza(lines, []).value;
    assert lines + [""] + rest == lines + ([""] + rest);
    SourcesExtend(lines, [""] + rest, []);
    SourcesStep("", rest, fs);
  }

  /** A malformed line after readable lines fails the whole file. */
  lemma StanzaBreaks(lines: seq<string>, bad: string, rest: seq<string>)
    requires ReadStanza(lines, []).Some? && Classify(bad) == BadLine
    ensures Sources(lines + [bad] + rest, []).None?
  {
    assert lines + [bad] + rest == lines + ([bad] + rest);
    SourcesExtend(lines, [bad] + rest, []);
    SourcesStep(bad, rest, ReadStanza(lines, []).value);
  }

  // ----------------------------------------------------------- printed lines read

  predicate IsKey(k: string) {
    k != "" && forall i :: 0 <= i < |k| ==> IsKeyChar(k[i])
  }

  lemma {:induction false} KeyLengthIs(k: string, rest: string)
    requires forall i :: 0 <= i < |k| ==> IsKeyChar(k[i])
    requires rest != "" && !IsKeyChar(rest[0])
    ensures KeyLength(k + rest) == |k|
  {
    if k == "" {
      assert k + rest == rest;
    } else {
      assert (k + rest)[1..] == k[1..] + rest;
      KeyLengthIs(k[1..], rest);
    }
  }

  lemma OneLineTail(value: string)
    ensures OneLine(" " + value) <==> OneLine(value)
  {
    assert forall i :: 0 <= i < |value| ==> (" " + value)[i + 1] == value[i];
  }

  lemma FieldMatches(key: string, value: string)
    requires IsKey(key)
    ensures MatchField(key + ": " + value) == if OneLine(value) then Some(Field(key, value, [])) else None
  {
    hide IsKeyChar; hide IsLineEnd;
    var raw := key + ": " + value;
    assert raw == key + (": " + value);
    ColonIsNoKey();
    KeyLengthIs(key, ": " + value);
    hide KeyLength; hide OneLine;
    assert raw[|key| + 1..] == " " + value;
    assert (" " + value)[1..] == value;
    OneLineTail(value);
  }

  lemma ColonIsNoKey()
    ensures !IsKeyChar(':')
  {
  }

  /** A line that begins with a name is no blank line, comment or continuation. */
  lemma NamedLine(raw: string)
    requires raw != "" && IsKeyChar(raw[0])
    ensures Classify(raw) == match MatchField(raw) case None => BadLine case Some(f) => FieldLine(f)
  {
    hide MatchField;
    assert !IsSpace(raw[0]);
  }

  /** `key: value` reads as that field exactly when the value has no line terminator. */
  lemma FieldLineReads(key: string, value: string)
    requires IsKey(key)
    ensures Classify(key + ": " + value) ==
      if OneLine(value) then FieldLine(Field(key, value, [])) else BadLine
  {
    hide Classify; hide MatchField; hide OneLine; hide IsKeyChar;
    FieldMatches(key, value);
    var raw := key + ": " + value;
    assert raw[0] == key[0];
    NamedLine(raw);
  }

  lemma BareLineReads(key: string)
    requires IsKey(key)
    ensures Classify(key + ":") == FieldLine(Field(key, "", []))
  {
    KeyLengthIs(key, ":");
    assert IsKeyChar((key + ":")[0]);
  }

  lemma BareKeyReads()
    ensures Classify("Signed-By:") == FieldLine(Field("Signed-By", "", []))
  {
    var key := "Signed-By";
    assert IsKey(key);
    BareLineReads(key);
    assert "Signed-By:" == key + ":";
  }

  /** A continuation line that keeps its text through dot-stuffing. */
  predicate Stuffable(l: string) {
    l == "" || (!Blank(l) && l != ".")
  }

  /** A line that is read as a continuation line once it is stuffed. */
  predicate Continues(l: string) {
    l == "" || !Blank(l)
  }

  lemma StuffContinues(l: string)
    ensures Classify(Stuff(l)) == if Continues(l) then ContLine else BlankLine
  {
    var body := if l == "" then "." else l;
    assert Stuff(l) == " " + body;
    if Continues(l) {
      var i :| 0 <= i < |body| && !IsSpace(body[i]);
      assert (" " + body)[i + 1] == body[i];
    }
  }

  lemma {:induction false} UnstuffStuff(ls: seq<string>)
    requires forall i :: 0 <= i < |ls| ==> Stuffable(ls[i])
    ensures UnstuffAll(StuffAll(ls)) == ls
  {
    forall i | 0 <= i < |ls| ensures Unstuff(StuffAll(ls)[i]) == ls[i] {
    }
  }

  lemma {:induction false} ContsRead(ls: seq<string>, before: seq<Field>, f: Field)
    requires forall i :: 0 <= i < |ls| ==> Continues(ls[i])
    ensures ReadStanza(StuffAll(ls), before + [f])
         == Some(before + [f.(conts := f.conts + StuffAll(ls))])
    decreases |ls|
  {
    if ls == [] {
      assert f.conts + [] == f.conts;
    } else {
      StuffContinues(ls[0]);
      hide Classify;
      hide Stuff;
      var cur := before + [f];
      var g := f.(conts := f.conts + [Stuff(ls[0])]);
      assert cur[..|cur| - 1] == before;
      assert AddCont(cur, Stuff(ls[0])) == before + [g];
      ContsRead(ls[1..], before, g);
      Assoc(f.conts, [Stuff(ls[0])], StuffAll(ls[1..]));
      assert StuffAll(ls)[0] == Stuff(ls[0]) && StuffAll(ls)[1..] == StuffAll(ls[1..]);
    }
  }

  // ------------------------------------------------- the fields an entry prints

  function HeadFields(e: Entry): seq<Field> {
    [Field("Types", Join(e.types, " "), []), Field("URIs", Join(e.uris, " "), []),
     Field("Suites", Join(e.suites, " "), [])]
  }

  function ComponentFields(e: Entry): seq<Field> {
    if e.components == [] then [] else [Field("Components", Join(e.components, " "), [])]
  }

  function ArchFields(e: Entry): seq<Field> {
    if e.architectures.None? then [] else [Field("Architectures", Join(e.architectures.value, " "), [])]
  }

  function EnabledFields(e: Entry): seq<Field> {
    if e.enabled then [] else [Field("Enabled", "no", [])]
  }

  /** The blob the printer keeps in `Trusted:` when the flag is off. */
  function Blob(e: Entry): Option<string> {
    if e.trusted then None else Lookup(e.options, "trusted")
  }

  function TrustedFields(e: Entry): seq<Field> {
    if e.trusted then [Field("Trusted", "yes", [])]
    else match Blob(e) case None => [] case Some(v) => [Field("Trusted", v, [])]
  }

  function SignedByFields(s: Option<string>): seq<Field> {
    match s
    case None => []
    case Some(v) =>
      var kl := Split(v, '\n');
      if |kl| == 1 then [Field("Signed-By", v, [])] else [Field("Signed-By", "", StuffAll(kl))]
  }

  /** Options under their deb822 names. */
  function AliasRecord(options: Record): Record {
    if options == [] then []
    else
      (match OptionAlias(options[0].0)
       case None => []
       case Some(field) => [(field, options[0].1)]) + AliasRecord(options[1..])
  }

  /** Record entries as fields, values cut at their line breaks. */
  function RecordFields(r: Record): (fs: seq<Field>)
    ensures |fs| == |r|
    ensures forall i :: 0 <= i < |r| ==> fs[i] == RecordField(r[i])
  {
    if r == [] then [] else [RecordField(r[0])] + RecordFields(r[1..])
  }

  function RecordField(kv: (string, string)): Field {
    var vl := Split(kv.1, '\n');
    Field(kv.0, vl[0], StuffAll(vl[1..]))
  }

  function EarlyFields(e: Entry): seq<Field> {
    HeadFields(e) + ComponentFields(e) + ArchFields(e) + EnabledFields(e) + TrustedFields(e)
  }

  function EarlyLines(e: Entry): seq<string> {
    HeadLines(e) + ComponentLines(e) + ArchLines(e) + EnabledLines(e) + TrustedLines(e)
  }

  function KnownFields(e: Entry): seq<Field> {
    EarlyFields(e) + SignedByFields(e.signedBy)
  }

  function LateRecord(e: Entry): Record {
    AliasRecord(e.options) + e.fields
  }

  function FieldsOf(e: Entry): seq<Field> {
    KnownFields(e) + RecordFields(LateRecord(e))
  }

  // ------------------------------------------------------------------ conditions

  predicate ValueOk(v: string) {
    var vl := Split(v, '\n');
    OneLine(vl[0]) && forall i :: 1 <= i < |vl| ==> Stuffable(vl[i])
  }

  /** A record entry that can stand as a deb822 field of its own. */
  predicate FieldOk(kv: (string, string)) {
    IsKey(kv.0) && !IsKnown(kv.0) && ValueOk(kv.1)
  }

  /** A `Trusted:` value that is kept as text. */
  predicate BlobOk(v: string) {
    OneLine(v) && Trimmed(v) && !IsTrue822(v) && !IsFalse822(v)
  }

  /** What the lines before `Signed-By:` need. */
  predicate EarlyOk(e: Entry) {
    && Valid(e)
    && AllWords(e.uris, SpaceComma) && AllWords(e.suites, SpaceComma) && AllWords(e.components, SpaceComma)
    && (e.architectures.Some? ==> AllWords(e.architectures.value, SpaceComma))
    && (Blob(e).Some? ==> BlobOk(Blob(e).value))
  }

  predicate SignedByOk(s: Option<string>) {
    s.Some? ==>
      var kl := Split(s.value, '\n');
      if |kl| == 1 then OneLine(s.value) else forall i :: 0 <= i < |kl| ==> Stuffable(kl[i])
  }

  predicate LateOk(r: Record) {
    DistinctKeys(r) && forall i :: 0 <= i < |r| ==> FieldOk(r[i])
  }

  /** Every line the entry prints is read as the field it was meant to be. */
  predicate Printable(e: Entry) {
    EarlyOk(e) && SignedByOk(e.signedBy) && LateOk(LateRecord(e))
  }

  /** A one-line Signed-By value is trimmed by the parser; a keyblock is kept. */
  function RereadSigned(s: Option<string>): Option<string> {
    match s
    case None => None
    case Some(v) => if |Split(v, '\n')| == 1 then Some(Trim(v)) else Some(v)
  }

  /** What printing and parsing make of an entry: options with a deb822 name become fields,
      the others except a trusted blob are dropped. */
  function Reread(e: Entry): Entry {
    e.(signedBy := RereadSigned(e.signedBy),
       options := match Blob(e) case None => [] case Some(v) => [("trusted", v)],
       fields := LateRecord(e))
  }

  // ------------------------------------------------------------ lines of an entry

  lemma {:induction false} JoinOneLine(ts: seq<string>)
    requires AllWords(ts, SpaceComma)
    ensures OneLine(Join(ts, " "))
  {
    if |ts| > 1 {
      JoinOneLine(ts[1..]);
      var a, b, c := ts[0], " ", Join(ts[1..], " ");
      assert forall i :: 0 <= i < |a + b + c| ==>
        (a + b + c)[i] == if i < |a| then a[i] else if i == |a| then ' ' else c[i - |a| - 1];
    }
  }

  lemma TypesAreWords(types: seq<string>)
    requires forall i :: 0 <= i < |types| ==> IsType(types[i])
    ensures AllWords(types, SpaceComma)
  {
  }

  lemma OneFieldReads(key: string, value: string, cur: seq<Field>)
    requires IsKey(key) && OneLine(value)
    ensures ReadStanza([key + ": " + value], cur) == Some(cur + [Field(key, value, [])])
  {
    FieldLineReads(key, value);
    hide Classify;
    var line := key + ": " + value;
    assert [line][1..] == [];
  }

  lemma NoFieldReads(cur: seq<Field>)
    ensures ReadStanza([], cur) == Some(cur + [])
  {
    assert cur + [] == cur;
  }

  lemma HeadReads(e: Entry)
    requires EarlyOk(e)
    ensures ReadStanza(HeadLines(e), []) == Some(HeadFields(e))
  {
    hide ReadStanza;
    var h, f := HeadLines(e), HeadFields(e);
    assert "Types" + ": " == "Types: " && "URIs" + ": " == "URIs: " && "Suites" + ": " == "Suites: ";
    TypesAreWords(e.types);
    JoinOneLine(e.types);
    JoinOneLine(e.uris);
    JoinOneLine(e.suites);
    OneFieldReads("Types", Join(e.types, " "), []);
    OneFieldReads("URIs", Join(e.uris, " "), [] + [f[0]]);
    OneFieldReads("Suites", Join(e.suites, " "), [] + [f[0]] + [f[1]]);
    ReadStanzaAppend([h[0]], [h[1]], []);
    ReadStanzaAppend([h[0]] + [h[1]], [h[2]], []);
    assert h == [h[0]] + [h[1]] + [h[2]];
    assert f == [] + [f[0]] + [f[1]] + [f[2]];
  }

  lemma EarlyReads(e: Entry)
    requires EarlyOk(e)
    ensures ReadStanza(EarlyLines(e), []) == Some(EarlyFields(e))
  {
    hide ReadStanza;
    hide HeadLines;
    hide HeadFields;
    HeadReads(e);
    assert "Components" + ": " == "Components: " && "Architectures" + ": " == "Architectures: ";
    assert "Enabled" + ": " + "no" == "Enabled: no";
    assert "Trusted" + ": " == "Trusted: " && "Trusted" + ": " + "yes" == "Trusted: yes";
    var l, f := HeadLines(e), HeadFields(e);
    JoinOneLine(e.components);
    if e.components == [] { NoFieldReads(f); } else { OneFieldReads("Components", Join(e.components, " "), f); }
    ReadStanzaAppend(l, ComponentLines(e), []);
    l, f := l + ComponentLines(e), f + ComponentFields(e);
    if e.architectures.None? { NoFieldReads(f); } else {
      JoinOneLine(e.architectures.value);
      OneFieldReads("Architectures", Join(e.architectures.value, " "), f);
    }
    ReadStanzaAppend(l, ArchLines(e), []);
    l, f := l + ArchLines(e), f + ArchFields(e);
    if e.enabled { NoFieldReads(f); } else { OneFieldReads("Enabled", "no", f); }
    ReadStanzaAppend(l, EnabledLines(e), []);
    l, f := l + EnabledLines(e), f + EnabledFields(e);
    if TrustedLines(e) == [] { NoFieldReads(f); } else {
      OneFieldReads("Trusted", if e.trusted then "yes" else Blob(e).value, f);
    }
    ReadStanzaAppend(l, TrustedLines(e), []);
  }

  lemma SignedByReads(s: Option<string>, cur: seq<Field>)
    requires SignedByOk(s)
    ensures ReadStanza(SignedByLines(s), cur) == Some(cur + SignedByFields(s))
  {
    if s.None? {
      NoFieldReads(cur);
    } else {
      var kl := Split(s.value, '\n');
      if |kl| == 1 {
        hide ReadStanza;
        assert "Signed-By" + ": " == "Signed-By: ";
        OneFieldReads("Signed-By", s.value, cur);
      } else {
        BareKeyReads();
        assert ["Signed-By:"][1..] == [];
        assert ReadStanza(["Signed-By:"], cur) == Some(cur + [Field("Signed-By", "", [])]);
        hide ReadStanza;
        ContsRead(kl, cur, Field("Signed-By", "", []));
        ReadStanzaAppend(["Signed-By:"], StuffAll(kl), cur);
        assert [] + StuffAll(kl) == StuffAll(kl);
      }
    }
  }

  predicate OneLineValues(r: Record) {
    forall i :: 0 <= i < |r| ==> '\n' !in r[i].1
  }

  lemma OneFieldLine(kv: (string, string), rest: Record)
    requires '\n' !in kv.1
    ensures FieldLines([kv] + rest) == [kv.0 + ": " + kv.1] + FieldLines(rest)
  {
    SplitWhole(kv.1, '\n');
    hide Split;
    assert ([kv] + rest)[1..] == rest;
    assert StuffAll([kv.1][1..]) == [];
  }

  /** Alias lines are the field lines of the aliased record. */
  lemma {:induction false} AliasesAreFields(options: Record)
    requires OneLineValues(AliasRecord(options))
    ensures AliasLines(options) == FieldLines(AliasRecord(options))
  {
    hide OptionAlias; hide FieldLines;
    if options == [] {
      NoFieldLines();
    } else {
      var rest := AliasRecord(options[1..]);
      var field := OptionAlias(options[0].0);
      if field.Some? {
        var kv := (field.value, options[0].1);
        assert AliasRecord(options) == [kv] + rest;
        assert AliasRecord(options)[0] == kv;
        assert forall i :: 0 <= i < |rest| ==> rest[i] == AliasRecord(options)[i + 1];
        OneFieldLine(kv, rest);
      } else {
        assert AliasRecord(options) == rest;
      }
      AliasesAreFields(options[1..]);
    }
  }

  lemma NoFieldLines()
    ensures FieldLines([]) == []
  {
  }

  lemma {:induction false} FieldLinesAppend(a: Record, b: Record)
    ensures FieldLines(a + b) == FieldLines(a) + FieldLines(b)
  {
    hide Split;
    hide StuffAll;
    if a == [] {
      assert a + b == b;
    } else {
      assert (a + b)[1..] == a[1..] + b;
      FieldLinesAppend(a[1..], b);
    }
  }

  lemma {:induction false} RecordReads(r: Record, cur: seq<Field>)
    requires forall i :: 0 <= i < |r| ==> FieldOk(r[i])
    ensures ReadStanza(FieldLines(r), cur) == Some(cur + RecordFields(r))
    decreases |r|
  {
    hide Classify;
    if r == [] {
      assert cur + RecordFields(r) == cur;
    } else {
      var vl := Split(r[0].1, '\n');
      var f := RecordField(r[0]);
      assert FieldOk(r[0]);
      OneFieldReads(r[0].0, vl[0], cur);
      ContsRead(vl[1..], cur, Field(r[0].0, vl[0], []));
      assert [] + StuffAll(vl[1..]) == StuffAll(vl[1..]);
      ReadStanzaAppend([r[0].0 + ": " + vl[0]], StuffAll(vl[1..]), cur);
      ReadStanzaAppend([r[0].0 + ": " + vl[0]] + StuffAll(vl[1..]), FieldLines(r[1..]), cur);
      RecordReads(r[1..], cur + [f]);
      Assoc(cur, [f], RecordFields(r[1..]));
    }
  }

  /** The printed lines of a printable entry read as its fields. */
  lemma EntryReads(e: Entry)
    requires Printable(e)
    requires OneLineValues(AliasRecord(e.options))
    ensures ReadStanza(StanzaLines(e), []) == Some(FieldsOf(e))
  {
    hide ReadStanza;
    hide RecordFields;
    EarlyReads(e);
    SignedByReads(e.signedBy, EarlyFields(e));
    ReadStanzaAppend(EarlyLines(e), SignedByLines(e.signedBy), []);
    AliasesAreFields(e.options);
    FieldLinesAppend(AliasRecord(e.options), e.fields);
    RecordReads(LateRecord(e), KnownFields(e));
    var known := EarlyLines(e) + SignedByLines(e.signedBy);
    ReadStanzaAppend(known, FieldLines(LateRecord(e)), []);
    Assoc(known, AliasLines(e.options), FieldLines(e.fields));
    assert StanzaLines(e) == known + FieldLines(LateRecord(e));
  }
}
