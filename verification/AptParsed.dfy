/** What the deb822 parser can produce, and which of its results survive being printed and
    parsed once more. */
module AptParsed {
  import opened Wrappers
  import opened Text
  import opened AptModel
  import opened AptDeb822
  import opened AptStanza
  import opened AptRoundTrip

  // --------------------------------------------------------- fields as they are read

  predicate ContRead(c: string) {
    Classify(c) == ContLine && '\n' !in c
  }

  predicate FieldRead(f: Field) {
    IsKey(f.key) && OneLine(f.first) && forall i :: 0 <= i < |f.conts| ==> ContRead(f.conts[i])
  }

  predicate AllRead(fs: seq<Field>) {
    forall i :: 0 <= i < |fs| ==> FieldRead(fs[i])
  }

  /** Reading a line keeps every field well read. */
  lemma ReadKeeps(raw: string, cur: seq<Field>)
    requires AllRead(cur) && '\n' !in raw && ReadLine(raw, cur, 0, 0).Ok?
    ensures AllRead(ReadLine(raw, cur, 0, 0).value.1)
  {
    hide StanzaToEntry;
    match Classify(raw)
    case FieldLine(f) =>
    case ContLine =>
      var last := cur[|cur| - 1];
      assert FieldRead(last);
      var grown := last.(conts := last.conts + [raw]);
      assert ContRead(raw);
      hide Classify; hide IsKey; hide OneLine;
      assert FieldRead(grown);
      assert AddCont(cur, raw) == cur[..|cur| - 1] + [grown];
    case _ =>
  }

  // --------------------------------------------------------------- entries as read

  /** The entries the parser produces, up to the checks the printer makes. */
  predicate Image(e: Entry) {
    && AllWords(e.types, SpaceComma) && AllWords(e.uris, SpaceComma) && AllWords(e.suites, SpaceComma)
    && AllWords(e.components, SpaceComma)
    && (e.architectures.Some? ==> AllWords(e.architectures.value, SpaceComma))
    && (e.options == [] || (|e.options| == 1 && e.options[0].0 == "trusted" && !e.trusted && BlobOk(e.options[0].1)))
    && KeyblockOk(e.signedBy)
    && LateOk(e.fields)
  }

  predicate KeyblockOk(s: Option<string>) {
    s.Some? ==>
      var kl := Split(s.value, '\n');
      |kl| == 1 || forall i :: 0 <= i < |kl| ==> Stuffable(kl[i])
  }

  predicate AllImage(es: seq<Entry>) {
    forall i :: 0 <= i < |es| ==> Image(es[i])
  }

  lemma UnstuffedStuffable(c: string)
    requires ContRead(c)
    ensures Stuffable(Unstuff(c)) && '\n' !in Unstuff(c)
  {
    var body := DropOneBlank(c);
    assert body == c[1..];
    var i :| 0 <= i < |c| && !IsSpace(c[i]);
    assert body[i - 1] == c[i];
  }

  lemma UnstuffedAll(conts: seq<string>)
    requires forall i :: 0 <= i < |conts| ==> ContRead(conts[i])
    ensures forall i :: 0 <= i < |conts| ==> Stuffable(UnstuffAll(conts)[i]) && '\n' !in UnstuffAll(conts)[i]
  {
    forall i | 0 <= i < |conts| ensures Stuffable(UnstuffAll(conts)[i]) && '\n' !in UnstuffAll(conts)[i] {
      UnstuffedStuffable(conts[i]);
    }
  }

  lemma LineEndHas(s: string)
    requires OneLine(s)
    ensures '\n' !in s
  {
  }

  lemma TrimInside(s: string)
    requires OneLine(s)
    ensures OneLine(Trim(s)) && '\n' !in Trim(s)
  {
    var a := TrimStart(s);
    var b := TrimEnd(a);
    TrimStartIs(s);
    TrimEndIs(a);
    hide TrimStart; hide TrimEnd; hide IsLineEnd;
    forall i | 0 <= i < |b| ensures !IsLineEnd(b[i]) {
      assert b[i] == a[i] && a[i] == s[|s| - |a| + i];
    }
    LineEndHas(b);
  }

  lemma SignedImage(f: Field)
    requires FieldRead(f)
    ensures KeyblockOk(SignedByOf(Some(f)))
  {
    var conts := UnstuffAll(f.conts);
    hide Trim; hide Split; hide Join; hide Stuffable;
    if Trim(f.first) == "" && conts != [] {
      SignedConts(f);
    } else if StartsWith(f.first, "-----BEGIN") && conts != [] {
      SignedBegin(f);
    } else {
      TrimInside(f.first);
      SplitWhole(Trim(f.first), '\n');
    }
  }

  lemma SignedConts(f: Field)
    requires FieldRead(f) && f.conts != []
    ensures KeyblockOk(Some(Join(UnstuffAll(f.conts), "\n")))
  {
    hide Stuffable; hide ContRead;
    UnstuffedAll(f.conts);
    SplitOfJoin(UnstuffAll(f.conts), '\n');
    hide Split; hide Join; hide UnstuffAll;
  }

  lemma SignedBegin(f: Field)
    requires FieldRead(f) && StartsWith(f.first, "-----BEGIN")
    ensures KeyblockOk(Some(Join([f.first] + UnstuffAll(f.conts), "\n")))
  {
    var conts := UnstuffAll(f.conts);
    assert f.first[0] == "-----BEGIN"[0] && |f.first| > 1;
    assert Stuffable(f.first);
    hide Stuffable; hide ContRead;
    UnstuffedAll(f.conts);
    hide UnstuffAll;
    SplitOfJoin([f.first] + conts, '\n');
    hide Split; hide Join;
  }

  lemma PassValue(f: Field)
    requires FieldRead(f) && !IsKnown(f.key)
    ensures FieldOk((f.key, Join([f.first] + UnstuffAll(f.conts), "\n")))
  {
    var conts := UnstuffAll(f.conts);
    UnstuffedAll(f.conts);
    var all := [f.first] + conts;
    assert forall i :: 1 <= i < |all| ==> all[i] == conts[i - 1];
    SplitOfJoin(all, '\n');
  }

  lemma {:induction false} PassImage(fs: seq<Field>)
    requires AllRead(fs) && DistinctFields(fs)
    ensures LateOk(Passthrough(fs))
    ensures forall i :: 0 <= i < |Passthrough(fs)| ==> Passthrough(fs)[i].0 in Keys(fs)
    decreases |fs|
  {
    if fs != [] {
      var front, f := fs[..|fs| - 1], fs[|fs| - 1];
      assert front + [f] == fs;
      assert forall i :: 0 <= i < |front| ==> front[i] == fs[i];
      KeysAppend(front, [f]);
      hide Keys; hide FieldRead; hide Passthrough; hide LateOk; hide IsKnown; hide FieldOk;
      PassImage(front);
      if !IsKnown(f.key) {
        PassStep(front, f);
        PassValue(f);
        LastKeyNew(front, f);
        var v := Join([f.first] + UnstuffAll(f.conts), "\n");
        PutNew(Passthrough(front), f.key, v);
        hide Put; hide Join; hide UnstuffAll;
        LateGrows(Passthrough(front), f.key, v);
        OneKey([f], f.key);
      }
    }
  }

  lemma LastKeyNew(front: seq<Field>, f: Field)
    requires DistinctFields(front + [f])
    ensures f.key !in Keys(front)
  {
    assert (front + [f])[|front|] == f;
    assert forall i :: 0 <= i < |front| ==> (front + [f])[i] == front[i];
  }

  lemma LateGrows(r: Record, k: string, v: string)
    requires LateOk(r) && FieldOk((k, v)) && forall i :: 0 <= i < |r| ==> r[i].0 != k
    ensures LateOk(r + [(k, v)])
  {
  }

  lemma GetRead(fs: seq<Field>, key: string)
    requires AllRead(fs)
    ensures GetField(fs, key).Some? ==> FieldRead(GetField(fs, key).value)
  {
    FindExact(fs, key);
    FindExact(fs, Lower(key));
  }

  lemma BlobImage(f: Option<Field>)
    requires f.Some? ==> FieldRead(f.value)
    ensures BlobOf(f) == [] || (|BlobOf(f)| == 1 && BlobOf(f)[0].0 == "trusted" && !TrustedOf(f) && BlobOk(BlobOf(f)[0].1))
  {
    if f.Some? {
      TrimInside(f.value.first);
      TrimFixes(f.value.first);
      hide Trim;
    }
  }

  lemma StanzaShape(fs: seq<Field>)
    requires StanzaToEntry(fs).Ok?
    ensures StanzaToEntry(fs).value == StanzaEntry(fs) && DistinctFields(fs)
  {
    hide StanzaEntry;
    FirstDuplicateExact(fs);
  }

  lemma ValuesWords(fs: seq<Field>)
    ensures forall key :: AllWords(ValuesOf(fs, key), SpaceComma)
    ensures forall f :: ArchOf(f).Some? ==> AllWords(ArchOf(f).value, SpaceComma)
  {
    hide GetField; hide Words;
  }

  lemma SignedPart(fs: seq<Field>)
    requires AllRead(fs)
    ensures KeyblockOk(SignedByOf(GetField(fs, "Signed-By")))
  {
    hide GetField; hide FieldRead;
    GetRead(fs, "Signed-By");
    if GetField(fs, "Signed-By").Some? {
      SignedImage(GetField(fs, "Signed-By").value);
    }
  }

  lemma StanzaImage(fs: seq<Field>)
    requires AllRead(fs) && StanzaToEntry(fs).Ok?
    ensures Image(StanzaToEntry(fs).value)
  {
    hide GetField; hide ValuesOf; hide StanzaProblem; hide Lower; hide StanzaToEntry; hide AllRead; hide FieldRead;
    hide DistinctFields; hide ArchOf; hide SignedByOf; hide TrustedOf; hide BlobOf; hide KeyblockOk; hide LateOk;
    hide Passthrough; hide EnabledOf; hide BlobOk; hide Words; hide AllWords;
    StanzaShape(fs);
    PassImage(fs);
    SignedPart(fs);
    GetRead(fs, "Trusted");
    BlobImage(GetField(fs, "Trusted"));
    ValuesWords(fs);
  }

  lemma {:induction false} SourcesImage(lines: seq<string>, cur: seq<Field>, n: nat, c: nat)
    requires AllRead(cur) && CleanLines(lines)
    requires ParseStanzas(lines, cur, n, c).Ok?
    ensures AllImage(ParseStanzas(lines, cur, n, c).value)
    decreases |lines|
  {
    hide Image;
    if lines == [] {
      FlushImage(cur, c);
    } else {
      var step := ReadLine(lines[0], cur, n, c);
      StepImage(lines[0], cur, n, c);
      hide ReadLine; hide AllRead;
      SourcesImage(lines[1..], step.value.1, n + 1, step.value.2);
    }
  }

  lemma FlushImage(cur: seq<Field>, c: nat)
    requires AllRead(cur) && Flush(cur, c).Ok?
    ensures AllImage(Flush(cur, c).value)
  {
    hide Image; hide StanzaToEntry;
    if cur != [] {
      StanzaImage(cur);
    }
  }

  lemma StepImage(raw: string, cur: seq<Field>, n: nat, c: nat)
    requires AllRead(cur) && '\n' !in raw && ReadLine(raw, cur, n, c).Ok?
    ensures AllRead(ReadLine(raw, cur, n, c).value.1) && AllImage(ReadLine(raw, cur, n, c).value.0)
  {
    hide Image; hide StanzaToEntry; hide AddCont; hide FieldRead;
    assert ReadLine(raw, cur, 0, 0).Ok? && ReadLine(raw, cur, 0, 0).value.1 == ReadLine(raw, cur, n, c).value.1;
    ReadKeeps(raw, cur);
    if Classify(raw).BlankLine? {
      FlushImage(cur, c);
    }
  }

  /** Every parsed entry is in the image. */
  lemma ParsedImage(text: string)
    requires Deb822Entries(text).Ok?
    ensures AllImage(Deb822Entries(text).value)
  {
    JoinOfSplit(text, '\n');
    SourcesImage(Split(text, '\n'), [], 1, 0);
  }

  // -------------------------------------------------------- which ones survive again

  /** Where printing and re-parsing keeps an entry. */
  predicate Survives(e: Entry) {
    Valid(e) && SignedKept(e.signedBy)
  }

  lemma ImageExpressible(e: Entry)
    requires Image(e) && Valid(e)
    ensures EarlyOk(e) && LateRecord(e) == e.fields && AliasRecord(e.options) == []
    ensures SignedKept(e.signedBy) ==> Expressible(e)
    ensures SignedByOk(e.signedBy) ==> Printable(e) && AliasesOneLine(e)
  {
    if e.options != [] {
      assert OptionAlias("trusted").None?;
      assert AliasRecord(e.options) == [] + AliasRecord(e.options[1..]);
      assert Blob(e) == Some(e.options[0].1);
    }
    assert LateRecord(e) == e.fields;
  }

  /** An image entry whose Signed-By line the parser rejects. */
  predicate BadSigned(e: Entry) {
    e.signedBy.Some? && |Split(e.signedBy.value, '\n')| == 1 && !OneLine(e.signedBy.value)
  }

  lemma BadSignedLine(e: Entry)
    requires BadSigned(e)
    ensures SignedByLines(e.signedBy) == ["Signed-By: " + e.signedBy.value]
    ensures Classify("Signed-By: " + e.signedBy.value) == BadLine
  {
    hide Classify; hide Split; hide OneLine;
    assert "Signed-By" + ": " == "Signed-By: ";
    FieldLineReads("Signed-By", e.signedBy.value);
  }

  lemma BadSignedBreaks(e: Entry)
    requires EarlyOk(e) && BadSigned(e)
    ensures Breaks(e)
  {
    hide Sources; hide StanzaLines; hide EarlyOk; hide BadSigned;
    forall rest ensures Sources(StanzaLines(e) + rest, []).None? {
      BadSignedStops(e, rest);
    }
  }

  lemma BadSignedStops(e: Entry, rest: seq<string>)
    requires EarlyOk(e) && BadSigned(e)
    ensures Sources(StanzaLines(e) + rest, []).None?
  {
    BadSignedLine(e);
    EarlyReads(e);
    hide SignedByLines; hide Sources; hide ReadStanza; hide Classify; hide EarlyOk; hide BadSigned;
    hide AliasLines; hide FieldLines; hide EarlyFields;
    var bad := "Signed-By: " + e.signedBy.value;
    assert StanzaLines(e) == EarlyLines(e) + [bad] + AliasLines(e.options) + FieldLines(e.fields);
    hide StanzaLines; hide EarlyLines;
    Regroup(EarlyLines(e), [bad], AliasLines(e.options), FieldLines(e.fields), rest);
    StanzaBreaks(EarlyLines(e), bad, AliasLines(e.options) + FieldLines(e.fields) + rest);
  }

  lemma Regroup<T>(a: seq<T>, b: seq<T>, c: seq<T>, d: seq<T>, rest: seq<T>)
    ensures a + b + c + d + rest == a + b + (c + d + rest)
  {
  }

  /** An entry whose printed lines fail the parse, whatever follows them. */
  ghost predicate Breaks(e: Entry) {
    forall rest :: Sources(StanzaLines(e) + rest, []).None?
  }

  lemma FirstBreaks(e: Entry, rest: seq<string>)
    requires Breaks(e)
    ensures Sources(StanzaLines(e) + [""] + rest, []).None?
  {
    hide StanzaLines; hide Sources;
    Assoc(StanzaLines(e), [""], rest);
  }

  lemma {:induction false} BodyBreaks(json: seq<Entry>, k: nat)
    requires k < |json| && Breaks(json[k])
    requires forall i :: 0 <= i < k ==> Printable(json[i]) && AliasesOneLine(json[i])
    ensures Sources(Body(json), []).None?
    decreases k
  {
    hide StanzaLines; hide Sources; hide Printable; hide AliasesOneLine; hide Breaks; hide Reread;
    assert Body(json) == StanzaLines(json[0]) + [""] + Body(json[1..]);
    hide Body;
    if k == 0 {
      FirstBreaks(json[0], Body(json[1..]));
    } else {
      assert forall i :: 0 <= i < |json| - 1 ==> json[1..][i] == json[i + 1];
      BodyBreaks(json[1..], k - 1);
      StanzaReads(json[0], Body(json[1..]));
    }
  }

  lemma {:induction false} RereadDiffers(json: seq<Entry>, k: nat)
    requires k < |json| && Reread(json[k]) != json[k]
    ensures RereadAll(json) != json
    decreases k
  {
    hide Reread;
    if k > 0 {
      RereadDiffers(json[1..], k - 1);
      assert RereadAll(json)[1..] == RereadAll(json[1..]);
    }
  }

  lemma UntrimmedDiffers(e: Entry)
    requires !SignedKept(e.signedBy) && !BadSigned(e)
    ensures Reread(e) != e
  {
    hide Trim;
    TrimFixes(e.signedBy.value);
  }

  predicate Reparses(json: seq<Entry>) {
    Deb822Text(json).Ok? && Deb822Entries(Deb822Text(json).value) == Ok(json)
  }

  lemma ImageClean(json: seq<Entry>)
    requires AllImage(json) && forall i :: 0 <= i < |json| ==> Valid(json[i])
    ensures forall i :: 0 <= i < |json| ==> CleanLines(StanzaLines(json[i]))
  {
    forall i | 0 <= i < |json| ensures CleanLines(StanzaLines(json[i])) {
      var e := json[i];
      assert Image(e) && Valid(e);
      ImageExpressible(e);
      forall j | 0 <= j < |LateRecord(e)| ensures '\n' !in LateRecord(e)[j].0 {
        assert FieldOk(LateRecord(e)[j]);
      }
      CleanEntry(e);
    }
  }

  lemma LostSigned(json: seq<Entry>, k: nat)
    requires AllImage(json) && forall i :: 0 <= i < |json| ==> Valid(json[i])
    requires k < |json| && !SignedKept(json[k].signedBy)
    ensures !Reparses(json)
  {
    if b :| 0 <= b < |json| && BadSigned(json[b]) && forall i :: 0 <= i < b ==> !BadSigned(json[i]) {
      ImageClean(json);
      forall i | 0 <= i < b ensures Printable(json[i]) && AliasesOneLine(json[i]) {
        assert Image(json[i]) && Valid(json[i]);
        ImageExpressible(json[i]);
      }
      assert Image(json[b]) && Valid(json[b]);
      ImageExpressible(json[b]);
      BadSignedBreaks(json[b]);
      hide Printable; hide AliasesOneLine; hide Breaks; hide EarlyOk;
      BodyBreaks(json, b);
      hide Image; hide Body; hide Sources; hide StanzaLines; hide Stanzas; hide Deb822Entries;
      if Deb822Text(json).Ok? {
        TextSources(json);
      }
    } else {
      NoFirst(json, |json|);
      forall i | 0 <= i < |json| ensures Printable(json[i]) && AliasesOneLine(json[i]) {
        assert Image(json[i]) && Valid(json[i]) && !BadSigned(json[i]);
        ImageExpressible(json[i]);
      }
      hide Image; hide Printable; hide AliasesOneLine; hide Deb822Text; hide Deb822Entries;
      Reprinted(json);
      UntrimmedDiffers(json[k]);
      RereadDiffers(json, k);
    }
  }

  lemma {:induction false} NoFirst(json: seq<Entry>, n: nat)
    requires n <= |json|
    requires !exists b :: 0 <= b < |json| && BadSigned(json[b]) && forall i :: 0 <= i < b ==> !BadSigned(json[i])
    ensures forall i :: 0 <= i < n ==> !BadSigned(json[i])
    decreases n
  {
    hide BadSigned;
    if n > 0 {
      NoFirst(json, n - 1);
    }
  }

  /** A parsed deb822 file survives printing and parsing exactly when each entry names its
      types, uris and suites with supported types, and no one-line key is padded or broken. */
  lemma ParsedSurvivesExactly(text: string)
    requires Deb822Entries(text).Ok?
    ensures Reparses(Deb822Entries(text).value)
      <==> forall i :: 0 <= i < |Deb822Entries(text).value| ==> Survives(Deb822Entries(text).value[i])
  {
    var json := Deb822Entries(text).value;
    ParsedImage(text);
    hide Deb822Entries;
    if forall i :: 0 <= i < |json| ==> Survives(json[i]) {
      forall i | 0 <= i < |json| ensures Expressible(json[i]) {
        assert Image(json[i]) && Survives(json[i]);
        ImageExpressible(json[i]);
      }
      hide Expressible;
      Deb822RoundTrip(json);
    } else {
      hide Image;
      StanzasOk(json, 0);
      if forall i :: 0 <= i < |json| ==> Valid(json[i]) {
        var k :| 0 <= k < |json| && !Survives(json[k]);
        LostSigned(json, k);
      }
    }
  }
}
