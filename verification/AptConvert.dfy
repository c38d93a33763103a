/** The conversion gate: a classic file is printed as deb822, parsed again and compared. */
module AptConvert {
  import opened Wrappers
  import opened Text
  import opened AptModel
  import opened AptDeb822
  import opened AptStanza
  import opened AptRoundTrip
  import opened AptParsed
  import opened AptClassic

  /** The gate of the directory converter, target deb822: print, parse again, compare. */
  predicate GateAccepts(json: seq<Entry>) {
    match Deb822Text(json)
    case Err(_) => false
    case Ok(text) =>
      match Deb822Entries(text)
      case Err(_) => false
      case Ok(again) => SameUnits(json, again)
  }

  // --------------------------------------------------- what the line parser yields

  /** A token text: nonempty, on one line; a bracket group up to its end, or a word. */
  predicate TokenText(t: string) {
    t != "" && '\n' !in t && (if t[0] == '[' then Find(t, ']') == |t| - 1 else Free(t, Space))
  }

  predicate AllTokenTexts(ts: seq<string>) {
    forall i :: 0 <= i < |ts| ==> TokenText(ts[i])
  }

  lemma {:induction false} TokensAre(s: string)
    requires '\n' !in s && Tokens(s).Some?
    ensures AllTokenTexts(Tokens(s).value)
    decreases |s|
  {
    if s != "" {
      if IsSpace(s[0]) {
        TokensAre(s[1..]);
      } else {
        var n := TokenLength(s).value;
        if s[0] == '[' {
          assert s[..n][..n - 1] == s[..n - 1];
          FindIs(s[..n], ']', n - 1);
        }
        assert TokenText(s[..n]);
        hide TokenText; hide TokenLength;
        TokensAre(s[n..]);
      }
    }
  }

  lemma {:induction false} ActiveSubset(ts: seq<string>)
    requires AllTokenTexts(ts)
    ensures AllTokens(Active(ts))
  {
    if ts != [] && !StartsWith(ts[0], "#") {
      assert TokenText(ts[0]);
      assert ts[0][0] != '#' by {
        assert ts[0][..1] == [ts[0][0]];
      }
      hide TokenText; hide IsToken;
      ActiveSubset(ts[1..]);
    }
  }

  /** What reading bracket parts without white space leaves behind. */
  predicate BracketRead(b: Bracket) {
    && (b.signedBy.Some? ==> Plain(b.signedBy.value))
    && ArchPlain(b.architectures)
    && OptionsRead(b.options)
  }

  predicate OptionRead(kv: (string, string)) {
    && Free(kv.0, Space) && Free(kv.1, Space)
    && (kv.0 == "trusted" ==> !IsYes(kv.1) && !IsNo(kv.1))
  }

  predicate OptionsRead(r: Record) {
    DistinctKeys(r) && forall i :: 0 <= i < |r| ==> OptionRead(r[i])
  }

  lemma {:induction false} PutMembers(r: Record, k: string, v: string)
    ensures forall kv :: kv in Put(r, k, v) ==> kv == (k, v) || kv in r
  {
    if r != [] && r[0].0 != k {
      PutMembers(r[1..], k, v);
    }
  }

  lemma {:induction false} PutDistinct(r: Record, k: string, v: string)
    requires DistinctKeys(r)
    ensures DistinctKeys(Put(r, k, v))
  {
    if r != [] {
      var tail := r[1..];
      assert forall i :: 0 <= i < |tail| ==> tail[i] == r[i + 1];
      if r[0].0 != k {
        PutDistinct(tail, k, v);
        PutMembers(tail, k, v);
        var q := Put(tail, k, v);
        forall j | 0 <= j < |q| ensures q[j].0 != r[0].0 {
          assert q[j] in q;
        }
      }
    }
  }

  lemma AssignRead(r: Record, k: string, v: string)
    requires OptionsRead(r) && OptionRead((k, v))
    ensures OptionsRead(Assign(r, k, v))
  {
    hide Put; hide OptionRead;
    PutMembers(r, k, v);
    PutDistinct(r, k, v);
    if k != "__proto__" {
      forall i | 0 <= i < |Put(r, k, v)| ensures OptionRead(Put(r, k, v)[i]) {
        assert Put(r, k, v)[i] in Put(r, k, v);
      }
    }
  }

  lemma FreeSlice(s: string, a: nat, b: nat)
    requires Free(s, Space) && a <= b <= |s|
    ensures Free(s[a..b], Space)
  {
  }

  lemma {:induction false} WordsInside(s: string)
    requires Free(s, Space)
    ensures forall i :: 0 <= i < |Words(s, Comma)| ==> Free(Words(s, Comma)[i], Space)
    decreases |s|
  {
    if s != "" {
      if IsSep(s[0], Comma) {
        FreeSlice(s, 1, |s|);
        WordsInside(s[1..]);
      } else {
        var n := Run(s, Comma);
        FreeSlice(s, 0, n);
        FreeSlice(s, n, |s|);
        assert s[0..n] == s[..n];
        hide Run; hide Free;
        WordsInside(s[n..]);
      }
    }
  }

  /** Words hold no other characters than the text. */
  lemma {:induction false} WordsWithout(s: string, k: Sep, c: char)
    requires c !in s
    ensures forall i :: 0 <= i < |Words(s, k)| ==> c !in Words(s, k)[i]
    decreases |s|
  {
    if s != "" {
      if IsSep(s[0], k) {
        WordsWithout(s[1..], k, c);
      } else {
        var n := Run(s, k);
        hide Run; hide IsSep;
        WordsWithout(s[n..], k, c);
      }
    }
  }

  lemma ApplyRead(b: Bracket, part: string)
    requires BracketRead(b) && Plain(part) && ApplyOption(b, part).Some?
    ensures BracketRead(ApplyOption(b, part).value)
  {
    var eq := Find(part, '=');
    var key, value := part[..eq], part[eq + 1..];
    FreeSlice(part, 0, eq);
    FreeSlice(part, eq + 1, |part|);
    assert part[0..eq] == key && part[eq + 1..|part|] == value;
    WordsInside(value);
    WordsWithout(value, Comma, ']');
    if key != "signed-by" && key != "arch" && !(key == "trusted" && (IsYes(value) || IsNo(value))) {
      AssignRead(b.options, key, value);
    }
    hide Assign; hide OptionsRead; hide Words; hide Free; hide Find; hide AllWords;
  }

  lemma {:induction false} ApplyAllRead(b: Bracket, parts: seq<string>)
    requires BracketRead(b) && PlainParts(parts) && ApplyOptions(b, parts).Ok?
    ensures BracketRead(ApplyOptions(b, parts).value)
    decreases |parts|
  {
    if parts != [] {
      assert Word(parts[0], Space);
      hide BracketRead; hide ApplyOption;
      ApplyRead(b, parts[0]);
      ApplyAllRead(ApplyOption(b, parts[0]).value, parts[1..]);
    }
  }

  /** The entries `parseClassic` yields. */
  predicate LineImage(e: Entry) {
    && |e.types| == 1 && IsType(e.types[0])
    && |e.uris| == 1 && IsToken(e.uris[0])
    && |e.suites| == 1 && IsToken(e.suites[0])
    && AllTokens(e.components)
    && BracketRead(Bracket(e.signedBy, e.architectures, e.trusted, e.options))
    && e.fields == []
  }

  lemma ActiveImage(active: seq<string>, enabled: bool)
    requires AllTokens(active)
    requires ParseActive(active, enabled).Ok? && ParseActive(active, enabled).value.Some?
    ensures LineImage(ParseActive(active, enabled).value.value)
  {
    hide IsToken; hide ApplyOptions; hide Words; hide Inner; hide BracketRead; hide PlainParts;
    var bracketed := |active| > 1 && StartsWith(active[1], "[");
    var b := if bracketed then ApplyOptions(NO_BRACKET, Words(Inner(active[1]), Space)) else Ok(NO_BRACKET);
    NoBracketRead();
    if bracketed {
      InnerPlain(active[1]);
      ApplyAllRead(NO_BRACKET, Words(Inner(active[1]), Space));
    }
    assert BracketRead(b.value);
    assert BracketRead(Bracket(b.value.signedBy, b.value.architectures, b.value.trusted, b.value.options));
    var rest := active[if bracketed then 2 else 1..];
    assert ParseSource(active[0], b.value, rest, enabled).Ok?;
    assert forall i :: 0 <= i < |rest| ==> IsToken(rest[i]);
  }

  /** The words in a bracket group. */
  lemma InnerPlain(t: string)
    requires IsToken(t) && StartsWith(t, "[")
    ensures PlainParts(Words(Inner(t), Space))
  {
    assert t[..1] == [t[0]];
    var inner := Inner(t);
    assert ']' !in inner by {
      assert ']' !in t[..|t| - 1];
      assert forall i :: 0 <= i < |inner| ==> inner[i] == t[..|t| - 1][i + 1];
    }
    hide Find; hide Inner;
    WordsWithout(inner, Space, ']');
  }

  lemma NoBracketRead()
    ensures BracketRead(NO_BRACKET)
  {
  }

  lemma ClassicLineImage(raw: string)
    requires '\n' !in raw && ParseClassicLine(raw).Ok? && ParseClassicLine(raw).value.Some?
    ensures LineImage(ParseClassicLine(raw).value.value)
  {
    TrimStartIs(raw);
    hide TrimStart; hide ParseActive; hide LineImage; hide Active; hide Tokens;
    var (work, enabled) := Uncomment(raw);
    assert '\n' !in work;
    TokensAre(work);
    ActiveSubset(Tokens(work).value);
    ActiveImage(Active(Tokens(work).value), enabled);
  }

  predicate AllLineImage(es: seq<Entry>) {
    forall i :: 0 <= i < |es| ==> LineImage(es[i])
  }

  lemma {:induction false} ClassicLinesImage(lines: seq<string>, n: nat)
    requires CleanLines(lines) && ParseClassicLines(lines, n).Ok?
    ensures AllLineImage(ParseClassicLines(lines, n).value)
    decreases |lines|
  {
    hide ParseClassicLine; hide LineImage;
    if lines != [] {
      ClassicLinesImage(lines[1..], n + 1);
      if ParseClassicLine(lines[0]).value.Some? {
        ClassicLineImage(lines[0]);
      }
    }
  }

  lemma ClassicImage(text: string)
    requires ClassicEntries(text).Ok?
    ensures AllLineImage(ClassicEntries(text).value)
  {
    hide ParseClassicLines; hide LineImage; hide Split; hide Join;
    JoinOfSplit(text, '\n');
    ClassicLinesImage(Split(text, '\n'), 1);
  }

  // ------------------------------------------------------------ the gate's condition

  /** The tokens deb822 values can hold: no white space (bracket groups), no comma. */
  predicate TokensFit(e: Entry) {
    AllWords(e.uris, SpaceComma) && AllWords(e.suites, SpaceComma) && AllWords(e.components, SpaceComma)
  }

  /** No option is named like a member every JavaScript object inherits. */
  predicate NoInherited(r: Record) {
    forall i :: 0 <= i < |r| ==> !IsInheritedMember(r[i].0)
  }

  predicate Convertible(e: Entry) {
    TokensFit(e) && NoInherited(e.options)
  }

  // --------------------------------------------------------------- acceptance

  lemma FreeOneLine(s: string)
    requires Free(s, Space)
    ensures OneLine(s) && Trimmed(s) && '\n' !in s
  {
  }

  lemma {:induction false} LookupIn(r: Record, k: string)
    ensures Lookup(r, k).Some? ==> (k, Lookup(r, k).value) in r
  {
    if r != [] && r[0].0 != k {
      LookupIn(r[1..], k);
    }
  }

  lemma ImageBlob(e: Entry)
    requires LineImage(e) && Blob(e).Some?
    ensures BlobOk(Blob(e).value)
  {
    LookupIn(e.options, "trusted");
    var kv := ("trusted", Blob(e).value);
    assert OptionRead(kv);
    FreeOneLine(kv.1);
  }

  lemma ImageEarly(e: Entry)
    requires LineImage(e) && TokensFit(e)
    ensures EarlyOk(e)
  {
    if Blob(e).Some? {
      ImageBlob(e);
    }
    hide BlobOk; hide Blob; hide TokenText; hide OptionsRead; hide IsType;
  }

  lemma ImageSigned(e: Entry)
    requires LineImage(e)
    ensures SignedByOk(e.signedBy) && RereadSigned(e.signedBy) == e.signedBy
  {
    hide Trim; hide Split; hide OptionsRead; hide AllTokenTexts; hide TokenText; hide OneLine; hide Trimmed;
    if e.signedBy.Some? {
      FreeOneLine(e.signedBy.value);
      SplitWhole(e.signedBy.value, '\n');
      TrimFixes(e.signedBy.value);
    }
  }

  /** Alias names, with the option each stands for. */
  predicate IsAlias(k: string, field: string) {
    || (k == "lang" && field == "Languages") || (k == "target" && field == "Targets")
    || (k == "pdiffs" && field == "PDiffs") || (k == "by-hash" && field == "By-Hash")
  }

  lemma AliasOf(k: string)
    requires !IsInheritedMember(k) && OptionAlias(k).Some?
    ensures IsAlias(k, OptionAlias(k).value)
  {
  }

  lemma AliasKeyOk(k: string, field: string)
    requires IsAlias(k, field)
    ensures IsKey(field) && !IsKnown(field)
  {
    hide Lower;
    if k == "lang" { LowerIs(field, "languages"); }
    else if k == "target" { LowerIs(field, "targets"); }
    else if k == "pdiffs" { LowerIs(field, "pdiffs"); }
    else { LowerIs(field, "by-hash"); }
  }

  lemma AliasFieldOk(k: string, field: string, v: string)
    requires IsAlias(k, field) && Free(v, Space)
    ensures FieldOk((field, v))
  {
    hide Split; hide IsKey; hide IsKnown; hide OneLine; hide IsAlias;
    AliasKeyOk(k, field);
    FreeOneLine(v);
    SplitWhole(v, '\n');
  }

  /** The aliased record is a sub-record: every entry stems from an option. */
  lemma {:induction false} AliasesFit(r: Record)
    requires OptionsRead(r) && NoInherited(r)
    ensures LateOk(AliasRecord(r))
    ensures forall i :: 0 <= i < |AliasRecord(r)| ==>
      Free(AliasRecord(r)[i].1, Space) && exists k :: k in Options(r) && IsAlias(k, AliasRecord(r)[i].0)
  {
    hide OptionAlias; hide FieldOk; hide IsInheritedMember; hide IsAlias;
    if r != [] {
      var k, v := r[0].0, r[0].1;
      var rest := AliasRecord(r[1..]);
      assert forall i :: 0 <= i < |r| - 1 ==> r[1..][i] == r[i + 1];
      assert OptionRead(r[0]);
      hide OptionRead;
      AliasesFit(r[1..]);
      OptionsTail(r);
      assert k in Options(r);
      if OptionAlias(k).Some? {
        var field := OptionAlias(k).value;
        AliasOf(k);
        AliasFieldOk(k, field, v);
        assert AliasRecord(r) == [(field, v)] + rest;
        forall j | 0 <= j < |rest| ensures rest[j].0 != field {
          var k2 :| k2 in Options(r[1..]) && IsAlias(k2, rest[j].0);
          AliasesDiffer(r, k2, rest[j].0, field);
        }
      } else {
        assert AliasRecord(r) == rest;
      }
    }
  }

  function Options(r: Record): set<string> {
    set i | 0 <= i < |r| :: r[i].0
  }

  lemma OptionsTail(r: Record)
    requires r != []
    ensures Options(r[1..]) <= Options(r)
  {
    forall k | k in Options(r[1..]) ensures k in Options(r) {
      var i :| 0 <= i < |r| - 1 && r[1..][i].0 == k;
      assert r[i + 1].0 == k;
    }
  }

  lemma AliasesDiffer(r: Record, k2: string, field2: string, field: string)
    requires r != [] && DistinctKeys(r) && k2 in Options(r[1..])
    requires IsAlias(r[0].0, field) && IsAlias(k2, field2)
    ensures field2 != field
  {
    var i :| 0 <= i < |r| - 1 && r[1..][i].0 == k2;
    assert r[i + 1].0 != r[0].0;
  }

  lemma ConvertiblePrintable(e: Entry)
    requires LineImage(e) && Convertible(e)
    ensures Printable(e) && AliasesOneLine(e)
    ensures EntryUnits(Reread(e)) == EntryUnits(e)
  {
    ImageEarly(e);
    ImageSigned(e);
    AliasesFit(e.options);
    assert LateRecord(e) == AliasRecord(e.options);
    forall i | 0 <= i < |AliasRecord(e.options)| ensures '\n' !in AliasRecord(e.options)[i].1 {
      FreeOneLine(AliasRecord(e.options)[i].1);
    }
    hide EarlyOk; hide SignedByOk; hide LateOk; hide AliasRecord; hide RereadSigned;
  }

  lemma {:induction false} RereadUnits(json: seq<Entry>)
    requires forall i :: 0 <= i < |json| ==> EntryUnits(Reread(json[i])) == EntryUnits(json[i])
    ensures Units(RereadAll(json)) == Units(json)
  {
    if json != [] {
      hide EntryUnits; hide Reread;
      RereadUnits(json[1..]);
      assert RereadAll(json)[1..] == RereadAll(json[1..]);
    }
  }

  lemma GateOpens(json: seq<Entry>)
    requires AllLineImage(json) && forall i :: 0 <= i < |json| ==> Convertible(json[i])
    ensures GateAccepts(json)
  {
    forall i | 0 <= i < |json|
      ensures Printable(json[i]) && AliasesOneLine(json[i]) && EntryUnits(Reread(json[i])) == EntryUnits(json[i])
    {
      assert LineImage(json[i]) && Convertible(json[i]);
      ConvertiblePrintable(json[i]);
    }
    hide Printable; hide AliasesOneLine; hide EntryUnits; hide Reread; hide Deb822Text; hide Deb822Entries; hide Units;
    Reprinted(json);
    RereadUnits(json);
  }

  // ------------------------------------------------------------------ refusal

  predicate UnitFits(u: SemUnit) {
    Word(u.at.uri, SpaceComma) && Word(u.at.suite, SpaceComma) && AllWords(u.components, SpaceComma)
  }

  lemma {:induction false} SuiteTriplesFit(t: string, u: string, suites: seq<string>)
    requires Word(u, SpaceComma) && AllWords(suites, SpaceComma)
    ensures forall at :: at in SuiteTriples(t, u, suites) ==> Word(at.uri, SpaceComma) && Word(at.suite, SpaceComma)
  {
    hide Word;
    if suites != [] {
      SuiteTriplesFit(t, u, suites[1..]);
    }
  }

  lemma {:induction false} UriTriplesFit(t: string, uris: seq<string>, suites: seq<string>)
    requires AllWords(uris, SpaceComma) && AllWords(suites, SpaceComma)
    ensures forall at :: at in UriTriples(t, uris, suites) ==> Word(at.uri, SpaceComma) && Word(at.suite, SpaceComma)
  {
    hide Word; hide SuiteTriples;
    if uris != [] {
      SuiteTriplesFit(t, uris[0], suites);
      UriTriplesFit(t, uris[1..], suites);
    }
  }

  lemma {:induction false} TriplesFit(types: seq<string>, uris: seq<string>, suites: seq<string>)
    requires AllWords(uris, SpaceComma) && AllWords(suites, SpaceComma)
    ensures forall at :: at in Triples(types, uris, suites) ==> Word(at.uri, SpaceComma) && Word(at.suite, SpaceComma)
  {
    hide Word; hide UriTriples;
    if types != [] {
      UriTriplesFit(types[0], uris, suites);
      TriplesFit(types[1..], uris, suites);
    }
  }

  /** Units of parsed deb822 entries hold words only. */
  lemma {:induction false} UnitsFit(es: seq<Entry>)
    requires AllImage(es)
    ensures forall u :: u in Units(es) ==> UnitFits(u)
  {
    if es != [] {
      var e := es[0];
      assert Image(e);
      hide Image; hide Word; hide Triples;
      TriplesFit(e.types, e.uris, e.suites);
      forall u | u in EntryUnits(e) ensures UnitFits(u) {
        var i :| 0 <= i < |EntryUnits(e)| && EntryUnits(e)[i] == u;
        assert Triples(e.types, e.uris, e.suites)[i] in Triples(e.types, e.uris, e.suites);
      }
      UnitsFit(es[1..]);
    }
  }

  lemma {:induction false} UnitInside(json: seq<Entry>, i: nat, u: SemUnit)
    requires i < |json| && u in EntryUnits(json[i])
    ensures u in Units(json)
    decreases i
  {
    hide EntryUnits;
    if i > 0 {
      UnitInside(json[1..], i - 1, u);
    }
  }

  lemma MisfitUnit(e: Entry)
    requires LineImage(e) && !TokensFit(e)
    ensures exists u :: u in EntryUnits(e) && !UnitFits(u)
  {
    var at := Triple(e.types[0], e.uris[0], e.suites[0]);
    OneTriple(at);
    assert e.types == [at.kind] && e.uris == [at.uri] && e.suites == [at.suite];
    hide Triples; hide BracketRead; hide AllTokenTexts; hide TokenText; hide Word;
    assert EntryUnits(e)[0] == UnitOf(e, at);
    assert !UnitFits(UnitOf(e, at));
  }

  /** A token with a comma, or a bracket group with white space, is refused. */
  lemma MisfitRefused(json: seq<Entry>, k: nat)
    requires AllLineImage(json) && k < |json| && !TokensFit(json[k])
    ensures !GateAccepts(json)
  {
    hide LineImage; hide Deb822Text; hide Deb822Entries; hide TokensFit; hide EntryUnits; hide UnitFits; hide Units;
    if Deb822Text(json).Ok? && Deb822Entries(Deb822Text(json).value).Ok? {
      var text := Deb822Text(json).value;
      var again := Deb822Entries(text).value;
      ParsedImage(text);
      UnitsFit(again);
      MisfitUnit(json[k]);
      var u :| u in EntryUnits(json[k]) && !UnitFits(u);
      UnitInside(json, k, u);
      assert u in multiset(Units(json)) && u !in multiset(Units(again));
    }
  }

  /** An inherited member turned into a field name is no field name. */
  lemma InheritedLineBad(k: string, v: string)
    requires IsInheritedMember(k)
    ensures Classify(InheritedText(k) + ": " + v) == BadLine
  {
    hide Classify; hide IsInheritedMember;
    if k == "__proto__" {
      ObjectLineBad(InheritedText(k) + ": " + v);
    } else {
      FunctionText(k);
      hide InheritedText;
      var rest := InheritedText(k)[8..] + ": " + v;
      assert InheritedText(k) + ": " + v == "function" + rest && rest[0] == ' ';
      FunctionLineBad(rest);
    }
  }

  lemma ObjectLineBad(raw: string)
    requires raw != "" && raw[0] == '['
    ensures Classify(raw) == BadLine
  {
  }

  lemma FunctionText(k: string)
    requires IsInheritedMember(k) && k != "__proto__"
    ensures |InheritedText(k)| > 8 && InheritedText(k)[..8] == "function" && InheritedText(k)[8] == ' '
  {
    hide IsInheritedMember;
    var rest := if k == "constructor" then "Object() { [native code] }" else k + "() { [native code] }";
    TextIsFunction(k, rest);
    hide InheritedText;
  }

  lemma TextIsFunction(k: string, rest: string)
    requires k != "__proto__" && rest == if k == "constructor" then "Object() { [native code] }" else k + "() { [native code] }"
    ensures InheritedText(k) == "function " + rest
  {
    if k == "constructor" {
      ConstructorText();
    } else {
      Assoc("function ", k, "() { [native code] }");
    }
  }

  lemma ConstructorText()
    ensures "function Object() { [native code] }" == "function " + "Object() { [native code] }"
  {
  }

  lemma FunctionLineBad(rest: string)
    requires rest != "" && rest[0] == ' '
    ensures Classify("function" + rest) == BadLine
  {
    var key := "function";
    assert IsKey(key);
    KeyLengthIs(key, rest);
    var raw := key + rest;
    assert raw[0] == 'f' && raw[8] == ' ';
  }

  lemma {:induction false} AliasLinesAppend(a: Record, b: Record)
    ensures AliasLines(a + b) == AliasLines(a) + AliasLines(b)
  {
    hide OptionAlias;
    if a == [] {
      assert a + b == b;
    } else {
      assert (a + b)[1..] == a[1..] + b;
      AliasLinesAppend(a[1..], b);
    }
  }

  lemma AliasesRead(r: Record, cur: seq<Field>)
    requires OptionsRead(r) && NoInherited(r)
    ensures ReadStanza(AliasLines(r), cur).Some?
  {
    AliasesFit(r);
    forall i | 0 <= i < |AliasRecord(r)| ensures '\n' !in AliasRecord(r)[i].1 {
      FreeOneLine(AliasRecord(r)[i].1);
    }
    hide AliasRecord; hide AliasLines; hide FieldLines; hide ReadStanza; hide FieldOk; hide Free; hide OptionsRead;
    AliasesAreFields(r);
    RecordReads(AliasRecord(r), cur);
  }

  lemma OptionsPrefix(r: Record, j: nat)
    requires OptionsRead(r) && j <= |r|
    ensures OptionsRead(r[..j])
  {
    hide OptionRead;
  }

  lemma KnownReads(e: Entry)
    requires EarlyOk(e) && SignedByOk(e.signedBy)
    ensures ReadStanza(EarlyLines(e) + SignedByLines(e.signedBy), []) == Some(KnownFields(e))
  {
    hide EarlyOk; hide SignedByOk; hide ReadStanza; hide EarlyLines; hide SignedByLines; hide EarlyFields;
    hide SignedByFields;
    EarlyReads(e);
    SignedByReads(e.signedBy, EarlyFields(e));
    ReadStanzaAppend(EarlyLines(e), SignedByLines(e.signedBy), []);
  }

  lemma RegroupLast<T>(known: seq<T>, a: seq<T>, bad: T, b: seq<T>, rest: seq<T>)
    ensures known + (a + [bad] + b) + [] + rest == known + a + [bad] + (b + rest)
  {
  }

  lemma InheritedStops(e: Entry, j: nat, rest: seq<string>)
    requires LineImage(e) && TokensFit(e)
    requires j < |e.options| && IsInheritedMember(e.options[j].0) && NoInherited(e.options[..j])
    ensures Sources(StanzaLines(e) + rest, []).None?
  {
    hide Classify; hide Sources; hide ReadStanza; hide OptionsRead; hide NoInherited; hide InheritedText;
    hide SignedByLines; hide EarlyOk; hide EarlyFields; hide SignedByFields; hide SignedByOk; hide KnownFields;
    hide IsInheritedMember; hide TokensFit; hide EarlyLines; hide AliasLines; hide RereadSigned; hide HeadLines;
    hide ComponentLines; hide ArchLines; hide EnabledLines; hide TrustedLines; hide TokenText; hide AllTokenTexts;
    var pre, kv, post := e.options[..j], e.options[j], e.options[j + 1..];
    var bad := InheritedText(kv.0) + ": " + kv.1;
    var known := EarlyLines(e) + SignedByLines(e.signedBy);
    ImageEarly(e);
    ImageSigned(e);
    KnownReads(e);
    InheritedLineBad(kv.0, kv.1);
    OptionsPrefix(e.options, j);
    AliasesRead(pre, KnownFields(e));
    ReadStanzaAppend(known, AliasLines(pre), []);
    InheritedLines(pre, kv, post);
    assert e.options == pre + [kv] + post;
    LinesOf(e);
    RegroupLast(known, AliasLines(pre), bad, AliasLines(post), rest);
    StanzaBreaks(known + AliasLines(pre), bad, AliasLines(post) + rest);
  }

  lemma LinesOf(e: Entry)
    requires e.fields == []
    ensures StanzaLines(e) == EarlyLines(e) + SignedByLines(e.signedBy) + AliasLines(e.options) + []
  {
    hide HeadLines; hide ComponentLines; hide ArchLines; hide EnabledLines; hide TrustedLines; hide SignedByLines;
    hide AliasLines;
  }

  lemma InheritedLines(pre: Record, kv: (string, string), post: Record)
    requires IsInheritedMember(kv.0)
    ensures AliasLines(pre + [kv] + post)
      == AliasLines(pre) + [InheritedText(kv.0) + ": " + kv.1] + AliasLines(post)
  {
    hide OptionAlias; hide InheritedText; hide IsInheritedMember; hide AliasLines;
    AliasLinesAppend(pre + [kv], post);
    AliasLinesAppend(pre, [kv]);
    InheritedAlias(kv.0);
    OneAlias(kv, InheritedText(kv.0));
  }

  lemma InheritedAlias(k: string)
    requires IsInheritedMember(k)
    ensures OptionAlias(k) == Some(InheritedText(k))
  {
    hide InheritedText;
  }

  lemma OneAlias(kv: (string, string), field: string)
    requires OptionAlias(kv.0) == Some(field)
    ensures AliasLines([kv]) == [field + ": " + kv.1]
  {
    hide OptionAlias;
    assert [kv][1..] == [];
    assert AliasLines([]) == [];
    assert [field + ": " + kv.1] + [] == [field + ": " + kv.1];
  }

  lemma {:induction false} FirstInherited(r: Record) returns (j: nat)
    requires !NoInherited(r)
    ensures j < |r| && IsInheritedMember(r[j].0) && NoInherited(r[..j])
  {
    hide IsInheritedMember;
    j := 0;
    while !IsInheritedMember(r[j].0)
      invariant j < |r| && NoInherited(r[..j])
      decreases |r| - j
    {
      assert exists i :: 0 <= i < |r| && IsInheritedMember(r[i].0);
      assert forall i :: 0 <= i < j ==> r[..j][i] == r[i];
      assert forall i :: 0 <= i <= j ==> !IsInheritedMember(r[i].0);
      j := j + 1;
    }
  }

  lemma InheritedBreaks(e: Entry)
    requires LineImage(e) && TokensFit(e) && !NoInherited(e.options)
    ensures Breaks(e)
  {
    hide LineImage; hide TokensFit; hide NoInherited; hide Sources; hide StanzaLines; hide IsInheritedMember;
    var j := FirstInherited(e.options);
    forall rest ensures Sources(StanzaLines(e) + rest, []).None? {
      InheritedStops(e, j, rest);
    }
  }

  lemma AliasNameClean(k: string)
    requires '\n' !in k && OptionAlias(k).Some?
    ensures '\n' !in OptionAlias(k).value
  {
    hide IsInheritedMember;
    if IsInheritedMember(k) && OptionAlias(k).value == InheritedText(k) {
      InheritedClean(k);
    }
  }

  lemma InheritedClean(k: string)
    requires '\n' !in k
    ensures '\n' !in InheritedText(k)
  {
  }

  lemma {:induction false} AliasRecordClean(r: Record)
    requires forall i :: 0 <= i < |r| ==> '\n' !in r[i].0 && '\n' !in r[i].1
    ensures forall i :: 0 <= i < |AliasRecord(r)| ==> '\n' !in AliasRecord(r)[i].0 && '\n' !in AliasRecord(r)[i].1
  {
    hide OptionAlias;
    if r != [] {
      AliasRecordClean(r[1..]);
      if OptionAlias(r[0].0).Some? {
        AliasNameClean(r[0].0);
        assert AliasRecord(r) == [(OptionAlias(r[0].0).value, r[0].1)] + AliasRecord(r[1..]);
      } else {
        assert AliasRecord(r) == AliasRecord(r[1..]);
      }
    }
  }

  lemma LineImageClean(e: Entry)
    requires LineImage(e) && TokensFit(e)
    ensures CleanLines(StanzaLines(e)) && Valid(e)
  {
    ImageEarly(e);
    forall i | 0 <= i < |e.options| ensures '\n' !in e.options[i].0 && '\n' !in e.options[i].1 {
      assert OptionRead(e.options[i]);
      FreeOneLine(e.options[i].0);
      FreeOneLine(e.options[i].1);
    }
    AliasRecordClean(e.options);
    assert LateRecord(e) == AliasRecord(e.options);
    hide AliasRecord; hide StanzaLines; hide LineImage; hide TokensFit; hide EarlyOk;
    CleanEntry(e);
  }

  lemma InheritedRefused(json: seq<Entry>, k: nat)
    requires AllLineImage(json) && forall i :: 0 <= i < |json| ==> TokensFit(json[i])
    requires k < |json| && !NoInherited(json[k].options)
    requires forall i :: 0 <= i < k ==> NoInherited(json[i].options)
    ensures !GateAccepts(json)
  {
    hide LineImage; hide TokensFit; hide NoInherited; hide Printable; hide AliasesOneLine; hide EntryUnits;
    hide Reread; hide Breaks; hide StanzaLines; hide CleanLines; hide Valid; hide Sources; hide Body; hide Deb822Entries;
    hide Deb822Text;
    forall i | 0 <= i < k ensures Printable(json[i]) && AliasesOneLine(json[i]) {
      ConvertiblePrintable(json[i]);
    }
    InheritedBreaks(json[k]);
    BodyBreaks(json, k);
    forall i | 0 <= i < |json| ensures CleanLines(StanzaLines(json[i])) {
      LineImageClean(json[i]);
    }
    if Deb822Text(json).Ok? {
      TextSources(json);
    }
  }

  lemma RefusedUnlessConvertible(json: seq<Entry>, k: nat)
    requires AllLineImage(json) && k < |json| && !Convertible(json[k])
    ensures !GateAccepts(json)
  {
    hide LineImage; hide TokensFit; hide NoInherited; hide GateAccepts;
    if m :| 0 <= m < |json| && !TokensFit(json[m]) {
      MisfitRefused(json, m);
    } else {
      var j := 0;
      while NoInherited(json[j].options)
        invariant j <= k && forall i :: 0 <= i < j ==> NoInherited(json[i].options)
        decreases k - j
      {
        j := j + 1;
      }
      InheritedRefused(json, j);
    }
  }

  /** For every classic file the parser accepts, the gate lets the conversion through exactly
      when its uri, suite and component tokens hold neither comma nor white space and no
      bracket option is named like an inherited member. */
  lemma GateExactly(text: string)
    requires ClassicEntries(text).Ok?
    ensures GateAccepts(ClassicEntries(text).value)
      <==> forall i :: 0 <= i < |ClassicEntries(text).value| ==> Convertible(ClassicEntries(text).value[i])
  {
    hide ClassicEntries; hide LineImage; hide Convertible; hide GateAccepts;
    var json := ClassicEntries(text).value;
    ClassicImage(text);
    if forall i :: 0 <= i < |json| ==> Convertible(json[i]) {
      GateOpens(json);
    } else {
      var k :| 0 <= k < |json| && !Convertible(json[k]);
      RefusedUnlessConvertible(json, k);
    }
  }

  // ------------------------------------------------------------------ witnesses

  /** A source with one bracket option, and the line it is written as. */
  function Sample(option: (string, string), uri: string): Entry {
    Entry(["deb"], [uri], ["s"], [], None, None, false, true, [option], [])
  }

  lemma SampleCarries(option: (string, string), uri: string)
    requires option.0 != "__proto__" && option.0 != "trusted"
    ensures Carry(Sample(option, uri)) == Bracket(None, None, false, [option])
  {
    assert Carried(Sample(option, uri)) == [option];
    assert [option][1..] == [] && Put([], option.0, option.1) == [option];
    hide Carried; hide IsFlag;
    assert AssignAll(AssignOne(NO_BRACKET, option), []) == AssignOne(NO_BRACKET, option);
  }

  lemma SampleParses(option: (string, string), uri: string)
    requires OptionOk(option) && option.0 != "__proto__" && option.0 != "trusted" && IsToken(uri)
    ensures ClassicText([Sample(option, uri)]).Ok?
    ensures ClassicText([Sample(option, uri)]).value == "deb [ " + option.0 + "=" + option.1 + " ] " + uri + " s" + "\n"
    ensures ClassicEntries(ClassicText([Sample(option, uri)]).value) == Ok([Sample(option, uri)])
  {
    var e := Sample(option, uri);
    var at := Triple("deb", uri, "s");
    OneTriple(at);
    assert Carried(e) == [option];
    SampleCarries(option, uri);
    hide BracketParts; hide OptionOk; hide IsToken; hide Triples; hide Carried; hide ParseClassicLines; hide Carry;
    assert IsToken("s");
    assert [e][1..] == [];
    ClassicRoundTrip([e]);
    assert EntriesAt(e, [at]) == [LineEntry(e, at)] by {
      assert [at][1..] == [];
    }
    assert Expand([e]) == [LineEntry(e, at)] + [];
    SampleLine(option, uri);
    hide ClassicLine;
    assert LinesAt(e, [at]) == [ClassicLine(e, at)];
    assert ClassicLines([e], 0) == Ok([ClassicLine(e, at)] + []);
    JoinCons(ClassicLine(e, at), [], "\n");
  }

  lemma SampleLine(option: (string, string), uri: string)
    requires BracketParts(Sample(option, uri)) == [option.0 + "=" + option.1] && uri != ""
    ensures ClassicLine(Sample(option, uri), Triple("deb", uri, "s"))
      == "deb [ " + option.0 + "=" + option.1 + " ] " + uri + " s"
  {
    hide BracketParts; hide Join; hide NonEmpty; hide ClassicBracket;
    var e := Sample(option, uri);
    var part := option.0 + "=" + option.1;
    var b := "[ " + part + " ]";
    OnePart(e, part);
    NonEmptyAll(["deb", b, uri, "s"]);
    assert ["deb", b, uri, "s"] + e.components == ["deb", b, uri, "s"];
    FourJoined("deb", b, uri, "s");
    assert "deb" + " " + b + " " + uri + " " + "s" == "deb [ " + part + " ] " + uri + " s";
    assert "deb [ " + part + " ] " + uri + " s" == "deb [ " + option.0 + "=" + option.1 + " ] " + uri + " s";
  }

  lemma OnePart(e: Entry, part: string)
    requires BracketParts(e) == [part]
    ensures ClassicBracket(e) == "[ " + part + " ]"
  {
    hide BracketParts; hide Join;
    JoinCons(part, [], " ");
    assert [part] + [] == [part];
  }

  lemma FourJoined(a: string, b: string, c: string, d: string)
    ensures Join([a, b, c, d], " ") == a + " " + b + " " + c + " " + d
  {
    hide Join;
    JoinCons(d, [], " ");
    JoinCons(c, [d], " ");
    JoinCons(b, [c, d], " ");
    JoinCons(a, [b, c, d], " ");
    assert [a, b, c, d] == [a] + [b, c, d] && [b, c, d] == [b] + [c, d] && [c, d] == [c] + [d] && [d] == [d] + [];
  }

  /** An option called `constructor` finds the inherited member: the printed stanza no longer
      parses and the conversion is refused, whatever the (well-formed) uri. */
  lemma InheritedSample(text: string, uri: string)
    requires text == "deb [ constructor=x ] " + uri + " s" + "\n" && IsToken(uri) && Word(uri, SpaceComma)
    ensures ClassicEntries(text) == Ok([Sample(("constructor", "x"), uri)])
    ensures TokensFit(Sample(("constructor", "x"), uri)) && !GateAccepts([Sample(("constructor", "x"), uri)])
  {
    hide ClassicEntries; hide ClassicText; hide GateAccepts; hide IsToken; hide TokensFit; hide NoInherited; hide OptionOk; hide LineImage;
    var e := Sample(("constructor", "x"), uri);
    ConstructorOption();
    SampleParses(("constructor", "x"), uri);
    SampleTyped(text, uri);
    SampleFits(uri);
    GateExactly(text);
    assert [e][0] == e;
  }

  lemma SampleTyped(text: string, uri: string)
    requires text == "deb [ constructor=x ] " + uri + " s" + "\n"
    ensures text == "deb [ " + "constructor" + "=" + "x" + " ] " + uri + " s" + "\n"
  {
    assert "deb [ " + "constructor" + "=" + "x" + " ] " == "deb [ constructor=x ] ";
  }

  lemma SampleFits(uri: string)
    requires Word(uri, SpaceComma)
    ensures TokensFit(Sample(("constructor", "x"), uri)) && !NoInherited(Sample(("constructor", "x"), uri).options)
  {
    var e := Sample(("constructor", "x"), uri);
    assert e.options[0].0 == "constructor";
    hide IsInheritedMember;
  }

  lemma ConstructorOption()
    ensures OptionOk(("constructor", "x")) && "constructor" != "__proto__" && "constructor" != "trusted" && IsInheritedMember("constructor")
  {
  }

  /** A second bracket group is a uri to the line parser and two words to deb822. */
  lemma BracketGroupSample(text: string, uri: string)
    requires text == "deb [ a=b ] " + uri + " s" + "\n" && IsToken(uri) && !Free(uri, Space)
    ensures ClassicEntries(text) == Ok([Sample(("a", "b"), uri)])
    ensures NoInherited([("a", "b")]) && !GateAccepts([Sample(("a", "b"), uri)])
  {
    hide ClassicEntries; hide ClassicText; hide GateAccepts; hide IsToken;
    var e := Sample(("a", "b"), uri);
    SampleParses(("a", "b"), uri);
    assert "deb [ " + "a" + "=" + "b" + " ] " == "deb [ a=b ] ";
    assert !TokensFit(e) by {
      assert e.uris[0] == uri;
      var i :| 0 <= i < |uri| && IsSep(uri[i], Space);
      assert IsSep(uri[i], SpaceComma);
    }
    GateExactly(text);
    assert [e][0] == e;
  }

}
