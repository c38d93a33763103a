/** deb822 texts: printing a model and parsing it again, and parsing, printing, parsing. */
module AptRoundTrip {
  import opened Wrappers
  import opened Text
  import opened AptModel
  import opened AptDeb822
  import opened AptStanza

  // ------------------------------------------------------------ lines of a text

  /** The lines of the printed text. */
  function Body(json: seq<Entry>): seq<string> {
    if json == [] then [] else StanzaLines(json[0]) + [""] + Body(json[1..])
  }

  lemma LastStanza(lines: seq<string>)
    requires lines != [] && CleanLines(lines)
    ensures Split(Join(lines, "\n") + "\n", '\n') == lines + [""]
  {
    SplitJoined(lines);
    SplitWhole("", '\n');
    hide Split; hide Join; hide CleanLines;
    var s := Join(lines, "\n");
    SplitAppend(s, '\n', "");
    assert s + ['\n'] + "" == s + "\n";
  }

  lemma NextStanza(lines: seq<string>, rest: string)
    requires lines != [] && CleanLines(lines)
    ensures Split(Join(lines, "\n") + "\n\n" + rest, '\n') == lines + [""] + Split(rest, '\n')
  {
    hide Split; hide Join; hide CleanLines;
    SplitJoined(lines);
    BlankLineSplits(rest);
    var s := Join(lines, "\n");
    SplitAppend(s, '\n', "\n" + rest);
    TwoFeeds(s, rest);
    Assoc(lines, [""], Split(rest, '\n'));
  }

  lemma TwoFeeds(s: string, rest: string)
    ensures s + ['\n'] + ("\n" + rest) == s + "\n\n" + rest
  {
    var a, b := s + ['\n'] + ("\n" + rest), s + "\n\n" + rest;
    assert |a| == |b|;
    forall i | 0 <= i < |a| ensures a[i] == b[i] {
    }
  }

  lemma SplitJoined(lines: seq<string>)
    requires lines != [] && CleanLines(lines)
    ensures Split(Join(lines, "\n"), '\n') == lines
  {
    hide Split; hide Join;
    SplitOfJoin(lines, '\n');
  }

  lemma BlankLineSplits(rest: string)
    ensures Split("\n" + rest, '\n') == [""] + Split(rest, '\n')
  {
    SplitWhole("", '\n');
    hide Split;
    SplitAppend("", '\n', rest);
    assert "" + ['\n'] + rest == "\n" + rest;
  }

  lemma {:induction false} StanzaTextLines(json: seq<Entry>, index: nat)
    requires json != [] && Stanzas(json, index).Ok?
    requires forall i :: 0 <= i < |json| ==> CleanLines(StanzaLines(json[i]))
    ensures |Stanzas(json, index).value| == |json|
    ensures Split(Join(Stanzas(json, index).value, "\n\n") + "\n", '\n') == Body(json)
    decreases |json|
  {
    var lines := StanzaLines(json[0]);
    assert |lines| >= 3;
    var rest := json[1..];
    assert forall i :: 0 <= i < |rest| ==> rest[i] == json[i + 1];
    hide StanzaLines; hide Validate; hide CleanLines; hide Split; hide Join;
    var tail := Stanzas(rest, index + 1).value;
    if rest == [] {
      LastStanza(lines);
      assert Stanzas(json, index).value == [Join(lines, "\n")] + [];
      JoinCons(Join(lines, "\n"), [], "\n\n");
    } else {
      StanzaTextLines(rest, index + 1);
      assert Stanzas(json, index).value == [Join(lines, "\n")] + tail;
      hide Stanzas;
      NextStanza(lines, Join(tail, "\n\n") + "\n");
      JoinCons(Join(lines, "\n"), tail, "\n\n");
      Assoc(Join(lines, "\n") + "\n\n", Join(tail, "\n\n"), "\n");
    }
  }

  lemma TextLines(json: seq<Entry>)
    requires Deb822Text(json).Ok?
    requires forall i :: 0 <= i < |json| ==> CleanLines(StanzaLines(json[i]))
    ensures json != [] ==> Split(Deb822Text(json).value, '\n') == Body(json)
    ensures json == [] ==> Deb822Text(json).value == ""
  {
    hide StanzaLines; hide CleanLines;
    if json != [] {
      StanzaTextLines(json, 0);
    }
  }

  // ------------------------------------------------------- no line breaks inside

  lemma WordsClean(ts: seq<string>)
    requires AllWords(ts, SpaceComma)
    ensures '\n' !in Join(ts, " ")
  {
    JoinOneLine(ts);
  }

  lemma CleanEarly(e: Entry)
    requires EarlyOk(e)
    ensures CleanLines(EarlyLines(e))
  {
    TypesAreWords(e.types);
    WordsClean(e.types);
    WordsClean(e.uris);
    WordsClean(e.suites);
    WordsClean(e.components);
    if e.architectures.Some? {
      WordsClean(e.architectures.value);
    }
    hide Join;
    assert CleanLines(HeadLines(e)) && CleanLines(ComponentLines(e)) && CleanLines(ArchLines(e));
    assert CleanLines(TrustedLines(e));
    hide HeadLines; hide ComponentLines; hide ArchLines; hide TrustedLines;
    CleanAppend(HeadLines(e), ComponentLines(e));
    CleanAppend(HeadLines(e) + ComponentLines(e), ArchLines(e));
    CleanAppend(HeadLines(e) + ComponentLines(e) + ArchLines(e), EnabledLines(e));
    CleanAppend(HeadLines(e) + ComponentLines(e) + ArchLines(e) + EnabledLines(e), TrustedLines(e));
  }

  lemma CleanStuffed(ls: seq<string>)
    requires CleanLines(ls)
    ensures CleanLines(StuffAll(ls))
  {
    forall i | 0 <= i < |ls| ensures '\n' !in StuffAll(ls)[i] {
      assert StuffAll(ls)[i] == Stuff(ls[i]);
    }
  }

  lemma CleanSigned(s: Option<string>)
    ensures CleanLines(SignedByLines(s))
  {
    if s.Some? {
      var kl := Split(s.value, '\n');
      JoinOfSplit(s.value, '\n');
      if |kl| == 1 {
        assert kl[0] == s.value;
      } else {
        assert CleanLines(kl);
        CleanStuffed(kl);
        hide Split;
        CleanAppend(["Signed-By:"], StuffAll(kl));
      }
    }
  }

  lemma {:induction false} CleanFields(r: Record)
    requires forall i :: 0 <= i < |r| ==> '\n' !in r[i].0
    ensures CleanLines(FieldLines(r))
  {
    if r != [] {
      var vl := Split(r[0].1, '\n');
      JoinOfSplit(r[0].1, '\n');
      CleanStuffed(vl[1..]);
      CleanFields(r[1..]);
      hide Split; hide StuffAll; hide CleanLines;
      assert CleanLines([r[0].0 + ": " + vl[0]]) by { CleanOne(r[0].0, vl[0]); }
      CleanAppend([r[0].0 + ": " + vl[0]], StuffAll(vl[1..]));
      CleanAppend([r[0].0 + ": " + vl[0]] + StuffAll(vl[1..]), FieldLines(r[1..]));
    }
  }

  lemma CleanOne(key: string, v: string)
    requires '\n' !in key && '\n' !in v
    ensures CleanLines([key + ": " + v])
  {
  }

  lemma CleanEntry(e: Entry)
    requires EarlyOk(e)
    requires forall i :: 0 <= i < |LateRecord(e)| ==> '\n' !in LateRecord(e)[i].0
    requires AliasesOneLine(e)
    ensures CleanLines(StanzaLines(e))
  {
    CleanEarly(e);
    CleanSigned(e.signedBy);
    AliasesAreFields(e.options);
    FieldLinesAppend(AliasRecord(e.options), e.fields);
    CleanFields(LateRecord(e));
    var known := EarlyLines(e) + SignedByLines(e.signedBy);
    hide FieldLines; hide CleanLines; hide AliasLines;
    CleanAppend(EarlyLines(e), SignedByLines(e.signedBy));
    CleanAppend(known, FieldLines(LateRecord(e)));
    Assoc(known, AliasLines(e.options), FieldLines(e.fields));
  }

  /** No option printed as a field holds a line break. */
  predicate AliasesOneLine(e: Entry) {
    OneLineValues(AliasRecord(e.options))
  }

  // -------------------------------------------------------------- printed and read

  function RereadAll(json: seq<Entry>): seq<Entry> {
    if json == [] then [] else [Reread(json[0])] + RereadAll(json[1..])
  }

  lemma StanzaReads(e: Entry, rest: seq<string>)
    requires Printable(e) && AliasesOneLine(e)
    ensures Sources(StanzaLines(e) + [""] + rest, []) == After([Reread(e)], Sources(rest, []))
  {
    EntryReads(e);
    StanzaBack(e);
    assert |FieldsOf(e)| >= 3;
    hide StanzaLines; hide FieldsOf; hide StanzaToEntry; hide Sources; hide ReadStanza; hide Reread;
    StanzaEnds(StanzaLines(e), rest);
  }

  lemma {:induction false} BodyReads(json: seq<Entry>)
    requires forall i :: 0 <= i < |json| ==> Printable(json[i]) && AliasesOneLine(json[i])
    ensures Sources(Body(json), []) == Some(RereadAll(json))
    decreases |json|
  {
    if json != [] {
      hide StanzaLines; hide Printable; hide AliasesOneLine; hide Sources; hide Reread;
      BodyReads(json[1..]);
      StanzaReads(json[0], Body(json[1..]));
    }
  }

  lemma PrintableClean(e: Entry)
    requires Printable(e) && AliasesOneLine(e)
    ensures CleanLines(StanzaLines(e))
  {
    forall i | 0 <= i < |LateRecord(e)| ensures '\n' !in LateRecord(e)[i].0 {
      assert FieldOk(LateRecord(e)[i]);
    }
    CleanEntry(e);
  }

  lemma {:induction false} StanzasOk(json: seq<Entry>, index: nat)
    ensures Stanzas(json, index).Ok? <==> forall i :: 0 <= i < |json| ==> Valid(json[i])
    decreases |json|
  {
    hide StanzaLines; hide Valid; hide Validate;
    if json != [] {
      ValidateExact(json[0], index);
      StanzasOk(json[1..], index + 1);
      assert forall i :: 1 <= i < |json| ==> json[i] == json[1..][i - 1];
    }
  }

  lemma TextSources(json: seq<Entry>)
    requires Deb822Text(json).Ok? && json != []
    requires forall i :: 0 <= i < |json| ==> CleanLines(StanzaLines(json[i]))
    ensures Entries(Deb822Entries(Deb822Text(json).value)) == Sources(Body(json), [])
  {
    hide StanzaLines; hide CleanLines; hide Body; hide Join;
    TextLines(json);
    hide Deb822Text; hide Stanzas; hide Split; hide ParseStanzas;
    NumbersOnlyInErrors(Body(json), [], 1, 0);
  }

  /** Printing entries whose lines all read as fields, and parsing, gives their reread form. */
  lemma Reprinted(json: seq<Entry>)
    requires forall i :: 0 <= i < |json| ==> Printable(json[i]) && AliasesOneLine(json[i])
    ensures Deb822Text(json).Ok? && Deb822Entries(Deb822Text(json).value) == Ok(RereadAll(json))
  {
    hide StanzaLines; hide Printable; hide AliasesOneLine; hide CleanLines; hide Valid; hide Body; hide Join; hide Stanzas; hide Deb822Entries; hide Sources; hide RereadAll;
    forall i | 0 <= i < |json| ensures CleanLines(StanzaLines(json[i])) && Valid(json[i]) {
      PrintableValid(json[i]);
    }
    StanzasOk(json, 0);
    if json == [] {
      EmptyReprinted();
    } else {
      TextSources(json);
      BodyReads(json);
    }
  }

  lemma PrintableValid(e: Entry)
    requires Printable(e) && AliasesOneLine(e)
    ensures CleanLines(StanzaLines(e)) && Valid(e)
  {
    PrintableClean(e);
  }

  lemma EmptyReprinted()
    ensures Deb822Text([]) == Ok("") && Deb822Entries("") == Ok([]) && RereadAll([]) == []
  {
  }

  // -------------------------------------------------------------------- round trip

  /** A one-line Signed-By value that the parser keeps as it stands. */
  predicate SignedKept(s: Option<string>) {
    s.Some? && |Split(s.value, '\n')| == 1 ==> OneLine(s.value) && Trimmed(s.value)
  }

  /** Models the deb822 side can hold: comma- and white-space-free tokens, stuffable value
      lines, unmodelled field names, and no option except a non-boolean trusted blob. */
  predicate Expressible(e: Entry) {
    && EarlyOk(e)
    && SignedByOk(e.signedBy) && SignedKept(e.signedBy)
    && LateOk(e.fields)
    && (e.options == [] || (|e.options| == 1 && e.options[0].0 == "trusted" && !e.trusted))
  }

  lemma ExpressibleKept(e: Entry)
    requires Expressible(e)
    ensures Printable(e) && AliasesOneLine(e) && Reread(e) == e
  {
    if e.options != [] {
      assert OptionAlias("trusted").None?;
      assert AliasRecord(e.options) == [] + AliasRecord(e.options[1..]);
      assert Blob(e) == Some(e.options[0].1);
    }
    assert LateRecord(e) == e.fields;
    if e.signedBy.Some? {
      hide Trim;
      TrimFixes(e.signedBy.value);
    }
  }

  lemma {:induction false} RereadSame(json: seq<Entry>)
    requires forall i :: 0 <= i < |json| ==> Reread(json[i]) == json[i]
    ensures RereadAll(json) == json
  {
    if json != [] {
      hide Reread;
      RereadSame(json[1..]);
    }
  }

  /** deb822 -> text -> deb822 is the identity on every expressible model. */
  lemma Deb822RoundTrip(json: seq<Entry>)
    requires forall i :: 0 <= i < |json| ==> Expressible(json[i])
    ensures Deb822Text(json).Ok? && Deb822Entries(Deb822Text(json).value) == Ok(json)
  {
    forall i | 0 <= i < |json|
      ensures Printable(json[i]) && AliasesOneLine(json[i]) && Reread(json[i]) == json[i]
    {
      ExpressibleKept(json[i]);
    }
    hide Printable; hide AliasesOneLine; hide Reread; hide Deb822Text; hide Deb822Entries;
    Reprinted(json);
    RereadSame(json);
  }
}
