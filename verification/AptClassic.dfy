/** One-line-style round trips: what the line parser makes of what the line printer wrote. */
module AptClassic {
  import opened Wrappers
  import opened Text
  import opened AptModel

  // -------------------------------------------------------------------- tokens

  /** A text the tokenizer reads back as one token that starts no comment: a word, or a
      bracket group that closes at its end. */
  predicate IsToken(t: string) {
    && t != "" && '\n' !in t && t[0] != '#'
    && (if t[0] == '[' then Find(t, ']') == |t| - 1 else Free(t, Space))
  }

  predicate AllTokens(ts: seq<string>) {
    forall i :: 0 <= i < |ts| ==> IsToken(ts[i])
  }

  lemma {:induction false} TokenStep(t: string, rest: string)
    requires IsToken(t) && (rest == "" || rest[0] == ' ')
    ensures Tokens(t + rest) == AddTokens([t], Tokens(rest))
  {
    var s := t + rest;
    assert s[0] == t[0] && !IsSpace(s[0]);
    assert s[..|t|] == t && s[|t|..] == rest;
    if t[0] == '[' {
      assert s[..|t| - 1] == t[..|t| - 1];
      FindIs(s, ']', |t| - 1);
    } else {
      RunIs(s, Space, |t|);
    }
    assert TokenLength(s) == Some(|t|);
    hide TokenLength;
  }

  lemma {:induction false} TokensOfJoin(ts: seq<string>)
    requires AllTokens(ts)
    ensures Tokens(Join(ts, " ")) == Some(ts)
    decreases |ts|
  {
    if |ts| == 1 {
      TokenStep(ts[0], "");
      assert ts[0] + "" == ts[0];
      assert [ts[0]] + [] == ts;
    } else if |ts| > 1 {
      var tail := Join(ts[1..], " ");
      assert Join(ts, " ") == ts[0] + (" " + tail);
      TokenStep(ts[0], " " + tail);
      assert (" " + tail)[1..] == tail;
      assert Tokens(" " + tail) == Tokens(tail);
      hide IsToken; hide Tokens; hide Join;
      TokensOfJoin(ts[1..]);
      assert [ts[0]] + ts[1..] == ts;
    }
  }

  lemma {:induction false} ActiveAll(ts: seq<string>)
    requires AllTokens(ts)
    ensures Active(ts) == ts
  {
    if ts != [] {
      assert IsToken(ts[0]) && !StartsWith(ts[0], "#");
      ActiveAll(ts[1..]);
    }
  }

  // ------------------------------------------------------------------- brackets

  /** Text that can stand inside a bracket part. */
  predicate Plain(s: string) {
    Free(s, Space) && ']' !in s
  }

  /** A record entry that a bracket can carry as `key=value`. */
  predicate OptionOk(kv: (string, string)) {
    && Plain(kv.0) && Plain(kv.1) && '=' !in kv.0
    && kv.0 != "signed-by" && kv.0 != "arch"
  }

  /** An option that a bracket reads as the trusted flag. */
  predicate IsFlag(kv: (string, string)) {
    kv.0 == "trusted" && (IsYes(kv.1) || IsNo(kv.1))
  }

  predicate AllOptionsOk(r: Record) {
    forall i :: 0 <= i < |r| ==> OptionOk(r[i])
  }

  function AssignOne(b: Bracket, kv: (string, string)): Bracket {
    if IsFlag(kv) then b.(trusted := IsYes(kv.1)) else b.(options := Assign(b.options, kv.0, kv.1))
  }

  /** What a bracket makes of some options: the last flag counts, the others are kept. */
  function AssignAll(b: Bracket, more: Record): (r: Bracket)
    ensures r.signedBy == b.signedBy && r.architectures == b.architectures
    decreases |more|
  {
    if more == [] then b else AssignAll(AssignOne(b, more[0]), more[1..])
  }

  lemma OptionSplits(k: string, v: string)
    requires '=' !in k
    ensures Find(k + "=" + v, '=') == |k|
    ensures (k + "=" + v)[..|k|] == k && (k + "=" + v)[|k| + 1..] == v
  {
    var s := k + "=" + v;
    assert s[..|k|] == k;
    FindIs(s, '=', |k|);
  }

  lemma ApplyPlain(b: Bracket, kv: (string, string))
    requires OptionOk(kv)
    ensures ApplyOption(b, kv.0 + "=" + kv.1) == Some(AssignOne(b, kv))
  {
    OptionSplits(kv.0, kv.1);
    hide Find; hide Assign;
  }

  lemma {:induction false} ApplyRecord(b: Bracket, r: Record)
    requires AllOptionsOk(r)
    ensures ApplyOptions(b, OptionParts(r)) == Ok(AssignAll(b, r))
    decreases |r|
  {
    if r != [] {
      hide OptionOk; hide ApplyOption; hide AssignOne;
      ApplyPlain(b, r[0]);
      var parts := OptionParts(r);
      assert parts[0] == r[0].0 + "=" + r[0].1 && parts[1..] == OptionParts(r[1..]);
      ApplyRecord(AssignOne(b, r[0]), r[1..]);
    }
  }

  lemma {:induction false} ApplyAppend(b: Bracket, a: seq<string>, c: seq<string>)
    ensures ApplyOptions(b, a + c) ==
      match ApplyOptions(b, a) case Err(why) => Err(why) case Ok(next) => ApplyOptions(next, c)
    decreases |a|
  {
    hide ApplyOption;
    if a == [] {
      assert a + c == c;
    } else {
      assert (a + c)[1..] == a[1..] + c;
      if ApplyOption(b, a[0]).Some? {
        ApplyAppend(ApplyOption(b, a[0]).value, a[1..], c);
      }
    }
  }

  /** The options a bracket of this entry carries. */
  function Carried(e: Entry): Record {
    e.options + AliasedFields(e.fields)
  }

  /** Signed-By values that classic brackets hold as they stand: comma-joined words. */
  predicate SignedPlain(s: Option<string>) {
    s.Some? ==> Join(Words(s.value, SpaceComma), ",") == s.value && ']' !in s.value
  }

  predicate ArchPlain(a: Option<seq<string>>) {
    a.Some? ==> AllWords(a.value, SpaceComma) && forall i :: 0 <= i < |a.value| ==> ']' !in a.value[i]
  }

  predicate BracketOk(e: Entry) {
    SignedPlain(e.signedBy) && ArchPlain(e.architectures) && AllOptionsOk(Carried(e))
  }

  lemma {:induction false} CommaJoin(ts: seq<string>)
    requires AllWords(ts, SpaceComma)
    ensures Free(Join(ts, ","), Space)
    ensures (forall i :: 0 <= i < |ts| ==> ']' !in ts[i]) ==> ']' !in Join(ts, ",")
    ensures AllWords(ts, Comma)
  {
    if |ts| > 1 {
      CommaJoin(ts[1..]);
      assert forall i :: 0 <= i < |ts| - 1 ==> ts[1..][i] == ts[i + 1];
      FreeAppend(ts[0], ",");
      FreeAppend(ts[0] + ",", Join(ts[1..], ","));
    }
  }

  lemma FreeAppend(a: string, b: string)
    ensures Free(a + b, Space) <==> Free(a, Space) && Free(b, Space)
  {
    assert forall i :: 0 <= i < |a| ==> (a + b)[i] == a[i];
    assert forall i :: 0 <= i < |b| ==> (a + b)[|a| + i] == b[i];
  }

  lemma SignedIsPlain(e: Entry)
    requires SignedPlain(e.signedBy) && e.signedBy.Some?
    ensures Plain(e.signedBy.value) && SignedByParts(e) == ["signed-by" + "=" + e.signedBy.value]
  {
    CommaJoin(Words(e.signedBy.value, SpaceComma));
    assert "signed-by" + "=" == "signed-by=";
  }

  lemma ApplySigned(b: Bracket, v: string)
    ensures ApplyOption(b, "signed-by" + "=" + v) == Some(b.(signedBy := Some(v)))
  {
    OptionSplits("signed-by", v);
    hide Find; hide Assign;
  }

  lemma ApplyArch(b: Bracket, ts: seq<string>)
    requires AllWords(ts, SpaceComma)
    ensures ApplyOption(b, "arch" + "=" + Join(ts, ",")) == Some(b.(architectures := Some(ts)))
  {
    CommaJoin(ts);
    WordsOfJoin(ts, ',', Comma);
    OptionSplits("arch", Join(ts, ","));
    hide Find; hide Assign; hide Words; hide Join;
  }

  lemma ApplyTrusted(b: Bracket)
    ensures ApplyOption(b, "trusted" + "=" + "yes") == Some(b.(trusted := true))
  {
    OptionSplits("trusted", "yes");
    hide Find; hide Assign;
  }

  /** The bracket an entry prints. */
  function Carry(e: Entry): Bracket {
    AssignAll(Bracket(e.signedBy, e.architectures, e.trusted, []), Carried(e))
  }

  lemma ApplySignedParts(e: Entry)
    requires SignedPlain(e.signedBy)
    ensures ApplyOptions(NO_BRACKET, SignedByParts(e)) == Ok(NO_BRACKET.(signedBy := e.signedBy))
  {
    hide ApplyOption;
    if e.signedBy.Some? {
      SignedIsPlain(e);
      ApplySigned(NO_BRACKET, e.signedBy.value);
    }
  }

  lemma ApplyArchParts(b: Bracket, e: Entry)
    requires ArchPlain(e.architectures) && b.architectures.None?
    ensures ApplyOptions(b, ArchParts(e)) == Ok(b.(architectures := e.architectures))
  {
    hide ApplyOption;
    if e.architectures.Some? {
      ApplyArch(b, e.architectures.value);
      assert "arch" + "=" == "arch=";
    }
  }

  lemma ApplyTrustedParts(b: Bracket, e: Entry)
    requires !b.trusted
    ensures ApplyOptions(b, TrustedParts(e)) == Ok(b.(trusted := e.trusted))
  {
    hide ApplyOption;
    if e.trusted {
      ApplyTrusted(b);
      assert "trusted" + "=" + "yes" == "trusted=yes";
    }
  }

  lemma {:induction false} PartsAppend(a: Record, b: Record)
    ensures OptionParts(a + b) == OptionParts(a) + OptionParts(b)
  {
    if a == [] {
      assert a + b == b;
    } else {
      assert (a + b)[1..] == a[1..] + b;
      PartsAppend(a[1..], b);
    }
  }

  lemma BracketPartsAre(e: Entry)
    ensures BracketParts(e) == SignedByParts(e) + ArchParts(e) + TrustedParts(e) + OptionParts(Carried(e))
  {
    PartsAppend(e.options, AliasedFields(e.fields));
    hide SignedByParts; hide ArchParts; hide TrustedParts; hide OptionParts; hide AliasedFields;
    Assoc(SignedByParts(e) + ArchParts(e) + TrustedParts(e), OptionParts(e.options), OptionParts(AliasedFields(e.fields)));
  }

  /** The parts an entry prints give its bracket back. */
  lemma BracketBack(e: Entry)
    requires BracketOk(e)
    ensures ApplyOptions(NO_BRACKET, BracketParts(e)) == Ok(Carry(e))
  {
    hide ApplyOptions; hide SignedByParts; hide ArchParts; hide TrustedParts; hide OptionParts; hide AssignAll;
    hide BracketParts;
    BracketPartsAre(e);
    var b1 := NO_BRACKET.(signedBy := e.signedBy);
    var b2 := b1.(architectures := e.architectures);
    var b3 := b2.(trusted := e.trusted);
    ApplySignedParts(e);
    ApplyArchParts(b1, e);
    ApplyTrustedParts(b2, e);
    ApplyRecord(b3, Carried(e));
    ApplyAppend(NO_BRACKET, SignedByParts(e), ArchParts(e));
    ApplyAppend(NO_BRACKET, SignedByParts(e) + ArchParts(e), TrustedParts(e));
    ApplyAppend(NO_BRACKET, SignedByParts(e) + ArchParts(e) + TrustedParts(e), OptionParts(Carried(e)));
  }

  predicate PlainParts(ts: seq<string>) {
    forall i :: 0 <= i < |ts| ==> Word(ts[i], Space) && ']' !in ts[i]
  }

  lemma PlainAppend(a: seq<string>, b: seq<string>)
    requires PlainParts(a) && PlainParts(b)
    ensures PlainParts(a + b)
  {
  }

  lemma PlainOption(k: string, v: string)
    requires Plain(k) && Plain(v)
    ensures Word(k + "=" + v, Space) && ']' !in k + "=" + v
  {
    FreeAppend(k, "=");
    FreeAppend(k + "=", v);
  }

  lemma {:induction false} PlainRecord(r: Record)
    requires AllOptionsOk(r)
    ensures PlainParts(OptionParts(r))
  {
    if r != [] {
      assert OptionOk(r[0]);
      PlainOption(r[0].0, r[0].1);
      hide OptionOk;
      PlainRecord(r[1..]);
    }
  }

  lemma PlainHead(e: Entry)
    requires SignedPlain(e.signedBy) && ArchPlain(e.architectures)
    ensures PlainParts(SignedByParts(e)) && PlainParts(ArchParts(e)) && PlainParts(TrustedParts(e))
  {
    if e.signedBy.Some? {
      SignedIsPlain(e);
      PlainOption("signed-by", e.signedBy.value);
    }
    if e.architectures.Some? {
      CommaJoin(e.architectures.value);
      assert "arch" + "=" == "arch=";
      PlainOption("arch", Join(e.architectures.value, ","));
    }
  }

  lemma BracketPlain(e: Entry)
    requires BracketOk(e)
    ensures PlainParts(BracketParts(e))
  {
    BracketPartsAre(e);
    PlainHead(e);
    PlainRecord(Carried(e));
    hide SignedByParts; hide ArchParts; hide TrustedParts; hide OptionParts; hide PlainParts; hide BracketParts;
    PlainAppend(SignedByParts(e), ArchParts(e));
    PlainAppend(SignedByParts(e) + ArchParts(e), TrustedParts(e));
    PlainAppend(SignedByParts(e) + ArchParts(e) + TrustedParts(e), OptionParts(Carried(e)));
  }

  /** Parts that neither end the bracket nor the line. */
  predicate Closed(ts: seq<string>) {
    forall i :: 0 <= i < |ts| ==> ']' !in ts[i] && '\n' !in ts[i]
  }

  lemma PlainClosed(ts: seq<string>)
    requires PlainParts(ts)
    ensures Closed(ts)
  {
    forall i | 0 <= i < |ts| ensures '\n' !in ts[i] {
      assert Word(ts[i], Space);
    }
  }

  lemma {:induction false} JoinWithout(ts: seq<string>, sep: string, c: char)
    requires c !in sep && forall i :: 0 <= i < |ts| ==> c !in ts[i]
    ensures c !in Join(ts, sep)
  {
    if ts != [] {
      JoinWithout(ts[1..], sep, c);
    }
  }

  /** A printed bracket is one token. */
  lemma BracketCloses(parts: seq<string>)
    requires Closed(parts)
    ensures var t := "[ " + Join(parts, " ") + " ]"; IsToken(t) && StartsWith(t, "[") && Inner(t) == " " + Join(parts, " ") + " "
  {
    var inner := Join(parts, " ");
    JoinWithout(parts, " ", ']');
    JoinWithout(parts, " ", '\n');
    hide Join;
    var t := "[ " + inner + " ]";
    assert t[..|t| - 1] == "[ " + inner + " ";
    FindIs(t, ']', |t| - 1);
  }

  lemma {:induction false} PaddedWords(ts: seq<string>)
    requires AllWords(ts, Space)
    ensures Words(" " + Join(ts, " ") + " ", Space) == ts
    decreases |ts|
  {
    var s := " " + Join(ts, " ") + " ";
    assert s[1..] == Join(ts, " ") + " ";
    TrailingBlank(ts);
  }

  lemma {:induction false} TrailingBlank(ts: seq<string>)
    requires AllWords(ts, Space)
    ensures Words(Join(ts, " ") + " ", Space) == ts
    decreases |ts|
  {
    assert Words(" ", Space) == [] by {
      assert " "[1..] == "";
    }
    if ts == [] {
      assert Join(ts, " ") + " " == " ";
    } else if |ts| == 1 {
      WordsStep(ts[0], " ", Space);
      assert [ts[0]] + [] == ts;
    } else {
      var tail := Join(ts[1..], " ") + " ";
      assert Join(ts, " ") + " " == ts[0] + (" " + tail);
      WordsStep(ts[0], " " + tail, Space);
      assert (" " + tail)[1..] == tail;
      TrailingBlank(ts[1..]);
      assert [ts[0]] + ts[1..] == ts;
    }
  }

  /** A printed bracket is one token whose inner words are the parts. */
  lemma BracketToken(parts: seq<string>)
    requires PlainParts(parts)
    ensures var t := "[ " + Join(parts, " ") + " ]";
      IsToken(t) && StartsWith(t, "[") && Words(Inner(t), Space) == parts
  {
    hide Join; hide IsToken; hide Inner;
    PlainClosed(parts);
    BracketCloses(parts);
    assert AllWords(parts, Space);
    PaddedWords(parts);
  }

  // ---------------------------------------------------------------- whole lines

  /** An entry whose lines can be read. */
  predicate Readable(e: Entry) {
    && Valid(e) && BracketOk(e)
    && AllTokens(e.uris) && AllTokens(e.suites) && AllTokens(e.components)
    && forall i :: 0 <= i < |e.uris| ==> e.uris[i][0] == '[' ==> BracketParts(e) != []
  }

  /** An entry that classic syntax can express: no option of it reads as another trusted flag. */
  predicate ClassicOk(e: Entry) {
    Readable(e) && Carry(e).trusted == e.trusted
  }

  predicate TripleOk(e: Entry, at: Triple) {
    && IsType(at.kind) && IsToken(at.uri) && IsToken(at.suite)
    && (at.uri[0] == '[' ==> BracketParts(e) != [])
  }

  /** The entry one printed line stands for. */
  function LineEntry(e: Entry, at: Triple): Entry {
    Entry([at.kind], [at.uri], [at.suite], e.components, e.signedBy, e.architectures, Carry(e).trusted, e.enabled,
          Carry(e).options, [])
  }

  lemma {:induction false} NonEmptyAll(ts: seq<string>)
    requires forall i :: 0 <= i < |ts| ==> ts[i] != ""
    ensures NonEmpty(ts) == ts
  {
    if ts != [] {
      NonEmptyAll(ts[1..]);
      assert [ts[0]] + ts[1..] == ts;
    }
  }

  lemma {:induction false} NonEmptyAppend(a: seq<string>, b: seq<string>)
    ensures NonEmpty(a + b) == NonEmpty(a) + NonEmpty(b)
  {
    if a == [] {
      assert a + b == b;
    } else {
      assert (a + b)[1..] == a[1..] + b;
      NonEmptyAppend(a[1..], b);
    }
  }

  /** The tokens of a printed line. */
  function LineTokens(e: Entry, at: Triple): seq<string> {
    [at.kind] + (if BracketParts(e) == [] then [] else [ClassicBracket(e)]) + [at.uri, at.suite] + e.components
  }

  lemma NonEmptyOne(t: string)
    ensures NonEmpty([t]) == if t == "" then [] else [t]
  {
    assert [t][1..] == [];
  }

  lemma LineTokensAre(e: Entry, at: Triple)
    requires TripleOk(e, at) && AllTokens(e.components)
    ensures NonEmpty([at.kind, ClassicBracket(e), at.uri, at.suite] + e.components) == LineTokens(e, at)
  {
    forall i | 0 <= i < |e.components| ensures e.components[i] != "" { assert IsToken(e.components[i]); }
    var bracket := ClassicBracket(e);
    hide NonEmpty; hide ClassicBracket; hide BracketParts; hide IsToken;
    var b := if BracketParts(e) == [] then [] else [bracket];
    assert LineTokens(e, at) == [at.kind] + b + [at.uri, at.suite] + e.components;
    assert [at.kind, bracket, at.uri, at.suite] == [at.kind] + [bracket] + [at.uri, at.suite];
    hide LineTokens;
    NonEmptyAll(e.components);
    NonEmptyPair(at);
    NonEmptyOne(at.kind);
    NonEmptyOne(bracket);
    NonEmptyAppend([at.kind], [bracket]);
    NonEmptyAppend([at.kind] + [bracket], [at.uri, at.suite]);
    NonEmptyAppend([at.kind] + [bracket] + [at.uri, at.suite], e.components);
  }

  lemma NonEmptyPair(at: Triple)
    requires at.uri != "" && at.suite != ""
    ensures NonEmpty([at.uri, at.suite]) == [at.uri, at.suite]
  {
    NonEmptyAll([at.uri, at.suite]);
  }

  lemma TypeToken(t: string)
    requires IsType(t)
    ensures IsToken(t)
  {
  }

  lemma LineTokensOk(e: Entry, at: Triple)
    requires TripleOk(e, at) && AllTokens(e.components) && Closed(BracketParts(e))
    ensures AllTokens(LineTokens(e, at))
  {
    TypeToken(at.kind);
    BracketCloses(BracketParts(e));
    hide IsToken; hide BracketParts; hide Closed; hide Inner; hide Join;
    var head := if BracketParts(e) == [] then [] else [ClassicBracket(e)];
    assert AllTokens([at.kind]) && AllTokens(head) && AllTokens([at.uri, at.suite]);
  }

  lemma ActiveBare(kind: string, uri: string, suite: string, rest: seq<string>, enabled: bool)
    requires IsType(kind) && !StartsWith(uri, "[")
    ensures ParseActive([kind, uri, suite] + rest, enabled) ==
      Ok(Some(Entry([kind], [uri], [suite], rest, None, None, false, enabled, [], [])))
  {
    var ts := [kind, uri, suite] + rest;
    assert ts[1..] == [uri, suite] + rest;
    assert ts[1..][2..] == rest;
    hide ApplyOptions;
  }

  lemma ActiveBracketed(kind: string, bracket: string, b: Bracket, uri: string, suite: string, rest: seq<string>,
                        enabled: bool)
    requires IsType(kind) && StartsWith(bracket, "[")
    requires ApplyOptions(NO_BRACKET, Words(Inner(bracket), Space)) == Ok(b)
    ensures ParseActive([kind, bracket, uri, suite] + rest, enabled) ==
      Ok(Some(Entry([kind], [uri], [suite], rest, b.signedBy, b.architectures, b.trusted, enabled, b.options, [])))
  {
    var ts := [kind, bracket, uri, suite] + rest;
    assert ts[2..] == [uri, suite] + rest;
    assert ts[2..][2..] == rest;
    hide ApplyOptions; hide Words; hide Inner;
  }

  lemma ActiveBack(e: Entry, at: Triple)
    requires TripleOk(e, at) && BracketOk(e)
    ensures ParseActive(LineTokens(e, at), e.enabled) == Ok(Some(LineEntry(e, at)))
  {
    hide ParseActive; hide BracketParts; hide PlainParts; hide BracketOk; hide Words; hide Inner; hide Join;
    hide ApplyOptions; hide AssignAll; hide Carried; hide Find; hide Free;
    BracketBack(e);
    BracketPlain(e);
    BracketToken(BracketParts(e));
    if BracketParts(e) == [] {
      EmptyBracket(e);
      assert LineTokens(e, at) == [at.kind, at.uri, at.suite] + e.components;
      ActiveBare(at.kind, at.uri, at.suite, e.components, e.enabled);
    } else {
      assert LineTokens(e, at) == [at.kind, ClassicBracket(e), at.uri, at.suite] + e.components;
      ActiveBracketed(at.kind, ClassicBracket(e), Carry(e), at.uri, at.suite, e.components, e.enabled);
    }
  }

  lemma EmptyBracket(e: Entry)
    requires ApplyOptions(NO_BRACKET, []) == Ok(Carry(e))
    ensures NO_BRACKET == Carry(e)
  {
  }

  lemma UncommentBack(line: string, enabled: bool)
    requires line != "" && !IsSpace(line[0]) && line[0] != '#'
    ensures Uncomment(if enabled then line else "#" + line) == (line, enabled)
  {
    if !enabled {
      assert ("#" + line)[1..] == line;
    }
  }

  lemma LineHead(e: Entry, at: Triple)
    requires TripleOk(e, at)
    ensures var s := Join(LineTokens(e, at), " "); s != "" && !IsSpace(s[0]) && s[0] != '#'
  {
    hide Join; hide BracketParts; hide ClassicBracket;
    var ts := LineTokens(e, at);
    assert ts == [at.kind] + ts[1..];
    JoinCons(at.kind, ts[1..], " ");
  }

  /** A printed line is read token by token. */
  lemma LineActive(e: Entry, at: Triple)
    requires TripleOk(e, at) && AllTokens(e.components) && Closed(BracketParts(e))
    ensures ParseClassicLine(ClassicLine(e, at)) == ParseActive(LineTokens(e, at), e.enabled)
  {
    hide Closed; hide AllTokens; hide LineTokens; hide ParseActive; hide Uncomment; hide NonEmpty; hide Join;
    hide Tokens; hide Active; hide BracketParts;
    LineTokensAre(e, at);
    LineTokensOk(e, at);
    LineHead(e, at);
    UncommentBack(Join(LineTokens(e, at), " "), e.enabled);
    TokensOfJoin(LineTokens(e, at));
    ActiveAll(LineTokens(e, at));
  }

  /** A printed line parses to the one source it was printed for. */
  lemma LineBack(e: Entry, at: Triple)
    requires TripleOk(e, at) && AllTokens(e.components) && BracketOk(e)
    ensures ParseClassicLine(ClassicLine(e, at)) == Ok(Some(LineEntry(e, at)))
  {
    hide BracketOk; hide AllTokens; hide LineTokens; hide ParseActive; hide BracketParts; hide ParseClassicLine; hide ClassicLine;
    BracketPlain(e);
    PlainClosed(BracketParts(e));
    LineActive(e, at);
    ActiveBack(e, at);
  }

  lemma {:induction false} TokensOneLine(ts: seq<string>)
    requires AllTokens(ts)
    ensures '\n' !in Join(ts, " ")
  {
    if ts != [] {
      assert IsToken(ts[0]);
      hide IsToken;
      TokensOneLine(ts[1..]);
    }
  }

  lemma LineClean(e: Entry, at: Triple)
    requires TripleOk(e, at) && AllTokens(e.components) && Closed(BracketParts(e))
    ensures '\n' !in ClassicLine(e, at)
  {
    LineTokensAre(e, at);
    LineTokensOk(e, at);
    TokensOneLine(LineTokens(e, at));
    hide LineTokens; hide NonEmpty; hide Join; hide AllTokens;
  }

  // ------------------------------------------------------------ entries and texts

  function EntriesAt(e: Entry, ats: seq<Triple>): (es: seq<Entry>)
    ensures |es| == |ats|
  {
    if ats == [] then [] else [LineEntry(e, ats[0])] + EntriesAt(e, ats[1..])
  }

  /** One single-type, single-uri, single-suite entry per triple, in loop order. */
  function Expand(json: seq<Entry>): seq<Entry> {
    if json == [] then []
    else EntriesAt(json[0], Triples(json[0].types, json[0].uris, json[0].suites)) + Expand(json[1..])
  }

  predicate TriplesOk(e: Entry, ats: seq<Triple>) {
    forall i :: 0 <= i < |ats| ==> TripleOk(e, ats[i])
  }

  lemma {:induction false} SuiteTriplesOk(e: Entry, t: string, u: string, suites: seq<string>)
    requires IsType(t) && IsToken(u) && AllTokens(suites) && (u[0] == '[' ==> BracketParts(e) != [])
    ensures TriplesOk(e, SuiteTriples(t, u, suites))
  {
    hide BracketParts; hide IsToken; hide IsType;
    if suites != [] {
      SuiteTriplesOk(e, t, u, suites[1..]);
    }
  }

  lemma {:induction false} UriTriplesOk(e: Entry, t: string, uris: seq<string>, suites: seq<string>)
    requires IsType(t) && AllTokens(uris) && AllTokens(suites)
    requires forall i :: 0 <= i < |uris| ==> uris[i] != "" && (uris[i][0] == '[' ==> BracketParts(e) != [])
    ensures TriplesOk(e, UriTriples(t, uris, suites))
  {
    hide BracketParts; hide IsToken; hide IsType; hide TripleOk;
    if uris != [] {
      SuiteTriplesOk(e, t, uris[0], suites);
      UriTriplesOk(e, t, uris[1..], suites);
    }
  }

  lemma {:induction false} AllTriplesOk(e: Entry, types: seq<string>, uris: seq<string>, suites: seq<string>)
    requires AllTokens(uris) && AllTokens(suites) && forall i :: 0 <= i < |types| ==> IsType(types[i])
    requires forall i :: 0 <= i < |uris| ==> uris[i] != "" && (uris[i][0] == '[' ==> BracketParts(e) != [])
    ensures TriplesOk(e, Triples(types, uris, suites))
  {
    hide BracketParts; hide IsToken; hide IsType; hide TripleOk;
    if types != [] {
      UriTriplesOk(e, types[0], uris, suites);
      AllTriplesOk(e, types[1..], uris, suites);
    }
  }

  lemma ClassicTriples(e: Entry)
    requires Readable(e)
    ensures TriplesOk(e, Triples(e.types, e.uris, e.suites))
  {
    forall i | 0 <= i < |e.uris| ensures e.uris[i] != "" { assert IsToken(e.uris[i]); }
    AllTriplesOk(e, e.types, e.uris, e.suites);
  }

  lemma {:induction false} ParseAppend(a: seq<string>, b: seq<string>, n: nat)
    requires ParseClassicLines(a, n).Ok?
    ensures ParseClassicLines(a + b, n) == Prepend(ParseClassicLines(a, n).value, ParseClassicLines(b, n + |a|))
    decreases |a|
  {
    hide ParseClassicLine;
    if a == [] {
      assert a + b == b;
    } else {
      assert (a + b)[1..] == a[1..] + b;
      ParseAppend(a[1..], b, n + 1);
      match ParseClassicLine(a[0])
      case Ok(Some(e)) =>
        PrependTwice([e], ParseClassicLines(a[1..], n + 1).value, ParseClassicLines(b, n + |a|));
      case _ =>
    }
  }

  lemma {:induction false} LinesBack(e: Entry, ats: seq<Triple>, n: nat)
    requires TriplesOk(e, ats) && AllTokens(e.components) && BracketOk(e)
    ensures ParseClassicLines(LinesAt(e, ats), n) == Ok(EntriesAt(e, ats))
    ensures CleanLines(LinesAt(e, ats))
    decreases |ats|
  {
    hide ParseClassicLine; hide ClassicLine; hide TripleOk; hide AllTokens; hide BracketOk; hide LineEntry; hide BracketParts;
    if ats != [] {
      BracketPlain(e);
      PlainClosed(BracketParts(e));
      LineBack(e, ats[0]);
      LineClean(e, ats[0]);
      LinesBack(e, ats[1..], n + 1);
      assert LinesAt(e, ats)[1..] == LinesAt(e, ats[1..]);
    }
  }

  lemma EntryLinesBack(e: Entry, index: nat, n: nat)
    requires Readable(e)
    ensures Validate(e, index).None?
    ensures var lines := LinesAt(e, Triples(e.types, e.uris, e.suites));
      && ParseClassicLines(lines, n) == Ok(EntriesAt(e, Triples(e.types, e.uris, e.suites)))
      && CleanLines(lines)
  {
    hide Triples; hide ParseClassicLines; hide AllTokens; hide BracketOk; hide Valid; hide Validate; hide LinesAt;
    hide EntriesAt; hide BracketParts; hide TriplesOk;
    ValidateExact(e, index);
    ClassicTriples(e);
    LinesBack(e, Triples(e.types, e.uris, e.suites), n);
  }

  lemma NoLines(index: nat, n: nat)
    ensures ClassicLines([], index) == Ok([]) && ParseClassicLines([], n) == Ok([]) && Expand([]) == []
    ensures CleanLines([])
  {
    hide ParseClassicLine; hide Readable;
  }

  lemma {:induction false} AllLinesBack(json: seq<Entry>, index: nat, n: nat)
    requires forall i :: 0 <= i < |json| ==> Readable(json[i])
    ensures ClassicLines(json, index).Ok?
    ensures ParseClassicLines(ClassicLines(json, index).value, n) == Ok(Expand(json))
    ensures CleanLines(ClassicLines(json, index).value)
    decreases |json|
  {
    hide ParseClassicLines; hide Readable; hide Expand; hide ClassicLines; hide CleanLines;
    if json == [] {
      NoLines(index, n);
    } else {
      var n2 := n + |LinesAt(json[0], Triples(json[0].types, json[0].uris, json[0].suites))|;
      AllLinesBack(json[1..], index + 1, n2);
      AllLinesStep(json, index, n);
    }
  }

  lemma AllLinesStep(json: seq<Entry>, index: nat, n: nat)
    requires json != [] && Readable(json[0])
    requires ClassicLines(json[1..], index + 1).Ok? && CleanLines(ClassicLines(json[1..], index + 1).value)
    requires ParseClassicLines(ClassicLines(json[1..], index + 1).value,
      n + |LinesAt(json[0], Triples(json[0].types, json[0].uris, json[0].suites))|) == Ok(Expand(json[1..]))
    ensures ClassicLines(json, index).Ok? && CleanLines(ClassicLines(json, index).value)
    ensures ParseClassicLines(ClassicLines(json, index).value, n) == Ok(Expand(json))
  {
    hide ParseClassicLines; hide Readable; hide CleanLines; hide Triples; hide LinesAt; hide EntriesAt; hide Validate;
    EntryLinesBack(json[0], index, n);
    var lines := LinesAt(json[0], Triples(json[0].types, json[0].uris, json[0].suites));
    var rest := ClassicLines(json[1..], index + 1).value;
    assert ClassicLines(json, index) == Ok(lines + rest);
    CleanAppend(lines, rest);
    ParseAppend(lines, rest, n);
  }

  lemma BlankClassicLine()
    ensures ParseClassicLine("") == Ok(None)
  {
  }

  lemma NoEntryLine(n: nat)
    ensures ParseClassicLines([""], n) == Ok([])
  {
    BlankClassicLine();
    hide ParseClassicLine;
    assert [""][1..] == [];
  }

  lemma ClosingLine(lines: seq<string>, es: seq<Entry>)
    requires ParseClassicLines(lines, 1) == Ok(es)
    ensures ParseClassicLines(lines + [""], 1) == Ok(es)
  {
    hide ParseClassicLines;
    ParseAppend(lines, [""], 1);
    NoEntryLine(1 + |lines|);
    assert es + [] == es;
  }

  lemma LinesOfText(lines: seq<string>)
    requires lines != [] && CleanLines(lines)
    ensures Split(Join(lines, "\n") + "\n", '\n') == lines + [""]
  {
    SplitOfJoin(lines, '\n');
    SplitWhole("", '\n');
    hide Split; hide Join;
    var s := Join(lines, "\n");
    SplitAppend(s, '\n', "");
    assert s + ['\n'] + "" == s + "\n";
  }

  /** The entry with the trusted flag its lines say. */
  function Said(e: Entry): Entry {
    e.(trusted := Carry(e).trusted)
  }

  function SaidAll(json: seq<Entry>): (r: seq<Entry>)
    ensures |r| == |json| && forall i :: 0 <= i < |r| ==> r[i] == Said(json[i])
  {
    if json == [] then [] else [Said(json[0])] + SaidAll(json[1..])
  }

  lemma {:induction false} UnitsAtOne(e: Entry, ats: seq<Triple>)
    ensures Units(EntriesAt(e, ats)) == UnitsAt(Said(e), ats)
  {
    if ats != [] {
      var one := LineEntry(e, ats[0]);
      OneTriple(ats[0]);
      assert EntryUnits(one) == [UnitOf(Said(e), ats[0])];
      hide EntryUnits; hide LineEntry; hide Said;
      UnitsAtOne(e, ats[1..]);
      assert EntriesAt(e, ats)[1..] == EntriesAt(e, ats[1..]);
    }
  }

  lemma OneTriple(at: Triple)
    ensures Triples([at.kind], [at.uri], [at.suite]) == [at]
  {
    assert [at.suite][1..] == [] && [at.uri][1..] == [] && [at.kind][1..] == [];
    assert SuiteTriples(at.kind, at.uri, [at.suite]) == [at] + [];
    assert UriTriples(at.kind, [at.uri], [at.suite]) == [at] + [];
  }

  lemma {:induction false} UnitsAppend(a: seq<Entry>, b: seq<Entry>)
    ensures Units(a + b) == Units(a) + Units(b)
  {
    hide EntryUnits;
    if a == [] {
      assert a + b == b;
    } else {
      assert (a + b)[1..] == a[1..] + b;
      UnitsAppend(a[1..], b);
    }
  }

  lemma {:induction false} ExpandUnits(json: seq<Entry>)
    ensures Units(Expand(json)) == Units(SaidAll(json))
  {
    if json != [] {
      var ats := Triples(json[0].types, json[0].uris, json[0].suites);
      hide Triples; hide EntriesAt; hide UnitsAt; hide Carry;
      UnitsAtOne(json[0], ats);
      assert SaidAll(json)[1..] == SaidAll(json[1..]);
      UnitsAppend(EntriesAt(json[0], ats), Expand(json[1..]));
      ExpandUnits(json[1..]);
    }
  }

  /** Printed lines that can be read are read as one entry per printed triple. */
  lemma LinesRead(json: seq<Entry>)
    requires forall i :: 0 <= i < |json| ==> Readable(json[i])
    ensures ClassicText(json).Ok? && ClassicEntries(ClassicText(json).value) == Ok(Expand(json))
  {
    hide Readable; hide Expand; hide ParseClassicLines; hide ClassicLines; hide Join; hide Split;
    AllLinesBack(json, 0, 1);
    var lines := ClassicLines(json, 0).value;
    if lines == [] {
      SplitWhole("", '\n');
      ClosingLine([], Expand(json));
      assert [] + [""] == [""];
    } else {
      LinesOfText(lines);
      ClosingLine(lines, Expand(json));
    }
  }

  lemma {:induction false} SaidSame(json: seq<Entry>)
    requires forall i :: 0 <= i < |json| ==> Carry(json[i]).trusted == json[i].trusted
    ensures SaidAll(json) == json
  {
    hide Carry;
    if json != [] {
      SaidSame(json[1..]);
    }
  }

  /** json -> classic -> json: one entry per printed triple, and the same units for apt. */
  lemma ClassicRoundTrip(json: seq<Entry>)
    requires forall i :: 0 <= i < |json| ==> ClassicOk(json[i])
    ensures ClassicText(json).Ok? && ClassicEntries(ClassicText(json).value) == Ok(Expand(json))
    ensures Units(Expand(json)) == Units(json)
  {
    hide Readable; hide Expand; hide Units; hide ClassicText; hide ClassicEntries; hide Carry;
    LinesRead(json);
    ExpandUnits(json);
    SaidSame(json);
  }
}
