/** The surgical rewrite of a whole file, seen through both parsers. */
module AptRewrite {
  import opened Wrappers
  import opened Text
  import opened AptModel
  import opened AptScheme
  import opened AptFlip

  // ------------------------------------------------------------ one-line-style rows

  lemma LineTokensAround(sh: Shape, u: string, b: string)
    requires ShapeOk(sh) && Word(u, Space) && u[0] != '[' && u[0] != '#' && (b != "" ==> IsSpace(b[0]))
    ensures ParseClassicLine(Head(sh) + (u + b)) ==
      match Tokens(b)
      case None => Err(UnterminatedBracket)
      case Some(r) => ParseActive(HeadTokens(sh) + ([u] + Active(r)), !sh.hash)
  {
    hide Tokens; hide ParseActive; hide Head; hide Uncomment; hide HeadTokens; hide ShapeOk;
    ShapeTokens(sh, u + b);
    WordTake(u, b);
    AddTokensTwice(HeadTokens(sh), [u], Tokens(b));
    if Tokens(b).Some? {
      var r := Tokens(b).value;
      HeadTokensActive(sh);
      hide StartsWith;
      assert Tokens(Uncomment(Head(sh) + (u + b)).0) == Some(HeadTokens(sh) + ([u] + r)) by {
        Assoc(HeadTokens(sh), [u], r);
      }
      ActiveSplit(HeadTokens(sh), [u] + r);
    }
  }

  lemma FlippableWord(u: string, target: Scheme)
    requires Word(u, Space) && FlipUri(u, target).Some?
    ensures Word(FlipOr(u, target), Space) && FlipOr(u, target)[0] == 'h' && u[0] == 'h'
    ensures !StartsWith(u, "[") && !StartsWith(FlipOr(u, target), "[")
  {
    FlipFacts(u, target);
    hide FlipUri;
  }

  lemma ShapeFlips(sh: Shape, u: string, b: string, target: Scheme)
    requires ShapeOk(sh) && Word(u, Space) && (b != "" ==> IsSpace(b[0])) && FlipUri(u, target).Some?
    ensures ParseClassicLine(Head(sh) + (FlipOr(u, target) + b))
      == FlipResult(ParseClassicLine(Head(sh) + (u + b)), target)
    ensures ParseClassicLine(Head(sh) + (u + b)) != Ok(None)
  {
    FlippableWord(u, target);
    hide FlipUri; hide FlipOr; hide FindUri; hide ParseClassicLine; hide ParseActive; hide Head; hide HeadTokens;
    hide ShapeOk; hide Tokens; hide Active; hide StartsWith; hide IsSpace; hide Word; hide FlipEntry;
    var f := FlipOr(u, target);
    LineTokensAround(sh, u, b);
    LineTokensAround(sh, f, b);
    if Tokens(b).Some? {
      ActiveFlips(sh, u, Active(Tokens(b).value), !sh.hash, target);
    }
  }

  lemma FlippedAgain(sh: Shape, f: string, b: string, target: Scheme)
    requires ShapeOk(sh) && Word(f, Space) && f[0] != '[' && (b != "" ==> IsSpace(b[0])) && FlipUri(f, target).None?
    ensures FindUri(Head(sh) + (f + b)).Some? && FlipClassicLine(Head(sh) + (f + b), target).None?
  {
    hide FindUri; hide Head; hide ShapeOk; hide FlipClassicLine; hide FlipUri;
    ShapeFind(sh, f, b);
    FlippedLine(sh, f, b, target);
  }

  /** A changed row parses to the same source with its uri flipped, and does not change again. */
  lemma LineFlips(raw: string, target: Scheme)
    requires FlipClassicLine(raw, target).Some?
    ensures ParseClassicLine(FlipClassicLine(raw, target).value) == FlipResult(ParseClassicLine(raw), target)
    ensures ParseClassicLine(raw) != Ok(None)
    ensures FindUri(FlipClassicLine(raw, target).value).Some?
    ensures FlipClassicLine(FlipClassicLine(raw, target).value, target).None?
  {
    FoundFlip(raw, target);
    hide FlipClassicLine; hide FlipUri; hide FindUri; hide ParseClassicLine; hide Head; hide ShapeOk; hide FlipResult;
    var sh, u, b := ShapeOf(raw);
    FlippedLine(sh, u, b, target);
    FlipFacts(u, target);
    ShapeFlips(sh, u, b, target);
    FlippedAgain(sh, FlipOr(u, target), b, target);
  }

  lemma FoundFlip(raw: string, target: Scheme)
    ensures FlipClassicLine(raw, target).Some? ==> FindUri(raw).Some?
  {
    hide FindUri; hide FlipUri;
  }

  // ---------------------------------------------------------- rows that stay as they are

  lemma FirstToken(s: string)
    requires s != "" && !IsSpace(s[0]) && Tokens(s).Some?
    ensures Tokens(s).value != [] && Tokens(s).value[0] != "" && Tokens(s).value[0][0] == s[0]
    ensures s[0] != '[' ==> Tokens(s).value[0] == s[..Run(s, Space)]
  {
    hide Run; hide Find;
  }

  predicate NoSource(r: Result<Option<Entry>, Reason>) {
    r.Err? || r.value.None?
  }

  lemma FirstNotType(ts: seq<string>, enabled: bool)
    requires ts != [] && ts[0] != "" && !IsType(ts[0])
    ensures NoSource(ParseActive(Active(ts), enabled))
  {
    hide IsType; hide ApplyOptions; hide Words; hide Inner;
  }

  lemma {:induction false} ActivePrefix(ts: seq<string>)
    ensures |Active(ts)| <= |ts| && Active(ts) == ts[..|Active(ts)|]
  {
    if ts != [] && !StartsWith(ts[0], "#") {
      ActivePrefix(ts[1..]);
    }
  }

  lemma TooShort(ts: seq<string>, enabled: bool)
    requires |ts| <= 2 && (|ts| == 2 ==> StartsWith(ts[1], "["))
    ensures NoSource(ParseActive(Active(ts), enabled))
  {
    hide IsType; hide ApplyOptions; hide Words; hide Inner; hide Active;
    ActivePrefix(ts);
  }

  lemma BlankTokens(s: string)
    requires Blank(s)
    ensures Tokens(s) == Some([])
  {
    BlankSkip(s, "");
    assert s + "" == s;
  }

  /** A text without a findable uri holds no source. */
  lemma NoUriNoSource(s: string, enabled: bool)
    requires s != "" ==> !IsSpace(s[0])
    requires UriAfterType(s).None? && Tokens(s).Some?
    ensures NoSource(ParseActive(Active(Tokens(s).value), enabled))
  {
    hide ParseActive; hide Active; hide IsType; hide NoSource; hide Lead; hide Run;
    if s == "" {
      BlankTokens("");
      TooShort([], enabled);
    } else {
      FirstToken(s);
      var n := Run(s, Space);
      if s[0] == '[' {
        BracketNoType(Tokens(s).value[0]);
      }
      if s[0] == '[' || !IsType(s[..n]) {
        FirstNotType(Tokens(s).value, enabled);
      } else {
        NoUriAfterType(s, enabled);
      }
    }
  }

  lemma BracketNoType(t: string)
    requires t != "" && t[0] == '['
    ensures !IsType(t)
  {
  }

  lemma KindSplit(s: string) returns (kind: string, ws2: string, w: string)
    requires s != "" && !IsSpace(s[0]) && IsType(s[..Run(s, Space)])
    ensures s == kind + (ws2 + w) && kind == s[..Run(s, Space)] && Blank(ws2) && (w != "" ==> !IsSpace(w[0]))
    ensures ws2 + w != "" ==> IsSpace((ws2 + w)[0])
    ensures w == s[Run(s, Space) + Lead(s[Run(s, Space)..])..] && |kind| + |ws2| == Run(s, Space) + Lead(s[Run(s, Space)..])
  {
    var n := Run(s, Space);
    hide Run; hide IsType;
    var rest := s[n..];
    var l := Lead(rest);
    hide Lead;
    kind, ws2, w := s[..n], rest[..l], rest[l..];
    assert rest == ws2 + w;
  }

  lemma KindTokens(kind: string, ws2: string, w: string)
    requires IsType(kind) && Blank(ws2) && (ws2 + w != "" ==> IsSpace((ws2 + w)[0]))
    ensures Tokens(kind + (ws2 + w)) == AddTokens([kind], Tokens(w))
  {
    hide Tokens; hide IsType;
    TypeWord(kind);
    WordTake(kind, ws2 + w);
    BlankSkip(ws2, w);
  }

  lemma NoUriFound(s: string, w: string)
    requires s != "" && IsType(s[..Run(s, Space)]) && UriAfterType(s).None?
    requires w == s[Run(s, Space) + Lead(s[Run(s, Space)..])..] && w != ""
    ensures UriAfterSpace(w).None?
  {
    hide Run; hide Lead; hide UriAfterSpace; hide IsType;
  }

  lemma NoUriAfterType(s: string, enabled: bool)
    requires s != "" && !IsSpace(s[0]) && IsType(s[..Run(s, Space)])
    requires UriAfterType(s).None? && Tokens(s).Some?
    ensures NoSource(ParseActive(Active(Tokens(s).value), enabled))
  {
    hide ParseActive; hide Active; hide IsType; hide NoSource; hide Lead; hide Run; hide Tokens; hide UriAfterType; hide UriAfterSpace;
    hide IsSpace;
    var kind, ws2, w := KindSplit(s);
    KindTokens(kind, ws2, w);
    if w == "" {
      BlankTokens("");
      assert [kind] + [] == [kind];
      TooShort([kind], enabled);
    } else {
      NoUriFound(s, w);
      NoUriAfterSpace(w);
      TooShort([kind] + Tokens(w).value, enabled);
    }
  }

  lemma NoUriAfterSpace(w: string)
    requires w != "" && !IsSpace(w[0]) && UriAfterSpace(w).None? && Tokens(w).Some?
    ensures |Tokens(w).value| == 1 && StartsWith(Tokens(w).value[0], "[")
  {
    assert w[0] == '[' && AfterBracket(w) == |w|;
    var c := Find(w, ']');
    if c < |w| {
      GroupEnd(w);
      var group, ws3 := w[..c + 1], w[c + 1..];
      hide Find; hide IsGroup;
      assert Lead(ws3) == |ws3|;
      assert ws3[..|ws3|] == ws3;
      hide Lead; hide Tokens;
      GroupTake(group, ws3);
      assert w == group + ws3;
      BlankTokens(ws3);
      assert [group] + [] == [group];
    }
  }

  lemma StartTokens(raw: string) returns (s: string)
    requires SourceStart(raw).Some?
    ensures s == raw[SourceStart(raw).value..] && (s != "" ==> !IsSpace(s[0]))
    ensures Tokens(Uncomment(raw).0) == Tokens(s)
  {
    var ws0, hash, ws1;
    ws0, hash, ws1, s := SourceOf(raw);
    hide Tokens; hide Uncomment;
    if hash {
      HashOnce(raw, ws0, ws1, s);
    } else {
      PlainOnce(raw, ws0, s);
    }
  }

  lemma HashOnce(raw: string, ws0: string, ws1: string, s: string)
    requires Blank(ws0) && Blank(ws1) && raw == ws0 + ("#" + (ws1 + s))
    ensures Tokens(Uncomment(raw).0) == Tokens(s)
  {
    hide Tokens; hide Uncomment;
    UncommentHash(ws0, ws1 + s);
    BlankSkip(ws1, s);
  }

  lemma PlainOnce(raw: string, ws0: string, s: string)
    requires Blank(ws0) && raw == ws0 + s && (s != "" ==> !IsSpace(s[0]) && s[0] != '#')
    ensures Tokens(Uncomment(raw).0) == Tokens(s)
  {
    hide Tokens;
    if s == "" {
      assert raw == ws0;
      TrimStartIs(raw);
    } else {
      TrimLead(ws0, s);
    }
  }

  lemma UnfoundNoSource(raw: string)
    requires FindUri(raw).None?
    ensures NoSource(ParseClassicLine(raw))
  {
    hide UriAfterType; hide ParseActive; hide Active; hide NoSource; hide Tokens; hide Uncomment; hide SourceStart;
    if SourceStart(raw).Some? {
      var s := StartTokens(raw);
      if Tokens(s).Some? {
        NoUriNoSource(s, Uncomment(raw).1);
      }
      ErrNoSource();
    } else {
      DoubleHash(raw);
    }
  }

  lemma ErrNoSource()
    ensures NoSource(Err(UnterminatedBracket))
  {
  }

  lemma HashWork(raw: string) returns (work: string)
    requires SourceStart(raw).None?
    ensures work != "" && work[0] == '#' && Uncomment(raw) == (work, false)
  {
    hide Lead; hide Uncomment; hide IsSpace;
    var i := Lead(raw);
    LeadCut(raw);
    HashCut(raw, i);
    work := raw[i + 1..];
    UncommentHash(raw[..i], work);
  }

  lemma DoubleHash(raw: string)
    requires SourceStart(raw).None?
    ensures NoSource(ParseClassicLine(raw))
  {
    hide Uncomment; hide Tokens; hide ApplyOptions; hide SourceStart;
    var work := HashWork(raw);
    if Tokens(work).Some? {
      FirstToken(work);
      assert Active(Tokens(work).value) == [];
    }
  }

  lemma FlipNone(e: Entry, target: Scheme)
    requires |e.uris| == 1 && FlipUri(e.uris[0], target).None?
    ensures FlipEntry(e, target) == e
  {
    hide FlipUri;
    assert FlipOrAll(e.uris, target) == e.uris;
  }

  lemma UriToken(head: seq<string>, u: string, rest: seq<string>, enabled: bool, sh: Shape)
    requires ShapeOk(sh) && head == HeadTokens(sh) && (sh.bracket == "" ==> !StartsWith(u, "["))
    requires ParseActive(head + ([u] + rest), enabled).Ok? && ParseActive(head + ([u] + rest), enabled).value.Some?
    ensures ParseActive(head + ([u] + rest), enabled).value.value.uris == [u]
  {
    hide ApplyOptions; hide Words; hide Inner; hide IsType; hide Find;
    Cut(head, [u] + rest);
  }

  /** A row that is not changed parses to a source without flippable uris, if to any. */
  lemma LineStays(raw: string, target: Scheme)
    requires FlipClassicLine(raw, target).None?
    ensures FlipResult(ParseClassicLine(raw), target) == ParseClassicLine(raw)
  {
    hide ParseClassicLine; hide FlipEntry; hide FlipUri; hide FindUri;
    if FindUri(raw).None? {
      UnfoundNoSource(raw);
    } else {
      var sh, u, b := ShapeOf(raw);
      FlippedLine(sh, u, b, target);
      if u[0] == '[' {
        BracketUriStays(sh, u, b, target);
      } else if u[0] == '#' {
        CommentUriStays(sh, u, b, target);
      } else {
        WordUriStays(sh, u, b, target);
      }
    }
  }

  /** A row that is changed parses to a source with a flippable uri, if at all. */
  lemma FlippableRead(raw: string, target: Scheme)
    requires FlipClassicLine(raw, target).Some? && ParseClassicLine(raw).Ok?
    ensures var e := ParseClassicLine(raw).value; e.Some? && exists u :: u in e.value.uris && FlipUri(u, target).Some?
  {
    hide FlipClassicLine; hide FlipUri; hide FindUri; hide ParseClassicLine; hide Head; hide ShapeOk; hide FlipResult;
    LineFlips(raw, target);
    FoundFlip(raw, target);
    var sh, u, b := ShapeOf(raw);
    FlippedLine(sh, u, b, target);
    FlippableWord(u, target);
    UriOfLine(sh, u, b);
    assert u in ParseClassicLine(raw).value.value.uris;
  }

  lemma UriOfLine(sh: Shape, u: string, b: string)
    requires ShapeOk(sh) && Word(u, Space) && u[0] != '[' && u[0] != '#' && (b != "" ==> IsSpace(b[0]))
    ensures var r := ParseClassicLine(Head(sh) + (u + b)); r.Ok? && r.value.Some? ==> r.value.value.uris == [u]
  {
    hide ParseClassicLine; hide ParseActive; hide Head; hide HeadTokens; hide ShapeOk; hide Tokens; hide Active;
    LineTokensAround(sh, u, b);
    var r := ParseClassicLine(Head(sh) + (u + b));
    if r.Ok? && r.value.Some? {
      UriToken(HeadTokens(sh), u, Active(Tokens(b).value), !sh.hash, sh);
    }
  }

  lemma WordUriStays(sh: Shape, u: string, b: string, target: Scheme)
    requires ShapeOk(sh) && Word(u, Space) && u[0] != '[' && u[0] != '#' && (b != "" ==> IsSpace(b[0]))
    requires FlipUri(u, target).None?
    ensures FlipResult(ParseClassicLine(Head(sh) + (u + b)), target) == ParseClassicLine(Head(sh) + (u + b))
  {
    hide ParseClassicLine; hide ParseActive; hide FlipEntry; hide FlipUri; hide Head; hide HeadTokens; hide ShapeOk;
    UriOfLine(sh, u, b);
    var r := ParseClassicLine(Head(sh) + (u + b));
    if r.Ok? && r.value.Some? {
      FlipNone(r.value.value, target);
    }
  }

  lemma CommentUriStays(sh: Shape, u: string, b: string, target: Scheme)
    requires ShapeOk(sh) && Word(u, Space) && u[0] == '#' && (b != "" ==> IsSpace(b[0]))
    ensures FlipResult(ParseClassicLine(Head(sh) + (u + b)), target) == ParseClassicLine(Head(sh) + (u + b))
  {
    hide Tokens; hide ParseActive; hide FlipEntry; hide Head; hide Uncomment; hide HeadTokens; hide ShapeOk;
    ShapeTokens(sh, u + b);
    WordTake(u, b);
    AddTokensTwice(HeadTokens(sh), [u], Tokens(b));
    if Tokens(b).Some? {
      var r := Tokens(b).value;
      HeadTokensActive(sh);
      Assoc(HeadTokens(sh), [u], r);
      ActiveSplit(HeadTokens(sh), [u] + r);
      assert Active([u] + r) == [];
      assert HeadTokens(sh) + [] == HeadTokens(sh);
      HeadAlone(sh, !sh.hash);
    }
  }

  lemma HeadAlone(sh: Shape, enabled: bool)
    requires ShapeOk(sh)
    ensures ParseActive(HeadTokens(sh), enabled).Err?
  {
    hide ApplyOptions; hide Words; hide Inner; hide IsType; hide Find;
  }

  lemma BracketUriStays(sh: Shape, u: string, b: string, target: Scheme)
    requires ShapeOk(sh) && sh.bracket != "" && Word(u, Space) && u[0] == '['
    ensures FlipResult(ParseClassicLine(Head(sh) + (u + b)), target) == ParseClassicLine(Head(sh) + (u + b))
  {
    hide Tokens; hide ParseActive; hide FlipEntry; hide Head; hide Uncomment; hide HeadTokens; hide ShapeOk; hide Active;
    ShapeTokens(sh, u + b);
    var r := ParseClassicLine(Head(sh) + (u + b));
    if r.Ok? && r.value.Some? {
      assert (u + b)[0] == '[' && !IsSpace('[');
      FirstToken(u + b);
      var ts := Tokens(u + b).value;
      HeadTokensActive(sh);
      ActiveSplit(HeadTokens(sh), ts);
      ActiveFirst(ts);
      UriToken(HeadTokens(sh), ts[0], Active(ts)[1..], !sh.hash, sh);
      FlipNone(r.value.value, target);
    }
  }

  lemma ActiveFirst(ts: seq<string>)
    requires ts != [] && ts[0] != "" && ts[0][0] == '['
    ensures Active(ts) != [] && Active(ts) == [ts[0]] + Active(ts)[1..]
  {
  }

  /** Every row, changed or not, parses to the flipped form of what it parsed to. */
  lemma RowFlips(raw: string, target: Scheme)
    ensures ParseClassicLine(match FlipClassicLine(raw, target) case None => raw case Some(l) => l)
      == FlipResult(ParseClassicLine(raw), target)
  {
    hide ParseClassicLine; hide FlipClassicLine; hide FlipResult;
    if FlipClassicLine(raw, target).Some? {
      LineFlips(raw, target);
    } else {
      LineStays(raw, target);
    }
  }
}
