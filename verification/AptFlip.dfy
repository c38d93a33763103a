/** Rewriting one row: the parsers see the same source with its uris flipped. */
module AptFlip {
  import opened Wrappers
  import opened Text
  import opened AptModel
  import opened AptScheme

  // ------------------------------------------------------------------ flipping

  /** A flipped uri is a word of the same kind, on the target scheme, and stays put. */
  lemma FlipFacts(u: string, target: Scheme)
    requires FlipUri(u, target).Some?
    ensures var f := FlipUri(u, target).value;
      f != "" && f[0] == 'h' && u != "" && u[0] == 'h' && FlipUri(f, target).None? && OnTarget(f, target)
    ensures forall k :: Free(u, k) ==> Free(FlipUri(u, target).value, k)
  {
    var f := FlipUri(u, target).value;
    var n := if target.Http? then 8 else 7;
    var head := Name(target) + "://";
    assert f == head + u[n..];
    assert f[..|head|] == head;
    if target.Https? {
      assert f[4] == 's' && "http://"[4] == ':';
      assert !StartsWith(f, "http://");
    }
    forall k | Free(u, k) ensures Free(f, k) {
      forall i | 0 <= i < |f| ensures !IsSep(f[i], k) {
        if i >= |head| {
          assert f[i] == u[n + i - |head|];
        }
      }
    }
  }

  lemma FlipOrFacts(u: string, target: Scheme)
    ensures FlipUri(FlipOr(u, target), target).None? && OnTarget(FlipOr(u, target), target)
    ensures forall k :: Word(u, k) ==> Word(FlipOr(u, target), k)
  {
    if FlipUri(u, target).Some? {
      FlipFacts(u, target);
    }
  }

  /** Two uris that differ in the scheme only, the second on the target. */
  ghost predicate Moved(u: string, v: string, target: Scheme) {
    match target
    case Https => exists rest: string :: u == "http://" + rest && v == "https://" + rest
    case Http => exists rest: string :: u == "https://" + rest && v == "http://" + rest
  }

  /** A uri as a run should leave it: moved, or as it was when it is not on the other scheme. */
  ghost predicate UriAfter(u: string, v: string, target: Scheme) {
    Moved(u, v, target) || (v == u && !StartsWith(u, if target.Https? then "http://" else "https://"))
  }

  /** Flipping changes the scheme and nothing else, and does so for every uri on the other one. */
  lemma FlipExact(u: string, v: string, target: Scheme)
    ensures FlipUri(u, target) == Some(v) <==> Moved(u, v, target)
    ensures FlipOr(u, target) == v <==> UriAfter(u, v, target)
  {
    var from, to := if target.Https? then "http://" else "https://", if target.Https? then "https://" else "http://";
    assert Name(target) + "://" == to;
    if StartsWith(u, from) {
      var rest := u[|from|..];
      assert u == from + rest;
      if target.Http? {
        assert u[4] == 's';
      }
      assert FlipUri(u, target) == Some(to + rest);
      if Moved(u, v, target) {
        var other: string :| u == from + other && v == to + other;
        assert (from + other)[|from|..] == other;
      }
    }
  }

  /** The entries as a run should leave them: their uris moved, all else as it was. */
  ghost predicate EntriesAfter(es: seq<Entry>, fs: seq<Entry>, target: Scheme) {
    |fs| == |es| && forall i :: 0 <= i < |es| ==> EntryAfter(es[i], fs[i], target)
  }

  ghost predicate EntryAfter(e: Entry, f: Entry, target: Scheme) {
    f == e.(uris := f.uris) && |f.uris| == |e.uris| && forall k :: 0 <= k < |e.uris| ==> UriAfter(e.uris[k], f.uris[k], target)
  }

  lemma FlippedAfter(es: seq<Entry>, target: Scheme)
    ensures EntriesAfter(es, FlipEntries(es, target), target)
  {
    hide FlipOr; hide UriAfter;
    forall i | 0 <= i < |es| ensures EntryAfter(es[i], FlipEntries(es, target)[i], target) {
      forall k | 0 <= k < |es[i].uris| ensures UriAfter(es[i].uris[k], FlipOrAll(es[i].uris, target)[k], target) {
        FlipExact(es[i].uris[k], FlipOr(es[i].uris[k], target), target);
      }
    }
  }

  // -------------------------------------------------------------- token steps

  lemma {:induction false} BlankSkip(ws: string, rest: string)
    requires Blank(ws)
    ensures Tokens(ws + rest) == Tokens(rest)
  {
    if ws == "" {
      assert ws + rest == rest;
    } else {
      assert (ws + rest)[1..] == ws[1..] + rest;
      BlankSkip(ws[1..], rest);
    }
  }

  lemma WordTake(t: string, rest: string)
    requires Word(t, Space) && t[0] != '[' && (rest == "" || IsSpace(rest[0]))
    ensures Tokens(t + rest) == AddTokens([t], Tokens(rest))
  {
    var s := t + rest;
    assert s[..|t|] == t && s[|t|..] == rest && s[0] == t[0];
    assert !IsSpace(t[0]);
    RunIs(s, Space, |t|);
    assert TokenLength(s) == Some(|t|);
    hide TokenLength; hide Run;
  }

  /** A bracket group that closes at its end. */
  predicate IsGroup(b: string) {
    b != "" && b[0] == '[' && Find(b, ']') == |b| - 1
  }

  lemma GroupTake(b: string, rest: string)
    requires IsGroup(b)
    ensures Tokens(b + rest) == AddTokens([b], Tokens(rest))
  {
    var s := b + rest;
    assert s[..|b|] == b && s[|b|..] == rest && s[0] == '[';
    assert s[..|b| - 1] == b[..|b| - 1];
    FindIs(s, ']', |b| - 1);
    assert TokenLength(s) == Some(|b|);
    hide TokenLength; hide Find;
  }

  // --------------------------------------------------------- shape of a source line

  /** The text before the uri of a source line. */
  datatype Shape = Shape(ws0: string, hash: bool, ws1: string, kind: string, ws2: string, bracket: string, ws3: string)

  predicate ShapeOk(sh: Shape) {
    && Blank(sh.ws0) && Blank(sh.ws1) && Blank(sh.ws2) && Blank(sh.ws3)
    && (!sh.hash ==> sh.ws1 == "")
    && IsType(sh.kind) && sh.ws2 != ""
    && (if sh.bracket == "" then sh.ws3 == "" else IsGroup(sh.bracket))
  }

  function Tail(sh: Shape): string {
    sh.kind + (sh.ws2 + (sh.bracket + sh.ws3))
  }

  function Head(sh: Shape): string {
    sh.ws0 + ((if sh.hash then "#" + sh.ws1 else "") + Tail(sh))
  }

  lemma TailIs(sh: Shape, rest: string)
    ensures Tail(sh) + rest == sh.kind + (sh.ws2 + (sh.bracket + (sh.ws3 + rest)))
    ensures |Tail(sh)| == |sh.kind| + |sh.ws2| + |sh.bracket| + |sh.ws3|
  {
    Assoc(sh.kind, sh.ws2 + (sh.bracket + sh.ws3), rest);
    Assoc(sh.ws2, sh.bracket + sh.ws3, rest);
    Assoc(sh.bracket, sh.ws3, rest);
  }

  lemma HeadIs(sh: Shape, rest: string)
    ensures sh.hash ==> Head(sh) + rest == sh.ws0 + ("#" + (sh.ws1 + (Tail(sh) + rest)))
    ensures !sh.hash ==> Head(sh) + rest == sh.ws0 + (Tail(sh) + rest)
    ensures |Head(sh)| == |sh.ws0| + (if sh.hash then 1 + |sh.ws1| else 0) + |Tail(sh)|
  {
    hide Tail;
    if sh.hash {
      Assoc(sh.ws0, "#" + sh.ws1 + Tail(sh), rest);
      Assoc("#" + sh.ws1, Tail(sh), rest);
      Assoc("#", sh.ws1, Tail(sh) + rest);
    } else {
      assert "" + Tail(sh) == Tail(sh);
      Assoc(sh.ws0, Tail(sh), rest);
    }
  }

  lemma TailStart(sh: Shape, rest: string)
    requires ShapeOk(sh)
    ensures Tail(sh) + rest != "" && (Tail(sh) + rest)[0] == 'd'
  {
    TypeWord(sh.kind);
    TailIs(sh, rest);
    hide Tail;
  }

  function HeadTokens(sh: Shape): seq<string> {
    [sh.kind] + (if sh.bracket == "" then [] else [sh.bracket])
  }

  lemma TypeWord(t: string)
    requires IsType(t)
    ensures Word(t, Space) && t[0] == 'd'
  {
  }

  lemma TrimLead(ws: string, rest: string)
    requires Blank(ws) && rest != "" && !IsSpace(rest[0])
    ensures TrimStart(ws + rest) == rest
    decreases |ws|
  {
    if ws == "" {
      assert ws + rest == rest;
    } else {
      assert (ws + rest)[1..] == ws[1..] + rest;
      TrimLead(ws[1..], rest);
    }
  }

  lemma TailTokens(sh: Shape, rest: string)
    requires ShapeOk(sh)
    ensures Tokens(Tail(sh) + rest) == AddTokens(HeadTokens(sh), Tokens(rest))
  {
    hide Tokens; hide IsGroup; hide IsType; hide Tail;
    TypeWord(sh.kind);
    TailIs(sh, rest);
    var after := sh.bracket + (sh.ws3 + rest);
    WordTake(sh.kind, sh.ws2 + after);
    BlankSkip(sh.ws2, after);
    BlankSkip(sh.ws3, rest);
    if sh.bracket == "" {
      assert after == rest;
      assert [sh.kind] + [] == [sh.kind];
    } else {
      GroupTake(sh.bracket, sh.ws3 + rest);
      AddTokensTwice([sh.kind], [sh.bracket], Tokens(rest));
    }
  }

  lemma UncommentHash(ws0: string, work: string)
    requires Blank(ws0)
    ensures Uncomment(ws0 + ("#" + work)) == (work, false)
  {
    TrimLead(ws0, "#" + work);
    hide TrimStart;
    Cut("#", work);
  }

  lemma UncommentPlain(ws0: string, work: string)
    requires Blank(ws0) && work != "" && work[0] == 'd'
    ensures Uncomment(ws0 + work) == (work, true)
  {
    TrimLead(ws0, work);
    hide TrimStart;
  }

  lemma ShapeUncomment(sh: Shape, rest: string)
    requires ShapeOk(sh)
    ensures Uncomment(Head(sh) + rest) == (sh.ws1 + (Tail(sh) + rest), !sh.hash)
  {
    TailStart(sh, rest);
    HeadIs(sh, rest);
    hide IsGroup; hide IsType; hide Uncomment; hide Head; hide Tail;
    if sh.hash {
      UncommentHash(sh.ws0, sh.ws1 + (Tail(sh) + rest));
    } else {
      UncommentPlain(sh.ws0, Tail(sh) + rest);
      assert "" + (Tail(sh) + rest) == Tail(sh) + rest;
    }
  }

  /** The tokens of a line in terms of the text before the uri and the rest. */
  lemma ShapeTokens(sh: Shape, rest: string)
    requires ShapeOk(sh)
    ensures Tokens(Uncomment(Head(sh) + rest).0) == AddTokens(HeadTokens(sh), Tokens(rest))
    ensures Uncomment(Head(sh) + rest).1 == !sh.hash
  {
    ShapeUncomment(sh, rest);
    TailTokens(sh, rest);
    hide Tokens; hide Uncomment; hide Head; hide Tail; hide HeadTokens;
    BlankSkip(sh.ws1, Tail(sh) + rest);
  }

  // ------------------------------------------------- the uri of a shaped line, found

  lemma LeadSkips(ws: string, rest: string)
    requires Blank(ws) && (rest != "" ==> !IsSpace(rest[0]))
    ensures Lead(ws + rest) == |ws| && (ws + rest)[|ws|..] == rest
  {
    assert (ws + rest)[..|ws|] == ws;
    LeadIs(ws + rest, |ws|);
  }

  lemma RunTakes(t: string, rest: string)
    requires Free(t, Space) && (rest != "" ==> IsSpace(rest[0]))
    ensures Run(t + rest, Space) == |t| && (t + rest)[..|t|] == t && (t + rest)[|t|..] == rest
  {
    assert (t + rest)[..|t|] == t;
    RunIs(t + rest, Space, |t|);
  }

  lemma GroupSkips(b: string, ws: string, rest: string)
    requires IsGroup(b) && Blank(ws) && (rest != "" ==> !IsSpace(rest[0]))
    ensures AfterBracket(b + (ws + rest)) == |b| + |ws|
  {
    var s := b + (ws + rest);
    assert s[..|b| - 1] == b[..|b| - 1];
    FindIs(s, ']', |b| - 1);
    assert s[|b|..] == ws + rest;
    LeadSkips(ws, rest);
    hide Find; hide Lead;
  }

  lemma SpaceFind(bracket: string, ws3: string, u: string, b: string)
    requires Word(u, Space) && (b != "" ==> IsSpace(b[0])) && Blank(ws3)
    requires if bracket == "" then ws3 == "" && u[0] != '[' else IsGroup(bracket)
    ensures UriAfterSpace(bracket + (ws3 + (u + b))) == Some((|bracket| + |ws3|, |u|))
  {
    hide Run; hide AfterBracket; hide Find;
    assert !IsSpace(u[0]);
    RunTakes(u, b);
    assert (u + b)[0] == u[0];
    if bracket == "" {
      assert bracket + (ws3 + (u + b)) == u + b;
    } else {
      GroupSkips(bracket, ws3, u + b);
      Assoc(bracket, ws3, u + b);
      Cut(bracket + ws3, u + b);
    }
  }

  lemma TypeFind(kind: string, ws2: string, w: string)
    requires IsType(kind) && Blank(ws2) && ws2 != "" && w != "" && !IsSpace(w[0])
    ensures UriAfterType(kind + (ws2 + w)) == Shift(UriAfterSpace(w), |kind| + |ws2|)
  {
    hide Run; hide Lead; hide UriAfterSpace; hide IsType;
    TypeWord(kind);
    RunTakes(kind, ws2 + w);
    LeadSkips(ws2, w);
    Assoc(kind, ws2, w);
    Cut(kind + ws2, w);
  }

  lemma AfterType(bracket: string, ws3: string, u: string, b: string)
    requires u != "" && !IsSpace(u[0]) && (if bracket == "" then ws3 == "" else IsGroup(bracket))
    ensures var w := bracket + (ws3 + (u + b)); w != "" && !IsSpace(w[0])
  {
    if bracket == "" {
      assert bracket + (ws3 + (u + b)) == u + b;
    }
  }

  lemma TailFind(sh: Shape, u: string, b: string)
    requires ShapeOk(sh) && Word(u, Space) && (sh.bracket == "" ==> u[0] != '[') && (b != "" ==> IsSpace(b[0]))
    ensures UriAfterType(Tail(sh) + (u + b)) == Some((|Tail(sh)|, |u|))
  {
    hide UriAfterType; hide UriAfterSpace; hide Tail; hide IsGroup; hide IsType; hide Blank; hide IsSpace;
    TailIs(sh, u + b);
    SpaceFind(sh.bracket, sh.ws3, u, b);
    assert IsSep(u[0], Space) == IsSpace(u[0]);
    AfterType(sh.bracket, sh.ws3, u, b);
    TypeFind(sh.kind, sh.ws2, sh.bracket + (sh.ws3 + (u + b)));
  }

  lemma FoundAt(raw: string, i: nat, t: string, at: (nat, nat))
    requires SourceStart(raw) == Some(i) && raw[i..] == t && UriAfterType(t) == Some(at)
    ensures FindUri(raw) == Some((i + at.0, at.1))
  {
    hide SourceStart; hide UriAfterType;
  }

  lemma ShapeFind(sh: Shape, u: string, b: string)
    requires ShapeOk(sh) && Word(u, Space) && (sh.bracket == "" ==> u[0] != '[') && (b != "" ==> IsSpace(b[0]))
    ensures FindUri(Head(sh) + (u + b)) == Some((|Head(sh)|, |u|))
  {
    hide UriAfterType; hide IsType; hide IsGroup; hide Head; hide Tail; hide SourceStart; hide FindUri;
    TailFind(sh, u, b);
    TailStart(sh, u + b);
    HeadIs(sh, u + b);
    var raw, t := Head(sh) + (u + b), Tail(sh) + (u + b);
    if sh.hash {
      HashStart(sh.ws0, sh.ws1, t);
      FoundAt(raw, |sh.ws0| + 1 + |sh.ws1|, t, (|Tail(sh)|, |u|));
    } else {
      PlainStart(sh.ws0, t);
      FoundAt(raw, |sh.ws0|, t, (|Tail(sh)|, |u|));
    }
  }

  lemma PlainStart(ws0: string, t: string)
    requires Blank(ws0) && t != "" && t[0] == 'd'
    ensures SourceStart(ws0 + t) == Some(|ws0|) && (ws0 + t)[|ws0|..] == t
  {
    LeadSkips(ws0, t);
    hide Lead;
  }

  lemma HashStart(ws0: string, ws1: string, t: string)
    requires Blank(ws0) && Blank(ws1) && t != "" && t[0] == 'd'
    ensures var raw := ws0 + ("#" + (ws1 + t));
      SourceStart(raw) == Some(|ws0| + 1 + |ws1|) && raw[|ws0| + 1 + |ws1|..] == t
  {
    hide Lead;
    var raw := ws0 + ("#" + (ws1 + t));
    LeadSkips(ws0, "#" + (ws1 + t));
    LeadSkips(ws1, t);
    assert raw == (ws0 + "#") + (ws1 + t);
    Cut(ws0 + "#", ws1 + t);
    Cut(ws0, "#" + (ws1 + t));
    assert !IsSpace('#');
    assert (ws1 + t)[0] == if ws1 == "" then t[0] else ws1[0];
  }

  // ---------------------------------------------------------- the shape of a found uri

  lemma GroupEnd(s: string)
    requires s != "" && s[0] == '[' && Find(s, ']') < |s|
    ensures IsGroup(s[..Find(s, ']') + 1])
  {
    var c := Find(s, ']');
    assert s[..c + 1][..c] == s[..c];
    FindIs(s[..c + 1], ']', c);
  }

  lemma UriOf(s: string) returns (u: string, b: string)
    requires s != "" && !IsSpace(s[0])
    ensures s == u + b && |u| == Run(s, Space) && Word(u, Space) && (b != "" ==> IsSpace(b[0])) && u[0] == s[0]
  {
    var n := Run(s, Space);
    u, b := s[..n], s[n..];
  }

  lemma GroupOf(w: string) returns (bracket: string, ws3: string, rest: string)
    requires w != "" && w[0] == '[' && AfterBracket(w) < |w|
    ensures w == bracket + (ws3 + rest) && AfterBracket(w) == |bracket| + |ws3|
    ensures IsGroup(bracket) && Blank(ws3) && rest != "" && !IsSpace(rest[0]) && w[AfterBracket(w)..] == rest
  {
    hide Find; hide IsGroup; hide Lead; hide Blank;
    var c := Find(w, ']');
    GroupEnd(w);
    var tail := w[c + 1..];
    var l := Lead(tail);
    bracket, ws3, rest := w[..c + 1], tail[..l], tail[l..];
    assert w == bracket + tail && tail == ws3 + rest;
  }

  lemma SpaceOf(w: string) returns (bracket: string, ws3: string, u: string, b: string)
    requires w != "" && !IsSpace(w[0]) && UriAfterSpace(w).Some?
    ensures w == bracket + (ws3 + (u + b)) && UriAfterSpace(w) == Some((|bracket| + |ws3|, |u|))
    ensures Word(u, Space) && (b != "" ==> IsSpace(b[0])) && Blank(ws3)
    ensures if bracket == "" then ws3 == "" && u[0] != '[' else IsGroup(bracket)
  {
    hide Run; hide AfterBracket;
    if w[0] == '[' {
      var rest;
      bracket, ws3, rest := GroupOf(w);
      u, b := UriOf(rest);
    } else {
      bracket, ws3 := "", "";
      assert w[0..] == w;
      u, b := UriOf(w);
      assert "" + ("" + w) == w;
    }
  }

  lemma TypeOf(s: string) returns (kind: string, ws2: string, w: string)
    requires UriAfterType(s).Some?
    ensures s == kind + (ws2 + w) && IsType(kind) && Blank(ws2) && ws2 != "" && w != "" && !IsSpace(w[0])
  {
    hide UriAfterSpace; hide IsType; hide Run; hide Lead;
    var n := Run(s, Space);
    var rest := s[n..];
    var l := Lead(rest);
    kind, ws2, w := s[..n], rest[..l], rest[l..];
    assert n < |s| && rest[0] == s[n];
  }

  lemma LeadCut(s: string)
    ensures s == s[..Lead(s)] + s[Lead(s)..] && Blank(s[..Lead(s)])
  {
  }

  lemma HashCut(raw: string, w: nat)
    requires w < |raw| && raw[w] == '#'
    ensures raw[w..] == "#" + raw[w + 1..]
  {
  }

  lemma SourceOf(raw: string) returns (ws0: string, hash: bool, ws1: string, s: string)
    requires SourceStart(raw).Some?
    ensures Blank(ws0) && Blank(ws1) && (!hash ==> ws1 == "")
    ensures hash ==> raw == ws0 + ("#" + (ws1 + s))
    ensures !hash ==> raw == ws0 + s
    ensures s == raw[SourceStart(raw).value..]
  {
    hide Lead; hide IsSpace;
    var w := Lead(raw);
    LeadCut(raw);
    ws0 := raw[..w];
    if w < |raw| && raw[w] == '#' {
      var rest := raw[w + 1..];
      HashCut(raw, w);
      LeadCut(rest);
      hash, ws1, s := true, rest[..Lead(rest)], rest[Lead(rest)..];
    } else {
      hash, ws1, s := false, "", raw[w..];
    }
  }

  /** A line with a uri is the text before it, the uri word and the rest. */
  lemma ShapeOf(raw: string) returns (sh: Shape, u: string, b: string)
    requires FindUri(raw).Some?
    ensures ShapeOk(sh) && Word(u, Space) && (sh.bracket == "" ==> u[0] != '[') && (b != "" ==> IsSpace(b[0]))
    ensures raw == Head(sh) + (u + b) && FindUri(raw) == Some((|Head(sh)|, |u|))
  {
    var ws0, hash, ws1, s := SourceOf(raw);
    hide SourceStart; hide UriAfterType; hide IsGroup; hide IsType; hide UriAfterSpace; hide Tail; hide Head;
    var kind, ws2, w := TypeOf(s);
    TypeFind(kind, ws2, w);
    var bracket, ws3;
    bracket, ws3, u, b := SpaceOf(w);
    sh := Shape(ws0, hash, ws1, kind, ws2, bracket, ws3);
    TailIs(sh, u + b);
    HeadIs(sh, u + b);
    ShapeFind(sh, u, b);
  }

  lemma Middle(h: string, u: string, b: string)
    ensures |h + (u + b)| == |h| + |u| + |b|
    ensures (h + (u + b))[|h|..|h| + |u|] == u
    ensures (h + (u + b))[..|h|] == h && (h + (u + b))[|h| + |u|..] == b
  {
  }

  lemma FlippedLine(sh: Shape, u: string, b: string, target: Scheme)
    requires FindUri(Head(sh) + (u + b)) == Some((|Head(sh)|, |u|))
    ensures FlipClassicLine(Head(sh) + (u + b), target) ==
      match FlipUri(u, target) case None => None case Some(f) => Some(Head(sh) + (f + b))
  {
    hide FindUri; hide Head; hide FlipUri;
    Middle(Head(sh), u, b);
    if FlipUri(u, target).Some? {
      Assoc(Head(sh), FlipUri(u, target).value, b);
    }
  }

  // ------------------------------------------------------------ parsing the flipped line

  lemma {:induction false} ActiveSplit(a: seq<string>, b: seq<string>)
    requires forall i :: 0 <= i < |a| ==> !StartsWith(a[i], "#")
    ensures Active(a + b) == a + Active(b)
  {
    if a == [] {
      assert a + b == b;
    } else {
      assert (a + b)[1..] == a[1..] + b;
      ActiveSplit(a[1..], b);
    }
  }

  lemma HeadTokensActive(sh: Shape)
    requires ShapeOk(sh)
    ensures forall i :: 0 <= i < |HeadTokens(sh)| ==> !StartsWith(HeadTokens(sh)[i], "#")
  {
    TypeWord(sh.kind);
    hide IsType;
  }

  /** What a parse result becomes when its uris are flipped. */
  function FlipResult(r: Result<Option<Entry>, Reason>, target: Scheme): Result<Option<Entry>, Reason> {
    match r
    case Ok(Some(e)) => Ok(Some(FlipEntry(e, target)))
    case _ => r
  }

  lemma FlipOne(u: string, target: Scheme)
    ensures FlipOrAll([u], target) == [FlipOr(u, target)]
  {
  }

  lemma SourceFlips(kind: string, b: Bracket, u: string, rest: seq<string>, enabled: bool, target: Scheme)
    ensures ParseSource(kind, b, [FlipOr(u, target)] + rest, enabled) ==
      match ParseSource(kind, b, [u] + rest, enabled) case Err(why) => Err(why) case Ok(e) => Ok(FlipEntry(e, target))
  {
    FlipOne(u, target);
    hide FlipOr; hide FlipOrAll;
    if rest != [] {
      assert ([u] + rest)[2..] == rest[1..] && ([FlipOr(u, target)] + rest)[2..] == rest[1..];
    }
  }

  lemma ActiveFlips(sh: Shape, u: string, rest: seq<string>, enabled: bool, target: Scheme)
    requires ShapeOk(sh) && (sh.bracket == "" ==> !StartsWith(u, "["))
    requires sh.bracket == "" ==> !StartsWith(FlipOr(u, target), "[")
    ensures ParseActive(HeadTokens(sh) + ([FlipOr(u, target)] + rest), enabled)
      == FlipResult(ParseActive(HeadTokens(sh) + ([u] + rest), enabled), target)
    ensures ParseActive(HeadTokens(sh) + ([u] + rest), enabled) != Ok(None)
  {
    hide FlipOr; hide ApplyOptions; hide Words; hide Inner; hide Find; hide IsType; hide ParseSource; hide FlipEntry;
    var f := FlipOr(u, target);
    var head := HeadTokens(sh);
    Cut(head, [u] + rest);
    Cut(head, [f] + rest);
    if sh.bracket == "" {
      SourceFlips(sh.kind, NO_BRACKET, u, rest, enabled, target);
    } else {
      var b := ApplyOptions(NO_BRACKET, Words(Inner(sh.bracket), Space));
      if b.Ok? {
        SourceFlips(sh.kind, b.value, u, rest, enabled, target);
      }
    }
  }
}
