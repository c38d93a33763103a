/** Replacing the tokens of a loader template one at a time is replacing them all at once, exactly
    when nothing that looks like a token is left. */
module LoaderFacts {
  import opened Wrappers
  import opened Text
  import opened Loader

  // --------------------------------------------------------------------- templates

  /** A template cut at its tokens: literal text, or the token of replacement `i`. */
  datatype Piece = Lit(text: string) | Tok(i: nat)

  predicate InRange(ps: seq<Piece>, rs: seq<Replacement>) {
    forall k :: 0 <= k < |ps| && ps[k].Tok? ==> ps[k].i < |rs|
  }

  function One(p: Piece, rs: seq<Replacement>, n: nat): string
    requires p.Tok? ==> p.i < |rs|
  {
    match p case Lit(text) => text case Tok(i) => if i < n then rs[i].value else rs[i].token
  }

  /** The template with the first `n` replacements made. */
  function Show(ps: seq<Piece>, rs: seq<Replacement>, n: nat): string
    requires InRange(ps, rs)
  {
    if ps == [] then "" else Show(ps[..|ps| - 1], rs, n) + One(ps[|ps| - 1], rs, n)
  }

  /** Tokens are placeholders; values start and end in a quote, as quoted paths do. */
  predicate Fit(rs: seq<Replacement>) {
    forall i :: 0 <= i < |rs| ==> IsPlaceholder(rs[i].token) && Quoted(rs[i].value)
  }

  predicate Quoted(v: string) {
    v != "" && v[0] == '\'' && v[|v| - 1] == '\''
  }

  lemma PlaceholderPlain(t: string)
    requires IsPlaceholder(t)
    ensures '\'' !in t && t != ""
  {
    forall i | 0 <= i < |t| ensures t[i] != '\'' {
      if i < 6 {
        assert t[i] == t[..6][i];
      } else if i >= |t| - 2 {
        assert t[i] == t[|t| - 2..][i - (|t| - 2)];
      } else {
        assert Upper(t[i]);
      }
    }
  }

  /** The only place of a token in the template, overlaps included. */
  predicate OnlyAt(s: string, t: string, at: nat) {
    At(s, t, at) && forall j :: 0 <= j <= |s| && At(s, t, j) ==> j == at
  }

  /** The pieces hold each token once, and nowhere else does its text occur. */
  predicate Holds(ps: seq<Piece>, rs: seq<Replacement>) {
    && InRange(ps, rs)
    && (forall i :: 0 <= i < |rs| ==> Tok(i) in ps)
    && (forall j, k :: 0 <= j < k < |ps| && ps[j].Tok? ==> ps[j] != ps[k])
    && forall k :: 0 <= k < |ps| && ps[k].Tok? ==> OnlyAt(Show(ps, rs, 0), rs[ps[k].i].token, |Show(ps[..k], rs, 0)|)
  }

  lemma {:induction false} ShowAppend(a: seq<Piece>, b: seq<Piece>, rs: seq<Replacement>, n: nat)
    requires InRange(a, rs) && InRange(b, rs)
    ensures InRange(a + b, rs) && Show(a + b, rs, n) == Show(a, rs, n) + Show(b, rs, n)
    decreases |b|
  {
    hide One;
    if b == [] {
      assert a + b == a;
    } else {
      assert (a + b)[..|a + b| - 1] == a + b[..|b| - 1];
      ShowAppend(a, b[..|b| - 1], rs, n);
    }
  }

  // ------------------------------------------------- text that does not touch a value

  predicate Ends(s: string, x: string) { |x| <= |s| && s[|s| - |x|..] == x }

  /** Quote-free text at the end of a shown stretch is there before any replacement, too. */
  lemma {:induction false} TailPlain(ps: seq<Piece>, rs: seq<Replacement>, n: nat, x: string)
    requires InRange(ps, rs) && Fit(rs) && '\'' !in x && Ends(Show(ps, rs, n), x)
    ensures Ends(Show(ps, rs, 0), x)
    decreases |ps|
  {
    hide IsPlaceholder;
    if ps != [] && x != "" {
      var front, last := ps[..|ps| - 1], ps[|ps| - 1];
      var a, b := Show(front, rs, n), One(last, rs, n);
      var c := One(last, rs, 0);
      LastPlain(a, b, x);
      assert b == c || b == "";
      if |x| <= |b| {
        EndsIn(a, b, x);
        EndsIn(Show(front, rs, 0), c, x);
      } else {
        var y := x[..|x| - |b|];
        EndsAcross(a, b, x);
        assert forall k :: 0 <= k < |y| ==> y[k] == x[k] && x[k] in x;
        TailPlain(front, rs, n, y);
        EndsBack(Show(front, rs, 0), b, x);
      }
    }
  }

  lemma LastPlain(a: string, b: string, x: string)
    requires Ends(a + b, x) && x != "" && '\'' !in x
    ensures !Quoted(b)
  {
    assert x[|x| - 1] in x;
    assert (a + b)[|a + b| - |x|..][|x| - 1] == (a + b)[|a + b| - 1];
  }

  lemma AcrossPlain(a: string, b: string, t: string, at: nat)
    requires At(a + b, t, at) && at < |a| < at + |t| && '\'' !in t
    ensures !Quoted(b)
  {
    assert (a + b)[at..at + |t|][|a| - at] == (a + b)[|a|] == b[0];
    assert t[|a| - at] in t;
  }

  lemma EndsIn(a: string, b: string, x: string)
    requires |x| <= |b|
    ensures Ends(a + b, x) <==> Ends(b, x)
  {
    assert (a + b)[|a + b| - |x|..] == b[|b| - |x|..];
  }

  lemma EndsAcross(a: string, b: string, x: string)
    requires |x| > |b| && Ends(a + b, x)
    ensures Ends(a, x[..|x| - |b|]) && x == x[..|x| - |b|] + b
  {
    var y := x[..|x| - |b|];
    var s := a + b;
    assert s[|s| - |x|..] == x;
    assert a[|a| - |y|..] == x[..|y|];
    assert x[|y|..] == b;
    assert x[..|y|] + x[|y|..] == x;
  }

  lemma EndsBack(a: string, b: string, x: string)
    requires |x| > |b| && x == x[..|x| - |b|] + b && Ends(a, x[..|x| - |b|])
    ensures Ends(a + b, x)
  {
    var y := x[..|x| - |b|];
    assert (a + b)[|a + b| - |x|..] == a[|a| - |y|..] + b;
  }

  /** One of the first `n` values holds the text. */
  predicate InValue(rs: seq<Replacement>, n: nat, t: string) {
    exists i :: 0 <= i < n && i < |rs| && Contains(rs[i].value, t)
  }

  lemma LastHolds(a: string, p: Piece, rs: seq<Replacement>, n: nat, t: string, at: nat)
    requires (p.Tok? ==> p.i < |rs|) && At(One(p, rs, n), t, at)
    ensures Contains(a + One(p, rs, 0), t) || InValue(rs, n, t)
  {
    InBack(a, One(p, rs, n), t, at);
    hide Contains; hide At;
  }

  /** A quote-free text in a shown stretch is in the template or inside a value. */
  lemma {:induction false} FoundInside(ps: seq<Piece>, rs: seq<Replacement>, n: nat, t: string, at: nat)
    requires InRange(ps, rs) && Fit(rs) && '\'' !in t && t != "" && At(Show(ps, rs, n), t, at)
    ensures Contains(Show(ps, rs, 0), t) || InValue(rs, n, t)
    decreases |ps|
  {
    hide IsPlaceholder; hide Contains; hide At; hide Fit; hide InValue; hide One; hide Quoted; hide Ends;
    if ps == [] {
      NowhereInNothing(t, at);
    } else {
      var front, last := ps[..|ps| - 1], ps[|ps| - 1];
      var a, b, c := Show(front, rs, n), One(last, rs, n), One(last, rs, 0);
      Where(a, b, t, at);
      if at + |t| <= |a| {
        FoundInside(front, rs, n, t, at);
        InFront(Show(front, rs, 0), c, t);
      } else if at >= |a| {
        LastHolds(Show(front, rs, 0), last, rs, n, t, at - |a|);
      } else {
        AcrossPlain(a, b, t, at);
        LastShown(last, rs, n);
        StraddlePlain(a, b, t, at);
        TailPlain(front, rs, n, t[..|a| - at]);
        Straddles(Show(front, rs, 0), a, b, t, at);
      }
    }
  }

  lemma NowhereInNothing(t: string, at: nat)
    requires t != ""
    ensures !At("", t, at)
  {
  }

  lemma Where(a: string, b: string, t: string, at: nat)
    requires At(a + b, t, at)
    ensures at + |t| <= |a| ==> At(a, t, at)
    ensures at >= |a| ==> At(b, t, at - |a|)
  {
    var s := a + b;
    if at + |t| <= |a| {
      assert a[at..at + |t|] == s[at..at + |t|];
    }
    if at >= |a| {
      assert b[at - |a|..at - |a| + |t|] == s[at..at + |t|];
    }
  }

  lemma LastShown(p: Piece, rs: seq<Replacement>, n: nat)
    requires (p.Tok? ==> p.i < |rs|) && Fit(rs) && !Quoted(One(p, rs, n))
    ensures One(p, rs, n) == One(p, rs, 0)
  {
    hide IsPlaceholder; hide Quoted;
  }

  lemma StraddlePlain(a: string, b: string, t: string, at: nat)
    requires At(a + b, t, at) && at < |a| < at + |t| && '\'' !in t
    ensures '\'' !in t[..|a| - at] && Ends(a, t[..|a| - at])
  {
    var s, x := a + b, t[..|a| - at];
    assert forall k :: 0 <= k < |x| ==> x[k] == t[k] && t[k] in t;
    assert s[at..at + |t|][..|a| - at] == s[at..|a|] == a[at..];
  }

  lemma InFront(a: string, b: string, t: string)
    ensures Contains(a, t) ==> Contains(a + b, t)
  {
    if i :| 0 <= i <= |a| && At(a, t, i) {
      assert (a + b)[i..i + |t|] == a[i..i + |t|];
      assert At(a + b, t, i);
    }
  }

  lemma InBack(a: string, b: string, t: string, i: nat)
    requires At(b, t, i)
    ensures Contains(b, t) && Contains(a + b, t)
  {
    assert (a + b)[|a| + i..|a| + i + |t|] == b[i..i + |t|];
    assert At(a + b, t, |a| + i);
  }

  lemma Straddles(c: string, a: string, b: string, t: string, at: nat)
    requires At(a + b, t, at) && at < |a| < at + |t| && Ends(c, t[..|a| - at])
    ensures Contains(c + b, t)
  {
    var s, u := a + b, c + b;
    var k := |a| - at;
    var j := |c| - k;
    forall x | 0 <= x < |t| ensures j + x < |u| && u[j + x] == t[x] {
      assert s[at..at + |t|][x] == t[x];
      if x < k {
        assert c[|c| - k..][x] == t[..k][x];
      }
    }
    assert u[j..j + |t|] == t;
    assert At(u, t, j);
  }

  // ----------------------------------------------------------------------- one step

  /** The pieces around the token of replacement `n`. */
  lemma Around(ps: seq<Piece>, rs: seq<Replacement>, n: nat) returns (k: nat)
    requires Holds(ps, rs) && n < |rs|
    ensures k < |ps| && ps[k] == Tok(n) && InRange(ps[..k], rs) && InRange(ps[k + 1..], rs)
    ensures Tok(n) !in ps[..k] && Tok(n) !in ps[k + 1..]
  {
    hide OnlyAt; hide Show;
    assert Tok(n) in ps;
    k :| 0 <= k < |ps| && ps[k] == Tok(n);
  }

  lemma AroundShown(ps: seq<Piece>, rs: seq<Replacement>, n: nat, k: nat, m: nat)
    requires InRange(ps, rs) && n < |rs| && k < |ps| && ps[k] == Tok(n)
    ensures InRange(ps[..k], rs) && InRange(ps[k + 1..], rs)
    ensures Show(ps, rs, m) == Show(ps[..k], rs, m) + (One(Tok(n), rs, m) + Show(ps[k + 1..], rs, m))
  {
    hide Show; hide One;
    assert ps == ps[..k] + ([ps[k]] + ps[k + 1..]);
    OneShown(Tok(n), rs, m);
    ShowAppend([ps[k]], ps[k + 1..], rs, m);
    ShowAppend(ps[..k], [ps[k]] + ps[k + 1..], rs, m);
  }

  lemma OneShown(p: Piece, rs: seq<Replacement>, m: nat)
    requires p.Tok? ==> p.i < |rs|
    ensures InRange([p], rs) && Show([p], rs, m) == One(p, rs, m)
  {
    assert [p][..0] == [];
    assert "" + One(p, rs, m) == One(p, rs, m);
  }

  /** Without the token itself, a stretch looks the same after its replacement. */
  lemma {:induction false} ShowNext(ps: seq<Piece>, rs: seq<Replacement>, n: nat)
    requires InRange(ps, rs) && Tok(n) !in ps
    ensures Show(ps, rs, n + 1) == Show(ps, rs, n)
    decreases |ps|
  {
    if ps != [] {
      assert ps[|ps| - 1] in ps;
      OneNext(ps[|ps| - 1], rs, n);
      hide One;
      ShowNext(ps[..|ps| - 1], rs, n);
    }
  }

  lemma OneNext(p: Piece, rs: seq<Replacement>, n: nat)
    requires (p.Tok? ==> p.i < |rs|) && p != Tok(n)
    ensures One(p, rs, n + 1) == One(p, rs, n)
  {
  }

  /** A value among the first `n` that holds the token to be replaced next. */
  predicate Intruded(rs: seq<Replacement>, n: nat)
    requires n < |rs|
  {
    exists i :: 0 <= i < n && Contains(rs[i].value, rs[n].token)
  }

  /** The first find of a token that stands after `a`. */
  predicate First(a: string, t: string, b: string, f: nat) {
    t != "" && At(a + (t + b), t, f) && f <= |a| && forall j :: 0 <= j < f ==> !At(a + (t + b), t, j)
  }

  /** Before its replacement the token is found first where the template has it, unless a value
      holds its text. */
  lemma TokenPlace(a: string, t: string, b: string, f: nat)
    requires First(a, t, b, f)
    ensures f == |a| || f + |t| <= |a| || (|a| - |t| < f < |a| && a[f..] == t[..|a| - f] && t == t[..|a| - f] + t[..|t| - (|a| - f)])
  {
    var s := a + (t + b);
    if |a| - |t| < f < |a| {
      var k := |a| - f;
      assert s[f..f + |t|] == t;
      forall x | 0 <= x < k ensures a[f..][x] == t[x] {
        assert s[f..f + |t|][x] == t[x];
      }
      forall x | k <= x < |t| ensures t[x] == t[x - k] {
        assert s[f..f + |t|][x] == t[x];
        assert s[f + x] == (t + b)[x - k];
      }
      assert a[f..] == t[..k];
    }
  }

  lemma Overlapping(a: string, t: string, b: string, k: nat)
    requires 0 < k < |t| && Ends(a, t[..k]) && t == t[..k] + t[..|t| - k]
    ensures At(a + (t + b), t, |a| - k)
  {
    var s := a + (t + b);
    var j := |a| - k;
    forall x | 0 <= x < |t| ensures s[j + x] == t[x] {
      if x < k {
        assert a[|a| - k..][x] == t[..k][x];
      } else {
        assert (t[..k] + t[..|t| - k])[x] == t[..|t| - k][x - k];
      }
    }
    assert s[j..j + |t|] == t;
  }

  /** The token's text sits at its own place in every stage. */
  lemma OwnPlace(a: string, t: string, b: string)
    ensures At(a + (t + b), t, |a|)
  {
    assert (a + (t + b))[|a|..|a| + |t|] == t;
  }

  /** A token found once does not overlap itself. */
  lemma NoOverlapText(a: string, t: string, b: string, k: nat)
    requires OnlyAt(a + (t + b), t, |a|) && 0 < k < |t| && t == t[..k] + t[..|t| - k]
    ensures !Ends(a, t[..k])
  {
    if Ends(a, t[..k]) {
      Overlapping(a, t, b, k);
    }
  }

  /** The template at the token of replacement `n`. */
  lemma AtToken(ps: seq<Piece>, rs: seq<Replacement>, n: nat, k: nat)
    requires Holds(ps, rs) && n < |rs| && k < |ps| && ps[k] == Tok(n) && InRange(ps[..k], rs) && InRange(ps[k + 1..], rs)
    requires Show(ps, rs, 0) == Show(ps[..k], rs, 0) + (rs[n].token + Show(ps[k + 1..], rs, 0))
    ensures OnlyAt(Show(ps[..k], rs, 0) + (rs[n].token + Show(ps[k + 1..], rs, 0)), rs[n].token, |Show(ps[..k], rs, 0)|)
  {
    hide OnlyAt; hide Show;
  }

  /** The first find before the token's place ends before it: an overlap would be in the
      template, too. */
  lemma NoOverlap(ps: seq<Piece>, rs: seq<Replacement>, n: nat, k: nat, f: nat)
    requires Holds(ps, rs) && Fit(rs) && n < |rs| && k < |ps| && ps[k] == Tok(n) && InRange(ps[..k], rs) && InRange(ps[k + 1..], rs)
    requires Show(ps, rs, 0) == Show(ps[..k], rs, 0) + (rs[n].token + Show(ps[k + 1..], rs, 0))
    requires First(Show(ps[..k], rs, n), rs[n].token, Show(ps[k + 1..], rs, n), f)
    ensures f == |Show(ps[..k], rs, n)| || f + |rs[n].token| <= |Show(ps[..k], rs, n)|
  {
    hide Show; hide OnlyAt; hide Holds; hide IsPlaceholder; hide InRange;
    var a, t, b := Show(ps[..k], rs, n), rs[n].token, Show(ps[k + 1..], rs, n);
    FitToken(rs, n);
    AtToken(ps, rs, n, k);
    TokenPlace(a, t, b, f);
    if |a| - |t| < f < |a| {
      var m := |a| - f;
      var x := t[..m];
      assert forall i :: 0 <= i < |x| ==> x[i] == t[i] && t[i] in t;
      NoOverlapText(Show(ps[..k], rs, 0), t, Show(ps[k + 1..], rs, 0), m);
      TailPlain(ps[..k], rs, n, x);
    }
  }

  /** Replacing the n-th token works, and replaces just it, exactly when no value put in before
      holds its text. */
  lemma StepExact(ps: seq<Piece>, rs: seq<Replacement>, n: nat)
    requires Holds(ps, rs) && Fit(rs) && n < |rs|
    ensures ReplaceToken(Show(ps, rs, n), rs[n].token, rs[n].value) ==
      if Intruded(rs, n) then None else Some(Show(ps, rs, n + 1))
  {
    hide IsPlaceholder; hide Holds; hide Show; hide Contains; hide OnlyAt; hide Fit; hide Intruded; hide ReplaceToken;
    var k := Around(ps, rs, n);
    StepAt(ps, rs, n, k);
  }

  lemma StepAt(ps: seq<Piece>, rs: seq<Replacement>, n: nat, k: nat)
    requires Holds(ps, rs) && Fit(rs) && n < |rs| && InRange(ps, rs)
    requires k < |ps| && ps[k] == Tok(n) && InRange(ps[..k], rs) && InRange(ps[k + 1..], rs)
    requires Tok(n) !in ps[..k] && Tok(n) !in ps[k + 1..]
    ensures ReplaceToken(Show(ps, rs, n), rs[n].token, rs[n].value) ==
      if Intruded(rs, n) then None else Some(Show(ps, rs, n + 1))
  {
    hide IsPlaceholder; hide Holds; hide Show; hide Contains; hide OnlyAt; hide InRange; hide Intruded; hide ReplaceToken; hide First; hide At;
    AroundShown(ps, rs, n, k, 0);
    AroundShown(ps, rs, n, k, n);
    AroundShown(ps, rs, n, k, n + 1);
    var t, v := rs[n].token, rs[n].value;
    var a, b := Show(ps[..k], rs, n), Show(ps[k + 1..], rs, n);
    FitToken(rs, n);
    ShowNext(ps[..k], rs, n);
    ShowNext(ps[k + 1..], rs, n);
    var f := FirstFound(a, t, b);
    NoOverlap(ps, rs, n, k, f);
    if f == |a| {
      ReplacesAt(a, t, b, v);
      SecondFound(ps, rs, n, k, a, b);
    } else {
      FirstIntrudes(ps, rs, n, k, a, b, f);
      ReplacesNot(a, t, b, v, f);
    }
  }

  lemma FirstFound(a: string, t: string, b: string) returns (f: nat)
    requires t != ""
    ensures First(a, t, b, f)
  {
    OwnPlace(a, t, b);
    hide At;
    f := IndexOf(a + (t + b), t, 0).value;
  }

  lemma FirstIs(a: string, t: string, b: string, f: nat)
    requires First(a, t, b, f)
    ensures IndexOf(a + (t + b), t, 0) == Some(f)
  {
    hide At;
  }

  lemma ReplacesAt(a: string, t: string, b: string, v: string)
    requires First(a, t, b, |a|)
    ensures ReplaceToken(a + (t + b), t, v) == if IndexOf(a + (t + b), t, |a| + |t|).Some? then None else Some(a + (v + b))
  {
    hide At; hide First;
    FirstIs(a, t, b, |a|);
    CutAround(a, t, b);
    Assoc(a, v, b);
  }

  lemma CutAround(a: string, t: string, b: string)
    ensures var s := a + (t + b); s[..|a|] == a && s[|a| + |t|..] == b
  {
  }

  lemma ReplacesNot(a: string, t: string, b: string, v: string, f: nat)
    requires First(a, t, b, f) && IndexOf(a + (t + b), t, f + |t|).Some?
    ensures ReplaceToken(a + (t + b), t, v) == None
  {
    hide At; hide First;
    FirstIs(a, t, b, f);
  }

  lemma FitToken(rs: seq<Replacement>, n: nat)
    requires Fit(rs) && n < |rs|
    ensures rs[n].token != "" && '\'' !in rs[n].token
  {
    PlaceholderPlain(rs[n].token);
    hide IsPlaceholder;
  }

  /** A find before the token's place lies in a value. */
  lemma FirstIntrudes(ps: seq<Piece>, rs: seq<Replacement>, n: nat, k: nat, a: string, b: string, f: nat)
    requires Holds(ps, rs) && Fit(rs) && n < |rs| && k < |ps| && ps[k] == Tok(n) && InRange(ps[..k], rs) && InRange(ps[k + 1..], rs)
    requires Show(ps, rs, 0) == Show(ps[..k], rs, 0) + (rs[n].token + Show(ps[k + 1..], rs, 0))
    requires a == Show(ps[..k], rs, n) && b == Show(ps[k + 1..], rs, n)
    requires f + |rs[n].token| <= |a| && First(a, rs[n].token, b, f)
    ensures Intruded(rs, n) && IndexOf(a + (rs[n].token + b), rs[n].token, f + |rs[n].token|).Some?
  {
    hide IsPlaceholder; hide Show; hide Contains; hide InRange;
    var t := rs[n].token;
    FitToken(rs, n);
    OwnPlace(a, t, b);
    assert (a + (t + b))[f..f + |t|] == a[f..f + |t|];
    FoundInside(ps[..k], rs, n, t, f);
    NotInTemplate(ps, rs, n, k);
  }

  lemma OnlyAlone(a: string, t: string, b: string)
    requires OnlyAt(a + (t + b), t, |a|) && t != ""
    ensures !Contains(a, t) && !Contains(b, t)
  {
    var s := a + (t + b);
    forall i | 0 <= i <= |a| ensures !At(a, t, i) {
      if At(a, t, i) {
        assert s[i..i + |t|] == a[i..i + |t|];
        assert At(s, t, i);
      }
    }
    forall i | 0 <= i <= |b| ensures !At(b, t, i) {
      if At(b, t, i) {
        assert s[|a| + |t| + i..|a| + |t| + i + |t|] == b[i..i + |t|];
        assert At(s, t, |a| + |t| + i);
      }
    }
  }

  /** Neither side of a token's place holds its text in the template. */
  lemma NotInTemplate(ps: seq<Piece>, rs: seq<Replacement>, n: nat, k: nat)
    requires Holds(ps, rs) && Fit(rs) && n < |rs| && k < |ps| && ps[k] == Tok(n) && InRange(ps[..k], rs) && InRange(ps[k + 1..], rs)
    requires Show(ps, rs, 0) == Show(ps[..k], rs, 0) + (rs[n].token + Show(ps[k + 1..], rs, 0))
    ensures !Contains(Show(ps[..k], rs, 0), rs[n].token) && !Contains(Show(ps[k + 1..], rs, 0), rs[n].token)
  {
    hide IsPlaceholder; hide Show; hide OnlyAt; hide Contains; hide Holds; hide InRange;
    FitToken(rs, n);
    AtToken(ps, rs, n, k);
    OnlyAlone(Show(ps[..k], rs, 0), rs[n].token, Show(ps[k + 1..], rs, 0));
  }

  /** A second find after the token's place lies in a value, too, and every value that holds the
      text is found. */
  lemma SecondFound(ps: seq<Piece>, rs: seq<Replacement>, n: nat, k: nat, a: string, b: string)
    requires Holds(ps, rs) && Fit(rs) && n < |rs| && k < |ps| && ps[k] == Tok(n) && InRange(ps[..k], rs) && InRange(ps[k + 1..], rs)
    requires Show(ps, rs, 0) == Show(ps[..k], rs, 0) + (rs[n].token + Show(ps[k + 1..], rs, 0))
    requires a == Show(ps[..k], rs, n) && b == Show(ps[k + 1..], rs, n)
    requires First(a, rs[n].token, b, |a|)
    ensures IndexOf(a + (rs[n].token + b), rs[n].token, |a| + |rs[n].token|).Some? <==> Intruded(rs, n)
  {
    hide IsPlaceholder; hide Show; hide InRange; hide Holds; hide Contains;
    var t := rs[n].token;
    FitToken(rs, n);
    FoundAfter(a, t, b);
    if Contains(b, t) {
      var g := Place(b, t);
      FoundInside(ps[k + 1..], rs, n, t, g);
      NotInTemplate(ps, rs, n, k);
    }
    if i :| 0 <= i < n && Contains(rs[i].value, t) {
      ValueShown(ps, rs, n, i, k, t);
      if Contains(a, t) {
        NotBefore(a, t, b);
      }
    }
  }

  lemma AtAfter(a: string, t: string, b: string, g: nat)
    ensures At(a + (t + b), t, |a| + |t| + g) <==> At(b, t, g)
  {
    var s, from := a + (t + b), |a| + |t|;
    if g + |t| <= |b| {
      assert s[from + g..from + g + |t|] == b[g..g + |t|];
    }
  }

  lemma FoundAfter(a: string, t: string, b: string)
    requires t != ""
    ensures IndexOf(a + (t + b), t, |a| + |t|).Some? <==> Contains(b, t)
  {
    var s, from := a + (t + b), |a| + |t|;
    var r := IndexOf(s, t, from);
    forall g: nat ensures At(s, t, from + g) <==> At(b, t, g) {
      AtAfter(a, t, b, g);
    }
    hide At;
    if r.Some? {
      AtAfter(a, t, b, r.value - from);
    }
    if g :| 0 <= g <= |b| && At(b, t, g) {
      AtAfter(a, t, b, g);
    }
  }

  lemma NotBefore(a: string, t: string, b: string)
    requires t != "" && forall j :: 0 <= j < |a| ==> !At(a + (t + b), t, j)
    ensures !Contains(a, t)
  {
    forall j: nat ensures !At(a, t, j) {
      if j + |t| <= |a| {
        var s := a + (t + b);
        assert s[j..j + |t|] == a[j..j + |t|];
        assert At(a, t, j) ==> At(s, t, j);
      }
    }
  }

  lemma Place(s: string, t: string) returns (i: nat)
    requires Contains(s, t)
    ensures At(s, t, i)
  {
    i :| 0 <= i <= |s| && At(s, t, i);
  }

  lemma {:induction false} ValueIn(ps: seq<Piece>, rs: seq<Replacement>, n: nat, i: nat, t: string)
    requires InRange(ps, rs) && i < n <= |rs| && Tok(i) in ps && Contains(rs[i].value, t)
    ensures Contains(Show(ps, rs, n), t)
    decreases |ps|
  {
    var front, last := ps[..|ps| - 1], ps[|ps| - 1];
    if last == Tok(i) {
      var j :| 0 <= j <= |rs[i].value| && At(rs[i].value, t, j);
      InBack(Show(front, rs, n), rs[i].value, t, j);
    } else {
      assert ps == front + [last];
      ValueIn(front, rs, n, i, t);
      InFront(Show(front, rs, n), One(last, rs, n), t);
    }
  }

  lemma ValueShown(ps: seq<Piece>, rs: seq<Replacement>, n: nat, i: nat, k: nat, t: string)
    requires Holds(ps, rs) && n < |rs| && i < n && k < |ps| && ps[k] == Tok(n) && InRange(ps[..k], rs) && InRange(ps[k + 1..], rs)
    requires Contains(rs[i].value, t)
    ensures Contains(Show(ps[..k], rs, n), t) || Contains(Show(ps[k + 1..], rs, n), t)
  {
    hide Show; hide OnlyAt; hide Contains;
    var j :| 0 <= j < |ps| && ps[j] == Tok(i);
    if j < k {
      assert ps[..k][j] == Tok(i);
      ValueIn(ps[..k], rs, n, i, t);
    } else {
      assert ps[k + 1..][j - (k + 1)] == Tok(i);
      ValueIn(ps[k + 1..], rs, n, i, t);
    }
  }

  // -------------------------------------------------------------------- all the steps

  lemma {:induction false} StepsFrom(ps: seq<Piece>, rs: seq<Replacement>, n: nat)
    requires Holds(ps, rs) && Fit(rs) && n <= |rs|
    ensures ReplaceAll(Show(ps, rs, n), rs[n..]) ==
      if exists m :: n <= m < |rs| && Intruded(rs, m) then None else Some(Show(ps, rs, |rs|))
    decreases |rs| - n
  {
    hide Holds; hide Fit; hide Show; hide ReplaceToken; hide Intruded;
    if n < |rs| {
      StepExact(ps, rs, n);
      assert rs[n..][1..] == rs[n + 1..];
      StepsFrom(ps, rs, n + 1);
    }
  }

  lemma PlaceholderFound(s: string, t: string)
    requires IsPlaceholder(t) && Contains(s, t)
    ensures HasPlaceholder(s)
  {
    var i :| 0 <= i <= |s| && At(s, t, i);
    assert s[i..i + |t|] == t;
  }

  /** A projection is accepted exactly when the simultaneous substitution of all values leaves
      nothing that looks like a placeholder, and it is that substitution. */
  lemma ProjectionExact(ps: seq<Piece>, rs: seq<Replacement>)
    requires Holds(ps, rs) && Fit(rs)
    ensures Project(Show(ps, rs, 0), rs) ==
      if HasPlaceholder(Show(ps, rs, |rs|)) then None else Some(DropNewline(Show(ps, rs, |rs|)))
  {
    hide Show; hide ReplaceAll; hide HasPlaceholder; hide IsPlaceholder;
    StepsFrom(ps, rs, 0);
    assert rs[0..] == rs;
    if m :| 0 <= m < |rs| && Intruded(rs, m) {
      var i :| 0 <= i < m && Contains(rs[i].value, rs[m].token);
      ValueIn(ps, rs, |rs|, i, rs[m].token);
      PlaceholderFound(Show(ps, rs, |rs|), rs[m].token);
    }
  }

  // -------------------------------------------------------- cutting a template

  /** The first replacement whose token stands here. */
  function TokenHere(t: string, rs: seq<Replacement>, i: nat, from: nat): (r: Option<nat>)
    ensures r.Some? ==> from <= r.value < |rs| && At(t, rs[r.value].token, i)
    ensures r.None? ==> forall k :: from <= k < |rs| ==> !At(t, rs[k].token, i)
    decreases |rs| - from
  {
    if from >= |rs| then None else if At(t, rs[from].token, i) then Some(from) else TokenHere(t, rs, i, from + 1)
  }

  predicate Solid(rs: seq<Replacement>) {
    forall k :: 0 <= k < |rs| ==> rs[k].token != ""
  }

  /** All values put in at once, wherever their tokens stand. */
  function Substitute(t: string, rs: seq<Replacement>, i: nat): string
    requires i <= |t| && Solid(rs)
    decreases |t| - i
  {
    if i == |t| then ""
    else
      match TokenHere(t, rs, i, 0)
      case Some(k) => rs[k].value + Substitute(t, rs, i + |rs[k].token|)
      case None => [t[i]] + Substitute(t, rs, i + 1)
  }

  function Cut(t: string, rs: seq<Replacement>, i: nat): seq<Piece>
    requires i <= |t| && Solid(rs)
    decreases |t| - i
  {
    if i == |t| then []
    else
      match TokenHere(t, rs, i, 0)
      case Some(k) => [Tok(k)] + Cut(t, rs, i + |rs[k].token|)
      case None => [Lit([t[i]])] + Cut(t, rs, i + 1)
  }

  lemma ShowCons(p: Piece, rest: seq<Piece>, rs: seq<Replacement>, n: nat)
    requires InRange(rest, rs) && (p.Tok? ==> p.i < |rs|)
    ensures InRange([p] + rest, rs) && Show([p] + rest, rs, n) == One(p, rs, n) + Show(rest, rs, n)
  {
    hide Show; hide One;
    OneShown(p, rs, n);
    ShowAppend([p], rest, rs, n);
  }

  lemma CutUnfolds(t: string, rs: seq<Replacement>, i: nat)
    requires i < |t| && Solid(rs)
    ensures var here := TokenHere(t, rs, i, 0);
      Cut(t, rs, i) == if here.Some? then [Tok(here.value)] + Cut(t, rs, i + |rs[here.value].token|) else [Lit([t[i]])] + Cut(t, rs, i + 1)
  {
    hide Substitute; hide TokenHere;
  }

  lemma SubstituteUnfolds(t: string, rs: seq<Replacement>, i: nat)
    requires i < |t| && Solid(rs)
    ensures var here := TokenHere(t, rs, i, 0);
      Substitute(t, rs, i) ==
        if here.Some? then rs[here.value].value + Substitute(t, rs, i + |rs[here.value].token|) else [t[i]] + Substitute(t, rs, i + 1)
  {
    hide Cut; hide TokenHere;
  }

  /** The piece cut off here. */
  lemma CutNext(t: string, rs: seq<Replacement>, i: nat) returns (p: Piece, next: nat)
    requires i < |t| && Solid(rs)
    ensures i < next <= |t| && (p.Tok? ==> p.i < |rs|) && Cut(t, rs, i) == [p] + Cut(t, rs, next)
    ensures t[i..] == One(p, rs, 0) + t[next..]
    ensures Substitute(t, rs, i) == One(p, rs, |rs|) + Substitute(t, rs, next)
  {
    hide Cut; hide Substitute; hide TokenHere; hide At;
    var here := TokenHere(t, rs, i, 0);
    CutUnfolds(t, rs, i);
    SubstituteUnfolds(t, rs, i);
    if here.Some? {
      p, next := Tok(here.value), i + |rs[here.value].token|;
      AtSplit(t, rs[here.value].token, i);
    } else {
      p, next := Lit([t[i]]), i + 1;
    }
  }

  /** The pieces show the template, and with all values the substitution. */
  lemma {:induction false} CutShows(t: string, rs: seq<Replacement>, i: nat)
    requires i <= |t| && Solid(rs)
    ensures InRange(Cut(t, rs, i), rs)
    ensures Show(Cut(t, rs, i), rs, 0) == t[i..] && Show(Cut(t, rs, i), rs, |rs|) == Substitute(t, rs, i)
    decreases |t| - i
  {
    if i == |t| {
      NothingShown(rs);
    } else {
      hide Show; hide Cut; hide Substitute; hide One;
      var p, next := CutNext(t, rs, i);
      CutShows(t, rs, next);
      ShowCons(p, Cut(t, rs, next), rs, 0);
      ShowCons(p, Cut(t, rs, next), rs, |rs|);
    }
  }

  lemma NothingShown(rs: seq<Replacement>)
    ensures forall n :: Show([], rs, n) == ""
  {
  }

  lemma AtSplit(t: string, x: string, i: nat)
    requires At(t, x, i)
    ensures i + |x| <= |t| && t[i..] == x + t[i + |x|..]
  {
    assert t[i..] == t[i..i + |x|] + t[i + |x|..];
  }

  /** A piece that is a token stands where its text is. */
  lemma {:induction false} PieceAt(t: string, rs: seq<Replacement>, i: nat, j: nat)
    requires i <= |t| && Solid(rs) && j < |Cut(t, rs, i)| && Cut(t, rs, i)[j].Tok?
    ensures var ps := Cut(t, rs, i);
      InRange(ps, rs) && InRange(ps[..j], rs) && At(t, rs[ps[j].i].token, i + |Show(ps[..j], rs, 0)|)
    decreases |t| - i
  {
    hide Show; hide At;
    CutShows(t, rs, i);
    var ps := Cut(t, rs, i);
    var here := TokenHere(t, rs, i, 0);
    NothingShown(rs);
    if j == 0 {
      assert ps[..0] == [];
    } else {
      var next := if here.Some? then i + |rs[here.value].token| else i + 1;
      if here.Some? {
        AtSplit(t, rs[here.value].token, i);
      }
      var tail := Cut(t, rs, next);
      assert ps == [ps[0]] + tail;
      PieceAt(t, rs, next, j - 1);
      assert ps[..j] == [ps[0]] + tail[..j - 1];
      ShowCons(ps[0], tail[..j - 1], rs, 0);
    }
  }

  /** Each token stands in the template exactly once. */
  ghost predicate Once(t: string, rs: seq<Replacement>) {
    && (forall k :: 0 <= k < |rs| ==> Contains(t, rs[k].token))
    && forall k, a: nat, b: nat :: 0 <= k < |rs| && At(t, rs[k].token, a) && At(t, rs[k].token, b) ==> a == b
  }

  predicate Overlap(x: string, y: string, a: nat, b: nat) {
    a < b + |y| && b < a + |x|
  }

  /** No two different tokens overlap. */
  ghost predicate Apart(t: string, rs: seq<Replacement>) {
    forall k, l, a: nat, b: nat :: 0 <= k < l < |rs| && At(t, rs[k].token, a) && At(t, rs[l].token, b) ==> !Overlap(rs[k].token, rs[l].token, a, b)
  }

  /** A token that stands where the scan is now is met there, or lies behind the token here. */
  lemma Behind(t: string, rs: seq<Replacement>, k: nat, l: nat, at: nat, i: nat)
    requires Once(t, rs) && Apart(t, rs) && k < |rs| && l < |rs| && At(t, rs[k].token, at) && At(t, rs[l].token, i) && i <= at && rs[k].token != ""
    ensures (l == k && i == at) || i + |rs[l].token| <= at
  {
    hide At; hide Contains; hide Overlap;
    if k != l {
      assert !Overlap(rs[k].token, rs[l].token, at, i) || !Overlap(rs[l].token, rs[k].token, i, at);
      NoOverlapMeans(rs[k].token, rs[l].token, at, i);
    }
  }

  lemma NoOverlapMeans(x: string, y: string, a: nat, b: nat)
    requires x != "" && b <= a
    ensures !Overlap(x, y, a, b) || !Overlap(y, x, b, a) ==> b + |y| <= a
  {
  }

  lemma {:induction false} Reached(t: string, rs: seq<Replacement>, i: nat, k: nat, at: nat)
    requires i <= at && Solid(rs) && k < |rs| && At(t, rs[k].token, at) && Once(t, rs) && Apart(t, rs) && i <= |t|
    ensures Tok(k) in Cut(t, rs, i)
    decreases |t| - i
  {
    hide At; hide Once; hide Apart;
    AtSplit(t, rs[k].token, at);
    var here := TokenHere(t, rs, i, 0);
    if here.Some? {
      AtSplit(t, rs[here.value].token, i);
      Behind(t, rs, k, here.value, at, i);
      if here.value != k || i != at {
        Reached(t, rs, i + |rs[here.value].token|, k, at);
      }
    } else {
      Reached(t, rs, i + 1, k, at);
    }
  }

  lemma PieceAlone(t: string, rs: seq<Replacement>, j: nat)
    requires Solid(rs) && Once(t, rs) && j < |Cut(t, rs, 0)| && Cut(t, rs, 0)[j].Tok?
    ensures var ps := Cut(t, rs, 0);
      InRange(ps, rs) && InRange(ps[..j], rs) && OnlyAt(t, rs[ps[j].i].token, |Show(ps[..j], rs, 0)|)
  {
    hide Show; hide At; hide Cut;
    PieceAt(t, rs, 0, j);
  }

  lemma Longer(ps: seq<Piece>, rs: seq<Replacement>, j: nat, k: nat)
    requires InRange(ps, rs) && Solid(rs) && j < k <= |ps| && ps[j].Tok?
    ensures |Show(ps[..j], rs, 0)| < |Show(ps[..k], rs, 0)|
  {
    hide Show;
    var mid := ps[j + 1..k];
    assert ps[..k] == ps[..j] + ([ps[j]] + mid);
    ShowCons(ps[j], mid, rs, 0);
    ShowAppend(ps[..j], [ps[j]] + mid, rs, 0);
  }

  /** Cutting a template that holds each token once, without overlap. */
  lemma CutHolds(t: string, rs: seq<Replacement>)
    requires Solid(rs) && Once(t, rs) && Apart(t, rs)
    ensures Holds(Cut(t, rs, 0), rs) && Show(Cut(t, rs, 0), rs, 0) == t
  {
    CutShows(t, rs, 0);
    var ps := Cut(t, rs, 0);
    assert t[0..] == t;
    hide Show; hide At; hide Cut; hide OnlyAt;
    forall i | 0 <= i < |rs| ensures Tok(i) in ps {
      var at := Place(t, rs[i].token);
      Reached(t, rs, 0, i, at);
    }
    forall k | 0 <= k < |ps| && ps[k].Tok? ensures OnlyAt(Show(ps, rs, 0), rs[ps[k].i].token, |Show(ps[..k], rs, 0)|) {
      PieceAlone(t, rs, k);
    }
    forall j, k | 0 <= j < k < |ps| && ps[j].Tok? ensures ps[j] != ps[k] {
      Longer(ps, rs, j, k);
    }
  }

  /** For every template that holds each token once, without overlap: replacing one token at a
      time is accepted exactly when putting in all values at once leaves nothing that looks like
      a placeholder, and gives that text. */
  lemma TemplateExact(t: string, rs: seq<Replacement>)
    requires Fit(rs) && Once(t, rs) && Apart(t, rs)
    ensures Solid(rs)
    ensures Project(t, rs) == if HasPlaceholder(Substitute(t, rs, 0)) then None else Some(DropNewline(Substitute(t, rs, 0)))
  {
    hide Once; hide Apart; hide Holds; hide Show; hide Cut; hide Substitute; hide Project; hide HasPlaceholder; hide IsPlaceholder; hide Quoted; hide DropNewline;
    forall k | 0 <= k < |rs| ensures rs[k].token != "" {
      FitToken(rs, k);
    }
    CutHolds(t, rs);
    CutShows(t, rs, 0);
    ProjectionExact(Cut(t, rs, 0), rs);
  }

  // ------------------------------------------------------------------ the real list

  lemma {:induction false} QuotedJoin(qs: seq<string>)
    requires qs != [] && forall i :: 0 <= i < |qs| ==> Quoted(qs[i])
    ensures Quoted(Join(qs, "|"))
  {
    if |qs| > 1 {
      QuotedJoin(qs[1..]);
      var tail := Join(qs[1..], "|");
      var s := qs[0] + "|" + tail;
      assert s[0] == qs[0][0] && s[|s| - 1] == tail[|tail| - 1];
    }
  }

  lemma QuoteQuoted(v: string)
    ensures Quote(v).Some? ==> Quoted(Quote(v).value)
  {
    hide Escaped;
  }

  lemma {:induction false} AllQuoted(vs: seq<string>)
    requires QuoteAll(vs).Some?
    ensures |QuoteAll(vs).value| == |vs| && forall i :: 0 <= i < |vs| ==> Quoted(QuoteAll(vs).value[i])
  {
    hide Quote; hide Quoted;
    if vs != [] {
      QuoteQuoted(vs[0]);
      AllQuoted(vs[1..]);
    }
  }

  lemma {:induction false} UniqueSome(vs: seq<string>)
    requires vs != []
    ensures Unique(vs) != []
  {
  }

  lemma Placeholders()
    ensures IsPlaceholder("@@ZIM_CACHE_HOME@@") && IsPlaceholder("@@ZIM_CONFIG_OUTPUT@@")
    ensures IsPlaceholder("@@ZIM_LEGACY_CONFIG_PATTERN@@") && IsPlaceholder("@@ZIM_CONTROLLER@@")
    ensures IsPlaceholder("@@ZIM_EMERGENCY_MODULE@@")
  {
  }

  /** The replacements of both channels are of that kind when there is a legacy path. */
  lemma ReplacementsFit(channel: Channel, p: Paths)
    requires p.legacy != [] && Replacements(channel, p).Some?
    ensures Fit(Replacements(channel, p).value)
  {
    hide IsPlaceholder; hide Quote; hide Quoted; hide QuoteAll; hide Unique; hide Join;
    Placeholders();
    QuoteQuoted(p.home);
    QuoteQuoted(p.config);
    QuoteQuoted(p.controller);
    QuoteQuoted(p.emergency);
    UniqueSome(p.legacy);
    AllQuoted(Unique(p.legacy));
    QuotedJoin(QuoteAll(Unique(p.legacy)).value);
  }

  /** The loader of a channel: for a template that holds each of its tokens once, without overlap,
      and at least one legacy path, the projection puts the quoted values in all at once, and is
      refused exactly when something that looks like a placeholder is left. */
  lemma LoaderExact(t: string, channel: Channel, p: Paths)
    requires p.legacy != [] && Replacements(channel, p).Some?
    requires var rs := Replacements(channel, p).value; Once(t, rs) && Apart(t, rs)
    ensures var rs := Replacements(channel, p).value;
      Solid(rs) && Project(t, rs) == if HasPlaceholder(Substitute(t, rs, 0)) then None else Some(DropNewline(Substitute(t, rs, 0)))
  {
    hide Once; hide Apart; hide Replacements; hide Fit; hide Project; hide Substitute; hide HasPlaceholder;
    ReplacementsFit(channel, p);
    TemplateExact(t, Replacements(channel, p).value);
  }
}
