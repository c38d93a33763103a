/** Which path a loader template gets for each of its tokens, what counts as a placeholder that is
    left over, and what replacing one token does, said on the texts themselves. */
module LoaderTokens {
  import opened Wrappers
  import opened Text
  import opened Loader

  /** A word that the shell reads as a value. */
  predicate Means(word: string, value: string) {
    Read(word, false) == Some(value)
  }

  /** The values in the order in which they first occur, each once. */
  ghost predicate FirstOnes(all: seq<string>, once: seq<string>) {
    && (forall v :: v in all <==> v in once)
    && (forall i, j :: 0 <= i < j < |once| ==> once[i] != once[j])
    && forall i, j :: 0 <= i < j < |once| ==> FirstBefore(all, once[i], once[j])
  }

  /** One value has an occurrence before every one of another. */
  predicate FirstBefore(all: seq<string>, x: string, y: string) {
    exists a :: 0 <= a < |all| && all[a] == x && y !in all[..a]
  }

  /** Alternatives of a shell pattern, each reading as one value. */
  ghost predicate Alternatives(pattern: string, values: seq<string>) {
    exists words :: |words| == |values| && pattern == Join(words, "|") && forall k :: 0 <= k < |words| ==> Means(words[k], values[k])
  }

  ghost predicate LegacyPattern(pattern: string, legacy: seq<string>) {
    exists once :: FirstOnes(legacy, once) && Alternatives(pattern, once)
  }

  predicate NoNul(v: string) {
    '\0' !in v
  }

  lemma {:induction false} UniqueIs(vs: seq<string>)
    ensures FirstOnes(vs, Unique(vs))
    decreases |vs|
  {
    if vs != [] {
      var front, last := vs[..|vs| - 1], vs[|vs| - 1];
      UniqueIs(front);
      var u, all := Unique(front), Unique(vs);
      forall i, j | 0 <= i < j < |all| ensures FirstBefore(vs, all[i], all[j]) {
        if j < |u| {
          assert FirstBefore(front, u[i], u[j]);
          var a :| 0 <= a < |front| && front[a] == u[i] && u[j] !in front[..a];
          assert vs[a] == u[i] && vs[..a] == front[..a];
        } else {
          assert u[i] in front && all[j] == last && last !in front;
          var a :| 0 <= a < |front| && front[a] == u[i];
          assert vs[..a] == front[..a];
          assert vs[a] == all[i] && all[j] !in vs[..a];
        }
      }
    }
  }

  lemma {:induction false} QuoteAllIs(vs: seq<string>)
    ensures QuoteAll(vs).Some? <==> forall v :: v in vs ==> NoNul(v)
    ensures QuoteAll(vs).Some? ==> |QuoteAll(vs).value| == |vs| && forall k :: 0 <= k < |vs| ==> Means(QuoteAll(vs).value[k], vs[k])
    decreases |vs|
  {
    hide Quote; hide Read;
    if vs != [] {
      QuoteReads(vs[0]);
      QuoteAllIs(vs[1..]);
      assert vs == [vs[0]] + vs[1..];
      assert (forall v :: v in vs ==> NoNul(v)) <==> NoNul(vs[0]) && forall v :: v in vs[1..] ==> NoNul(v);
    }
  }

  lemma LegacyIs(legacy: seq<string>)
    ensures QuoteAll(Unique(legacy)).Some? <==> forall v :: v in legacy ==> NoNul(v)
    ensures QuoteAll(Unique(legacy)).Some? ==> LegacyPattern(Join(QuoteAll(Unique(legacy)).value, "|"), legacy)
  {
    hide QuoteAll; hide Unique; hide Means; hide Join; hide NoNul;
    UniqueIs(legacy);
    QuoteAllIs(Unique(legacy));
    if QuoteAll(Unique(legacy)).Some? {
      assert Alternatives(Join(QuoteAll(Unique(legacy)).value, "|"), Unique(legacy));
    }
  }

  /** Every token has its path: the cache home, the output, the legacy paths, the controller and,
      for `zimrc` alone, the emergency module. The list fails exactly for a path with NUL. */
  lemma ReplacementsExact(channel: Channel, p: Paths)
    ensures Replacements(channel, p).Some? <==>
      NoNul(p.home) && NoNul(p.config) && NoNul(p.controller) && (forall v :: v in p.legacy ==> NoNul(v)) && (channel == Zimrc ==> NoNul(p.emergency))
    ensures Replacements(channel, p).Some? ==>
      var rs := Replacements(channel, p).value;
      |rs| == (if channel == Zimrc then 5 else 4)
      && rs[0].token == "@@ZIM_CACHE_HOME@@" && Means(rs[0].value, p.home)
      && rs[1].token == "@@ZIM_CONFIG_OUTPUT@@" && Means(rs[1].value, p.config)
      && rs[2].token == "@@ZIM_LEGACY_CONFIG_PATTERN@@" && LegacyPattern(rs[2].value, p.legacy)
      && rs[3].token == "@@ZIM_CONTROLLER@@" && Means(rs[3].value, p.controller)
      && (channel == Zimrc ==> rs[4].token == "@@ZIM_EMERGENCY_MODULE@@" && Means(rs[4].value, p.emergency))
  {
    hide Quote; hide QuoteAll; hide Unique; hide Read; hide LegacyPattern; hide Join;
    QuoteReads(p.home);
    QuoteReads(p.config);
    QuoteReads(p.controller);
    QuoteReads(p.emergency);
    LegacyIs(p.legacy);
  }

  // -------------------------------------------------------------------- placeholders

  /** Capital letters and underscores, at least one. */
  predicate Capitals(name: string) {
    name != "" && forall c :: c in name ==> c in "ABCDEFGHIJKLMNOPQRSTUVWXYZ_"
  }

  ghost predicate LeavesPlaceholder(s: string) {
    exists a, name, b :: Capitals(name) && s == a + ("@@ZIM_" + name + "@@") + b
  }

  lemma UpperIs(c: char)
    ensures Upper(c) <==> c in "ABCDEFGHIJKLMNOPQRSTUVWXYZ_"
  {
  }

  lemma PlaceholderOf(name: string)
    requires Capitals(name)
    ensures IsPlaceholder("@@ZIM_" + name + "@@")
  {
    hide Upper;
    var s := "@@ZIM_" + name + "@@";
    assert s[..6] == "@@ZIM_" && s[|s| - 2..] == "@@";
    forall i | 6 <= i < |s| - 2 ensures Upper(s[i]) {
      assert s[i] == name[i - 6] && name[i - 6] in name;
      UpperIs(s[i]);
    }
  }

  lemma PlaceholderName(s: string) returns (name: string)
    requires IsPlaceholder(s)
    ensures Capitals(name) && s == "@@ZIM_" + name + "@@"
  {
    hide Upper;
    name := s[6..|s| - 2];
    assert s == s[..6] + name + s[|s| - 2..];
    forall c | c in name ensures c in "ABCDEFGHIJKLMNOPQRSTUVWXYZ_" {
      var i :| 0 <= i < |name| && name[i] == c;
      assert Upper(s[i + 6]);
      UpperIs(c);
    }
  }

  /** A text is refused exactly when some `@@ZIM_NAME@@` of capitals is left in it. */
  lemma PlaceholderExact(s: string)
    ensures HasPlaceholder(s) <==> LeavesPlaceholder(s)
  {
    hide HasPlaceholder; hide Capitals; hide IsPlaceholder;
    if HasPlaceholder(s) {
      PlaceholderLeft(s);
    } else if LeavesPlaceholder(s) {
      var a, name, b :| Capitals(name) && s == a + ("@@ZIM_" + name + "@@") + b;
      PlaceholderStands(a, name, b);
    }
  }

  lemma PlaceholderLeft(s: string)
    requires HasPlaceholder(s)
    ensures LeavesPlaceholder(s)
  {
    hide IsPlaceholder; hide Capitals;
    var i, j :| 0 <= i <= j <= |s| && IsPlaceholder(s[i..j]);
    var name := PlaceholderName(s[i..j]);
    assert s == s[..i] + ("@@ZIM_" + name + "@@") + s[j..];
  }

  lemma PlaceholderStands(a: string, name: string, b: string)
    requires Capitals(name)
    ensures HasPlaceholder(a + ("@@ZIM_" + name + "@@") + b)
  {
    hide IsPlaceholder; hide Capitals;
    PlaceholderOf(name);
    var s := a + ("@@ZIM_" + name + "@@") + b;
    assert s[|a|..|s| - |b|] == "@@ZIM_" + name + "@@";
  }

  /** One line end is dropped, of either kind. */
  lemma DropExact(s: string)
    ensures DropNewline(s + "\r\n") == s
    ensures !(s != "" && s[|s| - 1] == '\r') ==> DropNewline(s + "\n") == s
    ensures !(s != "" && s[|s| - 1] == '\n') ==> DropNewline(s) == s
  {
    assert (s + "\r\n")[..|s|] == s && (s + "\n")[..|s|] == s;
  }

  // ------------------------------------------------------------------ one replacement

  ghost predicate ReplacedIn(t: string, token: string, v: string, r: string) {
    exists a, b :: t == a + token + b && r == a + v + b && !Contains(b, token) && FirstHere(t, token, |a|)
  }

  predicate FirstHere(t: string, token: string, n: nat) {
    forall j :: 0 <= j < n ==> !At(t, token, j)
  }

  /** The token's first occurrence is replaced, and a second one behind it refuses the template. */
  lemma ReplaceExact(t: string, token: string, v: string, r: string)
    requires token != ""
    ensures ReplaceToken(t, token, v) == Some(r) <==> ReplacedIn(t, token, v, r)
  {
    hide At; hide IndexOf;
    var first := IndexOf(t, token, 0);
    if first.Some? {
      Cut(t, token, first.value);
      var a, b := t[..first.value], t[first.value + |token|..];
      Behind(t, token, first.value + |token|);
      assert t == a + token + b && FirstHere(t, token, |a|);
      if ReplacedIn(t, token, v, r) {
        var x, y :| t == x + token + y && r == x + v + y && !Contains(y, token) && FirstHere(t, token, |x|);
        Standing(x, token, y);
        assert |x| == first.value && x == a && y == b;
      }
    } else if ReplacedIn(t, token, v, r) {
      var x, y :| t == x + token + y && r == x + v + y && !Contains(y, token) && FirstHere(t, token, |x|);
      Standing(x, token, y);
    }
  }

  lemma Standing(x: string, token: string, y: string)
    ensures At(x + token + y, token, |x|)
    ensures (x + token + y)[..|x|] == x && (x + token + y)[|x| + |token|..] == y
  {
  }

  lemma Cut(t: string, token: string, i: nat)
    requires At(t, token, i)
    ensures i + |token| <= |t| && t == t[..i] + token + t[i + |token|..]
  {
  }

  lemma Behind(t: string, token: string, from: nat)
    requires from <= |t| && token != ""
    ensures IndexOf(t, token, from).Some? <==> Contains(t[from..], token)
  {
    if Contains(t[from..], token) {
      var i :| 0 <= i <= |t[from..]| && At(t[from..], token, i);
      assert t[from..][i..i + |token|] == t[from + i..from + i + |token|];
      assert At(t, token, from + i);
    }
    if IndexOf(t, token, from).Some? {
      var i := IndexOf(t, token, from).value;
      assert t[from..][i - from..i - from + |token|] == t[i..i + |token|];
      assert At(t[from..], token, i - from);
    }
  }
}
