/** What a path selector points to and what a context binds, said on the selectors, the environment
    and the components of paths. */
module ContextPaths {
  import opened Wrappers
  import opened Paths
  import opened Context

  // ------------------------------------------------------------------------ components

  /** The components of a path, step by step: an empty step and `.` stay, `..` leaves the last
      component and stays at the root, any other name is entered. */
  lemma {:induction false} WalkExact(at: seq<string>, steps: seq<string>, last: string)
    ensures Walk(at, []) == at
    ensures var before, after := Walk(at, steps), Walk(at, steps + [last]);
      after ==
        if last == "" || last == "." then before
        else if last == ".." then (if before == [] then [] else before[..|before| - 1])
        else before + [last]
    decreases |steps|
  {
    if steps == [] {
      assert [] + [last] == [last] && [last][1..] == [];
    } else {
      assert (steps + [last])[0] == steps[0] && (steps + [last])[1..] == steps[1..] + [last];
      if steps[0] == "" || steps[0] == "." {
        WalkExact(at, steps[1..], last);
      } else if steps[0] == ".." {
        WalkExact(if at == [] then [] else at[..|at| - 1], steps[1..], last);
      } else {
        WalkExact(at + [steps[0]], steps[1..], last);
      }
    }
  }

  // --------------------------------------------------------------------- runtime roots

  /** Where a runtime root falls back to beneath the home directory. */
  const FALLBACKS: map<string, string> := map[
    "XDG_CONFIG_HOME" := ".config", "XDG_STATE_HOME" := ".local/state", "XDG_CACHE_HOME" := ".cache", "XDG_DATA_HOME" := ".local/share"]

  predicate Set(env: Env, name: string) {
    name in env && env[name] != ""
  }

  /** The directory of a runtime root: the variable itself when it is set, else beneath a home
      that is set; the home directory as it is, even empty. */
  predicate RootIs(env: Env, name: string, root: string) {
    if name == "HOME" then name in env && root == env[name]
    else
      && name in FALLBACKS
      && (if Set(env, name) then root == env[name]
          else Set(env, "HOME") && root == InDirectory(env["HOME"], FALLBACKS[name]))
  }

  /** `join` of a directory and a path of plain names. */
  function InDirectory(home: string, rest: string): string {
    if IsAbsolute(home) then "/" + Text.Join(Parts(home) + Text.Split(rest, '/'), "/") else home + "/" + rest
  }

  predicate Plain(s: string) {
    forall c :: c in s ==> c != '$' && c != '~'
  }

  /** The rest of a path after its first name. */
  predicate Rest(s: string) {
    (s == "" || s[0] == '/') && Plain(s)
  }

  /** What a written path stands for: `~` and `${NAME}` at its start name a directory, and neither
      `$` nor `~` stands anywhere else. */
  ghost predicate StandsFor(env: Env, value: string, s: string) {
    || (exists rest :: Rest(rest) && value == "~" + rest && "HOME" in env && s == env["HOME"] + rest)
    || (exists name, root, rest :: Rest(rest) && value == "${" + name + "}" + rest && RootIs(env, name, root) && s == root + rest)
    || (Plain(value) && s == value)
  }

  lemma PlainIs(s: string)
    ensures Inert(s) <==> Plain(s)
  {
  }

  lemma {:induction false} WalkJoins(at: seq<string>, steps: seq<string>, more: seq<string>)
    ensures Walk(at, steps + more) == Walk(Walk(at, steps), more)
    decreases |steps|
  {
    if steps == [] {
      assert [] + more == more;
    } else {
      assert (steps + more)[0] == steps[0] && (steps + more)[1..] == steps[1..] + more;
      if steps[0] == "" || steps[0] == "." {
        WalkJoins(at, steps[1..], more);
      } else if steps[0] == ".." {
        WalkJoins(if at == [] then [] else at[..|at| - 1], steps[1..], more);
      } else {
        WalkJoins(at + [steps[0]], steps[1..], more);
      }
    }
  }

  /** Joining plain names to an absolute directory. */
  lemma JoinsBeneath(home: string, rest: string)
    requires IsAbsolute(home) && Clean(Text.Split(rest, '/'))
    ensures Normalize(home + "/" + rest) == InDirectory(home, rest)
  {
    hide Text.Split; hide Text.Join;
    var s := home + "/" + rest;
    var parts, more := Parts(home), Text.Split(rest, '/');
    assert s == home + ['/'] + rest;
    Text.SplitAppend(home, '/', rest);
    WalkJoins([], Text.Split(home, '/'), more);
    WalkPlain(parts, more);
    Text.JoinOfSplit(rest, '/');
    assert Parts(s) == parts + more;
    SplitSome(rest);
    assert Component(more[|more| - 1]);
    LastPart(rest);
  }

  lemma SplitSome(s: string)
    ensures |Text.Split(s, '/')| > 0
  {
  }

  /** A text that ends in a slash has an empty last part. */
  lemma LastPart(rest: string)
    requires Clean(Text.Split(rest, '/'))
    ensures rest != "" && !EndsInSlash(rest)
  {
    hide Text.Split;
    SplitSome(rest);
    Text.SplitWhole("", '/');
    var parts := Text.Split(rest, '/');
    assert Component(parts[|parts| - 1]);
    if EndsInSlash(rest) {
      var front := rest[..|rest| - 1];
      assert rest == front + ['/'] + "";
      Text.SplitAppend(front, '/', "");
    }
  }

  lemma PlainNames()
    ensures Text.Split(".config", '/') == [".config"] && Text.Split(".cache", '/') == [".cache"]
    ensures Text.Split(".local/state", '/') == [".local", "state"] && Text.Split(".local/share", '/') == [".local", "share"]
  {
    hide Text.Split;
    Text.SplitWhole(".config", '/');
    Text.SplitWhole(".cache", '/');
    Text.SplitWhole(".local", '/');
    Text.SplitWhole("state", '/');
    Text.SplitWhole("share", '/');
    Text.SplitAppend(".local", '/', "state");
    Text.SplitAppend(".local", '/', "share");
    assert ".local/state" == ".local" + ['/'] + "state" && ".local/share" == ".local" + ['/'] + "share";
  }

  lemma InHomeIs(env: Env, rest: string, root: string)
    requires Clean(Text.Split(rest, '/'))
    ensures InHome(Var(env, "HOME"), rest) == Some(root) <==> Set(env, "HOME") && root == InDirectory(env["HOME"], rest)
  {
    hide Normalize; hide Text.Split;
    if Set(env, "HOME") && IsAbsolute(env["HOME"]) {
      JoinsBeneath(env["HOME"], rest);
    }
  }

  lemma RootExact(env: Env, name: string, root: string)
    ensures KnownRoot(env, name) == Some(root) <==> RootIs(env, name, root)
  {
    hide InHome; hide InDirectory; hide Text.Split;
    PlainNames();
    InHomeIs(env, ".config", root);
    InHomeIs(env, ".cache", root);
    InHomeIs(env, ".local/state", root);
    InHomeIs(env, ".local/share", root);
  }

  /** The name between `${` and `}` is the one found. */
  lemma RootInIs(value: string, name: string, rest: string)
    requires value == "${" + name + "}" + rest && (rest == "" || rest[0] == '/')
    ensures name in ROOTS ==> RootIn(value, ROOTS) == Some(name)
  {
    var head := "${" + name + "}";
    assert value[..|head|] == head && value[2..2 + |name|] == name && value[2 + |name|] == '}';
    assert ROOTS[1..] == ["XDG_CONFIG_HOME", "XDG_STATE_HOME", "XDG_CACHE_HOME", "XDG_DATA_HOME"];
    if name in ROOTS {
      FoundRoot(value, name, rest, ROOTS);
    }
  }

  lemma {:induction false} FoundRoot(value: string, name: string, rest: string, roots: seq<string>)
    requires value == "${" + name + "}" + rest && (rest == "" || rest[0] == '/') && name in roots
    requires forall r :: r in roots ==> '}' !in r
    ensures RootIn(value, roots) == Some(name)
  {
    var head := "${" + roots[0] + "}";
    if roots[0] == name {
      assert value[..|head|] == head;
    } else {
      if Text.StartsWith(value, head) {
        SameName(value, name, rest, roots[0]);
      }
      FoundRoot(value, name, rest, roots[1..]);
    }
  }

  lemma SameName(value: string, name: string, rest: string, other: string)
    requires value == "${" + name + "}" + rest && Text.StartsWith(value, "${" + other + "}") && '}' !in other && '}' !in name
    ensures other == name
  {
    var tail := value[2..];
    var head := "${" + other + "}";
    assert tail == name + "}" + rest;
    assert tail[..|name|] == name;
    Text.FindIs(tail, '}', |name|);
    assert value == head + value[|head|..];
    assert tail == other + "}" + value[|head|..];
    assert tail[..|other|] == other;
    Text.FindIs(tail, '}', |other|);
  }

  lemma {:induction false} RootInFound(value: string, roots: seq<string>)
    requires RootIn(value, roots).Some?
    ensures var name := RootIn(value, roots).value;
      name in roots && |name| + 3 <= |value|
      && value == "${" + name + "}" + value[|name| + 3..] && (value[|name| + 3..] == "" || value[|name| + 3] == '/')
  {
    var head := "${" + roots[0] + "}";
    if Text.StartsWith(value, head) && (|value| == |head| || value[|head|] == '/') {
      assert value == value[..|head|] + value[|head|..];
    } else {
      RootInFound(value, roots[1..]);
    }
  }

  /** A written path is expanded exactly when it stands for a path, and to that path. */
  lemma ExpandedExact(env: Env, value: string, s: string)
    ensures Expanded(env, value) == Some(s) <==> StandsFor(env, value, s)
  {
    hide Inert; hide Plain; hide RootIn; hide KnownRoot; hide RootIs;
    if value == "~" || Text.StartsWith(value, "~/") {
      HomeExact(env, value, s);
    } else if Text.StartsWith(value, "${") {
      RootedExact(env, value, s);
    } else {
      PlainIs(value);
      OnlyPlain(env, value, s);
    }
  }

  lemma RootHead(value: string, name: string, rest: string)
    ensures value == "${" + name + "}" + rest ==> Text.StartsWith(value, "${") && value[0] == '$'
  {
    assert ("${" + name + "}" + rest)[..2] == "${";
  }

  lemma HomeHead(value: string, rest: string)
    ensures value == "~" + rest ==> value != "" && value[0] == '~' && rest == value[1..]
    ensures value == "~" + rest && (rest == "" || rest[0] == '/') ==> value == "~" || Text.StartsWith(value, "~/")
  {
    assert rest != "" && rest[0] == '/' ==> ("~" + rest)[..2] == "~/";
  }

  lemma HomeExact(env: Env, value: string, s: string)
    requires value == "~" || Text.StartsWith(value, "~/")
    ensures Expanded(env, value) == Some(s) <==> StandsFor(env, value, s)
  {
    assert value[0] == '~' && value == "~" + value[1..] && (value[1..] == "" || value[1..][0] == '/') by {
      assert Text.StartsWith(value, "~/") ==> value[..2][0] == '~' && value[..2][1] == '/';
    }
    assert value[0] in value;
    assert !Plain(value);
    hide Inert; hide Plain; hide KnownRoot; hide RootIs; hide RootIn;
    PlainIs(value[1..]);
    forall rest ensures value == "~" + rest ==> rest == value[1..] { HomeHead(value, rest); }
    forall name, rest ensures value != "${" + name + "}" + rest { RootHead(value, name, rest); }
  }

  lemma OnlyPlain(env: Env, value: string, s: string)
    requires value != "~" && !Text.StartsWith(value, "~/") && !Text.StartsWith(value, "${")
    ensures StandsFor(env, value, s) <==> Plain(value) && s == value
  {
    hide Plain; hide RootIs;
    forall rest | Rest(rest) ensures value != "~" + rest { HomeHead(value, rest); }
    forall name, rest ensures value != "${" + name + "}" + rest { RootHead(value, name, rest); }
  }

  lemma RootedExact(env: Env, value: string, s: string)
    requires Text.StartsWith(value, "${")
    ensures Expanded(env, value) == Some(s) <==> StandsFor(env, value, s)
  {
    assert value[..2][0] == '$' && value[0] == '$';
    assert value[0] in value;
    assert !Plain(value) && value != "~" && !Text.StartsWith(value, "~/");
    hide Inert; hide Plain; hide KnownRoot; hide RootIs; hide RootIn;
    if RootIn(value, ROOTS).Some? {
      RootInFound(value, ROOTS);
      var name := RootIn(value, ROOTS).value;
      PlainIs(value[|name| + 3..]);
      if Expanded(env, value) == Some(s) {
        RootExact(env, name, KnownRoot(env, name).value);
      }
    }
    if StandsFor(env, value, s) {
      RootedForm(env, value, s);
    }
  }

  lemma RootNamed(env: Env, name: string, root: string)
    requires RootIs(env, name, root)
    ensures name in ROOTS
  {
    hide InDirectory;
    assert ROOTS[0] == "HOME" && ROOTS[1] == "XDG_CONFIG_HOME" && ROOTS[2] == "XDG_STATE_HOME" && ROOTS[3] == "XDG_CACHE_HOME"
      && ROOTS[4] == "XDG_DATA_HOME";
  }

  lemma RootedForm(env: Env, value: string, s: string)
    requires StandsFor(env, value, s) && value != "" && value[0] == '$' && !Plain(value)
    ensures Expanded(env, value) == Some(s)
  {
    hide Inert; hide Plain; hide KnownRoot; hide RootIs; hide RootIn;
    var name, root, rest :| Rest(rest) && value == "${" + name + "}" + rest && RootIs(env, name, root) && s == root + rest;
    RootNamed(env, name, root);
    RootInIs(value, name, rest);
    RootExact(env, name, root);
    RootHead(value, name, rest);
    assert value[|name| + 3..] == rest;
    PlainIs(rest);
  }

  // --------------------------------------------------------------------------- paths

  /** An absolute path written out; a trailing slash stays but at the root. */
  ghost predicate Written(path: string, parts: seq<string>, slash: bool) {
    path == (if parts == [] then "/" else "/" + Text.Join(parts, "/") + if slash then "/" else "")
  }

  lemma NormalizeWrites(s: string)
    ensures Written(Normalize(s), Parts(s), s != "" && s[|s| - 1] == '/')
  {
    hide Parts; hide Text.Join;
    if Parts(s) == [] {
      EmptyJoin();
    }
  }

  /** `resolve`: an absolute path as it is, any other walked from the base. */
  lemma ResolveWrites(base: string, s: string)
    ensures Written(Resolve(base, s), if s != "" && s[0] == '/' then Parts(s) else Walk(Parts(base), Text.Split(s, '/')), false)
  {
    hide Parts; hide Text.Join; hide Walk; hide Text.Split;
    EmptyJoin();
  }

  // ----------------------------------------------------------------------- selectors

  predicate OneField(s: Selector) {
    || (s.path.Some? && s.relative.None? && s.env.None?)
    || (s.path.None? && s.relative.Some? && s.env.None?)
    || (s.path.None? && s.relative.None? && s.env.Some?)
  }

  predicate NotBlank(v: Option<string>) {
    v.Some? ==> exists c :: c in v.value && !Text.IsSpace(c)
  }

  /** One field, not blank, at every level, of at most `left` more. */
  predicate Shaped(s: Selector, left: int)
    decreases s
  {
    && left >= 0 && OneField(s) && NotBlank(s.path) && NotBlank(s.relative) && NotBlank(s.env)
    && (s.fallback.Fallback? ==> Shaped(s.fallback.selector, left - 1))
  }

  /** What a written path leads to: what it stands for, normalized, from the base if there is one. */
  ghost predicate LeadsTo(env: Env, value: string, base: Option<string>, r: string) {
    exists s :: StandsFor(env, value, s) && if IsAbsolute(s) then r == Normalize(s) else base.Some? && r == Normalize(Resolve(base.value, s))
  }

  /** A path without base, a relative one at or beneath the base, or the variable's value unless it
      is unset, empty or ignored, when the fallback decides. */
  ghost predicate Points(env: Env, s: Selector, base: Option<string>, r: string)
    decreases s
  {
    if s.path.Some? then LeadsTo(env, s.path.value, None, r)
    else if s.relative.Some? then
      base.Some? && base.value != "" && r == Resolve(base.value, s.relative.value)
      && |Parts(base.value)| <= |Parts(r)| && Parts(r)[..|Parts(base.value)|] == Parts(base.value)
    else if s.env.Some? && Set(env, s.env.value) && env[s.env.value] !in s.ignore then LeadsTo(env, env[s.env.value], base, r)
    else s.fallback.Fallback? && Points(env, s.fallback.selector, base, r)
  }

  lemma FilledIs(v: Option<string>)
    ensures Filled(v) <==> NotBlank(v)
  {
    if v.Some? {
      Text.TrimBlank(v.value);
    }
    hide Text.Trim;
  }

  lemma {:induction false} ShapeExact(s: Selector, depth: nat)
    ensures ValidSelector(s, depth) <==> Shaped(s, 32 - depth)
    decreases s
  {
    hide Filled; hide NotBlank;
    FilledIs(s.path);
    FilledIs(s.relative);
    FilledIs(s.env);
    if s.fallback.Fallback? {
      ShapeExact(s.fallback.selector, depth + 1);
    }
  }

  lemma {:induction false} ShapedMore(s: Selector, left: int)
    requires Shaped(s, left)
    ensures Shaped(s, left + 1)
    decreases s
  {
    hide OneField; hide NotBlank;
    if s.fallback.Fallback? {
      ShapedMore(s.fallback.selector, left - 1);
    }
  }

  lemma LeadsExact(env: Env, value: string, base: Option<string>, r: string)
    ensures ExpandPath(env, value, base) == Some(r) <==> LeadsTo(env, value, base, r)
  {
    hide Expanded; hide StandsFor; hide Normalize; hide Resolve;
    forall s ensures Expanded(env, value) == Some(s) <==> StandsFor(env, value, s) { ExpandedExact(env, value, s); }
  }

  lemma RelativeIs(base: string, rel: string, r: string)
    ensures Contained(base, rel) == Some(r) <==>
      r == Resolve(base, rel) && |Parts(base)| <= |Parts(r)| && Parts(r)[..|Parts(base)|] == Parts(base)
  {
    hide Parts; hide Resolve; hide Escapes; hide Relative; hide Normalize;
    RelativeExact(base, Resolve(base, rel));
    ResolveNormal(base, rel);
  }

  /** A selector resolves exactly when it is well shaped and points somewhere, and to there. */
  lemma {:induction false} SelectorExact(env: Env, s: Selector, base: Option<string>, r: string)
    ensures ResolveSelector(env, s, base) == Some(r) <==> Shaped(s, 32) && Points(env, s, base, r)
    decreases s
  {
    hide ValidSelector; hide Shaped; hide LeadsTo; hide ExpandPath; hide Contained; hide Resolve; hide Parts;
    ShapeExact(s, 0);
    ShapedHas(s);
    if s.path.Some? {
      LeadsExact(env, s.path.value, None, r);
    } else if s.relative.Some? {
      if base.Some? {
        RelativeIs(base.value, s.relative.value, r);
      }
    } else {
      if s.env.Some? && Set(env, s.env.value) {
        LeadsExact(env, env[s.env.value], base, r);
      }
      if s.fallback.Fallback? {
        SelectorExact(env, s.fallback.selector, base, r);
      }
    }
  }

  lemma ShapedHas(s: Selector)
    ensures Shaped(s, 32) ==> OneField(s) && (s.fallback.Fallback? ==> Shaped(s.fallback.selector, 32))
  {
    hide NotBlank;
    if Shaped(s, 32) && s.fallback.Fallback? {
      ShapedMore(s.fallback.selector, 31);
    }
  }

  // ------------------------------------------------------------------------- binding

  ghost predicate SelectsTo(env: Env, s: Selector, base: Option<string>, r: string) {
    Shaped(s, 32) && Points(env, s, base, r)
  }

  /** One bound input: the file itself, or the directory with its pattern, and the fuzing roots
      from the context's base unless the context is canonical. */
  ghost predicate InputBound(env: Env, i: Input, s: Selector, base: string, canonical: bool, b: BoundInput) {
    match i
    case FileInput => b.BoundFile? && SelectsTo(env, s, Some(base), b.file)
    case GlobInput(pattern, fuzings) =>
      b.BoundGlob? && SelectsTo(env, s, Some(base), b.directory) && b.glob == Normalize(b.directory + "/" + pattern)
      && (if canonical || fuzings == None then b.roots == None else b.roots == Some(Resolve(base, fuzings.value)))
  }

  ghost predicate InputsBound(env: Env, inputs: seq<Input>, ss: seq<Selector>, base: string, canonical: bool, bs: seq<BoundInput>) {
    |inputs| == |ss| == |bs| && forall k :: 0 <= k < |bs| ==> InputBound(env, inputs[k], ss[k], base, canonical, bs[k])
  }

  ghost predicate RecipeBound(env: Env, recipes: map<string, Recipe>, c: Config, name: string, base: string, b: Bound) {
    && name in recipes && name in c.bindings && b.name == name && SelectsTo(env, c.bindings[name].output, Some(base), b.output)
    && InputsBound(env, recipes[name].inputs, c.bindings[name].inputs, base, c.canonical, b.inputs)
  }

  /** The context's base: its root, or a path from it. */
  ghost predicate BaseIs(env: Env, c: Config, base: string) {
    exists root :: SelectsTo(env, c.root, None, root) && base == if c.subpath == None || c.subpath == Some("") then root else Resolve(root, c.subpath.value)
  }

  /** Every name bound in order, to outputs that all differ. */
  ghost predicate AllBound(env: Env, recipes: map<string, Recipe>, c: Config, names: seq<string>, base: string, bound: seq<Bound>) {
    && |bound| == |names| && (forall i :: 0 <= i < |names| ==> RecipeBound(env, recipes, c, names[i], base, bound[i]))
    && forall i, j :: 0 <= i < j < |bound| ==> bound[i].output != bound[j].output
  }

  lemma OneInput(env: Env, i: Input, s: Selector, base: string, canonical: bool, b: BoundInput)
    ensures InputBound(env, i, s, base, canonical, b) <==>
      var path := ResolveSelector(env, s, Some(base)); path.Some? && b == BindInput(i, path.value, base, canonical)
  {
    hide ResolveSelector; hide Shaped; hide Points; hide Normalize; hide Resolve;
    SelectorExact(env, s, Some(base), PathOf(b));
  }

  lemma {:induction false} InputsExact(env: Env, inputs: seq<Input>, ss: seq<Selector>, base: string, canonical: bool, bs: seq<BoundInput>)
    requires |inputs| == |ss|
    ensures BindInputs(env, inputs, ss, base, canonical) == Some(bs) <==> InputsBound(env, inputs, ss, base, canonical, bs)
    decreases |inputs|
  {
    hide ResolveSelector; hide InputBound; hide BindInput;
    if inputs != [] && bs != [] {
      OneInput(env, inputs[0], ss[0], base, canonical, bs[0]);
      InputsExact(env, inputs[1..], ss[1..], base, canonical, bs[1..]);
      InputsCons(env, inputs, ss, base, canonical, bs);
      assert bs == [bs[0]] + bs[1..];
    }
  }

  lemma InputsCons(env: Env, inputs: seq<Input>, ss: seq<Selector>, base: string, canonical: bool, bs: seq<BoundInput>)
    requires inputs != [] && ss != [] && bs != []
    ensures InputsBound(env, inputs, ss, base, canonical, bs) <==>
      InputBound(env, inputs[0], ss[0], base, canonical, bs[0]) && InputsBound(env, inputs[1..], ss[1..], base, canonical, bs[1..])
  {
    hide InputBound;
    var i, s, b := inputs[1..], ss[1..], bs[1..];
    assert forall k :: 0 < k < |inputs| ==> inputs[k] == i[k - 1];
    assert forall k :: 0 < k < |ss| ==> ss[k] == s[k - 1];
    assert forall k :: 0 < k < |bs| ==> bs[k] == b[k - 1];
    if InputsBound(env, inputs, ss, base, canonical, bs) {
      forall k | 0 <= k < |b| ensures InputBound(env, i[k], s[k], base, canonical, b[k]) {
        assert InputBound(env, inputs[k + 1], ss[k + 1], base, canonical, bs[k + 1]);
      }
    }
  }

  lemma RecipeExact(env: Env, recipes: map<string, Recipe>, c: Config, name: string, base: string, b: Bound)
    ensures BindOne(env, recipes, c, name, base) == Some(b) <==> RecipeBound(env, recipes, c, name, base, b)
  {
    hide ResolveSelector; hide Shaped; hide Points; hide BindInputs; hide InputsBound;
    if name in recipes && name in c.bindings {
      SelectorExact(env, c.bindings[name].output, Some(base), b.output);
      if |recipes[name].inputs| == |c.bindings[name].inputs| {
        InputsExact(env, recipes[name].inputs, c.bindings[name].inputs, base, c.canonical, b.inputs);
      } else {
        DifferentCounts(env, recipes[name].inputs, c.bindings[name].inputs, base, c.canonical, b.inputs);
      }
    }
  }

  lemma DifferentCounts(env: Env, inputs: seq<Input>, ss: seq<Selector>, base: string, canonical: bool, bs: seq<BoundInput>)
    requires |inputs| != |ss|
    ensures !InputsBound(env, inputs, ss, base, canonical, bs)
  {
  }

  predicate Avoids(bound: seq<Bound>, taken: set<string>) {
    forall i :: 0 <= i < |bound| ==> bound[i].output !in taken
  }

  lemma {:induction false} NamesExact(env: Env, recipes: map<string, Recipe>, c: Config, names: seq<string>, base: string, taken: set<string>, bound: seq<Bound>)
    ensures BindNames(env, recipes, c, names, base, taken) == Some(bound) <==>
      AllBound(env, recipes, c, names, base, bound) && Avoids(bound, taken)
    decreases |names|
  {
    hide BindOne; hide RecipeBound;
    if names != [] && bound != [] {
      var b := bound[0];
      RecipeExact(env, recipes, c, names[0], base, b);
      NamesExact(env, recipes, c, names[1..], base, taken + {b.output}, bound[1..]);
      BoundCons(env, recipes, c, names, base, taken, bound);
      assert bound == [b] + bound[1..];
    }
  }

  lemma BoundCons(env: Env, recipes: map<string, Recipe>, c: Config, names: seq<string>, base: string, taken: set<string>, bound: seq<Bound>)
    requires names != [] && bound != []
    ensures AllBound(env, recipes, c, names, base, bound) && Avoids(bound, taken) <==>
      RecipeBound(env, recipes, c, names[0], base, bound[0]) && bound[0].output !in taken
      && AllBound(env, recipes, c, names[1..], base, bound[1..]) && Avoids(bound[1..], taken + {bound[0].output})
  {
    hide RecipeBound;
    var n, b := names[1..], bound[1..];
    assert forall k :: 0 < k < |names| ==> names[k] == n[k - 1];
    assert forall k :: 0 < k < |bound| ==> bound[k] == b[k - 1];
    if AllBound(env, recipes, c, names, base, bound) {
      forall i | 0 <= i < |n| ensures RecipeBound(env, recipes, c, n[i], base, b[i]) {
        assert RecipeBound(env, recipes, c, names[i + 1], base, bound[i + 1]);
      }
    }
  }

  /** A selection is bound exactly when the context knows its names, its base can be found, every
      recipe binds and the outputs all differ; the result is those recipes. */
  lemma BindsExactly(env: Env, recipes: map<string, Recipe>, c: Config, names: seq<string>, bound: seq<Bound>)
    ensures Bind(env, recipes, c, names) == Some(bound) <==>
      (forall i :: 0 <= i < |names| ==> names[i] in c.bindings)
      && exists base :: BaseIs(env, c, base) && AllBound(env, recipes, c, names, base, bound)
  {
    hide BindNames; hide AllBound; hide ResolveSelector; hide Shaped; hide Points; hide Resolve;
    forall root ensures ResolveSelector(env, c.root, None) == Some(root) <==> SelectsTo(env, c.root, None, root) {
      SelectorExact(env, c.root, None, root);
    }
    forall base ensures BaseOf(env, c) == Some(base) <==> BaseIs(env, c, base) {
    }
    if BaseOf(env, c).Some? {
      NamesExact(env, recipes, c, names, BaseOf(env, c).value, {}, bound);
    }
  }
}
