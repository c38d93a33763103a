/** A frozen selection does not depend on the environment: exactly when it can be bound again, and
    exactly when the result is the one admitted. */
module ContextFreeze {
  import opened Wrappers
  import opened Paths
  import opened Context

  // ------------------------------------------------------------------ resolved paths

  /** A relative selector is accepted exactly when it stays at or beneath its base, and then it
      is that path. */
  lemma RelativeStays(base: string, rel: string)
    ensures Contained(base, rel).Some? <==> Beneath(Parts(base), Parts(Resolve(base, rel)))
    ensures Contained(base, rel).Some? ==> Contained(base, rel).value == Resolve(base, rel)
  {
    hide Parts; hide Resolve; hide Escapes; hide Relative; hide Normalize;
    RelativeExact(base, Resolve(base, rel));
    ResolveNormal(base, rel);
  }

  /** Paths that are absolute and normalized. */
  predicate Settled(p: string) { IsAbsolute(p) && Normalize(p) == p }

  lemma ExpandSettles(env: Env, value: string, base: Option<string>)
    ensures ExpandPath(env, value, base).Some? ==> Settled(ExpandPath(env, value, base).value)
  {
    hide Normalize; hide Resolve; hide Expanded;
    var s := Expanded(env, value);
    if s.Some? {
      if IsAbsolute(s.value) {
        NormalizeTwice(s.value);
      } else if base.Some? {
        ResolveNormal(base.value, s.value);
      }
    }
  }

  lemma {:induction false} SelectorSettles(env: Env, s: Selector, base: Option<string>)
    ensures ResolveSelector(env, s, base).Some? ==> Settled(ResolveSelector(env, s, base).value)
    decreases s
  {
    hide ExpandPath; hide Settled; hide ValidSelector; hide Contained;
    if s.path.Some? {
      ExpandSettles(env, s.path.value, None);
    }
    if s.relative.Some? && base.Some? {
      ContainedSettles(base.value, s.relative.value);
    }
    if s.env.Some? && s.env.value in env {
      ExpandSettles(env, env[s.env.value], base);
    }
    if s.fallback.Fallback? {
      SelectorSettles(env, s.fallback.selector, base);
    }
  }

  lemma ContainedSettles(base: string, rel: string)
    ensures Contained(base, rel).Some? ==> Settled(Contained(base, rel).value)
  {
    hide Parts; hide Resolve; hide Escapes; hide Relative; hide Normalize;
    ResolveNormal(base, rel);
  }

  /** A settled path given as a `path` selector resolves to itself in every environment, unless
      it holds a character of the runtime-root syntax. */
  lemma FixedResolves(env: Env, p: string, base: Option<string>)
    requires Settled(p)
    ensures ResolveSelector(env, PathOnly(p), base) == if Inert(p) then Some(p) else None
  {
    hide Normalize; hide Text.Trim;
    assert !Text.Blank(p) by {
      assert !Text.IsSpace(p[0]);
    }
    Text.TrimBlank(p);
    assert ValidSelector(PathOnly(p), 0);
    FixedExpands(env, p);
  }

  lemma FixedExpands(env: Env, p: string)
    requires IsAbsolute(p)
    ensures Expanded(env, p) == if Inert(p) then Some(p) else None
  {
    assert !Text.StartsWith(p, "~/") && !Text.StartsWith(p, "${") by {
      assert |p| >= 2 ==> p[..2][0] == '/';
    }
    hide Inert; hide RootIn; hide KnownRoot;
  }

  lemma FrozenBase(env: Env, c: Config, bound: seq<Bound>)
    ensures BaseOf(env, Frozen(c, bound)) == Some("/")
  {
    FixedResolves(env, "/", None);
    hide ResolveSelector;
  }

  // -------------------------------------------------------------------- bound inputs

  function InputsAgain(inputs: seq<Input>, bound: seq<BoundInput>, canonical: bool): (r: seq<BoundInput>)
    requires |inputs| == |bound|
    ensures |r| == |inputs| && forall i :: 0 <= i < |r| ==> r[i] == BindInput(inputs[i], PathOf(bound[i]), "/", canonical)
  {
    if inputs == [] then [] else [BindInput(inputs[0], PathOf(bound[0]), "/", canonical)] + InputsAgain(inputs[1..], bound[1..], canonical)
  }

  predicate InertInputs(bound: seq<BoundInput>) {
    forall i :: 0 <= i < |bound| ==> Inert(PathOf(bound[i]))
  }

  predicate SettledInputs(bound: seq<BoundInput>) {
    forall i :: 0 <= i < |bound| ==> Settled(PathOf(bound[i]))
  }

  lemma {:induction false} BoundInputs(env: Env, inputs: seq<Input>, selectors: seq<Selector>, base: string, canonical: bool)
    requires |inputs| == |selectors| && BindInputs(env, inputs, selectors, base, canonical).Some?
    ensures var r := BindInputs(env, inputs, selectors, base, canonical).value;
      |r| == |inputs| && SettledInputs(r) && forall i :: 0 <= i < |r| ==> r[i] == BindInput(inputs[i], PathOf(r[i]), base, canonical)
  {
    hide ResolveSelector; hide Settled; hide BindInput;
    if inputs != [] {
      SelectorSettles(env, selectors[0], Some(base));
      BoundInputs(env, inputs[1..], selectors[1..], base, canonical);
      PathBound(inputs[0], ResolveSelector(env, selectors[0], Some(base)).value, base, canonical);
    }
  }

  lemma PathBound(i: Input, path: string, base: string, canonical: bool)
    ensures PathOf(BindInput(i, path, base, canonical)) == path
  {
  }

  lemma {:induction false} InputsRebound(env: Env, inputs: seq<Input>, bound: seq<BoundInput>, canonical: bool)
    requires |inputs| == |bound| && SettledInputs(bound)
    ensures BindInputs(env, inputs, PathsOf(bound), "/", canonical) ==
      if InertInputs(bound) then Some(InputsAgain(inputs, bound, canonical)) else None
    decreases |inputs|
  {
    hide ResolveSelector; hide Settled; hide BindInput; hide Inert;
    if inputs != [] {
      FixedResolves(env, PathOf(bound[0]), Some("/"));
      InputsRebound(env, inputs[1..], bound[1..], canonical);
      assert PathsOf(bound)[1..] == PathsOf(bound[1..]);
      assert InertInputs(bound) <==> Inert(PathOf(bound[0])) && InertInputs(bound[1..]) by {
        assert forall i :: 1 <= i < |bound| ==> bound[i] == bound[1..][i - 1];
      }
    }
  }

  // ------------------------------------------------------------------- bound selections

  /** What one bound recipe becomes when its frozen form is bound again. */
  function Again(recipes: map<string, Recipe>, c: Config, b: Bound): Bound
    requires b.name in recipes && |recipes[b.name].inputs| == |b.inputs|
  {
    Bound(b.name, b.output, InputsAgain(recipes[b.name].inputs, b.inputs, c.canonical))
  }

  predicate Fits(recipes: map<string, Recipe>, c: Config, b: Bound, base: string) {
    && b.name in recipes && |recipes[b.name].inputs| == |b.inputs| && Settled(b.output) && SettledInputs(b.inputs)
    && forall i :: 0 <= i < |b.inputs| ==> b.inputs[i] == BindInput(recipes[b.name].inputs[i], PathOf(b.inputs[i]), base, c.canonical)
  }

  predicate InertBound(b: Bound) { Inert(b.output) && InertInputs(b.inputs) }

  lemma OneFits(env: Env, recipes: map<string, Recipe>, c: Config, name: string, base: string)
    requires BindOne(env, recipes, c, name, base).Some?
    ensures var b := BindOne(env, recipes, c, name, base).value; b.name == name && Fits(recipes, c, b, base)
  {
    hide ResolveSelector; hide Settled; hide SettledInputs; hide BindInputs; hide BindInput;
    SelectorSettles(env, c.bindings[name].output, Some(base));
    BoundInputs(env, recipes[name].inputs, c.bindings[name].inputs, base, c.canonical);
  }

  /** The selection: names in order, pairwise different outputs. */
  predicate Selected(recipes: map<string, Recipe>, c: Config, names: seq<string>, bound: seq<Bound>, base: string, taken: set<string>) {
    && |bound| == |names|
    && (forall i :: 0 <= i < |bound| ==> bound[i].name == names[i] && Fits(recipes, c, bound[i], base) && bound[i].output !in taken)
    && forall i, j :: 0 <= i < j < |bound| ==> bound[i].output != bound[j].output && bound[i].name != bound[j].name
  }

  lemma {:induction false} NamesSelected(env: Env, recipes: map<string, Recipe>, c: Config, names: seq<string>, base: string, taken: set<string>)
    requires BindNames(env, recipes, c, names, base, taken).Some?
    ensures Selected(recipes, c, names, BindNames(env, recipes, c, names, base, taken).value, base, taken)
    ensures var bound := BindNames(env, recipes, c, names, base, taken).value;
      forall i :: 0 <= i < |bound| ==> BindOne(env, recipes, c, names[i], base) == Some(bound[i])
    decreases |names|
  {
    hide BindOne; hide Fits;
    if names != [] {
      var b := BindOne(env, recipes, c, names[0], base).value;
      OneFits(env, recipes, c, names[0], base);
      NamesSelected(env, recipes, c, names[1..], base, taken + {b.output});
      var rest := BindNames(env, recipes, c, names[1..], base, taken + {b.output}).value;
      var bound := [b] + rest;
      forall i | 0 <= i < |bound| ensures BindOne(env, recipes, c, names[i], base) == Some(bound[i]) {
        if i > 0 {
          assert bound[i] == rest[i - 1] && names[i] == names[1..][i - 1];
        }
      }
    }
  }

  lemma {:induction false} FixedLookup(bound: seq<Bound>, i: nat)
    requires i < |bound| && forall j, k :: 0 <= j < k < |bound| ==> bound[j].name != bound[k].name
    ensures bound[i].name in FixedBindings(bound)
    ensures FixedBindings(bound)[bound[i].name] == Binding(PathOnly(bound[i].output), PathsOf(bound[i].inputs))
    decreases |bound|
  {
    hide PathsOf;
    if i < |bound| - 1 {
      var front := bound[..|bound| - 1];
      assert front[i] == bound[i];
      FixedLookup(front, i);
    }
  }

  /** Binding one frozen recipe in any environment. */
  lemma OneAgain(env: Env, recipes: map<string, Recipe>, c: Config, bound: seq<Bound>, i: nat, base: string)
    requires i < |bound| && Fits(recipes, c, bound[i], base) && forall j, k :: 0 <= j < k < |bound| ==> bound[j].name != bound[k].name
    ensures BindOne(env, recipes, Frozen(c, bound), bound[i].name, "/") ==
      if InertBound(bound[i]) then Some(Again(recipes, c, bound[i])) else None
  {
    hide ResolveSelector; hide Settled; hide BindInput; hide Inert; hide InertInputs; hide BindInputs; hide SettledInputs; hide PathsOf; hide FixedBindings;
    FixedLookup(bound, i);
    FixedResolves(env, bound[i].output, Some("/"));
    InputsRebound(env, recipes[bound[i].name].inputs, bound[i].inputs, c.canonical);
  }

  function Outputs(bound: seq<Bound>): set<string> {
    set i | 0 <= i < |bound| :: bound[i].output
  }

  predicate AllInert(bound: seq<Bound>) {
    forall i :: 0 <= i < |bound| ==> InertBound(bound[i])
  }

  function AgainFrom(recipes: map<string, Recipe>, c: Config, bound: seq<Bound>): (r: seq<Bound>)
    requires forall i :: 0 <= i < |bound| ==> bound[i].name in recipes && |recipes[bound[i].name].inputs| == |bound[i].inputs|
    ensures |r| == |bound| && forall i :: 0 <= i < |r| ==> r[i] == Again(recipes, c, bound[i])
  {
    if bound == [] then [] else [Again(recipes, c, bound[0])] + AgainFrom(recipes, c, bound[1..])
  }

  lemma FitsShape(recipes: map<string, Recipe>, c: Config, b: Bound, base: string)
    requires Fits(recipes, c, b, base)
    ensures b.name in recipes && |recipes[b.name].inputs| == |b.inputs|
  {
  }

  lemma {:induction false} NamesAgain(env: Env, recipes: map<string, Recipe>, c: Config, names: seq<string>, bound: seq<Bound>, base: string, n: nat)
    requires Selected(recipes, c, names, bound, base, {}) && n <= |bound|
    ensures forall i :: 0 <= i < |bound| ==> bound[i].name in recipes && |recipes[bound[i].name].inputs| == |bound[i].inputs|
    ensures BindNames(env, recipes, Frozen(c, bound), names[n..], "/", Outputs(bound[..n])) ==
      if AllInert(bound[n..]) then Some(AgainFrom(recipes, c, bound[n..])) else None
    decreases |bound| - n
  {
    hide BindOne; hide Fits; hide InertBound; hide Again; hide Frozen;
    forall i | 0 <= i < |bound| ensures bound[i].name in recipes && |recipes[bound[i].name].inputs| == |bound[i].inputs| {
      FitsShape(recipes, c, bound[i], base);
    }
    if n < |bound| {
      var b := bound[n];
      OneAgain(env, recipes, c, bound, n, base);
      AgainKeeps(recipes, c, b);
      NamesAgain(env, recipes, c, names, bound, base, n + 1);
      assert names[n..][1..] == names[n + 1..] && bound[n..][1..] == bound[n + 1..];
      assert bound[..n + 1] == bound[..n] + [b];
      OutputsSnoc(bound[..n], b);
    } else {
      assert names[n..] == [] && bound[n..] == [];
    }
  }

  lemma AgainKeeps(recipes: map<string, Recipe>, c: Config, b: Bound)
    requires b.name in recipes && |recipes[b.name].inputs| == |b.inputs|
    ensures Again(recipes, c, b).output == b.output && Again(recipes, c, b).name == b.name
  {
  }

  lemma OutputsSnoc(bound: seq<Bound>, b: Bound)
    ensures Outputs(bound + [b]) == Outputs(bound) + {b.output}
  {
    var all := bound + [b];
    forall x | x in Outputs(bound) + {b.output} ensures x in Outputs(all) {
      if x == b.output {
        assert all[|bound|].output == x;
      } else {
        var i :| 0 <= i < |bound| && bound[i].output == x;
        assert all[i].output == x;
      }
    }
    forall x | x in Outputs(all) ensures x in Outputs(bound) + {b.output} {
      var i :| 0 <= i < |all| && all[i].output == x;
      assert i < |bound| ==> bound[i].output == x;
    }
  }

  // ---------------------------------------------------------------------- the results

  /** Binding a frozen selection in any environment: it succeeds exactly when no resolved path
      holds `$` or `~`, and gives the same outputs and input paths, with fuzing roots resolved
      against `/`. */
  lemma FrozenBinds(env: Env, env2: Env, recipes: map<string, Recipe>, c: Config, names: seq<string>)
    requires Bind(env, recipes, c, names).Some?
    ensures var bound := Bind(env, recipes, c, names).value;
      (forall i :: 0 <= i < |bound| ==> bound[i].name in recipes && |recipes[bound[i].name].inputs| == |bound[i].inputs|)
      && Bind(env2, recipes, Frozen(c, bound), names) == if AllInert(bound) then Some(AgainFrom(recipes, c, bound)) else None
  {
    hide BindNames; hide BaseOf; hide Frozen; hide AllInert; hide Fits;
    var base := BaseOf(env, c).value;
    var bound := Bind(env, recipes, c, names).value;
    NamesSelected(env, recipes, c, names, base, {});
    NamesAgain(env2, recipes, c, names, bound, base, 0);
    FrozenBase(env2, c, bound);
    assert names[0..] == names && bound[0..] == bound && Outputs(bound[..0]) == {};
    forall i | 0 <= i < |names| ensures names[i] in Frozen(c, bound).bindings {
      FrozenHas(c, bound, i);
    }
  }

  lemma FrozenHas(c: Config, bound: seq<Bound>, i: nat)
    requires i < |bound| && forall j, k :: 0 <= j < k < |bound| ==> bound[j].name != bound[k].name
    ensures bound[i].name in Frozen(c, bound).bindings
  {
    FixedLookup(bound, i);
  }

  /** The fuzing roots of an input would come out the same against `/`. */
  predicate RootsAgree(i: Input, base: string, canonical: bool) {
    i.GlobInput? && i.fuzings.Some? && !canonical ==> Resolve(base, i.fuzings.value) == Resolve("/", i.fuzings.value)
  }

  lemma InputSame(i: Input, path: string, base: string, canonical: bool)
    ensures BindInput(i, path, "/", canonical) == BindInput(i, path, base, canonical) <==> RootsAgree(i, base, canonical)
  {
    hide Resolve; hide GlobOf;
  }

  predicate RecipeAgrees(recipes: map<string, Recipe>, c: Config, name: string, base: string) {
    name in recipes && forall k :: 0 <= k < |recipes[name].inputs| ==> RootsAgree(recipes[name].inputs[k], base, c.canonical)
  }

  lemma BoundSame(recipes: map<string, Recipe>, c: Config, b: Bound, base: string)
    requires Fits(recipes, c, b, base)
    ensures b.name in recipes && |recipes[b.name].inputs| == |b.inputs|
    ensures Again(recipes, c, b) == b <==> RecipeAgrees(recipes, c, b.name, base)
  {
    hide BindInput; hide RootsAgree; hide Settled;
    var inputs := recipes[b.name].inputs;
    forall k | 0 <= k < |inputs|
      ensures InputsAgain(inputs, b.inputs, c.canonical)[k] == b.inputs[k] <==> RootsAgree(inputs[k], base, c.canonical)
    {
      InputSame(inputs[k], PathOf(b.inputs[k]), base, c.canonical);
    }
    if RecipeAgrees(recipes, c, b.name, base) {
      assert InputsAgain(inputs, b.inputs, c.canonical) == b.inputs;
    }
  }

  /** The frozen selection binds, in whatever environment, to exactly what was admitted if and
      only if its paths hold no `$` or `~` and its fuzing roots do not depend on the base. */
  lemma FreezingExact(env: Env, env2: Env, recipes: map<string, Recipe>, c: Config, names: seq<string>)
    requires Bind(env, recipes, c, names).Some?
    ensures var bound := Bind(env, recipes, c, names).value;
      Bind(env2, recipes, Frozen(c, bound), names) == Some(bound) <==>
        AllInert(bound) && forall i :: 0 <= i < |names| ==> RecipeAgrees(recipes, c, names[i], BaseOf(env, c).value)
  {
    hide BindNames; hide BaseOf; hide Frozen; hide AllInert; hide Fits; hide RecipeAgrees; hide Again;
    var base := BaseOf(env, c).value;
    var bound := Bind(env, recipes, c, names).value;
    FrozenBinds(env, env2, recipes, c, names);
    NamesSelected(env, recipes, c, names, base, {});
    forall i | 0 <= i < |bound| ensures Again(recipes, c, bound[i]) == bound[i] <==> RecipeAgrees(recipes, c, names[i], base) {
      BoundSame(recipes, c, bound[i], base);
    }
    if forall i :: 0 <= i < |names| ==> RecipeAgrees(recipes, c, names[i], base) {
      assert AgainFrom(recipes, c, bound) == bound;
    }
  }

  /** Recipes without fuzings and inert paths: freezing is invisible in every environment. */
  lemma FrozenIndependent(env: Env, env2: Env, recipes: map<string, Recipe>, c: Config, names: seq<string>)
    requires Bind(env, recipes, c, names).Some? && AllInert(Bind(env, recipes, c, names).value)
    requires forall name, k :: name in recipes && 0 <= k < |recipes[name].inputs| ==>
      recipes[name].inputs[k].GlobInput? ==> recipes[name].inputs[k].fuzings.None?
    ensures Bind(env2, recipes, Frozen(c, Bind(env, recipes, c, names).value), names) == Bind(env, recipes, c, names)
  {
    hide BindNames; hide BaseOf; hide Frozen; hide AllInert; hide Fits; hide Resolve;
    FreezingExact(env, env2, recipes, c, names);
    NamesSelected(env, recipes, c, names, BaseOf(env, c).value, {});
    forall i | 0 <= i < |names| ensures RecipeAgrees(recipes, c, names[i], BaseOf(env, c).value) {
      FitsShape(recipes, c, Bind(env, recipes, c, names).value[i], BaseOf(env, c).value);
    }
  }

  /** A relative fuzing root is resolved against `/` after freezing: from any other base it moves. */
  lemma FuzingRootMoves(base: string, rel: string)
    requires Component(rel) && Parts(base) != []
    ensures Resolve(base, rel) != Resolve("/", rel)
  {
    assert !IsAbsolute(rel) by {
      assert rel[0] in rel;
    }
    hide Parts; hide Show;
    Text.SplitWhole(rel, '/');
    OneStep(Parts(base), rel);
    OneStep(Parts("/"), rel);
    ShownParts(Parts(base) + [rel]);
    ShownParts([] + [rel]);
    assert |Parts(base) + [rel]| > |[] + [rel]|;
  }

  lemma OneStep(at: seq<string>, c: string)
    requires Component(c)
    ensures Walk(at, [c]) == at + [c]
  {
    assert Clean([c]);
    WalkPlain(at, [c]);
  }

}
