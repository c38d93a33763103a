/** Binding a configuration context to paths, and freezing a bound selection: files/config/context.ts
    and `admitConfigCommand` of files/config/runtime.ts. */
module Context {
  import opened Wrappers
  import opened Paths

  /** The process environment. */
  type Env = map<string, string>

  function Var(env: Env, name: string): Option<string> {
    if name in env then Some(env[name]) else None
  }

  /** `process.env[name] || undefined` */
  function NonEmpty(v: Option<string>): Option<string> {
    match v case Some(s) => if s == "" then None else v case None => None
  }

  /** `join(home, rest)`, left unnormalized for a relative home. */
  function InHome(home: Option<string>, rest: string): Option<string> {
    match NonEmpty(home)
    case None => None
    case Some(h) => Some(if IsAbsolute(h) then Normalize(h + "/" + rest) else h + "/" + rest)
  }

  function Or(a: Option<string>, b: Option<string>): Option<string> {
    if a.Some? then a else b
  }

  /** `knownRoot` */
  function KnownRoot(env: Env, name: string): Option<string> {
    var home := Var(env, "HOME");
    if name == "HOME" then home
    else if name == "XDG_CONFIG_HOME" then Or(NonEmpty(Var(env, name)), InHome(home, ".config"))
    else if name == "XDG_STATE_HOME" then Or(NonEmpty(Var(env, name)), InHome(home, ".local/state"))
    else if name == "XDG_CACHE_HOME" then Or(NonEmpty(Var(env, name)), InHome(home, ".cache"))
    else if name == "XDG_DATA_HOME" then Or(NonEmpty(Var(env, name)), InHome(home, ".local/share"))
    else None
  }

  const ROOTS := ["HOME", "XDG_CONFIG_HOME", "XDG_STATE_HOME", "XDG_CACHE_HOME", "XDG_DATA_HOME"]

  /** Free of the characters that start a runtime root. */
  predicate Inert(s: string) { '$' !in s && '~' !in s }

  /** The runtime root a value starts with, when a slash or the end follows it. */
  function RootIn(value: string, roots: seq<string>): Option<string> {
    if roots == [] then None
    else
      var head := "${" + roots[0] + "}";
      if Text.StartsWith(value, head) && (|value| == |head| || value[|head|] == '/') then Some(roots[0])
      else RootIn(value, roots[1..])
  }

  /** The value with its runtime root replaced. */
  function Expanded(env: Env, value: string): Option<string> {
    if value == "~" || Text.StartsWith(value, "~/") then
      match Var(env, "HOME")
      case None => None
      case Some(home) => if Inert(value[1..]) then Some(home + value[1..]) else None
    else if Text.StartsWith(value, "${") then
      match RootIn(value, ROOTS)
      case None => None
      case Some(name) =>
        match KnownRoot(env, name)
        case None => None
        case Some(root) =>
          if |name| + 3 <= |value| && Inert(value[|name| + 3..]) then Some(root + value[|name| + 3..]) else None
    else if Inert(value) then Some(value)
    else None
  }

  /** `expandPath`; None where it throws. */
  function ExpandPath(env: Env, value: string, base: Option<string>): Option<string> {
    match Expanded(env, value)
    case None => None
    case Some(s) =>
      if IsAbsolute(s) then Some(Normalize(s))
      else match base case None => None case Some(b) => Some(Normalize(Resolve(b, s)))
  }

  // -------------------------------------------------------------------- selectors

  datatype Selector = Selector(
    path: Option<string>, relative: Option<string>, env: Option<string>, fallback: Fallback, ignore: seq<string>)

  datatype Fallback = NoFallback | Fallback(selector: Selector)

  function PathOnly(path: string): Selector {
    Selector(Some(path), None, None, NoFallback, [])
  }

  predicate Filled(v: Option<string>) {
    v.Some? ==> Text.Trim(v.value) != ""
  }

  /** `validatePathSelector` */
  predicate ValidSelector(s: Selector, depth: nat)
    decreases s
  {
    && depth <= 32
    && (if s.path.Some? then 1 else 0) + (if s.relative.Some? then 1 else 0) + (if s.env.Some? then 1 else 0) == 1
    && Filled(s.path) && Filled(s.relative) && Filled(s.env)
    && (s.fallback.Fallback? ==> ValidSelector(s.fallback.selector, depth + 1))
  }

  /** A relative selector: the resolved path, unless it leaves the base. */
  function Contained(base: string, rel: string): Option<string> {
    var resolved := Resolve(base, rel);
    if Escapes(Relative(base, resolved)) then None else Some(Normalize(resolved))
  }

  /** `resolvePathSelector` */
  function ResolveSelector(env: Env, s: Selector, base: Option<string>): Option<string>
    decreases s
  {
    if !ValidSelector(s, 0) then None
    else if s.path.Some? then ExpandPath(env, s.path.value, None)
    else if s.relative.Some? then
      if base.None? || base.value == "" then None else Contained(base.value, s.relative.value)
    else if s.env.None? then None
    else
      match NonEmpty(Var(env, s.env.value))
      case Some(v) =>
        if v !in s.ignore then ExpandPath(env, v, base) else ResolveFallback(env, s.fallback, base)
      case None => ResolveFallback(env, s.fallback, base)
  }

  function ResolveFallback(env: Env, f: Fallback, base: Option<string>): Option<string>
    decreases f
  {
    match f case NoFallback => None case Fallback(s) => ResolveSelector(env, s, base)
  }

  // ---------------------------------------------------------------------- contexts

  /** An input of a recipe: a file, or a directory with a pattern and perhaps fuzings. */
  datatype Input = FileInput | GlobInput(pattern: string, fuzings: Option<string>)

  datatype Recipe = Recipe(inputs: seq<Input>)

  datatype Binding = Binding(output: Selector, inputs: seq<Selector>)

  datatype Config = Config(canonical: bool, root: Selector, subpath: Option<string>, bindings: map<string, Binding>)

  datatype BoundInput = BoundFile(file: string) | BoundGlob(directory: string, glob: string, roots: Option<string>)

  datatype Bound = Bound(name: string, output: string, inputs: seq<BoundInput>)

  function PathOf(b: BoundInput): string {
    match b case BoundFile(f) => f case BoundGlob(d, _, _) => d
  }

  /** `join(directory, pattern)` */
  function GlobOf(directory: string, pattern: string): string {
    Normalize(directory + "/" + pattern)
  }

  function BindInput(i: Input, path: string, base: string, canonical: bool): BoundInput {
    match i
    case FileInput => BoundFile(path)
    case GlobInput(pattern, fuzings) =>
      BoundGlob(path, GlobOf(path, pattern),
                if fuzings.None? || canonical then None else Some(Resolve(base, fuzings.value)))
  }

  function BindInputs(env: Env, inputs: seq<Input>, selectors: seq<Selector>, base: string, canonical: bool): Option<seq<BoundInput>>
    requires |inputs| == |selectors|
  {
    if inputs == [] then Some([])
    else
      match ResolveSelector(env, selectors[0], Some(base))
      case None => None
      case Some(path) =>
        match BindInputs(env, inputs[1..], selectors[1..], base, canonical)
        case None => None
        case Some(rest) => Some([BindInput(inputs[0], path, base, canonical)] + rest)
  }

  /** One recipe. */
  function BindOne(env: Env, recipes: map<string, Recipe>, c: Config, name: string, base: string): Option<Bound> {
    if name !in recipes || name !in c.bindings || |recipes[name].inputs| != |c.bindings[name].inputs| then None
    else
      match ResolveSelector(env, c.bindings[name].output, Some(base))
      case None => None
      case Some(output) =>
        match BindInputs(env, recipes[name].inputs, c.bindings[name].inputs, base, c.canonical)
        case None => None
        case Some(inputs) => Some(Bound(name, output, inputs))
  }

  /** The loop over the selected names, refusing an output used before. */
  function BindNames(env: Env, recipes: map<string, Recipe>, c: Config, names: seq<string>, base: string, taken: set<string>)
    : Option<seq<Bound>>
  {
    if names == [] then Some([])
    else
      match BindOne(env, recipes, c, names[0], base)
      case None => None
      case Some(b) =>
        if b.output in taken then None
        else
          match BindNames(env, recipes, c, names[1..], base, taken + {b.output})
          case None => None
          case Some(rest) => Some([b] + rest)
  }

  function BaseOf(env: Env, c: Config): Option<string> {
    match ResolveSelector(env, c.root, None)
    case None => None
    case Some(root) => Some(match NonEmpty(c.subpath) case None => root case Some(sub) => Resolve(root, sub))
  }

  /** `bindContextConfigs` */
  function Bind(env: Env, recipes: map<string, Recipe>, c: Config, names: seq<string>): Option<seq<Bound>> {
    if exists i :: 0 <= i < |names| && names[i] !in c.bindings then None
    else match BaseOf(env, c) case None => None case Some(base) => BindNames(env, recipes, c, names, base, {})
  }

  function AddBound(done: seq<Bound>, r: Option<seq<Bound>>): (p: Option<seq<Bound>>)
    ensures done == [] ==> p == r
  {
    assert r.Some? ==> [] + r.value == r.value;
    match r case None => None case Some(rest) => Some(done + rest)
  }

  method BindContextConfigs(env: Env, recipes: map<string, Recipe>, c: Config, names: seq<string>) returns (r: Option<seq<Bound>>)
    ensures r == Bind(env, recipes, c, names)
  {
    hide BindOne; hide ResolveSelector; hide BaseOf; hide BindNames; hide AddBound;
    var i := 0;
    while i < |names|
      invariant 0 <= i <= |names| && forall k :: 0 <= k < i ==> names[k] in c.bindings
    {
      if names[i] !in c.bindings {
        return None;
      }
      i := i + 1;
    }
    var base := BaseOf(env, c);
    if base.None? {
      return None;
    }
    var outputs: set<string> := {};
    var done: seq<Bound> := [];
    i := 0;
    assert names[0..] == names;
    while i < |names|
      invariant 0 <= i <= |names|
      invariant BindNames(env, recipes, c, names, base.value, {}) == AddBound(done, BindNames(env, recipes, c, names[i..], base.value, outputs))
    {
      var b := BindOne(env, recipes, c, names[i], base.value);
      BindStep(env, recipes, c, names, i, base.value, outputs, done);
      if b.None? || b.value.output in outputs {
        return None;
      }
      outputs := outputs + {b.value.output};
      done := done + [b.value];
      i := i + 1;
    }
    BindEnd(env, recipes, c, names, base.value, outputs, done);
    return Some(done);
  }

  lemma BindStep(env: Env, recipes: map<string, Recipe>, c: Config, names: seq<string>, i: nat, base: string, taken: set<string>, done: seq<Bound>)
    requires i < |names|
    ensures var b := BindOne(env, recipes, c, names[i], base);
      AddBound(done, BindNames(env, recipes, c, names[i..], base, taken)) ==
        if b.None? || b.value.output in taken then None
        else AddBound(done + [b.value], BindNames(env, recipes, c, names[i + 1..], base, taken + {b.value.output}))
  {
    hide BindOne;
    assert names[i..][1..] == names[i + 1..];
    var b := BindOne(env, recipes, c, names[i], base);
    if b.Some? {
      var rest := BindNames(env, recipes, c, names[i + 1..], base, taken + {b.value.output});
      assert rest.Some? ==> done + ([b.value] + rest.value) == (done + [b.value]) + rest.value;
    }
  }

  lemma BindEnd(env: Env, recipes: map<string, Recipe>, c: Config, names: seq<string>, base: string, taken: set<string>, done: seq<Bound>)
    ensures AddBound(done, BindNames(env, recipes, c, names[|names|..], base, taken)) == Some(done)
  {
    assert done + [] == done;
  }

  // ----------------------------------------------------------------------- freezing

  function PathsOf(inputs: seq<BoundInput>): (r: seq<Selector>)
    ensures |r| == |inputs| && forall i :: 0 <= i < |r| ==> r[i] == PathOnly(PathOf(inputs[i]))
  {
    if inputs == [] then [] else [PathOnly(PathOf(inputs[0]))] + PathsOf(inputs[1..])
  }

  function FixedBindings(bound: seq<Bound>): map<string, Binding> {
    if bound == [] then map[]
    else
      var b := bound[|bound| - 1];
      FixedBindings(bound[..|bound| - 1])[b.name := Binding(PathOnly(b.output), PathsOf(b.inputs))]
  }

  /** The context `admitConfigCommand` leaves for a bound selection. */
  function Frozen(c: Config, bound: seq<Bound>): Config {
    Config(c.canonical, PathOnly("/"), None, FixedBindings(bound))
  }

  /** The assignments of `admitConfigCommand` to its clone. */
  method Freeze(env: Env, recipes: map<string, Recipe>, c: Config, names: seq<string>) returns (frozen: Option<Config>, bound: seq<Bound>)
    ensures frozen.Some? <==> Bind(env, recipes, c, names).Some?
    ensures frozen.Some? ==> Bind(env, recipes, c, names) == Some(bound) && frozen.value == Frozen(c, bound)
  {
    hide Bind; hide PathsOf;
    var resolved := BindContextConfigs(env, recipes, c, names);
    if resolved.None? {
      return None, [];
    }
    bound := resolved.value;
    var bindings: map<string, Binding> := map[];
    var i := 0;
    while i < |bound|
      invariant 0 <= i <= |bound| && bindings == FixedBindings(bound[..i])
    {
      assert bound[..i + 1][..i] == bound[..i];
      bindings := bindings[bound[i].name := Binding(PathOnly(bound[i].output), PathsOf(bound[i].inputs))];
      i := i + 1;
    }
    assert bound[..i] == bound;
    return Some(Config(c.canonical, PathOnly("/"), None, bindings)), bound;
  }
}
