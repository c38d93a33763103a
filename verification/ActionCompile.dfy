/** Compiling action groups to the action spec: the second half of `compile_action_audiences` in
    library/filter_plugins/action_audiences.py, from the composed groups on. */
module ActionCompile {
  import opened Wrappers
  import opened ActionSpec

  // ---------------------------------------------------------------------- policy

  datatype Settings = Settings(default: Audience, available: seq<Audience>)

  /** What a policy mapping says; absent keys are inherited. */
  datatype Policy = Policy(default: Option<Audience>, available: Option<seq<Audience>>)

  predicate NoRepeats(as_: seq<Audience>) {
    forall i, j :: 0 <= i < j < |as_| ==> as_[i] != as_[j]
  }

  /** `policy_settings`: None when it fails. */
  function PolicySettings(p: Policy, parent: Option<Settings>): Option<Settings> {
    var inherited := if parent.None? then Settings(User, AUDIENCES) else parent.value;
    var result := Settings(if p.default.None? then inherited.default else p.default.value,
                           if p.available.None? then inherited.available else p.available.value);
    if !NoRepeats(result.available) then None
    else if parent.Some? && exists a :: a in result.available && a !in parent.value.available then None
    else if p.default.Some? && result.default !in result.available then None
    else Some(result)
  }

  // --------------------------------------------------------------------- bin names

  /** `posixpath.normpath` on a relative path without `..` parts. */
  function Kept(parts: seq<string>): seq<string> {
    if parts == [] then []
    else (if parts[0] == "" || parts[0] == "." then [] else [parts[0]]) + Kept(parts[1..])
  }

  function Normalized(s: string): string {
    var kept := Text.Join(Kept(Text.Split(s, '/')), "/");
    if kept == "" then "." else kept
  }

  /** `relative_bin` */
  predicate Relative(s: string) {
    s != "" && s[0] != '/' && ".." !in Text.Split(s, '/') && Normalized(s) == s
  }

  // -------------------------------------------------------------------------- groups

  /** A composed group: its name, vocabulary word and child names per audience. */
  datatype Group = Group(name: string, action: string, plans: seq<(Audience, seq<string>)>)

  /** An authored root body. */
  datatype Root = Root(dest: string, children: seq<string>, env: bool, basedir: Value)

  datatype Input = Input(
    settings: string -> Option<Settings>,
    roots: (string, Audience) -> Option<Root>,
    compKeys: map<string, string>,
    rootPaths: map<string, (string, Audience)>,
    operations: map<string, Value>)

  /** A compiled step. */
  datatype Made = Ref(action: string) | Op(declaration: Value) | Run(child: string) | Shell(dest: string, children: seq<Made>)

  datatype Plan = Plan(audience: Audience, steps: seq<Made>)

  datatype Entry = Entry(
    name: string, action: string, chief: Audience, hasDefault: bool, plans: seq<Plan>, setup: Option<seq<(Audience, Setup)>>)

  function Children(plans: seq<(Audience, seq<string>)>, a: Audience): Option<seq<string>> {
    if plans == [] then None else if plans[0].0 == a then Some(plans[0].1) else Children(plans[1..], a)
  }

  /** The audiences of a group its settings make available. */
  function Offered(s: Settings, g: Group): seq<Audience> {
    (if User in s.available && Children(g.plans, User).Some? then [User] else [])
    + (if System in s.available && Children(g.plans, System).Some? then [System] else [])
  }

  /** The action a child stands for, if any; None outside when an authored child crosses
      audiences. */
  function ChildAction(i: Input, authored: seq<string>, child: string, a: Audience): Option<Option<string>> {
    if child in authored && child in i.rootPaths then
      if i.rootPaths[child].1 == a then Some(Some(i.rootPaths[child].0)) else None
    else if child in i.compKeys then Some(Some(i.compKeys[child]))
    else Some(None)
  }

  function MakeStep(i: Input, authored: seq<string>, child: string, a: Audience): Option<Made> {
    if !Relative(child) then None
    else
      match ChildAction(i, authored, child, a)
      case None => None
      case Some(Some(action)) => Some(Ref(action))
      case Some(None) => if child in i.operations then Some(Op(i.operations[child])) else Some(Run(child))
  }

  function MakeSteps(i: Input, authored: seq<string>, children: seq<string>, a: Audience): Option<seq<Made>> {
    if children == [] then Some([])
    else
      match MakeStep(i, authored, children[0], a)
      case None => None
      case Some(s) => match MakeSteps(i, authored, children[1..], a) case None => None case Some(rest) => Some([s] + rest)
  }

  function MakePlan(i: Input, g: Group, a: Audience): Option<Plan>
    requires Children(g.plans, a).Some?
  {
    var root := i.roots(g.name, a);
    var authored := if root.None? then [] else root.value.children;
    match MakeSteps(i, authored, authored + Children(g.plans, a).value, a)
    case None => None
    case Some(steps) => Some(Plan(a, if root.None? then steps else [Shell(root.value.dest, steps)]))
  }

  function MakePlans(i: Input, g: Group, available: seq<Audience>): Option<seq<Plan>>
    requires forall k :: 0 <= k < |available| ==> Children(g.plans, available[k]).Some?
  {
    if available == [] then Some([])
    else
      match MakePlan(i, g, available[0])
      case None => None
      case Some(p) => match MakePlans(i, g, available[1..]) case None => None case Some(rest) => Some([p] + rest)
  }

  function SetupOf(i: Input, g: Group, available: seq<Audience>): seq<(Audience, Setup)> {
    if available == [] then []
    else
      var root := i.roots(g.name, available[0]);
      [(available[0], if root.None? then Setup(true, Flag(true)) else Setup(root.value.env, root.value.basedir))]
      + SetupOf(i, g, available[1..])
  }

  datatype Compiled = Skipped | Failed | Made(entry: Entry)

  /** One group, before its names are claimed. */
  function CompileGroup(i: Input, g: Group): Compiled {
    if !IsName(g.name) then Failed
    else
      match i.settings(g.action)
      case None => Skipped
      case Some(s) =>
        var available := Offered(s, g);
        if available == [] then Skipped
        else
          match MakePlans(i, g, available)
          case None => Failed
          case Some(plans) =>
            Made(Entry(g.name, g.action, if s.default in available then s.default else available[0], s.default in available,
                       plans, if i.operations == map[] then None else Some(SetupOf(i, g, available))))
  }

  function AudiencesOf(plans: seq<Plan>): (r: seq<Audience>)
    ensures |r| == |plans| && forall k :: 0 <= k < |r| ==> r[k] == plans[k].audience
  {
    if plans == [] then [] else [plans[0].audience] + AudiencesOf(plans[1..])
  }

  /** The real entry, then the aliases: everything the family is called by. */
  function NamesOf(e: Entry): seq<string> {
    [EntryName(e.name, e.chief)] + Aliases(e.name, AudiencesOf(e.plans), e.chief, e.hasDefault)
  }

  /** Names not claimed before, nor twice. */
  predicate Claimable(names: seq<string>, occupied: set<string>) {
    (forall k :: 0 <= k < |names| ==> names[k] !in occupied)
    && forall k, l :: 0 <= k < l < |names| ==> names[k] != names[l]
  }

  function SetOf(names: seq<string>): set<string> {
    set n | n in names
  }

  /** The loop over the groups, from the names already taken; None when it fails. */
  function CompileAll(i: Input, groups: seq<Group>, occupied: set<string>): Option<seq<Entry>> {
    if groups == [] then Some([])
    else
      match CompileGroup(i, groups[0])
      case Failed => None
      case Skipped => CompileAll(i, groups[1..], occupied)
      case Made(e) =>
        if !Claimable(NamesOf(e), occupied) then None
        else
          match CompileAll(i, groups[1..], occupied + SetOf(NamesOf(e)))
          case None => None
          case Some(rest) => Some([e] + rest)
  }

  function AddEntries(done: seq<Entry>, r: Option<seq<Entry>>): (p: Option<seq<Entry>>)
    ensures done == [] ==> p == r
  {
    assert r.Some? ==> [] + r.value == r.value;
    match r case None => None case Some(rest) => Some(done + rest)
  }

  /** The name loop: claim each generated name or fail. */
  method Claim(names: seq<string>, occupied: set<string>) returns (r: Option<set<string>>)
    ensures r.Some? <==> Claimable(names, occupied)
    ensures r.Some? ==> r.value == occupied + SetOf(names)
  {
    var taken := occupied;
    var k := 0;
    while k < |names|
      invariant 0 <= k <= |names| && taken == occupied + SetOf(names[..k])
      invariant Claimable(names[..k], occupied)
    {
      if names[k] in taken {
        return None;
      }
      assert names[..k + 1] == names[..k] + [names[k]];
      taken := taken + {names[k]};
      k := k + 1;
    }
    assert names[..k] == names;
    return Some(taken);
  }

  /** The group loop of `compile_action_audiences`. */
  method CompileGroups(i: Input, groups: seq<Group>, occupied: set<string>) returns (r: Option<seq<Entry>>)
    ensures r == CompileAll(i, groups, occupied)
  {
    hide CompileGroup; hide NamesOf; hide Claimable; hide SetOf;
    var done: seq<Entry> := [];
    var taken := occupied;
    var k := 0;
    assert groups[0..] == groups;
    while k < |groups|
      invariant 0 <= k <= |groups|
      invariant CompileAll(i, groups, occupied) == AddEntries(done, CompileAll(i, groups[k..], taken))
    {
      assert groups[k..][1..] == groups[k + 1..];
      var c := CompileGroup(i, groups[k]);
      if c.Failed? {
        return None;
      }
      if c.Made? {
        var claimed := Claim(NamesOf(c.entry), taken);
        if claimed.None? {
          return None;
        }
        taken := claimed.value;
        var rest := CompileAll(i, groups[k + 1..], taken);
        assert rest.Some? ==> done + ([c.entry] + rest.value) == (done + [c.entry]) + rest.value;
        done := done + [c.entry];
      }
      k := k + 1;
    }
    assert done + [] == done;
    return Some(done);
  }

  // ------------------------------------------------------------- from policy to plans

  /** The settings come from a base policy and one override per action, None for an action that
      is switched off; all of them are valid. */
  ghost predicate Governed(i: Input, base: Policy, overrides: string -> Option<Policy>) {
    && PolicySettings(base, None).Some?
    && forall action :: i.settings(action) == (match overrides(action) case None => None case Some(p) => PolicySettings(p, PolicySettings(base, None)))
                        && (overrides(action).Some? ==> i.settings(action).Some?)
  }

  /** The audience that should run by default. */
  function Wanted(base: Policy, p: Policy): Audience {
    if p.default.Some? then p.default.value else if base.default.Some? then base.default.value else User
  }

  predicate Enabled(p: Policy, a: Audience) {
    p.available.None? || a in p.available.value
  }

  // ---------------------------------------------------------------------- the JSON

  function EmitStep(m: Made): Value
    decreases m
  {
    match m
    case Ref(action) => Table([("kind", Str("action")), ("action", Str(action))])
    case Op(declaration) => declaration
    case Run(child) => Table([("kind", Str("exec")), ("path", Str("bin/" + child))])
    case Shell(dest, children) =>
      Table([("kind", Str("exec")), ("path", Str("bin/" + dest)), ("children", List(EmitSteps(children)))])
  }

  function EmitSteps(ms: seq<Made>): seq<Value>
    decreases ms
  {
    if ms == [] then [] else [EmitStep(ms[0])] + EmitSteps(ms[1..])
  }

  function EmitPlans(plans: seq<Plan>): seq<(string, Value)> {
    if plans == [] then [] else [(NameOf(plans[0].audience), List(EmitSteps(plans[0].steps)))] + EmitPlans(plans[1..])
  }

  function EmitSetup(setup: seq<(Audience, Setup)>): seq<(string, Value)> {
    if setup == [] then []
    else [(NameOf(setup[0].0), Table([("env", Flag(setup[0].1.env)), ("basedir", setup[0].1.basedir)]))] + EmitSetup(setup[1..])
  }

  function EmitFamily(e: Entry): Value {
    Table([("name", Str(e.name)), ("action", Str(e.action)), ("entry", Str(EntryName(e.name, e.chief))),
           ("aliases", List(Strings(Aliases(e.name, AudiencesOf(e.plans), e.chief, e.hasDefault)))),
           ("plans", Table(EmitPlans(e.plans)))]
          + (match e.setup case None => [] case Some(rows) => [("setup", Table(EmitSetup(rows)))])
          + (if e.hasDefault then [("default", Str(NameOf(e.chief)))] else []))
  }

  function EmitFamilies(es: seq<Entry>): seq<(string, Value)> {
    if es == [] then [] else [(es[0].name, EmitFamily(es[0]))] + EmitFamilies(es[1..])
  }

  /** The spec file. */
  function EmitSpec(es: seq<Entry>): Value {
    Table([("version", Num(1)), ("actions", Table(EmitFamilies(es)))])
  }
}
