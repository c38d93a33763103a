/** From the groups that are composed to the spec the runtime reads: which families there are,
    what each of their steps stands for, and when compiling fails, said on the groups. */
module ActionPlans {
  import opened Wrappers
  import Text
  import opened ActionSpec
  import opened ActionCompile
  import opened ActionNames

  // --------------------------------------------------------------------- one child

  /** The children the group lists for an audience. */
  predicate Lists(g: Group, a: Audience, own: seq<string>) {
    exists k :: 0 <= k < |g.plans| && g.plans[k] == (a, own) && forall j :: 0 <= j < k ==> g.plans[j].0 != a
  }

  /** What a plan runs: the children its authored root names, then the group's own. */
  ghost predicate RunsChildren(i: Input, g: Group, a: Audience, children: seq<string>) {
    exists own :: Lists(g, a, own) && children == AuthoredBy(i, g, a) + own
  }

  function AuthoredBy(i: Input, g: Group, a: Audience): seq<string> {
    match i.roots(g.name, a) case None => [] case Some(root) => root.children
  }

  predicate Authored(i: Input, g: Group, a: Audience, child: string) {
    child in AuthoredBy(i, g, a) && child in i.rootPaths
  }

  /** The step a child becomes: the action an authored child's root path or the child's own name
      stands for; else the operation declared under its name, as the runtime takes it; else the
      program of that name. */
  predicate StepFor(i: Input, domain: Value -> Option<Value>, g: Group, a: Audience, child: string, s: Step) {
    if Authored(i, g, a, child) then i.rootPaths[child].1 == a && s == Action(i.rootPaths[child].0)
    else if child in i.compKeys then s == Action(i.compKeys[child])
    else if child in i.operations then ParseStep(domain, i.operations[child]) == Some(s)
    else s == Exec("bin/" + child, None)
  }

  /** Step k is child k's. */
  predicate StepsFor(i: Input, domain: Value -> Option<Value>, g: Group, a: Audience, children: seq<string>, steps: seq<Step>) {
    |steps| == |children| && forall k :: 0 <= k < |children| ==> StepFor(i, domain, g, a, children[k], steps[k])
  }

  /** A plan as it is read: its children's steps, inside the root's own program when there is one. */
  ghost predicate PlanReads(i: Input, domain: Value -> Option<Value>, g: Group, a: Audience, steps: seq<Step>) {
    exists children :: RunsChildren(i, g, a, children) &&
      match i.roots(g.name, a)
      case None => StepsFor(i, domain, g, a, children, steps)
      case Some(root) =>
        |steps| == 1 && steps[0].Exec? && steps[0].path == "bin/" + root.dest && steps[0].children.Some?
        && StepsFor(i, domain, g, a, children, steps[0].children.value.list)
  }

  // -------------------------------------------------------------------- compiled steps

  /** The compiled step of a child. */
  predicate MadeFor(i: Input, g: Group, a: Audience, child: string, m: Made) {
    if Authored(i, g, a, child) then i.rootPaths[child].1 == a && m == Ref(i.rootPaths[child].0)
    else if child in i.compKeys then m == Ref(i.compKeys[child])
    else if child in i.operations then m == Op(i.operations[child])
    else m == Run(child)
  }

  predicate AllMadeFor(i: Input, g: Group, a: Audience, children: seq<string>, ms: seq<Made>) {
    |ms| == |children| && forall k :: 0 <= k < |children| ==> MadeFor(i, g, a, children[k], ms[k])
  }

  /** A name beneath `bin`: `.` itself, or parts none of which is empty, `.` or `..`. */
  predicate Contained(child: string) {
    child == "." || forall k :: 0 <= k < |Text.Split(child, '/')| ==> Text.Split(child, '/')[k] !in {"", ".", ".."}
  }

  /** A child that can be compiled: contained, and no authored child of another audience. */
  predicate Compilable(i: Input, g: Group, a: Audience, child: string) {
    Contained(child) && (Authored(i, g, a, child) ==> i.rootPaths[child].1 == a)
  }

  lemma NoSlash(child: string)
    ensures child == "" ==> Text.Split(child, '/') == [""]
    ensures child == "." ==> Text.Split(child, '/') == ["."]
    ensures child != "" && child[0] == '/' ==> Text.Split(child, '/')[0] == ""
  {
    Text.SplitWhole("", '/');
    Text.SplitWhole(".", '/');
  }

  lemma ContainedIs(child: string)
    ensures Relative(child) <==> Contained(child)
  {
    hide Relative; hide Contained;
    if Contained(child) {
      ContainedRelative(child);
    } else if Relative(child) {
      RelativeContained(child);
    }
  }

  lemma RelativeContained(child: string)
    requires Relative(child)
    ensures Contained(child)
  {
    hide Text.Split; hide Normalized;
    if child != "." {
      NormalizedParts(child);
    }
  }

  lemma SplitSome(s: string)
    ensures |Text.Split(s, '/')| > 0
  {
  }

  lemma ContainedRelative(child: string)
    requires Contained(child)
    ensures Relative(child)
  {
    NoSlash(child);
    hide Text.Split; hide Text.Join; hide Kept;
    var parts := Text.Split(child, '/');
    KeptShort(parts);
    Text.JoinOfSplit(child, '/');
    if child == "." {
      DotNormal();
    } else {
      forall k | 0 <= k < |parts| ensures parts[k] != "" && parts[k] != "." && parts[k] != ".." {
        assert parts[k] !in {"", ".", ".."};
      }
      SplitSome(child);
      assert Kept(parts) == parts && parts[0] != "";
      assert "/" == ['/'];
    }
  }

  lemma DotNormal()
    ensures Normalized(".") == "."
  {
    Text.SplitWhole(".", '/');
    assert ["."][1..] == [];
    assert Kept([]) == [];
  }

  lemma StepExact(i: Input, g: Group, a: Audience, child: string)
    ensures MakeStep(i, AuthoredBy(i, g, a), child, a).Some? <==> Compilable(i, g, a, child)
    ensures MakeStep(i, AuthoredBy(i, g, a), child, a).Some? ==> MadeFor(i, g, a, child, MakeStep(i, AuthoredBy(i, g, a), child, a).value)
  {
    hide Relative; hide Contained; hide AuthoredBy;
    ContainedIs(child);
  }

  predicate AllCompilable(i: Input, g: Group, a: Audience, children: seq<string>) {
    forall k :: 0 <= k < |children| ==> Compilable(i, g, a, children[k])
  }

  lemma {:induction false} StepsExact(i: Input, g: Group, a: Audience, children: seq<string>)
    ensures MakeSteps(i, AuthoredBy(i, g, a), children, a).Some? <==> AllCompilable(i, g, a, children)
    ensures MakeSteps(i, AuthoredBy(i, g, a), children, a).Some? ==>
      AllMadeFor(i, g, a, children, MakeSteps(i, AuthoredBy(i, g, a), children, a).value)
    decreases |children|
  {
    hide MakeStep; hide Compilable; hide MadeFor; hide AuthoredBy;
    if children != [] {
      StepExact(i, g, a, children[0]);
      StepsExact(i, g, a, children[1..]);
      assert children == [children[0]] + children[1..];
    }
  }

  lemma {:induction false} ListedIs(plans: seq<(Audience, seq<string>)>, a: Audience)
    ensures Children(plans, a).None? <==> forall k :: 0 <= k < |plans| ==> plans[k].0 != a
    ensures Children(plans, a).Some? ==>
      exists k :: 0 <= k < |plans| && plans[k] == (a, Children(plans, a).value) && forall j :: 0 <= j < k ==> plans[j].0 != a
  {
    if plans != [] {
      ListedIs(plans[1..], a);
      assert forall j :: 1 <= j < |plans| ==> plans[j] == plans[1..][j - 1];
      if plans[0].0 != a && Children(plans, a).Some? {
        var k :| 0 <= k < |plans[1..]| && plans[1..][k] == (a, Children(plans, a).value) && forall j :: 0 <= j < k ==> plans[1..][j].0 != a;
        assert plans[k + 1] == (a, Children(plans, a).value);
      }
    }
  }

  lemma ListsIs(g: Group, a: Audience)
    ensures forall own :: Lists(g, a, own) <==> Children(g.plans, a) == Some(own)
  {
    hide Children;
    ListedIs(g.plans, a);
  }

  lemma RunsIs(i: Input, g: Group, a: Audience)
    ensures Children(g.plans, a).Some? ==>
      forall children :: RunsChildren(i, g, a, children) <==> children == AuthoredBy(i, g, a) + Children(g.plans, a).value
  {
    hide Lists; hide AuthoredBy;
    ListsIs(g, a);
  }

  /** A compiled plan: its children's steps, inside the root's own when there is one. */
  ghost predicate PlanMade(i: Input, g: Group, p: Plan) {
    exists children :: RunsChildren(i, g, p.audience, children) &&
      match i.roots(g.name, p.audience)
      case None => AllMadeFor(i, g, p.audience, children, p.steps)
      case Some(root) => |p.steps| == 1 && ShellFor(i, g, p.audience, root, children, p.steps[0])
  }

  predicate ShellFor(i: Input, g: Group, a: Audience, root: Root, children: seq<string>, m: Made) {
    m.Shell? && m.dest == root.dest && AllMadeFor(i, g, a, children, m.children)
  }

  lemma PlanIs(i: Input, g: Group, a: Audience)
    requires Children(g.plans, a).Some?
    ensures MakePlan(i, g, a).Some? <==> AllCompilable(i, g, a, AuthoredBy(i, g, a) + Children(g.plans, a).value)
    ensures MakePlan(i, g, a).Some? ==> PlanMade(i, g, MakePlan(i, g, a).value) && MakePlan(i, g, a).value.audience == a
  {
    hide MakeSteps; hide AllMadeFor; hide AllCompilable; hide Children; hide Lists;
    var children := AuthoredBy(i, g, a) + Children(g.plans, a).value;
    StepsExact(i, g, a, children);
    RunsIs(i, g, a);
    assert RunsChildren(i, g, a, children);
  }

  // --------------------------------------------------------------------- one group

  /** The action is on, the audience is one it is available to, and the group has children for it. */
  ghost predicate Offers(i: Input, g: Group, a: Audience) {
    i.settings(g.action).Some? && a in i.settings(g.action).value.available && exists own :: Lists(g, a, own)
  }

  ghost predicate Runs(i: Input, g: Group) {
    Offers(i, g, User) || Offers(i, g, System)
  }

  /** Where users are offered a plan it comes first. */
  ghost function AudiencesFor(i: Input, g: Group): seq<Audience> {
    (if Offers(i, g, User) then [User] else []) + (if Offers(i, g, System) then [System] else [])
  }

  /** The audience that runs by default, offered or not. */
  function DefaultFor(i: Input, g: Group): Audience
    requires i.settings(g.action).Some?
  {
    i.settings(g.action).value.default
  }

  function Other(a: Audience): Audience {
    if a == User then System else User
  }

  /** The audience of the real entry: the default, when it is offered. */
  ghost function ChiefFor(i: Input, g: Group): Audience
    requires Runs(i, g)
  {
    if Offers(i, g, DefaultFor(i, g)) then DefaultFor(i, g) else Other(DefaultFor(i, g))
  }

  /** What a family is called by: `name-audience.mjs` for every audience offered, and `name.mjs`
      when the default is. */
  ghost function CalledBy(i: Input, g: Group): seq<string>
    requires Runs(i, g)
  {
    var chief := ChiefFor(i, g);
    [Qualified(g.name, chief)]
    + (if Offers(i, g, DefaultFor(i, g)) then [g.name + ".mjs"] else [])
    + (if Offers(i, g, Other(chief)) then [Qualified(g.name, Other(chief))] else [])
  }

  function Qualified(name: string, a: Audience): string {
    match a case User => name + "-user.mjs" case System => name + "-system.mjs"
  }

  function SetupFor(i: Input, g: Group, a: Audience): Setup {
    match i.roots(g.name, a) case None => Setup(true, Flag(true)) case Some(root) => Setup(root.env, root.basedir)
  }

  predicate SetupsFor(i: Input, g: Group, as_: seq<Audience>, rows: seq<(Audience, Setup)>) {
    |rows| == |as_| && forall k :: 0 <= k < |rows| ==> rows[k] == (as_[k], SetupFor(i, g, as_[k]))
  }

  /** A letter or digit, then those and `_`, `.`, `-`. */
  predicate Identifier(s: string) {
    s != "" && s[0] !in {'_', '.', '-'} && forall c :: c in s ==> c in {'_', '.', '-'} || 'a' <= c <= 'z' || 'A' <= c <= 'Z' || '0' <= c <= '9'
  }

  /** A group that can be compiled, or is passed over. */
  ghost predicate Sound(i: Input, g: Group) {
    Identifier(g.name) && forall a, children :: Offers(i, g, a) && RunsChildren(i, g, a, children) ==> AllCompilable(i, g, a, children)
  }

  /** The entry of a group that runs. */
  ghost predicate EntryMade(i: Input, g: Group, e: Entry) {
    && Runs(i, g) && e.name == g.name && e.action == g.action
    && e.chief == ChiefFor(i, g) && (e.hasDefault <==> Offers(i, g, DefaultFor(i, g)))
    && AudiencesOf(e.plans) == AudiencesFor(i, g) && (forall k :: 0 <= k < |e.plans| ==> PlanMade(i, g, e.plans[k]))
    && (e.setup.Some? <==> i.operations != map[]) && (e.setup.Some? ==> SetupsFor(i, g, AudiencesFor(i, g), e.setup.value))
  }

  lemma IdentifierIs(s: string)
    ensures IsName(s) <==> Identifier(s)
  {
    if Identifier(s) {
      forall k | 0 <= k < |s| ensures Alnum(s[k]) || s[k] == '_' || s[k] == '.' || s[k] == '-' {
        assert s[k] in s;
      }
    }
  }

  lemma OffersIs(i: Input, g: Group)
    ensures i.settings(g.action).Some? ==> Offered(i.settings(g.action).value, g) == AudiencesFor(i, g)
    ensures i.settings(g.action).Some? ==> forall a :: a in AudiencesFor(i, g) <==> Offers(i, g, a)
    ensures forall a :: Offers(i, g, a) ==> Children(g.plans, a).Some?
  {
    hide Lists; hide Children;
    forall a ensures (exists own :: Lists(g, a, own)) <==> Children(g.plans, a).Some? {
      ListsIs(g, a);
    }
    if i.settings(g.action).Some? {
      forall a ensures a in AudiencesFor(i, g) <==> Offers(i, g, a) {
        match a case User => case System =>
      }
    }
  }

  lemma {:induction false} PlansIs(i: Input, g: Group, available: seq<Audience>)
    requires forall k :: 0 <= k < |available| ==> Children(g.plans, available[k]).Some?
    ensures MakePlans(i, g, available).Some? <==>
      forall k :: 0 <= k < |available| ==> AllCompilable(i, g, available[k], AuthoredBy(i, g, available[k]) + Children(g.plans, available[k]).value)
    ensures MakePlans(i, g, available).Some? ==>
      var plans := MakePlans(i, g, available).value;
      AudiencesOf(plans) == available && forall k :: 0 <= k < |plans| ==> PlanMade(i, g, plans[k])
    decreases |available|
  {
    hide MakePlan; hide PlanMade; hide Children; hide AllCompilable; hide AuthoredBy;
    if available != [] {
      PlanIs(i, g, available[0]);
      PlansIs(i, g, available[1..]);
      assert available == [available[0]] + available[1..];
      if MakePlans(i, g, available).Some? {
        var p, rest := MakePlan(i, g, available[0]).value, MakePlans(i, g, available[1..]).value;
        assert ([p] + rest)[1..] == rest;
      }
    }
  }

  lemma {:induction false} SetupIs(i: Input, g: Group, available: seq<Audience>)
    ensures SetupsFor(i, g, available, SetupOf(i, g, available))
    decreases |available|
  {
    if available != [] {
      SetupIs(i, g, available[1..]);
      assert available == [available[0]] + available[1..];
    }
  }

  /** One group: passed over, compiled to its entry, or a failure. */
  lemma GroupIs(i: Input, g: Group)
    ensures CompileGroup(i, g).Failed? <==> !Sound(i, g)
    ensures CompileGroup(i, g).Made? <==> Sound(i, g) && Runs(i, g)
    ensures CompileGroup(i, g).Made? ==> EntryMade(i, g, CompileGroup(i, g).entry) && NamesOf(CompileGroup(i, g).entry) == CalledBy(i, g)
  {
    hide IsName; hide Identifier; hide Children; hide Offered; hide MakePlans; hide SetupOf; hide AllCompilable; hide PlanMade; hide Lists;
    hide NamesOf; hide CalledBy; hide AudiencesOf; hide AuthoredBy; hide SetupsFor;
    IdentifierIs(g.name);
    OffersIs(i, g);
    if i.settings(g.action).Some? {
      var available := AudiencesFor(i, g);
      PlansIs(i, g, available);
      SetupIs(i, g, available);
      SoundIs(i, g);
      if CompileGroup(i, g).Made? {
        CalledIs(i, g, CompileGroup(i, g).entry);
      }
    }
  }

  lemma SoundIs(i: Input, g: Group)
    requires i.settings(g.action).Some?
    ensures forall k :: 0 <= k < |AudiencesFor(i, g)| ==> Children(g.plans, AudiencesFor(i, g)[k]).Some?
    ensures Sound(i, g) <==> Identifier(g.name) && forall k :: 0 <= k < |AudiencesFor(i, g)| ==>
      AllCompilable(i, g, AudiencesFor(i, g)[k], AuthoredBy(i, g, AudiencesFor(i, g)[k]) + Children(g.plans, AudiencesFor(i, g)[k]).value)
  {
    hide Identifier; hide Children; hide AllCompilable; hide Offers; hide AuthoredBy; hide RunsChildren;
    OffersIs(i, g);
    RunsIs(i, g, User);
    RunsIs(i, g, System);
  }

  lemma CalledIs(i: Input, g: Group, e: Entry)
    requires EntryMade(i, g, e)
    ensures NamesOf(e) == CalledBy(i, g)
  {
    hide PlanMade; hide Lists; hide SetupsFor;
    QualifiedIs(g.name);
    var as_ := AudiencesFor(i, g);
    var d := DefaultFor(i, g);
    assert Other(d) == (if d.User? then System else User);
    if |as_| == 2 {
      assert as_[1..] == [System] && as_[1..][1..] == [];
      assert OtherEntries(e.name, [System], e.chief) == if e.chief.System? then [] else [EntryName(e.name, System)];
    } else {
      assert as_ == [e.chief] && as_[1..] == [];
      assert OtherEntries(e.name, as_, e.chief) == [];
      assert !Offers(i, g, Other(e.chief)) by {
        match e.chief case User => case System =>
      }
    }
  }

  lemma QualifiedIs(name: string)
    ensures forall a :: EntryName(name, a) == Qualified(name, a)
    ensures DefaultName(name) == name + ".mjs"
  {
    assert name + "-" + "user" + ".mjs" == name + "-user.mjs";
    assert name + "-" + "system" + ".mjs" == name + "-system.mjs";
  }

  // ----------------------------------------------------------------------- all groups

  ghost function Running(i: Input, groups: seq<Group>): seq<Group> {
    if groups == [] then [] else (if Runs(i, groups[0]) then [groups[0]] else []) + Running(i, groups[1..])
  }

  /** Every name of every group that runs, in order. */
  ghost function AllCalled(i: Input, groups: seq<Group>): seq<string> {
    if groups == [] then [] else (if Runs(i, groups[0]) then CalledBy(i, groups[0]) else []) + AllCalled(i, groups[1..])
  }

  ghost predicate Made(i: Input, groups: seq<Group>, es: seq<Entry>) {
    |es| == |groups| && forall k :: 0 <= k < |es| ==> EntryMade(i, groups[k], es[k])
  }

  lemma ClaimedParts(a: seq<string>, b: seq<string>, occupied: set<string>)
    ensures Claimable(a + b, occupied) <==> Claimable(a, occupied) && Claimable(b, occupied + SetOf(a))
  {
    if Claimable(a + b, occupied) {
      ClaimTail(a, b, occupied);
      forall k | 0 <= k < |a| ensures (a + b)[k] == a[k] {}
      forall k | 0 <= k < |b| ensures b[k] !in SetOf(a) {
        assert (a + b)[|a| + k] == b[k];
      }
    }
  }

  /** Compiling succeeds exactly when every group is sound and all generated names are new and
      different; the spec then has one entry for every group that runs, in order. */
  lemma {:induction false} CompilesExactly(i: Input, groups: seq<Group>, occupied: set<string>)
    ensures CompileAll(i, groups, occupied).Some? <==>
      (forall k :: 0 <= k < |groups| ==> Sound(i, groups[k])) && Claimable(AllCalled(i, groups), occupied)
    ensures CompileAll(i, groups, occupied).Some? ==> Made(i, Running(i, groups), CompileAll(i, groups, occupied).value)
    decreases |groups|
  {
    hide CompileGroup; hide Sound; hide Runs; hide EntryMade; hide NamesOf; hide CalledBy; hide Claimable; hide SetOf;
    if groups == [] {
      NothingClaimed(occupied);
    } else {
      var g := groups[0];
      GroupIs(i, g);
      assert groups == [g] + groups[1..];
      var c := CompileGroup(i, g);
      if c.Made? {
        ClaimedParts(CalledBy(i, g), AllCalled(i, groups[1..]), occupied);
        CompilesExactly(i, groups[1..], occupied + SetOf(NamesOf(c.entry)));
        if CompileAll(i, groups, occupied).Some? {
          MadeCons(i, g, Running(i, groups[1..]), c.entry, CompileAll(i, groups[1..], occupied + SetOf(NamesOf(c.entry))).value);
        }
      } else if c.Skipped? {
        CompilesExactly(i, groups[1..], occupied);
        assert [] + Running(i, groups[1..]) == Running(i, groups[1..]) && [] + AllCalled(i, groups[1..]) == AllCalled(i, groups[1..]);
      }
    }
  }

  lemma MadeCons(i: Input, g: Group, groups: seq<Group>, e: Entry, es: seq<Entry>)
    requires EntryMade(i, g, e) && Made(i, groups, es)
    ensures Made(i, [g] + groups, [e] + es)
  {
    hide EntryMade;
  }

  lemma NothingClaimed(occupied: set<string>)
    ensures Claimable([], occupied)
  {
  }

  // --------------------------------------------------------------------- what is read

  /** The family the runtime reads of a group. */
  ghost predicate FamilyReads(i: Input, domain: Value -> Option<Value>, g: Group, f: Family) {
    && Runs(i, g) && f.name == g.name && f.action == g.action && [f.entry] + f.aliases == CalledBy(i, g)
    && f.default == (if Offers(i, g, DefaultFor(i, g)) then Some(DefaultFor(i, g)) else None)
    && |f.plans| == |AudiencesFor(i, g)|
    && (forall k :: 0 <= k < |f.plans| ==> f.plans[k].0 == AudiencesFor(i, g)[k] && PlanReads(i, domain, g, f.plans[k].0, f.plans[k].1))
    && (if i.operations == map[] then f.setup == [] else SetupsFor(i, g, AudiencesFor(i, g), f.setup))
  }

  lemma StepReads(i: Input, domain: Value -> Option<Value>, g: Group, a: Audience, child: string, m: Made)
    requires MadeFor(i, g, a, child, m) && Acceptable(domain, m)
    ensures StepFor(i, domain, g, a, child, StepOf(domain, m))
  {
    hide AuthoredBy; hide ParseStep; hide IsName; hide IsBinPath;
  }

  lemma {:induction false} StepsRead(i: Input, domain: Value -> Option<Value>, g: Group, a: Audience, children: seq<string>, ms: seq<Made>)
    requires AllMadeFor(i, g, a, children, ms) && AllAcceptable(domain, ms)
    ensures StepsFor(i, domain, g, a, children, StepsOf(domain, ms))
    decreases |ms|
  {
    hide MadeFor; hide Acceptable; hide StepFor; hide StepOf;
    if ms != [] {
      StepReads(i, domain, g, a, children[0], ms[0]);
      forall k | 0 <= k < |ms[1..]| ensures MadeFor(i, g, a, children[1..][k], ms[1..][k]) {
        assert MadeFor(i, g, a, children[k + 1], ms[k + 1]);
      }
      StepsRead(i, domain, g, a, children[1..], ms[1..]);
      assert children == [children[0]] + children[1..];
    }
  }

  lemma PlanRead(i: Input, domain: Value -> Option<Value>, g: Group, p: Plan)
    requires PlanMade(i, g, p) && AllAcceptable(domain, p.steps)
    ensures PlanReads(i, domain, g, p.audience, StepsOf(domain, p.steps))
  {
    hide RunsChildren; hide AllMadeFor; hide StepsFor; hide IsBinPath; hide ParseStep; hide IsName;
    var a := p.audience;
    if i.roots(g.name, a).None? {
      var children :| RunsChildren(i, g, a, children) && AllMadeFor(i, g, a, children, p.steps);
      StepsRead(i, domain, g, a, children, p.steps);
    } else {
      var root := i.roots(g.name, a).value;
      var children :| RunsChildren(i, g, a, children) && ShellFor(i, g, a, root, children, p.steps[0]);
      assert p.steps == [p.steps[0]];
      StepsRead(i, domain, g, a, children, p.steps[0].children);
    }
  }

  lemma FamilyRead(i: Input, domain: Value -> Option<Value>, g: Group, e: Entry, f: Family)
    requires EntryMade(i, g, e) && Admissible(domain, e) && ReadBack(domain, f, e)
    ensures FamilyReads(i, domain, g, f)
  {
    CalledIs(i, g, e);
    hide PlanMade; hide AllAcceptable; hide PlanReads; hide StepsOf; hide IsName; hide SetupOk; hide Offers; hide CalledBy; hide SetupsFor;
    hide EntryName; hide Aliases;
    forall k | 0 <= k < |f.plans| ensures f.plans[k].0 == AudiencesFor(i, g)[k] && PlanReads(i, domain, g, f.plans[k].0, f.plans[k].1) {
      assert AudiencesOf(e.plans)[k] == e.plans[k].audience;
      PlanRead(i, domain, g, e.plans[k]);
    }
  }

  /** A compiled spec that the runtime admits has, for every group that runs and in their order,
      the family that runs that group's children. */
  lemma SpecReads(i: Input, groups: seq<Group>, occupied: set<string>, domain: Value -> Option<Value>)
    requires CompileAll(i, groups, occupied).Some?
    requires ParseSpec(domain, EmitSpec(CompileAll(i, groups, occupied).value)).Some?
    ensures var spec := ParseSpec(domain, EmitSpec(CompileAll(i, groups, occupied).value)).value;
      |spec| == |Running(i, groups)| && forall k :: 0 <= k < |spec| ==> FamilyReads(i, domain, Running(i, groups)[k], spec[k])
  {
    hide CompileAll; hide EmitSpec; hide ParseSpec; hide FamilyReads; hide EntryMade; hide ReadBack; hide Admissible; hide GroupFit; hide Sound;
    hide Claimable; hide AllCalled; hide Running;
    var es := CompileAll(i, groups, occupied).value;
    CompilesExactly(i, groups, occupied);
    CompiledAccepted(i, groups, occupied, domain);
    CompiledFit(i, domain, groups, occupied);
    var spec := ParseSpec(domain, EmitSpec(es)).value;
    forall k | 0 <= k < |spec| ensures FamilyReads(i, domain, Running(i, groups)[k], spec[k]) {
      FamilyRead(i, domain, Running(i, groups)[k], es[k], spec[k]);
    }
  }
}
