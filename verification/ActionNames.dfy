/** From the compiler to the runtime: which compiled specs the runtime admits, that generated
    names are distinct, and that each name is decoded to the family and audience it was
    generated for. */
module ActionNames {
  import opened Wrappers
  import opened ActionSpec
  import opened ActionCompile

  // ----------------------------------------------------------------- contained names

  lemma {:induction false} KeptShort(parts: seq<string>)
    ensures |Kept(parts)| <= |parts|
    ensures Kept(parts) == parts <==> forall i :: 0 <= i < |parts| ==> parts[i] != "" && parts[i] != "."
    ensures |Kept(parts)| == |parts| ==> Kept(parts) == parts
  {
    if parts != [] {
      KeptShort(parts[1..]);
      assert parts == [parts[0]] + parts[1..];
      if forall i :: 0 <= i < |parts[1..]| ==> parts[1..][i] != "" && parts[1..][i] != "." {
        assert forall i :: 1 <= i < |parts| ==> parts[i] == parts[1..][i - 1];
      }
    }
  }

  lemma {:induction false} KeptParts(parts: seq<string>)
    ensures forall k :: k in Kept(parts) ==> k in parts && k != "" && k != "."
  {
    if parts != [] {
      KeptParts(parts[1..]);
    }
  }

  lemma {:induction false} SplitUnjoined(parts: seq<string>)
    requires parts != [] && forall i :: 0 <= i < |parts| ==> '/' !in parts[i]
    ensures Text.Split(Text.Join(parts, "/"), '/') == parts
  {
    Text.SplitOfJoin(parts, '/');
  }

  /** A normalized name is `.` or has no empty and no `.` part. */
  lemma NormalizedParts(s: string)
    requires s != "" && s != "." && Normalized(s) == s
    ensures forall i :: 0 <= i < |Text.Split(s, '/')| ==> Text.Split(s, '/')[i] != "" && Text.Split(s, '/')[i] != "."
  {
    hide Text.Split; hide Text.Join; hide Kept;
    var parts := Text.Split(s, '/');
    var kept := Kept(parts);
    Text.JoinOfSplit(s, '/');
    KeptParts(parts);
    KeptShort(parts);
    if kept == [] {
      EmptyJoin();
    } else {
      forall i | 0 <= i < |kept| ensures '/' !in kept[i] {
        assert kept[i] in parts;
        var j :| 0 <= j < |parts| && parts[j] == kept[i];
      }
      SplitUnjoined(kept);
    }
  }

  lemma EmptyJoin()
    ensures Text.Join([], "/") == ""
  {
  }

  lemma BinParts(child: string)
    ensures Text.Split("bin/" + child, '/') == ["bin"] + Text.Split(child, '/')
    ensures Text.StartsWith("bin/" + child, "bin/")
  {
    var head := "bin";
    assert "bin/" + child == head + ['/'] + child;
    Text.SplitAppend(head, '/', child);
    Text.SplitWhole(head, '/');
    hide Text.Split;
    assert ("bin/" + child)[..4] == "bin/";
  }

  /** Every contained child name is admitted beneath `bin/`, except `.`. */
  lemma ContainedExact(child: string)
    requires Relative(child)
    ensures IsBinPath("bin/" + child) <==> child != "."
  {
    hide Text.Split; hide Normalized;
    BinParts(child);
    var parts := Text.Split(child, '/');
    var all := Text.Split("bin/" + child, '/');
    if child == "." {
      Text.SplitWhole(".", '/');
      assert all[1] == ".";
    } else {
      NormalizedParts(child);
      forall i | 0 <= i < |all| ensures PartOk(all[i]) {
        if i > 0 {
          assert all[i] == parts[i - 1];
          assert parts[i - 1] in parts;
        } else {
          assert all[0] == "bin";
        }
      }
    }
  }

  // -------------------------------------------------------------------- table fields

  lemma {:induction false} FieldAt(rows: seq<(string, Value)>, i: nat)
    requires i < |rows| && forall j :: 0 <= j < i ==> rows[j].0 != rows[i].0
    ensures Field(rows, rows[i].0) == Some(rows[i].1)
    decreases i
  {
    if i > 0 {
      FieldAt(rows[1..], i - 1);
    }
  }

  lemma {:induction false} FieldNone(rows: seq<(string, Value)>, key: string)
    requires forall j :: 0 <= j < |rows| ==> rows[j].0 != key
    ensures Field(rows, key).None?
  {
    if rows != [] {
      FieldNone(rows[1..], key);
    }
  }

  // --------------------------------------------------------------------------- steps

  /** What the runtime asks of a compiled step. */
  predicate Acceptable(domain: Value -> Option<Value>, m: Made)
    decreases m
  {
    match m
    case Ref(action) => IsName(action)
    case Op(declaration) => ParseStep(domain, declaration).Some?
    case Run(child) => IsBinPath("bin/" + child)
    case Shell(dest, children) => IsBinPath("bin/" + dest) && AllAcceptable(domain, children)
  }

  predicate AllAcceptable(domain: Value -> Option<Value>, ms: seq<Made>)
    decreases ms
  {
    ms == [] || (Acceptable(domain, ms[0]) && AllAcceptable(domain, ms[1..]))
  }

  lemma RefRows(action: string)
    ensures var v := Table([("kind", Str("action")), ("action", Str(action))]);
      Member(v, "kind") == Some(Str("action")) && Member(v, "action") == Some(Str(action))
  {
    var rows := [("kind", Str("action")), ("action", Str(action))];
    FieldAt(rows, 0);
    FieldAt(rows, 1);
  }

  lemma RunRows(path: string)
    ensures var v := Table([("kind", Str("exec")), ("path", Str(path))]);
      Member(v, "kind") == Some(Str("exec")) && Member(v, "path") == Some(Str(path)) && Member(v, "children").None?
  {
    var rows := [("kind", Str("exec")), ("path", Str(path))];
    FieldAt(rows, 0);
    FieldAt(rows, 1);
    FieldNone(rows, "children");
  }

  lemma ShellRows(path: string, children: seq<Value>)
    ensures var v := Table([("kind", Str("exec")), ("path", Str(path)), ("children", List(children))]);
      Member(v, "kind") == Some(Str("exec")) && Member(v, "path") == Some(Str(path)) && Member(v, "children") == Some(List(children))
  {
    var rows := [("kind", Str("exec")), ("path", Str(path)), ("children", List(children))];
    FieldAt(rows, 0);
    FieldAt(rows, 1);
    FieldAt(rows, 2);
  }

  lemma Kinds()
    ensures Str("action") != Str("domain") && Str("exec") != Str("domain") && Str("exec") != Str("action")
  {
  }

  /** What the runtime reads for a compiled step it admits. */
  function StepOf(domain: Value -> Option<Value>, m: Made): Step
    decreases m
  {
    match m
    case Ref(action) => Action(action)
    case Op(declaration) => (match ParseStep(domain, declaration) case Some(s) => s case None => Domain(declaration))
    case Run(child) => Exec("bin/" + child, None)
    case Shell(dest, children) => Exec("bin/" + dest, Some(Steps(StepsOf(domain, children))))
  }

  function StepsOf(domain: Value -> Option<Value>, ms: seq<Made>): seq<Step>
    decreases ms
  {
    if ms == [] then [] else [StepOf(domain, ms[0])] + StepsOf(domain, ms[1..])
  }

  lemma {:induction false} StepAccepted(domain: Value -> Option<Value>, m: Made)
    ensures ParseStep(domain, EmitStep(m)) == if Acceptable(domain, m) then Some(StepOf(domain, m)) else None
    decreases m
  {
    hide IsName; hide IsBinPath; hide Field; hide Member;
    Kinds();
    match m {
      case Ref(action) => RefRows(action);
      case Op(declaration) =>
      case Run(child) => RunRows("bin/" + child);
      case Shell(dest, children) =>
        ShellRows("bin/" + dest, EmitSteps(children));
        StepsAccepted(domain, children);
    }
  }

  lemma {:induction false} StepsAccepted(domain: Value -> Option<Value>, ms: seq<Made>)
    ensures ParseSteps(domain, EmitSteps(ms)) == if AllAcceptable(domain, ms) then Some(StepsOf(domain, ms)) else None
    decreases ms
  {
    hide Acceptable; hide EmitStep; hide ParseStep; hide StepOf;
    if ms != [] {
      StepAccepted(domain, ms[0]);
      StepsAccepted(domain, ms[1..]);
      assert EmitSteps(ms)[1..] == EmitSteps(ms[1..]);
    }
  }

  // ------------------------------------------------------------------------- families

  /** What holds of every compiled entry. */
  predicate EntryOk(e: Entry) {
    && IsName(e.name) && Audible(AudiencesOf(e.plans)) && e.chief in AudiencesOf(e.plans)
    && (e.setup.Some? ==> forall k :: 0 <= k < |e.setup.value| ==> e.setup.value[k].0 in AudiencesOf(e.plans))
  }

  predicate Audible(as_: seq<Audience>) {
    as_ == [User] || as_ == [System] || as_ == [User, System]
  }

  lemma {:induction false} PlansFor(i: Input, g: Group, available: seq<Audience>)
    requires forall k :: 0 <= k < |available| ==> Children(g.plans, available[k]).Some?
    requires MakePlans(i, g, available).Some?
    ensures AudiencesOf(MakePlans(i, g, available).value) == available
  {
    hide MakePlan;
    if available != [] {
      PlansFor(i, g, available[1..]);
      PlanFor(i, g, available[0]);
      var p, rest := MakePlan(i, g, available[0]).value, MakePlans(i, g, available[1..]).value;
      assert ([p] + rest)[1..] == rest;
    }
  }

  lemma PlanFor(i: Input, g: Group, a: Audience)
    requires Children(g.plans, a).Some? && MakePlan(i, g, a).Some?
    ensures MakePlan(i, g, a).value.audience == a
  {
    hide MakeSteps;
  }

  lemma {:induction false} SetupFor(i: Input, g: Group, available: seq<Audience>)
    ensures |SetupOf(i, g, available)| == |available|
    ensures forall k :: 0 <= k < |available| ==> SetupOf(i, g, available)[k].0 == available[k]
  {
    if available != [] {
      SetupFor(i, g, available[1..]);
    }
  }

  lemma CompiledOk(i: Input, g: Group)
    requires CompileGroup(i, g).Made?
    ensures EntryOk(CompileGroup(i, g).entry) && CompileGroup(i, g).entry.name == g.name
  {
    hide MakePlans; hide SetupOf; hide AudiencesOf; hide Children; hide IsName;
    var available := Offered(i.settings(g.action).value, g);
    PlansFor(i, g, available);
    SetupFor(i, g, available);
  }

  lemma {:induction false} CompiledFrom(i: Input, groups: seq<Group>, occupied: set<string>, k: nat) returns (g: Group)
    requires CompileAll(i, groups, occupied).Some? && k < |CompileAll(i, groups, occupied).value|
    ensures g in groups && CompileGroup(i, g) == ActionCompile.Made(CompileAll(i, groups, occupied).value[k])
    decreases |groups|
  {
    hide CompileGroup; hide NamesOf; hide Claimable; hide SetOf;
    var c := CompileGroup(i, groups[0]);
    if c.Skipped? {
      g := CompiledFrom(i, groups[1..], occupied, k);
    } else if k == 0 {
      g := groups[0];
    } else {
      g := CompiledFrom(i, groups[1..], occupied + SetOf(NamesOf(c.entry)), k - 1);
    }
  }

  /** From the policies to the families: no family runs an audience that its action's override or
      the base disables, none exists for an action switched off, and it has a default exactly
      when the audience declared for the action, else for the base, has a plan. */
  lemma PolicyNarrows(i: Input, base: Policy, overrides: string -> Option<Policy>, groups: seq<Group>, occupied: set<string>, k: nat)
    requires Governed(i, base, overrides)
    requires CompileAll(i, groups, occupied).Some? && k < |CompileAll(i, groups, occupied).value|
    ensures var e := CompileAll(i, groups, occupied).value[k]; var p := overrides(e.action);
      && p.Some?
      && (forall a :: a in AudiencesOf(e.plans) ==> Enabled(base, a) && Enabled(p.value, a))
      && (e.hasDefault <==> Wanted(base, p.value) in AudiencesOf(e.plans))
      && (e.hasDefault ==> e.chief == Wanted(base, p.value))
  {
    hide CompileAll; hide MakePlans; hide SetupOf; hide AudiencesOf; hide Children; hide IsName;
    var g := CompiledFrom(i, groups, occupied, k);
    assert i.settings(g.action).Some?;
    PlansFor(i, g, Offered(i.settings(g.action).value, g));
  }

  lemma {:induction false} PlanRows(plans: seq<Plan>)
    requires Audible(AudiencesOf(plans))
    ensures var v := Table(EmitPlans(plans));
      KnownAudiences(EmitPlans(plans)) && Available(v) == AudiencesOf(plans)
      && forall k :: 0 <= k < |plans| ==> Member(v, NameOf(plans[k].audience)) == Some(List(EmitSteps(plans[k].steps)))
  {
    hide EmitSteps;
    var rows := EmitPlans(plans);
    assert AudiencesOf(plans)[0] == plans[0].audience;
    if |plans| == 1 {
      assert plans[1..] == [];
      assert rows == [(NameOf(plans[0].audience), List(EmitSteps(plans[0].steps)))];
      FieldAt(rows, 0);
      if plans[0].audience.User? {
        FieldNone(rows, "system");
      } else {
        FieldNone(rows, "user");
      }
    } else {
      assert AudiencesOf(plans)[1] == plans[1].audience;
      assert plans[1..][1..] == [] && plans[1..][0] == plans[1];
      assert EmitPlans(plans[1..]) == [(NameOf(plans[1].audience), List(EmitSteps(plans[1].steps)))];
      assert rows == [("user", List(EmitSteps(plans[0].steps))), ("system", List(EmitSteps(plans[1].steps)))];
      FieldAt(rows, 0);
      FieldAt(rows, 1);
    }
  }

  predicate PlansOk(domain: Value -> Option<Value>, plans: seq<Plan>) {
    forall k :: 0 <= k < |plans| ==> AllAcceptable(domain, plans[k].steps)
  }

  /** The plans as the runtime reads them. */
  function PlansOf(domain: Value -> Option<Value>, plans: seq<Plan>): (r: seq<(Audience, seq<Step>)>)
    ensures |r| == |plans| && forall k :: 0 <= k < |r| ==> r[k] == (plans[k].audience, StepsOf(domain, plans[k].steps))
  {
    if plans == [] then [] else [(plans[0].audience, StepsOf(domain, plans[0].steps))] + PlansOf(domain, plans[1..])
  }

  lemma {:induction false} PlansAccepted(domain: Value -> Option<Value>, v: Value, plans: seq<Plan>)
    requires forall k :: 0 <= k < |plans| ==> Member(v, NameOf(plans[k].audience)) == Some(List(EmitSteps(plans[k].steps)))
    ensures ParsePlans(domain, v, AudiencesOf(plans)) == if PlansOk(domain, plans) then Some(PlansOf(domain, plans)) else None
    decreases |plans|
  {
    hide AllAcceptable; hide ParseSteps; hide EmitSteps; hide Member; hide StepsOf;
    if plans != [] {
      StepsAccepted(domain, plans[0].steps);
      PlansAccepted(domain, v, plans[1..]);
      assert AudiencesOf(plans)[1..] == AudiencesOf(plans[1..]);
      assert forall k :: 1 <= k < |plans| ==> plans[k] == plans[1..][k - 1];
    }
  }

  predicate BasedirOk(v: Value) { v.Str? || v.Flag? }

  predicate SetupOk(e: Entry) {
    e.setup.Some? ==> forall k :: 0 <= k < |e.setup.value| ==> BasedirOk(e.setup.value[k].1.basedir)
  }

  lemma SetupRow(s: Setup)
    ensures var v := Table([("env", Flag(s.env)), ("basedir", s.basedir)]);
      Member(v, "env") == Some(Flag(s.env)) && Member(v, "basedir") == Some(s.basedir)
  {
    var rows := [("env", Flag(s.env)), ("basedir", s.basedir)];
    FieldAt(rows, 0);
    FieldAt(rows, 1);
  }

  lemma {:induction false} SetupAccepted(rows: seq<(Audience, Setup)>, available: seq<Audience>)
    requires forall k :: 0 <= k < |rows| ==> rows[k].0 in available
    ensures ParseSetup(EmitSetup(rows), available).Some? <==> forall k :: 0 <= k < |rows| ==> BasedirOk(rows[k].1.basedir)
    ensures ParseSetup(EmitSetup(rows), available).Some? ==> ParseSetup(EmitSetup(rows), available).value == rows
  {
    hide Member;
    if rows != [] {
      SetupRow(rows[0].1);
      SetupAccepted(rows[1..], available);
      assert EmitSetup(rows)[1..] == EmitSetup(rows[1..]);
      assert AudienceOf(NameOf(rows[0].0)) == Some(rows[0].0);
      assert forall k :: 1 <= k < |rows| ==> rows[k] == rows[1..][k - 1];
    }
  }

  /** The rows of an emitted family, one by one. */
  lemma FamilyRows(e: Entry)
    ensures var v := EmitFamily(e);
      Member(v, "name") == Some(Str(e.name)) && Member(v, "action") == Some(Str(e.action))
      && Member(v, "entry") == Some(Str(EntryName(e.name, e.chief)))
      && Member(v, "aliases") == Some(List(Strings(Aliases(e.name, AudiencesOf(e.plans), e.chief, e.hasDefault))))
      && Member(v, "plans") == Some(Table(EmitPlans(e.plans)))
    ensures Member(EmitFamily(e), "setup") == match e.setup case None => None case Some(rows) => Some(Table(EmitSetup(rows)))
    ensures Member(EmitFamily(e), "default") == if e.hasDefault then Some(Str(NameOf(e.chief))) else None
  {
    hide EmitPlans; hide EmitSetup; hide Strings; hide Aliases; hide EntryName; hide NameOf; hide AudiencesOf;
    var rows := EmitFamily(e).rows;
    FieldAt(rows, 0);
    FieldAt(rows, 1);
    FieldAt(rows, 2);
    FieldAt(rows, 3);
    FieldAt(rows, 4);
    if e.setup.Some? {
      FieldAt(rows, 5);
    } else {
      FieldNone(rows, "setup");
    }
    if e.hasDefault {
      FieldAt(rows, |rows| - 1);
    } else {
      FieldNone(rows, "default");
    }
  }

  lemma ChiefFound(name: string, available: seq<Audience>, chief: Audience)
    requires Audible(available) && chief in available
    ensures EntryAudience(name, Some(Str(EntryName(name, chief))), available) == Some(chief)
  {
    NamesDiffer(name);
    hide EntryName;
  }

  /** What the runtime reads where it admits a compiled family: the names, every step of every
      plan, and the setup, as compiled. */
  predicate ReadBack(domain: Value -> Option<Value>, f: Family, e: Entry) {
    && f.name == e.name && f.action == e.action && f.entry == EntryName(e.name, e.chief)
    && f.aliases == Aliases(e.name, AudiencesOf(e.plans), e.chief, e.hasDefault)
    && f.default == (if e.hasDefault then Some(e.chief) else None)
    && f.plans == PlansOf(domain, e.plans)
    && f.setup == (match e.setup case None => [] case Some(rows) => rows)
  }

  /** What the runtime asks of a compiled family. */
  predicate Admissible(domain: Value -> Option<Value>, e: Entry) {
    IsName(e.action) && PlansOk(domain, e.plans) && SetupOk(e)
  }

  lemma FamilyAccepted(domain: Value -> Option<Value>, e: Entry)
    requires EntryOk(e)
    ensures ParseFamily(domain, e.name, EmitFamily(e)).Some? <==> Admissible(domain, e)
    ensures ParseFamily(domain, e.name, EmitFamily(e)).Some? ==> ReadBack(domain, ParseFamily(domain, e.name, EmitFamily(e)).value, e)
  {
    hide Member; hide EmitPlans; hide EmitSetup; hide Strings; hide Aliases; hide EntryName; hide IsName; hide ParsePlans; hide ParseSetup;
    hide EntryAudience; hide PlansOk; hide Available; hide KnownAudiences; hide BasedirOk; hide PlansOf;
    FamilyRows(e);
    PlanRows(e.plans);
    PlansAccepted(domain, Table(EmitPlans(e.plans)), e.plans);
    ChiefFound(e.name, AudiencesOf(e.plans), e.chief);
    if e.setup.Some? {
      SetupAccepted(e.setup.value, AudiencesOf(e.plans));
    }
  }

  // ------------------------------------------------------------- what the inputs must give

  /** A child, before compiling: what it stands for can be named, is a declaration the runtime
      takes, or is no `.`. */
  predicate ChildFit(i: Input, domain: Value -> Option<Value>, authored: seq<string>, child: string, a: Audience) {
    match ChildAction(i, authored, child, a)
    case Some(Some(action)) => IsName(action)
    case _ => if child in i.operations then ParseStep(domain, i.operations[child]).Some? else child != "."
  }

  predicate ChildrenFit(i: Input, domain: Value -> Option<Value>, authored: seq<string>, children: seq<string>, a: Audience) {
    forall k :: 0 <= k < |children| ==> ChildFit(i, domain, authored, children[k], a)
  }

  /** The root of an audience stands beneath `bin`, its base directory is a text or a flag where
      one is read, and its children fit. */
  predicate AudienceFit(i: Input, domain: Value -> Option<Value>, g: Group, a: Audience) {
    var root := i.roots(g.name, a);
    var authored := if root.None? then [] else root.value.children;
    && (root.Some? ==> IsBinPath("bin/" + root.value.dest) && (i.operations != map[] ==> BasedirOk(root.value.basedir)))
    && (Children(g.plans, a).Some? ==> ChildrenFit(i, domain, authored, authored + Children(g.plans, a).value, a))
  }

  /** A group that is compiled at all has a word and fit audiences. */
  predicate GroupFit(i: Input, domain: Value -> Option<Value>, g: Group) {
    i.settings(g.action).Some? && Offered(i.settings(g.action).value, g) != [] ==>
      IsName(g.action) && forall a :: a in Offered(i.settings(g.action).value, g) ==> AudienceFit(i, domain, g, a)
  }

  lemma ChildExact(i: Input, domain: Value -> Option<Value>, authored: seq<string>, child: string, a: Audience)
    requires MakeStep(i, authored, child, a).Some?
    ensures Acceptable(domain, MakeStep(i, authored, child, a).value) <==> ChildFit(i, domain, authored, child, a)
  {
    hide Relative; hide IsBinPath; hide IsName; hide ParseStep; hide ChildAction;
    ContainedExact(child);
  }

  lemma {:induction false} ChildrenExact(i: Input, domain: Value -> Option<Value>, authored: seq<string>, children: seq<string>, a: Audience)
    requires MakeSteps(i, authored, children, a).Some?
    ensures AllAcceptable(domain, MakeSteps(i, authored, children, a).value) <==> ChildrenFit(i, domain, authored, children, a)
    decreases |children|
  {
    hide MakeStep; hide Acceptable; hide ChildFit;
    if children != [] {
      ChildExact(i, domain, authored, children[0], a);
      ChildrenExact(i, domain, authored, children[1..], a);
      var first, rest := MakeStep(i, authored, children[0], a).value, MakeSteps(i, authored, children[1..], a).value;
      assert ([first] + rest)[1..] == rest;
      assert forall k :: 1 <= k < |children| ==> children[k] == children[1..][k - 1];
    }
  }

  predicate PlanFit(i: Input, domain: Value -> Option<Value>, g: Group, a: Audience) {
    var root := i.roots(g.name, a);
    var authored := if root.None? then [] else root.value.children;
    && (root.Some? ==> IsBinPath("bin/" + root.value.dest))
    && (Children(g.plans, a).Some? ==> ChildrenFit(i, domain, authored, authored + Children(g.plans, a).value, a))
  }

  lemma PlanExact(i: Input, domain: Value -> Option<Value>, g: Group, a: Audience)
    requires Children(g.plans, a).Some? && MakePlan(i, g, a).Some?
    ensures AllAcceptable(domain, MakePlan(i, g, a).value.steps) <==> PlanFit(i, domain, g, a)
  {
    hide MakeSteps; hide ChildrenFit; hide IsBinPath; hide Children;
    var root := i.roots(g.name, a);
    var authored := if root.None? then [] else root.value.children;
    ChildrenExact(i, domain, authored, authored + Children(g.plans, a).value, a);
  }

  lemma {:induction false} PlansExact(i: Input, domain: Value -> Option<Value>, g: Group, available: seq<Audience>)
    requires forall k :: 0 <= k < |available| ==> Children(g.plans, available[k]).Some?
    requires MakePlans(i, g, available).Some?
    ensures PlansOk(domain, MakePlans(i, g, available).value) <==> forall k :: 0 <= k < |available| ==> PlanFit(i, domain, g, available[k])
    decreases |available|
  {
    hide MakePlan; hide AllAcceptable; hide PlanFit; hide Children;
    if available != [] {
      PlanExact(i, domain, g, available[0]);
      PlansExact(i, domain, g, available[1..]);
      var p, rest := MakePlan(i, g, available[0]).value, MakePlans(i, g, available[1..]).value;
      OkCons(domain, p, rest);
      assert forall k :: 1 <= k < |available| ==> available[k] == available[1..][k - 1];
    }
  }

  lemma OkCons(domain: Value -> Option<Value>, p: Plan, rest: seq<Plan>)
    ensures PlansOk(domain, [p] + rest) <==> AllAcceptable(domain, p.steps) && PlansOk(domain, rest)
  {
    hide AllAcceptable;
    var all := [p] + rest;
    assert all[0] == p;
    assert forall k :: 0 <= k < |rest| ==> all[k + 1] == rest[k];
    if PlansOk(domain, rest) && AllAcceptable(domain, p.steps) {
      forall k | 0 <= k < |all| ensures AllAcceptable(domain, all[k].steps) {
        assert k > 0 ==> all[k] == rest[k - 1];
      }
    }
  }

  predicate RootBased(i: Input, g: Group, a: Audience) {
    i.roots(g.name, a).Some? ==> BasedirOk(i.roots(g.name, a).value.basedir)
  }

  lemma {:induction false} SetupExact(i: Input, g: Group, available: seq<Audience>)
    ensures |SetupOf(i, g, available)| == |available|
    ensures forall k :: 0 <= k < |available| ==> (BasedirOk(SetupOf(i, g, available)[k].1.basedir) <==> RootBased(i, g, available[k]))
  {
    if available != [] {
      SetupExact(i, g, available[1..]);
    }
  }

  /** A compiled group is admissible exactly when what went into it is fit. */
  lemma GroupExact(i: Input, domain: Value -> Option<Value>, g: Group)
    requires CompileGroup(i, g).Made?
    ensures Admissible(domain, CompileGroup(i, g).entry) <==> GroupFit(i, domain, g)
  {
    hide MakePlans; hide SetupOf; hide PlansOk; hide IsName; hide Children; hide PlanFit; hide RootBased; hide AudienceFit; hide BasedirOk;
    var available := Offered(i.settings(g.action).value, g);
    PlansExact(i, domain, g, available);
    SetupExact(i, g, available);
    forall k | 0 <= k < |available|
      ensures AudienceFit(i, domain, g, available[k]) <==>
        PlanFit(i, domain, g, available[k]) && (i.operations != map[] ==> RootBased(i, g, available[k]))
    {
      FitParts(i, domain, g, available[k]);
    }
  }

  lemma FitParts(i: Input, domain: Value -> Option<Value>, g: Group, a: Audience)
    ensures AudienceFit(i, domain, g, a) <==> PlanFit(i, domain, g, a) && (i.operations != map[] ==> RootBased(i, g, a))
  {
    hide ChildrenFit; hide IsBinPath; hide BasedirOk; hide Children;
  }

  // --------------------------------------------------------------------------- the spec

  ghost predicate AllOk(es: seq<Entry>) {
    forall k :: 0 <= k < |es| ==> EntryOk(es[k])
  }

  lemma {:induction false} CompileOk(i: Input, groups: seq<Group>, occupied: set<string>)
    requires CompileAll(i, groups, occupied).Some?
    ensures AllOk(CompileAll(i, groups, occupied).value)
    decreases |groups|
  {
    hide CompileGroup; hide Claimable; hide NamesOf; hide EntryOk;
    if groups != [] {
      var c := CompileGroup(i, groups[0]);
      if c.Made? {
        CompiledOk(i, groups[0]);
        CompileOk(i, groups[1..], occupied + SetOf(NamesOf(c.entry)));
      } else {
        CompileOk(i, groups[1..], occupied);
      }
    }
  }

  lemma {:induction false} FamiliesAccepted(domain: Value -> Option<Value>, es: seq<Entry>)
    requires AllOk(es)
    ensures ParseFamilies(domain, EmitFamilies(es)).Some? <==> forall k :: 0 <= k < |es| ==> Admissible(domain, es[k])
    ensures ParseFamilies(domain, EmitFamilies(es)).Some? ==>
      var spec := ParseFamilies(domain, EmitFamilies(es)).value;
      |spec| == |es| && forall k :: 0 <= k < |es| ==> ReadBack(domain, spec[k], es[k])
    decreases |es|
  {
    hide Admissible; hide ReadBack; hide EntryOk; hide ParseFamily; hide EmitFamily;
    if es != [] {
      FamilyAccepted(domain, es[0]);
      FamiliesAccepted(domain, es[1..]);
      assert EmitFamilies(es)[1..] == EmitFamilies(es[1..]);
      assert forall k :: 1 <= k < |es| ==> es[k] == es[1..][k - 1];
    }
  }

  predicate AllFit(i: Input, domain: Value -> Option<Value>, groups: seq<Group>) {
    forall k :: 0 <= k < |groups| ==> GroupFit(i, domain, groups[k])
  }

  lemma SkippedFit(i: Input, domain: Value -> Option<Value>, g: Group)
    requires CompileGroup(i, g).Skipped?
    ensures GroupFit(i, domain, g)
  {
    hide MakePlans; hide SetupOf; hide Children; hide IsName; hide AudienceFit;
  }

  lemma FitCons(i: Input, domain: Value -> Option<Value>, groups: seq<Group>)
    requires groups != []
    ensures AllFit(i, domain, groups) <==> GroupFit(i, domain, groups[0]) && AllFit(i, domain, groups[1..])
  {
    hide GroupFit;
    assert forall k :: 1 <= k < |groups| ==> groups[k] == groups[1..][k - 1];
    assert forall k :: 0 <= k < |groups| - 1 ==> groups[1..][k] == groups[k + 1];
  }

  predicate AllAdmissible(domain: Value -> Option<Value>, es: seq<Entry>) {
    forall k :: 0 <= k < |es| ==> Admissible(domain, es[k])
  }

  lemma AdmissibleCons(domain: Value -> Option<Value>, e: Entry, rest: seq<Entry>)
    ensures AllAdmissible(domain, [e] + rest) <==> Admissible(domain, e) && AllAdmissible(domain, rest)
  {
    hide Admissible;
    var all := [e] + rest;
    assert all[0] == e && forall k :: 0 <= k < |rest| ==> all[k + 1] == rest[k];
    if Admissible(domain, e) && AllAdmissible(domain, rest) {
      forall k | 0 <= k < |all| ensures Admissible(domain, all[k]) {
        assert k > 0 ==> all[k] == rest[k - 1];
      }
    }
  }

  lemma {:induction false} CompiledFit(i: Input, domain: Value -> Option<Value>, groups: seq<Group>, occupied: set<string>)
    requires CompileAll(i, groups, occupied).Some?
    ensures AllAdmissible(domain, CompileAll(i, groups, occupied).value) <==> AllFit(i, domain, groups)
    decreases |groups|
  {
    hide CompileGroup; hide Claimable; hide NamesOf; hide Admissible; hide GroupFit; hide AllAdmissible; hide AllFit;
    if groups == [] {
      NoneFit(i, domain);
    } else {
      FitCons(i, domain, groups);
      var c := CompileGroup(i, groups[0]);
      if c.Made? {
        GroupExact(i, domain, groups[0]);
        CompiledFit(i, domain, groups[1..], occupied + SetOf(NamesOf(c.entry)));
        AdmissibleCons(domain, c.entry, CompileAll(i, groups[1..], occupied + SetOf(NamesOf(c.entry))).value);
      } else {
        SkippedFit(i, domain, groups[0]);
        CompiledFit(i, domain, groups[1..], occupied);
      }
    }
  }

  lemma NoneFit(i: Input, domain: Value -> Option<Value>)
    ensures AllAdmissible(domain, []) && AllFit(i, domain, [])
  {
  }

  /** The runtime admits a compiled spec exactly when the declarations, references, root paths
      and child names that went into it are fit; it then reads back every family as compiled,
      step by step. */
  lemma CompiledAccepted(i: Input, groups: seq<Group>, occupied: set<string>, domain: Value -> Option<Value>)
    requires CompileAll(i, groups, occupied).Some?
    ensures var es := CompileAll(i, groups, occupied).value;
      ParseSpec(domain, EmitSpec(es)).Some? <==> AllFit(i, domain, groups)
    ensures var es := CompileAll(i, groups, occupied).value;
      ParseSpec(domain, EmitSpec(es)).Some? ==>
        |ParseSpec(domain, EmitSpec(es)).value| == |es|
        && forall k :: 0 <= k < |es| ==> ReadBack(domain, ParseSpec(domain, EmitSpec(es)).value[k], es[k])
  {
    hide CompileAll; hide EmitFamilies; hide ParseFamilies; hide Admissible; hide ReadBack; hide AllFit;
    var es := CompileAll(i, groups, occupied).value;
    CompileOk(i, groups, occupied);
    CompiledFit(i, domain, groups, occupied);
    FamiliesAccepted(domain, es);
    var rows := [("version", Num(1)), ("actions", Table(EmitFamilies(es)))];
    FieldAt(rows, 0);
    FieldAt(rows, 1);
  }

  // ------------------------------------------------------------------- distinct names

  /** All generated names, of all families. */
  function AllNames(es: seq<Entry>): seq<string> {
    if es == [] then [] else NamesOf(es[0]) + AllNames(es[1..])
  }

  lemma {:induction false} NamesDistinct(i: Input, groups: seq<Group>, occupied: set<string>)
    requires CompileAll(i, groups, occupied).Some?
    ensures Claimable(AllNames(CompileAll(i, groups, occupied).value), occupied)
    decreases |groups|
  {
    hide CompileGroup; hide NamesOf;
    if groups != [] {
      var c := CompileGroup(i, groups[0]);
      if c.Made? {
        var names, rest := NamesOf(c.entry), CompileAll(i, groups[1..], occupied + SetOf(NamesOf(c.entry))).value;
        NamesDistinct(i, groups[1..], occupied + SetOf(names));
        assert ([c.entry] + rest)[1..] == rest;
      } else {
        NamesDistinct(i, groups[1..], occupied);
      }
    }
  }

  lemma {:induction false} EntriesDiffer(es: seq<Entry>, occupied: set<string>)
    requires Claimable(AllNames(es), occupied)
    ensures forall k, l :: 0 <= k < l < |es| ==> EntryName(es[k].name, es[k].chief) != EntryName(es[l].name, es[l].chief)
    ensures forall k :: 0 <= k < |es| ==> EntryName(es[k].name, es[k].chief) in AllNames(es)
    decreases |es|
  {
    hide EntryName; hide Aliases;
    if es != [] {
      var a, b := NamesOf(es[0]), AllNames(es[1..]);
      ClaimTail(a, b, occupied);
      EntriesDiffer(es[1..], occupied);
      forall l | 0 < l < |es| ensures EntryName(es[0].name, es[0].chief) != EntryName(es[l].name, es[l].chief) {
        var x := EntryName(es[l].name, es[l].chief);
        assert es[l] == es[1..][l - 1];
        var j :| 0 <= j < |b| && b[j] == x;
        assert (a + b)[|a| + j] == x && (a + b)[0] == a[0];
      }
      assert a[0] in a + b;
      assert forall l :: 0 < l < |es| ==> es[l] == es[1..][l - 1];
    }
  }

  lemma ClaimTail(a: seq<string>, b: seq<string>, occupied: set<string>)
    requires Claimable(a + b, occupied)
    ensures Claimable(b, occupied)
  {
    forall k | 0 <= k < |b| ensures b[k] !in occupied {
      assert (a + b)[|a| + k] == b[k];
    }
    forall k, l | 0 <= k < l < |b| ensures b[k] != b[l] {
      assert (a + b)[|a| + k] == b[k] && (a + b)[|a| + l] == b[l];
    }
  }

  // ------------------------------------------------------------------------- decoding

  /** The audience a generated name stands for. */
  function MeantBy(e: Entry, j: nat): Audience {
    if j == 0 || (e.hasDefault && j == 1) then e.chief else if e.chief.User? then System else User
  }

  lemma {:induction false} OtherNames(e: Entry)
    requires EntryOk(e)
    ensures var others := OtherEntries(e.name, AudiencesOf(e.plans), e.chief);
      if |e.plans| == 2 then others == [EntryName(e.name, if e.chief.User? then System else User)] else others == []
    ensures |e.plans| == 1 || |e.plans| == 2
  {
    hide EntryName;
    var as_ := AudiencesOf(e.plans);
    if |as_| == 2 {
      assert as_ == [User, System] && as_[1..] == [System];
      assert OtherEntries(e.name, as_, e.chief) ==
        (if User == e.chief then [] else [EntryName(e.name, User)]) + OtherEntries(e.name, [System], e.chief);
    }
  }

  lemma MeaningDecoded(domain: Value -> Option<Value>, f: Family, e: Entry, j: nat)
    requires EntryOk(e) && ReadBack(domain, f, e) && j < |NamesOf(e)|
    ensures Decoded(f, NamesOf(e)[j], f.entry) == Some(MeantBy(e, j)) && HasPlan(f, MeantBy(e, j))
    ensures NamesOf(e)[j] == f.entry || NamesOf(e)[j] in f.aliases
  {
    hide EntryOk; hide PlansOf; hide NamesOf; hide HasPlan; hide Decoded; hide Audible; hide EntryName; hide Aliases;
    NameAt(e, j);
    DecodedAs(f, e, MeantBy(e, j), NamesOf(e)[j]);
    MeantPlanned(e, j);
    PlanOf(domain, f, e, MeantBy(e, j));
    NamesParts(e, j);
  }

  lemma NamesParts(e: Entry, j: nat)
    requires j < |NamesOf(e)|
    ensures var aliases := Aliases(e.name, AudiencesOf(e.plans), e.chief, e.hasDefault);
      NamesOf(e)[j] == EntryName(e.name, e.chief) || NamesOf(e)[j] in aliases
  {
    hide EntryName; hide Aliases;
  }

  /** What the name at a position is. */
  lemma NameAt(e: Entry, j: nat)
    requires EntryOk(e) && j < |NamesOf(e)|
    ensures NamesOf(e)[j] == if e.hasDefault && j == 1 then DefaultName(e.name) else EntryName(e.name, MeantBy(e, j))
    ensures j > 0 && !(e.hasDefault && j == 1) ==> |e.plans| == 2
  {
    OtherNames(e);
    hide EntryName; hide DefaultName; hide OtherEntries; hide IsName;
  }

  lemma DecodedAs(f: Family, e: Entry, a: Audience, name: string)
    requires f.name == e.name && f.entry == EntryName(e.name, e.chief)
    requires name == EntryName(e.name, a) || (name == DefaultName(e.name) && a == e.chief)
    ensures Decoded(f, name, f.entry) == Some(a)
  {
    NamesDiffer(e.name);
    hide EntryName; hide DefaultName;
  }

  lemma MeantPlanned(e: Entry, j: nat)
    requires EntryOk(e) && j < |NamesOf(e)|
    ensures MeantBy(e, j) in AudiencesOf(e.plans)
  {
    NameAt(e, j);
    hide NamesOf;
  }

  lemma PlanOf(domain: Value -> Option<Value>, f: Family, e: Entry, a: Audience)
    requires ReadBack(domain, f, e) && a in AudiencesOf(e.plans)
    ensures HasPlan(f, a)
  {
    hide EntryName; hide Aliases;
    var k :| 0 <= k < |e.plans| && AudiencesOf(e.plans)[k] == a;
    assert f.plans[k].0 == a;
  }

  lemma {:induction false} FindAt(spec: Spec, k: nat)
    requires k < |spec| && forall j :: 0 <= j < k ==> spec[j].entry != spec[k].entry
    ensures FindEntry(spec, spec[k].entry) == Some(spec[k])
    decreases k
  {
    if k > 0 {
      FindAt(spec[1..], k - 1);
    }
  }

  /** Generated names are distinct over all families, and each, invoked through its family's real
      entry, selects the family and the audience it was generated for. */
  lemma NamesSelect(i: Input, groups: seq<Group>, occupied: set<string>, domain: Value -> Option<Value>, k: nat, j: nat)
    requires CompileAll(i, groups, occupied).Some?
    requires ParseSpec(domain, EmitSpec(CompileAll(i, groups, occupied).value)).Some?
    requires k < |CompileAll(i, groups, occupied).value| && j < |NamesOf(CompileAll(i, groups, occupied).value[k])|
    ensures var es := CompileAll(i, groups, occupied).value; var spec := ParseSpec(domain, EmitSpec(es)).value;
      |spec| == |es| && Select(spec, NamesOf(es[k])[j], spec[k].entry) == Some((spec[k], MeantBy(es[k], j)))
    ensures Claimable(AllNames(CompileAll(i, groups, occupied).value), occupied)
  {
    hide CompileAll; hide EmitSpec; hide ParseSpec; hide NamesOf; hide MeantBy; hide Decoded; hide EntryOk; hide EntryName; hide Aliases; hide HasPlan;
    hide Claimable; hide AllNames; hide FindEntry;
    var es := CompileAll(i, groups, occupied).value;
    CompiledAccepted(i, groups, occupied, domain);
    CompileOk(i, groups, occupied);
    NamesDistinct(i, groups, occupied);
    EntriesDiffer(es, occupied);
    var spec := ParseSpec(domain, EmitSpec(es)).value;
    assert ReadBack(domain, spec[k], es[k]);
    forall l | 0 <= l < k ensures spec[l].entry != spec[k].entry {
      assert ReadBack(domain, spec[l], es[l]);
    }
    FindAt(spec, k);
    MeaningDecoded(domain, spec[k], es[k], j);
  }
}
