/** Which action specs the runtime takes, and which family and audience an invoked name stands
    for, said outright of the JSON and the names (files/actions/model.ts). */
module ActionAdmit {
  import opened Wrappers
  import opened ActionSpec
  import opened ActionPlans
  import ActionNames
  import Text

  // ------------------------------------------------------------------ tables

  /** The table gives the key this value, in the first row that has the key. */
  predicate Gives(rows: seq<(string, Value)>, key: string, v: Value) {
    exists i :: 0 <= i < |rows| && rows[i] == (key, v) && LacksTo(rows, key, i)
  }

  predicate LacksTo(rows: seq<(string, Value)>, key: string, i: nat)
    requires i <= |rows|
  {
    forall j :: 0 <= j < i ==> rows[j].0 != key
  }

  lemma {:induction false} FieldExact(rows: seq<(string, Value)>, key: string, v: Value)
    ensures Field(rows, key) == Some(v) <==> Gives(rows, key, v)
  {
    if rows != [] {
      FieldExact(rows[1..], key, v);
      if rows[0].0 == key {
        assert rows[0] == (key, rows[0].1) && LacksTo(rows, key, 0);
      } else {
        if Gives(rows[1..], key, v) {
          var i :| 0 <= i < |rows[1..]| && rows[1..][i] == (key, v) && LacksTo(rows[1..], key, i);
          assert rows[i + 1] == (key, v);
          assert LacksTo(rows, key, i + 1) by {
            forall j | 0 <= j < i + 1 ensures rows[j].0 != key {
              assert j > 0 ==> rows[j] == rows[1..][j - 1];
            }
          }
        }
        if Gives(rows, key, v) {
          var i :| 0 <= i < |rows| && rows[i] == (key, v) && LacksTo(rows, key, i);
          assert rows[1..][i - 1] == (key, v) && LacksTo(rows[1..], key, i - 1);
        }
      }
    }
  }

  /** An object has a field. */
  predicate Has(v: Value, key: string, x: Value) {
    v.Table? && Gives(v.rows, key, x)
  }

  predicate Without(v: Value, key: string) {
    v.Table? ==> forall i :: 0 <= i < |v.rows| ==> v.rows[i].0 != key
  }

  lemma MemberExact(v: Value, key: string, x: Value)
    ensures Member(v, key) == Some(x) <==> Has(v, key, x)
    ensures Member(v, key).None? <==> Without(v, key)
  {
    if v.Table? {
      FieldExact(v.rows, key, x);
      NoField(v.rows, key);
    }
  }

  lemma {:induction false} NoField(rows: seq<(string, Value)>, key: string)
    ensures Field(rows, key).None? <==> forall i :: 0 <= i < |rows| ==> rows[i].0 != key
  {
    if rows != [] {
      NoField(rows[1..], key);
      assert forall i :: 1 <= i < |rows| ==> rows[i] == rows[1..][i - 1];
      assert forall i :: 0 <= i < |rows[1..]| ==> rows[1..][i] == rows[i + 1];
    }
  }

  // ------------------------------------------------------------------ steps

  /** A path of parts below `bin`, none of them empty, `.` or `..`. */
  ghost predicate BeneathBin(path: string) {
    exists parts: seq<string> :: |parts| > 1 && parts[0] == "bin" && path == Text.Join(parts, "/") && Solid(parts)
  }

  predicate Solid(parts: seq<string>) {
    forall k :: 0 <= k < |parts| ==> '/' !in parts[k] && parts[k] !in {"", ".", ".."}
  }

  lemma BinPathIs(path: string)
    ensures IsBinPath(path) <==> BeneathBin(path)
  {
    hide Text.Split; hide Text.Join;
    if IsBinPath(path) {
      PathParts(path);
    }
    if BeneathBin(path) {
      var parts :| |parts| > 1 && parts[0] == "bin" && path == Text.Join(parts, "/") && Solid(parts);
      ActionNames.SplitUnjoined(parts);
      Text.JoinCons(parts[0], parts[1..], "/");
      assert parts == [parts[0]] + parts[1..];
      assert path[..4] == "bin/";
    }
  }

  lemma PathParts(path: string)
    requires IsBinPath(path)
    ensures BeneathBin(path)
  {
    hide Text.Split; hide Text.Join;
    var parts := Text.Split(path, '/');
    Text.JoinOfSplit(path, '/');
    var child := path[4..];
    assert path == "bin/" + child;
    ActionNames.BinParts(child);
    assert parts[0] == "bin" && |parts| > 1;
    forall k | 0 <= k < |parts| ensures '/' !in parts[k] && parts[k] !in {"", ".", ".."} {
      assert parts[k] in parts && PartOk(parts[k]);
    }
    assert Solid(parts);
  }

  /** What a step of the file stands for. */
  ghost predicate StepMeans(domain: Value -> Option<Value>, v: Value, s: Step)
    decreases s
  {
    match s
    case Domain(declaration) => Has(v, "kind", Str("domain")) && domain(v) == Some(declaration)
    case Action(action) => Has(v, "kind", Str("action")) && Has(v, "action", Str(action)) && Identifier(action)
    case Exec(path, children) =>
      && Has(v, "kind", Str("exec")) && Has(v, "path", Str(path)) && BeneathBin(path)
      && if children.None? then Without(v, "children") else HasSteps(domain, v, children.value.list)
  }

  ghost predicate HasSteps(domain: Value -> Option<Value>, v: Value, list: seq<Step>)
    decreases list, 1
  {
    exists items :: Has(v, "children", List(items)) && StepsMean(domain, items, list)
  }

  /** One step for each item, in order. */
  ghost predicate StepsMean(domain: Value -> Option<Value>, items: seq<Value>, steps: seq<Step>)
    decreases steps, 0
  {
    |steps| == |items| && forall k :: 0 <= k < |items| ==> StepMeans(domain, items[k], steps[k])
  }

  lemma StepsCons(domain: Value -> Option<Value>, items: seq<Value>, steps: seq<Step>)
    requires items != [] && steps != []
    ensures StepsMean(domain, items, steps) <==> StepMeans(domain, items[0], steps[0]) && StepsMean(domain, items[1..], steps[1..])
  {
    hide StepMeans;
    if StepMeans(domain, items[0], steps[0]) && StepsMean(domain, items[1..], steps[1..]) {
      forall k | 0 <= k < |items| ensures StepMeans(domain, items[k], steps[k]) {
        if k > 0 {
          assert items[k] == items[1..][k - 1] && steps[k] == steps[1..][k - 1];
        }
      }
    }
  }

  lemma {:induction false} StepsExact(domain: Value -> Option<Value>, items: seq<Value>, steps: seq<Step>)
    ensures ParseSteps(domain, items) == Some(steps) <==> StepsMean(domain, items, steps)
    decreases items, 0
  {
    hide StepMeans; hide ParseStep;
    if items != [] && steps != [] {
      StepsCons(domain, items, steps);
      StepExact(domain, items[0], steps[0]);
      StepsExact(domain, items[1..], steps[1..]);
      assert steps == [steps[0]] + steps[1..];
    }
  }

  lemma {:induction false} StepExact(domain: Value -> Option<Value>, v: Value, s: Step)
    ensures ParseStep(domain, v) == Some(s) <==> StepMeans(domain, v, s)
    decreases v, 1
  {
    hide Member; hide Has; hide Without; hide IsBinPath; hide BeneathBin; hide IsName; hide Identifier; hide ParseSteps; hide StepsMean; hide HasSteps;
    match s {
      case Domain(d) =>
        MemberExact(v, "kind", Str("domain"));
      case Action(action) =>
        MemberExact(v, "kind", Str("action"));
        MemberExact(v, "action", Str(action));
        IdentifierIs(action);
      case Exec(path, children) =>
        MemberExact(v, "kind", Str("exec"));
        MemberExact(v, "path", Str(path));
        BinPathIs(path);
        MemberExact(v, "children", Null);
        if children.Some? {
          ChildrenExact(domain, v, children.value.list);
        }
    }
  }

  lemma {:induction false} ChildrenExact(domain: Value -> Option<Value>, v: Value, list: seq<Step>)
    ensures HasSteps(domain, v, list) <==>
      var c := Member(v, "children"); c.Some? && c.value.List? && ParseSteps(domain, c.value.items) == Some(list)
    decreases v, 0
  {
    hide Member; hide Has; hide ParseSteps; hide StepsMean;
    var c := Member(v, "children");
    if c.Some? && c.value.List? {
      MemberSmaller(v, "children");
      MemberExact(v, "children", c.value);
      StepsExact(domain, c.value.items, list);
    }
    if HasSteps(domain, v, list) {
      var items :| Has(v, "children", List(items)) && StepsMean(domain, items, list);
      MemberExact(v, "children", List(items));
    }
  }

  // ------------------------------------------------------------------ families

  function Word(a: Audience): string {
    match a case User => "user" case System => "system"
  }

  predicate Planned(plans: seq<(Audience, seq<Step>)>, a: Audience) {
    exists k :: 0 <= k < |plans| && plans[k].0 == a
  }

  /** The plan under a key of the file. */
  ghost predicate PlanMeans(domain: Value -> Option<Value>, plans: Value, key: string, steps: seq<Step>) {
    exists items :: Has(plans, key, List(items)) && StepsMean(domain, items, steps)
  }

  /** A plan for each audience the file names, at least one, that of the user first. */
  ghost predicate PlansMean(domain: Value -> Option<Value>, plans: Value, list: seq<(Audience, seq<Step>)>) {
    if Without(plans, "user") then
      !Without(plans, "system") && |list| == 1 && list[0].0 == System && PlanMeans(domain, plans, "system", list[0].1)
    else if Without(plans, "system") then
      |list| == 1 && list[0].0 == User && PlanMeans(domain, plans, "user", list[0].1)
    else
      && |list| == 2 && list[0].0 == User && list[1].0 == System
      && PlanMeans(domain, plans, "user", list[0].1) && PlanMeans(domain, plans, "system", list[1].1)
  }

  lemma PlanExact(domain: Value -> Option<Value>, plans: Value, key: string, steps: seq<Step>)
    ensures PlanMeans(domain, plans, key, steps) <==>
      var m := Member(plans, key); m.Some? && m.value.List? && ParseSteps(domain, m.value.items) == Some(steps)
  {
    hide Member; hide Has; hide ParseSteps; hide StepsMean;
    var m := Member(plans, key);
    if m.Some? && m.value.List? {
      MemberExact(plans, key, m.value);
      StepsExact(domain, m.value.items, steps);
    }
    if PlanMeans(domain, plans, key, steps) {
      var items :| Has(plans, key, List(items)) && StepsMean(domain, items, steps);
      MemberExact(plans, key, List(items));
    }
  }

  lemma PlansExact(domain: Value -> Option<Value>, plans: Value, list: seq<(Audience, seq<Step>)>)
    ensures PlansMean(domain, plans, list) <==> Available(plans) != [] && ParsePlans(domain, plans, Available(plans)) == Some(list)
  {
    hide Member; hide ParseSteps; hide PlanMeans; hide Without;
    MemberExact(plans, "user", Null);
    MemberExact(plans, "system", Null);
    if |list| > 0 {
      PlanExact(domain, plans, NameOf(list[0].0), list[0].1);
    }
    if |list| > 1 {
      PlanExact(domain, plans, NameOf(list[1].0), list[1].1);
      assert list[1..][0] == list[1];
    }
    PlansList(domain, plans, Available(plans), list);
  }

  /** What the list of plans says, audience by audience. */
  lemma {:induction false} PlansList(domain: Value -> Option<Value>, plans: Value, as_: seq<Audience>, list: seq<(Audience, seq<Step>)>)
    ensures ParsePlans(domain, plans, as_) == Some(list) <==>
      |list| == |as_| && forall k :: 0 <= k < |as_| ==> list[k].0 == as_[k] && ReadsPlan(domain, plans, as_[k], list[k].1)
  {
    hide ReadsPlan;
    if as_ != [] && list != [] {
      PlansList(domain, plans, as_[1..], list[1..]);
      HeadPlan(domain, plans, as_, list);
      assert forall k :: 1 <= k < |as_| ==> as_[k] == as_[1..][k - 1];
      assert forall k :: 1 <= k < |list| ==> list[k] == list[1..][k - 1];
    }
  }

  predicate ReadsPlan(domain: Value -> Option<Value>, plans: Value, a: Audience, steps: seq<Step>) {
    var m := Member(plans, NameOf(a)); m.Some? && m.value.List? && ParseSteps(domain, m.value.items) == Some(steps)
  }

  lemma HeadPlan(domain: Value -> Option<Value>, plans: Value, as_: seq<Audience>, list: seq<(Audience, seq<Step>)>)
    requires as_ != []
    ensures ParsePlans(domain, plans, as_) == Some(list) <==>
      && list != [] && list[0].0 == as_[0] && ReadsPlan(domain, plans, as_[0], list[0].1)
      && ParsePlans(domain, plans, as_[1..]) == Some(list[1..])
  {
    hide Member; hide ParseSteps;
    if list != [] {
      assert list == [list[0]] + list[1..];
      assert list[0] == (list[0].0, list[0].1);
    }
  }

  /** What a family is called by besides its entry: `name.mjs` where there is a default, and the
      name for the other audience where that has a plan. */
  predicate AliasesMean(f: Family, chief: Audience) {
    f.aliases == (if f.default.Some? then [f.name + ".mjs"] else [])
      + (if Planned(f.plans, Other(chief)) then [Qualified(f.name, Other(chief))] else [])
  }

  ghost predicate Spelled(items: seq<Value>, texts: seq<string>) {
    |items| == |texts| && forall k :: 0 <= k < |items| ==> items[k] == Str(texts[k])
  }

  ghost predicate Declares(raw: Value, aliases: seq<string>) {
    exists items :: Has(raw, "aliases", List(items)) && Spelled(items, aliases)
  }

  /** The entry names the chief audience, a default names it too, and the aliases are declared as
      they must be. */
  ghost predicate NamesMean(raw: Value, f: Family, chief: Audience) {
    && Planned(f.plans, chief) && f.entry == Qualified(f.name, chief) && Has(raw, "entry", Str(f.entry))
    && (if f.default.None? then Without(raw, "default") else f.default == Some(chief) && Has(raw, "default", Str(Word(chief))))
    && AliasesMean(f, chief)
    && Declares(raw, f.aliases)
  }

  /** One row of the setup: of an audience with a plan, with a flag, and a flag or a text. */
  predicate SetupMeans(row: (string, Value), plans: seq<(Audience, seq<Step>)>, r: (Audience, Setup)) {
    && row.0 == Word(r.0) && Planned(plans, r.0)
    && Has(row.1, "env", Flag(r.1.env)) && Has(row.1, "basedir", r.1.basedir) && (r.1.basedir.Str? || r.1.basedir.Flag?)
  }

  ghost predicate SetupsMean(rows: seq<(string, Value)>, plans: seq<(Audience, seq<Step>)>, list: seq<(Audience, Setup)>) {
    |list| == |rows| && forall k :: 0 <= k < |rows| ==> SetupMeans(rows[k], plans, list[k])
  }

  predicate OnlyAudiences(rows: seq<(string, Value)>) {
    forall k :: 0 <= k < |rows| ==> rows[k].0 == "user" || rows[k].0 == "system"
  }

  ghost predicate PlanTable(domain: Value -> Option<Value>, raw: Value, plans: seq<(Audience, seq<Step>)>) {
    exists rows :: Has(raw, "plans", Table(rows)) && OnlyAudiences(rows) && PlansMean(domain, Table(rows), plans)
  }

  ghost predicate SetupTable(raw: Value, f: Family) {
    if Without(raw, "setup") then f.setup == []
    else exists rows :: Has(raw, "setup", Table(rows)) && SetupsMean(rows, f.plans, f.setup)
  }

  /** What a row of the spec file stands for. */
  ghost predicate FamilyMeans(domain: Value -> Option<Value>, name: string, raw: Value, f: Family) {
    && Identifier(name) && f.name == name && Has(raw, "name", Str(name))
    && Identifier(f.action) && Has(raw, "action", Str(f.action))
    && PlanTable(domain, raw, f.plans)
    && (NamesMean(raw, f, User) || NamesMean(raw, f, System))
    && SetupTable(raw, f)
  }

  lemma ParsedAudiences(domain: Value -> Option<Value>, plans: Value, list: seq<(Audience, seq<Step>)>, a: Audience)
    requires ParsePlans(domain, plans, Available(plans)) == Some(list)
    ensures Planned(list, a) <==> a in Available(plans)
  {
    hide Member; hide ReadsPlan; hide ParsePlans;
    PlansList(domain, plans, Available(plans), list);
    if a in Available(plans) {
      var k :| 0 <= k < |Available(plans)| && Available(plans)[k] == a;
      assert list[k].0 == a;
    }
  }

  lemma {:induction false} EntryExact(name: string, entry: Option<Value>, available: seq<Audience>, chief: Audience)
    ensures EntryAudience(name, entry, available) == Some(chief) <==> chief in available && entry == Some(Str(Qualified(name, chief)))
  {
    hide Qualified;
    NamesDiffer(name);
    QualifiedIs(name);
    hide EntryName;
    if available != [] {
      EntryExact(name, entry, available[1..], chief);
      assert available == [available[0]] + available[1..];
      match available[0] { case User => case System => }
      match chief { case User => case System => }
    }
  }

  lemma OthersExact(name: string, plans: Value, chief: Audience)
    ensures OtherEntries(name, Available(plans), chief) ==
      if Other(chief) in Available(plans) then [Qualified(name, Other(chief))] else []
  {
    hide Member; hide Qualified;
    QualifiedIs(name);
    hide EntryName;
    assert [User, System][1..] == [System] && [User][1..] == [] && [System][1..] == [];
    OthersOf(name, [], chief);
    OthersOf(name, [User], chief);
    OthersOf(name, [System], chief);
    OthersOf(name, [User, System], chief);
    assert [User] + [System] == [User, System] && [User] + [] == [User] && [] + [System] == [System];
    hide OtherEntries;
    match chief { case User => case System => }
  }

  lemma OthersOf(name: string, as_: seq<Audience>, chief: Audience)
    ensures OtherEntries(name, as_, chief) ==
      if as_ == [] then [] else (if as_[0] == chief then [] else [EntryName(name, as_[0])]) + OtherEntries(name, as_[1..], chief)
  {
  }

  lemma {:induction false} SpelledExact(items: seq<Value>, texts: seq<string>)
    ensures items == Strings(texts) <==> Spelled(items, texts)
  {
  }

  lemma {:induction false} SetupsExact(rows: seq<(string, Value)>, plans: seq<(Audience, seq<Step>)>, available: seq<Audience>, list: seq<(Audience, Setup)>)
    requires forall a :: Planned(plans, a) <==> a in available
    ensures ParseSetup(rows, available) == Some(list) <==> SetupsMean(rows, plans, list)
  {
    hide Planned; hide SetupMeans;
    if rows != [] && list != [] {
      SetupsExact(rows[1..], plans, available, list[1..]);
      SetupExact(rows[0], plans, available, list[0]);
      SetupHead(rows, available, list);
      assert forall k :: 1 <= k < |rows| ==> rows[k] == rows[1..][k - 1];
      assert forall k :: 1 <= k < |list| ==> list[k] == list[1..][k - 1];
    }
  }

  predicate ReadsSetup(row: (string, Value), available: seq<Audience>, r: (Audience, Setup)) {
    var env, basedir := Member(row.1, "env"), Member(row.1, "basedir");
    && row.1.Table? && AudienceOf(row.0) == Some(r.0) && r.0 in available
    && env == Some(Flag(r.1.env)) && basedir == Some(r.1.basedir) && (r.1.basedir.Str? || r.1.basedir.Flag?)
  }

  lemma SetupHead(rows: seq<(string, Value)>, available: seq<Audience>, list: seq<(Audience, Setup)>)
    requires rows != [] && list != []
    ensures ParseSetup(rows, available) == Some(list) <==>
      ReadsSetup(rows[0], available, list[0]) && ParseSetup(rows[1..], available) == Some(list[1..])
  {
    hide Member;
    assert list == [list[0]] + list[1..];
    assert list[0] == (list[0].0, Setup(list[0].1.env, list[0].1.basedir));
  }

  lemma SetupExact(row: (string, Value), plans: seq<(Audience, seq<Step>)>, available: seq<Audience>, r: (Audience, Setup))
    requires forall a :: Planned(plans, a) <==> a in available
    ensures ReadsSetup(row, available, r) <==> SetupMeans(row, plans, r)
  {
    hide Member; hide Planned; hide Gives;
    MemberExact(row.1, "env", Flag(r.1.env));
    MemberExact(row.1, "basedir", r.1.basedir);
  }

  /** The parsed plans and what follows from them. */
  predicate BodyReads(domain: Value -> Option<Value>, name: string, raw: Value, f: Family, plans: Value) {
    && plans.Table? && KnownAudiences(plans.rows) && Available(plans) != []
    && ParsePlans(domain, plans, Available(plans)) == Some(f.plans)
    && EntryAudience(name, Member(raw, "entry"), Available(plans)).Some?
    && ParseNames(name, raw, f.action, f.plans, Available(plans), EntryAudience(name, Member(raw, "entry"), Available(plans)).value) == Some(f)
  }

  lemma FamilyUnfolds(domain: Value -> Option<Value>, name: string, raw: Value, f: Family)
    ensures ParseFamily(domain, name, raw) == Some(f) <==>
      && IsName(name) && Member(raw, "name") == Some(Str(name))
      && Member(raw, "action") == Some(Str(f.action)) && IsName(f.action)
      && Member(raw, "plans").Some? && BodyReads(domain, name, raw, f, Member(raw, "plans").value)
  {
    hide Field; hide IsName; hide ParsePlans; hide EntryAudience; hide Available; hide KnownAudiences; hide ParseNames;
    NamesKeep(name, raw, f);
  }

  /** Names and setup do not change the plans and the action. */
  lemma NamesKeep(name: string, raw: Value, f: Family)
    ensures forall action, plans, available, chief :: ParseNames(name, raw, action, plans, available, chief) == Some(f) ==>
      f.action == action && f.plans == plans
  {
    hide Member; hide Aliases; hide ParseSetup; hide Strings;
  }

  lemma AliasesAre(name: string, plans: Value, chief: Audience, hasDefault: bool)
    ensures Aliases(name, Available(plans), chief, hasDefault) ==
      (if hasDefault then [name + ".mjs"] else []) + (if Other(chief) in Available(plans) then [Qualified(name, Other(chief))] else [])
  {
    hide Available; hide OtherEntries; hide Qualified;
    OthersExact(name, plans, chief);
    QualifiedIs(name);
  }

  predicate NamesRead(raw: Value, f: Family, plans: Value, chief: Audience) {
    && EntryAudience(f.name, Member(raw, "entry"), Available(plans)) == Some(chief)
    && ParseNames(f.name, raw, f.action, f.plans, Available(plans), chief) == Some(f)
  }

  /** Entry, default and aliases, for plans that were read. */
  lemma NamesExact(raw: Value, f: Family, plans: Value, chief: Audience)
    requires forall a :: Planned(f.plans, a) <==> a in Available(plans)
    ensures NamesRead(raw, f, plans, chief) <==> NamesMean(raw, f, chief) && SetupTable(raw, f)
  {
    hide Member; hide Has; hide Without; hide Qualified; hide Planned; hide Available; hide EntryAudience; hide Aliases;
    hide SetupTable; hide Strings; hide ParseSetup; hide EntryName; hide Spelled;
    EntryExact(f.name, Member(raw, "entry"), Available(plans), chief);
    MemberExact(raw, "entry", Str(f.entry));
    QualifiedIs(f.name);
    MemberExact(raw, "default", Str(Word(chief)));
    AliasesAre(f.name, plans, chief, f.default.Some?);
    DeclaredExact(raw, f.aliases);
    SetupTableExact(raw, f, Available(plans));
    DefaultWord(chief);
  }

  lemma DefaultWord(chief: Audience)
    ensures Word(chief) == NameOf(chief)
  {
  }

  lemma DeclaredExact(raw: Value, aliases: seq<string>)
    ensures Member(raw, "aliases") == Some(List(Strings(aliases))) <==> Declares(raw, aliases)
  {
    hide Member; hide Has; hide Spelled; hide Strings;
    MemberExact(raw, "aliases", List(Strings(aliases)));
    SpelledExact(Strings(aliases), aliases);
    if Declares(raw, aliases) {
      var items :| Has(raw, "aliases", List(items)) && Spelled(items, aliases);
      SpelledExact(items, aliases);
    }
  }

  lemma SetupTableExact(raw: Value, f: Family, available: seq<Audience>)
    requires forall a :: Planned(f.plans, a) <==> a in available
    ensures SetupTable(raw, f) <==>
      var setup := Member(raw, "setup");
      if setup.None? then f.setup == [] else setup.value.Table? && ParseSetup(setup.value.rows, available) == Some(f.setup)
  {
    hide Member; hide Has; hide Planned; hide SetupsMean; hide ParseSetup;
    var setup := Member(raw, "setup");
    MemberExact(raw, "setup", Null);
    if setup.Some? && setup.value.Table? {
      MemberExact(raw, "setup", setup.value);
      SetupsExact(setup.value.rows, f.plans, available, f.setup);
    }
    if SetupTable(raw, f) && !Without(raw, "setup") {
      var rows :| Has(raw, "setup", Table(rows)) && SetupsMean(rows, f.plans, f.setup);
      MemberExact(raw, "setup", Table(rows));
    }
  }

  lemma AudiencesKnown(rows: seq<(string, Value)>)
    ensures KnownAudiences(rows) <==> OnlyAudiences(rows)
  {
  }

  /** The two ways to say that the plans of a row were read. */
  lemma TableExact(domain: Value -> Option<Value>, raw: Value, list: seq<(Audience, seq<Step>)>)
    ensures PlanTable(domain, raw, list) <==>
      var plans := Member(raw, "plans");
      && plans.Some? && plans.value.Table? && KnownAudiences(plans.value.rows) && Available(plans.value) != []
      && ParsePlans(domain, plans.value, Available(plans.value)) == Some(list)
  {
    hide Member; hide Has; hide PlansMean; hide Available; hide ParsePlans; hide KnownAudiences; hide OnlyAudiences;
    var plans := Member(raw, "plans");
    if plans.Some? && plans.value.Table? {
      MemberExact(raw, "plans", plans.value);
      AudiencesKnown(plans.value.rows);
      PlansExact(domain, plans.value, list);
    }
    if PlanTable(domain, raw, list) {
      var rows :| Has(raw, "plans", Table(rows)) && OnlyAudiences(rows) && PlansMean(domain, Table(rows), list);
      MemberExact(raw, "plans", Table(rows));
    }
  }

  lemma BodyExact(domain: Value -> Option<Value>, raw: Value, f: Family)
    ensures Member(raw, "plans").Some? && BodyReads(domain, f.name, raw, f, Member(raw, "plans").value) <==>
      PlanTable(domain, raw, f.plans) && (NamesMean(raw, f, User) || NamesMean(raw, f, System)) && SetupTable(raw, f)
  {
    hide Member; hide Available; hide ParsePlans; hide KnownAudiences; hide NamesMean; hide SetupTable; hide PlanTable; hide ParseNames;
    hide EntryAudience; hide Planned;
    TableExact(domain, raw, f.plans);
    if PlanTable(domain, raw, f.plans) {
      var plans := Member(raw, "plans").value;
      forall a ensures Planned(f.plans, a) <==> a in Available(plans) {
        ParsedAudiences(domain, plans, f.plans, a);
      }
      NamesExact(raw, f, plans, User);
      NamesExact(raw, f, plans, System);
      var chief := EntryAudience(f.name, Member(raw, "entry"), Available(plans));
      if chief.Some? {
        match chief.value { case User => case System => }
      }
    }
  }

  /** A row of the spec file is taken as a family exactly when it stands for it. */
  lemma FamilyExact(domain: Value -> Option<Value>, name: string, raw: Value, f: Family)
    ensures ParseFamily(domain, name, raw) == Some(f) <==> FamilyMeans(domain, name, raw, f)
  {
    hide Member; hide Has; hide IsName; hide Identifier; hide PlanTable; hide NamesMean; hide SetupTable; hide BodyReads; hide ParseFamily;
    FamilyUnfolds(domain, name, raw, f);
    MemberExact(raw, "name", Str(name));
    MemberExact(raw, "action", Str(f.action));
    IdentifierIs(name);
    IdentifierIs(f.action);
    ParsedName(domain, name, raw);
    if f.name == name {
      BodyExact(domain, raw, f);
    }
  }

  lemma ParsedName(domain: Value -> Option<Value>, name: string, raw: Value)
    ensures ParseFamily(domain, name, raw).Some? ==> ParseFamily(domain, name, raw).value.name == name
  {
    hide Member; hide Aliases; hide ParseSetup; hide Strings; hide ParsePlans; hide EntryAudience; hide Available; hide IsName;
  }

  ghost predicate FamiliesMean(domain: Value -> Option<Value>, rows: seq<(string, Value)>, spec: Spec) {
    |spec| == |rows| && forall k :: 0 <= k < |rows| ==> FamilyMeans(domain, rows[k].0, rows[k].1, spec[k])
  }

  lemma {:induction false} FamiliesExact(domain: Value -> Option<Value>, rows: seq<(string, Value)>, spec: Spec)
    ensures ParseFamilies(domain, rows) == Some(spec) <==> FamiliesMean(domain, rows, spec)
  {
    hide ParseFamily; hide FamilyMeans;
    if rows != [] && spec != [] {
      FamilyExact(domain, rows[0].0, rows[0].1, spec[0]);
      FamiliesExact(domain, rows[1..], spec[1..]);
      assert spec == [spec[0]] + spec[1..];
      assert forall k :: 1 <= k < |rows| ==> rows[k] == rows[1..][k - 1];
      assert forall k :: 1 <= k < |spec| ==> spec[k] == spec[1..][k - 1];
    }
  }

  /** What a spec file stands for: version 1, and one family for each row, in file order. */
  ghost predicate SpecMeans(domain: Value -> Option<Value>, v: Value, spec: Spec) {
    Has(v, "version", Num(1)) && exists rows :: Has(v, "actions", Table(rows)) && FamiliesMean(domain, rows, spec)
  }

  /** The runtime takes a spec file exactly when it stands for a spec, and as that spec. */
  lemma SpecExact(domain: Value -> Option<Value>, v: Value, spec: Spec)
    ensures ParseSpec(domain, v) == Some(spec) <==> SpecMeans(domain, v, spec)
  {
    hide Member; hide Has; hide ParseFamilies; hide FamiliesMean;
    MemberExact(v, "version", Num(1));
    var actions := Member(v, "actions");
    if actions.Some? && actions.value.Table? {
      MemberExact(v, "actions", actions.value);
      FamiliesExact(domain, actions.value.rows, spec);
    }
    if SpecMeans(domain, v, spec) {
      var rows :| Has(v, "actions", Table(rows)) && FamiliesMean(domain, rows, spec);
      MemberExact(v, "actions", Table(rows));
    }
  }

  // ------------------------------------------------------------------ names

  /** The first family with this entry. */
  predicate FirstWith(spec: Spec, entry: string, f: Family) {
    exists k :: 0 <= k < |spec| && spec[k] == f && f.entry == entry && forall j :: 0 <= j < k ==> spec[j].entry != entry
  }

  lemma {:induction false} FirstExact(spec: Spec, entry: string, f: Family)
    ensures FindEntry(spec, entry) == Some(f) <==> FirstWith(spec, entry, f)
  {
    if spec != [] {
      FirstExact(spec[1..], entry, f);
      if spec[0].entry != entry {
        if FirstWith(spec[1..], entry, f) {
          FirstOn(spec, entry, f);
        }
        if FirstWith(spec, entry, f) {
          FirstBack(spec, entry, f);
        }
      }
    }
  }

  lemma FirstOn(spec: Spec, entry: string, f: Family)
    requires spec != [] && spec[0].entry != entry && FirstWith(spec[1..], entry, f)
    ensures FirstWith(spec, entry, f)
  {
    var k :| 0 <= k < |spec[1..]| && spec[1..][k] == f && f.entry == entry && forall j :: 0 <= j < k ==> spec[1..][j].entry != entry;
    assert spec[k + 1] == f;
    forall j | 0 <= j < k + 1 ensures spec[j].entry != entry {
      assert j > 0 ==> spec[j] == spec[1..][j - 1];
    }
  }

  lemma FirstBack(spec: Spec, entry: string, f: Family)
    requires spec != [] && spec[0].entry != entry && FirstWith(spec, entry, f)
    ensures FirstWith(spec[1..], entry, f)
  {
    var k :| 0 <= k < |spec| && spec[k] == f && f.entry == entry && forall j :: 0 <= j < k ==> spec[j].entry != entry;
    assert spec[1..][k - 1] == f;
    assert forall j :: 0 <= j < k - 1 ==> spec[1..][j] == spec[j + 1];
  }

  /** The invoked name says the audience: qualified by itself, or through the entry it stands for. */
  predicate Calls(f: Family, invoked: string, entry: string, a: Audience) {
    || invoked == Qualified(f.name, a)
    || (invoked == f.name + ".mjs" && entry == Qualified(f.name, a))
  }

  /** A name selects a family and an audience exactly when the entry is that family's, the name is
      the entry or an alias of it and says the audience, and the family has a plan for it. */
  lemma SelectExact(spec: Spec, invoked: string, entry: string, f: Family, a: Audience)
    ensures Select(spec, invoked, entry) == Some((f, a)) <==>
      FirstWith(spec, entry, f) && (invoked == entry || invoked in f.aliases) && Calls(f, invoked, entry, a) && Planned(f.plans, a)
  {
    hide FindEntry; hide FirstWith; hide EntryName; hide Qualified; hide DefaultName;
    FirstExact(spec, entry, f);
    QualifiedIs(f.name);
    NamesDiffer(f.name);
    match a { case User => case System => }
  }
}
