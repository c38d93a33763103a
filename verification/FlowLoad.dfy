/** When a flow loads and which file decides each of its steps, said on the files alone. */
module FlowLoad {
  import opened Wrappers
  import opened Framing
  import opened Catalog
  import opened CatalogFacts
  import opened FlowFacts

  // ------------------------------------------------------------------- single files

  predicate HasId(item: Item, id: string) {
    id != "" && "id" in item.record && item.record["id"] == Str(id)
  }

  predicate Texts(v: Json) {
    v.Arr? && forall x :: x in v.items ==> x.Str?
  }

  /** A step of the flow: version 1, an invocation, and contributors that are texts. */
  predicate DescribesStep(r: Record, f: Flow) {
    && "version" in r && r["version"] == Num(1.0) && "flow" in r && r["flow"] == Str(Word(f))
    && "invoke" in r && r["invoke"].Obj? && ("contributors" in r ==> Texts(r["contributors"]))
  }

  predicate Absent(r: Record) {
    "state" in r && r["state"] == Str("absent")
  }

  predicate OnlyTombstone(r: Record) {
    forall k :: k in r ==> k == "id" || k == "state"
  }

  /** Where a step is placed may differ, nothing else. */
  ghost predicate SameBehaviour(a: Record, b: Record) {
    forall k: string ::
      k !in {"index", "effectiveIndex", "effectivePhase", "selectedPath", "selectedLayer", "shadowedPath"} ==>
        (k in a <==> k in b) && (k in a ==> k in b && a[k] == b[k])
  }

  ghost predicate IsStamped(item: Item, f: Flow) {
    exists n :: Stamped(item.name, f, n)
  }

  lemma IdIs(item: Item, id: string)
    ensures IdOf(item.record) == Some(id) <==> HasId(item, id)
  {
  }

  lemma SoundIs(r: Record, f: Flow)
    ensures Sound(r, f) <==> DescribesStep(r, f)
  {
    WordIs(f);
  }

  lemma SemanticIs(a: Record, b: Record)
    ensures Semantic(a) == Semantic(b) <==> SameBehaviour(a, b)
  {
    var s, t := Semantic(a), Semantic(b);
    if s == t {
      forall k: string | k !in {"index", "effectiveIndex", "effectivePhase", "selectedPath", "selectedLayer", "shadowedPath"}
        ensures (k in a <==> k in b) && (k in a ==> k in b && a[k] == b[k])
      {
        assert k in s <==> k in a;
        assert k in t <==> k in b;
        assert k in s ==> s[k] == a[k];
        assert k in t ==> t[k] == b[k];
      }
    }
  }

  lemma StampIs(item: Item, f: Flow)
    ensures Placement(item.name, f).Some? <==> IsStamped(item, f)
    ensures Placement(item.name, f).Some? ==> Stamped(item.name, f, Placement(item.name, f).value)
  {
    hide Placement; hide Stamped;
    if Placement(item.name, f).Some? {
      PlacementExact(item.name, f, Placement(item.name, f).value);
    } else if IsStamped(item, f) {
      var n :| Stamped(item.name, f, n);
      PlacementExact(item.name, f, n);
    }
  }

  /** A step scheduled as a file says: its record, its name, the number and phase of that name. */
  ghost predicate ScheduledAs(f: Flow, s: Scheduled, item: Item) {
    && HasId(item, s.id) && s.record == item.record && s.name == item.name
    && Stamped(item.name, f, s.index) && InPhase(f, s.index, s.phase)
  }

  lemma ScheduleIs(f: Flow, id: string, item: Item, index: nat, layer: Layer, shadowed: Option<string>)
    requires HasId(item, id) && Stamped(item.name, f, index)
    ensures ScheduledAs(f, Schedule(f, id, item, index, layer, shadowed), item)
  {
    hide InPhase; hide PhaseFor;
    PhaseExact(f, index);
  }

  ghost predicate AsCompiled(f: Flow, s: Scheduled, item: Item) {
    ScheduledAs(f, s, item) && s.layer == Compiled && s.shadowed == None
  }

  /** A site file behaves as the compiled one it shadows. */
  ghost predicate AsSite(f: Flow, s: Scheduled, compiled: Item, item: Item) {
    && ScheduledAs(f, s, item) && s.layer == Site && s.shadowed == Some(compiled.name)
    && HasId(compiled, s.id) && SameBehaviour(compiled.record, item.record) && !Absent(item.record)
  }

  // --------------------------------------------------------------- the compiled layer

  /** The compiled file can be taken: it has an id, and if that is declared it is a step of the
      flow with a number and no file before it has the id. */
  ghost predicate CompiledOk(f: Flow, declared: seq<string>, compiled: seq<Item>, i: nat)
    requires i < |compiled|
  {
    exists id :: HasId(compiled[i], id) && (id in declared ==>
      DescribesStep(compiled[i].record, f) && IsStamped(compiled[i], f) && forall k :: 0 <= k < i ==> !HasId(compiled[k], id))
  }

  /** What is selected after `n` compiled files: the declared among them, as they stand. */
  ghost predicate TakenUpTo(f: Flow, declared: seq<string>, compiled: seq<Item>, n: nat, sel: seq<Scheduled>)
    requires n <= |compiled|
  {
    && Distinct(sel)
    && (forall s :: s in sel ==> s.id in declared && TakenFrom(f, compiled, n, s))
    && forall k, id :: 0 <= k < n && HasId(compiled[k], id) && id in declared ==> Holds(sel, id)
  }

  ghost predicate TakenFrom(f: Flow, compiled: seq<Item>, n: nat, s: Scheduled)
    requires n <= |compiled|
  {
    exists k :: 0 <= k < n && AsCompiled(f, s, compiled[k])
  }

  lemma TakenHas(f: Flow, declared: seq<string>, compiled: seq<Item>, n: nat, sel: seq<Scheduled>, id: string)
    requires n <= |compiled| && TakenUpTo(f, declared, compiled, n, sel) && id in declared
    ensures Find(sel, id).Some? <==> exists k :: 0 <= k < n && HasId(compiled[k], id)
  {
    hide HasId; hide Stamped; hide InPhase;
    FindHolds(sel, id);
    if Holds(sel, id) {
      var j :| 0 <= j < |sel| && sel[j].id == id;
      assert sel[j] in sel;
    }
  }

  lemma TakeOne(f: Flow, declared: seq<string>, compiled: seq<Item>, n: nat, sel: seq<Scheduled>, id: string, s: Scheduled)
    requires n < |compiled| && TakenUpTo(f, declared, compiled, n, sel) && HasId(compiled[n], id) && id in declared
    requires s.id == id && AsCompiled(f, s, compiled[n]) && Find(sel, id).None?
    ensures TakenUpTo(f, declared, compiled, n + 1, sel + [s])
  {
    hide AsCompiled; hide HasId;
    FindIs(sel, id);
    var all := sel + [s];
    forall k, x | 0 <= k < n + 1 && HasId(compiled[k], x) && x in declared ensures Holds(all, x) {
      if k < n {
        assert Holds(sel, x);
        var j :| 0 <= j < |sel| && sel[j].id == x;
        assert all[j].id == x;
      } else {
        SameId(compiled[n], id, x);
        assert all[|sel|].id == x;
      }
    }
    forall x | x in all ensures x.id in declared && TakenFrom(f, compiled, n + 1, x) {
      if x != s {
        assert x in sel;
        assert TakenFrom(f, compiled, n, x);
      }
    }
  }

  lemma SameId(item: Item, a: string, b: string)
    requires HasId(item, a) && HasId(item, b)
    ensures a == b
  {
  }

  lemma SkipOne(f: Flow, declared: seq<string>, compiled: seq<Item>, n: nat, sel: seq<Scheduled>, id: string)
    requires n < |compiled| && TakenUpTo(f, declared, compiled, n, sel) && HasId(compiled[n], id) && id !in declared
    ensures TakenUpTo(f, declared, compiled, n + 1, sel)
  {
    hide AsCompiled; hide HasId;
    forall k, x | 0 <= k < n + 1 && HasId(compiled[k], x) && x in declared ensures Holds(sel, x) {
      if k == n {
        SameId(compiled[n], id, x);
      }
    }
    forall x | x in sel ensures TakenFrom(f, compiled, n + 1, x) {
      assert TakenFrom(f, compiled, n, x);
    }
  }

  lemma {:induction false} CompiledExact(f: Flow, declared: seq<string>, compiled: seq<Item>, n: nat, sel: seq<Scheduled>)
    requires n <= |compiled| && TakenUpTo(f, declared, compiled, n, sel)
    ensures var r := SelectCompiled(f, declared, compiled[n..], sel);
      && (r.Some? <==> forall i :: n <= i < |compiled| ==> CompiledOk(f, declared, compiled, i))
      && (r.Some? ==> TakenUpTo(f, declared, compiled, |compiled|, r.value))
    decreases |compiled| - n
  {
    hide TakenUpTo; hide CompiledOk; hide SelectCompiled;
    if n == |compiled| {
      NoneLeft(f, declared, compiled, sel);
    } else {
      OneCompiled(f, declared, compiled, n, sel);
      var item := compiled[n];
      if CompiledOk(f, declared, compiled, n) {
        var id := IdOf(item.record).value;
        var next := if id in declared then sel + [Schedule(f, id, item, Placement(item.name, f).value, Compiled, None)] else sel;
        CompiledExact(f, declared, compiled, n + 1, next);
      }
    }
  }

  lemma NoneLeft(f: Flow, declared: seq<string>, compiled: seq<Item>, sel: seq<Scheduled>)
    ensures SelectCompiled(f, declared, compiled[|compiled|..], sel) == Some(sel)
  {
  }

  /** One turn of the loop over the compiled layer. */
  lemma OneCompiled(f: Flow, declared: seq<string>, compiled: seq<Item>, n: nat, sel: seq<Scheduled>)
    requires n < |compiled| && TakenUpTo(f, declared, compiled, n, sel)
    ensures !CompiledOk(f, declared, compiled, n) ==> SelectCompiled(f, declared, compiled[n..], sel).None?
    ensures CompiledOk(f, declared, compiled, n) ==>
      IdOf(compiled[n].record).Some? && (IdOf(compiled[n].record).value in declared ==> Placement(compiled[n].name, f).Some?)
    ensures CompiledOk(f, declared, compiled, n) ==>
      var id := IdOf(compiled[n].record).value;
      var next := if id in declared then sel + [Schedule(f, id, compiled[n], Placement(compiled[n].name, f).value, Compiled, None)] else sel;
      SelectCompiled(f, declared, compiled[n..], sel) == SelectCompiled(f, declared, compiled[n + 1..], next)
      && TakenUpTo(f, declared, compiled, n + 1, next)
  {
    hide TakenUpTo; hide Sound; hide DescribesStep; hide Placement; hide IsStamped; hide Stamped; hide HasId; hide IdOf; hide Find;
    hide ScheduledAs; hide Schedule;
    var item := compiled[n];
    assert compiled[n..][0] == item && compiled[n..][1..] == compiled[n + 1..];
    forall x ensures IdOf(item.record) == Some(x) <==> HasId(item, x) { IdIs(item, x); }
    SoundIs(item.record, f);
    StampIs(item, f);
    if IdOf(item.record).Some? {
      var id := IdOf(item.record).value;
      if id in declared {
        TakenHas(f, declared, compiled, n, sel, id);
        if CompiledOk(f, declared, compiled, n) {
          var index := Placement(item.name, f).value;
          ScheduleIs(f, id, item, index, Compiled, None);
          ScheduleFields(f, id, item, index, Compiled, None);
          TakeOne(f, declared, compiled, n, sel, id, Schedule(f, id, item, index, Compiled, None));
        }
      } else {
        SkipOne(f, declared, compiled, n, sel, id);
      }
    }
  }

  lemma ScheduleFields(f: Flow, id: string, item: Item, index: nat, layer: Layer, shadowed: Option<string>)
    ensures var s := Schedule(f, id, item, index, layer, shadowed); s.id == id && s.layer == layer && s.shadowed == shadowed
  {
  }

  // ------------------------------------------------------------------- the site layer

  ghost predicate Belongs(f: Flow, byId: map<string, string>, id: string) {
    id in byId && byId[id] == Word(f)
  }

  /** The site file can be taken: a new id that some flow declares, and if it is this flow, a bare
      tombstone, or a step with a number that behaves as the compiled one. */
  ghost predicate SiteOk(f: Flow, byId: map<string, string>, compiled: seq<Item>, site: seq<Item>, j: nat)
    requires j < |site|
  {
    exists id :: HasId(site[j], id) && (forall k :: 0 <= k < j ==> !HasId(site[k], id)) && id in byId && byId[id] != ""
      && (Belongs(f, byId, id) ==> Overrides(f, compiled, site[j], id))
  }

  ghost predicate Overrides(f: Flow, compiled: seq<Item>, item: Item, id: string) {
    if Absent(item.record) then OnlyTombstone(item.record)
    else DescribesStep(item.record, f) && IsStamped(item, f) && exists c :: c in compiled && HasId(c, id) && SameBehaviour(c.record, item.record)
  }

  ghost predicate Touched(site: seq<Item>, n: nat, id: string)
    requires n <= |site|
  {
    exists j :: 0 <= j < n && HasId(site[j], id)
  }

  ghost predicate Erased(site: seq<Item>, n: nat, id: string)
    requires n <= |site|
  {
    exists j :: 0 <= j < n && HasId(site[j], id) && Absent(site[j].record)
  }

  /** The file that decides a step: the site's when it has one, else the compiled one. */
  ghost predicate Decided(f: Flow, compiled: seq<Item>, site: seq<Item>, n: nat, s: Scheduled)
    requires n <= |site|
  {
    if Touched(site, n, s.id) then exists c, j :: c in compiled && 0 <= j < n && AsSite(f, s, c, site[j])
    else exists c :: c in compiled && AsCompiled(f, s, c)
  }

  ghost predicate OverlaidTo(f: Flow, byId: map<string, string>, compiled: seq<Item>, site: seq<Item>, n: nat, seen: set<string>, sel: seq<Scheduled>)
    requires n <= |site|
  {
    && (forall id :: id in seen <==> Touched(site, n, id))
    && Distinct(sel) && (forall s :: s in sel ==> Belongs(f, byId, s.id) && Decided(f, compiled, site, n, s))
    && forall id :: Belongs(f, byId, id) ==> (Holds(sel, id) <==> !Erased(site, n, id))
  }

  /** No two compiled files share an id of the flow. */
  ghost predicate OneEach(f: Flow, byId: map<string, string>, compiled: seq<Item>) {
    forall a, b, id :: a in compiled && b in compiled && HasId(a, id) && HasId(b, id) && Belongs(f, byId, id) ==> a == b
  }

  lemma TouchedNext(site: seq<Item>, n: nat, id: string)
    requires n < |site| && HasId(site[n], id)
    ensures forall x :: Touched(site, n + 1, x) <==> Touched(site, n, x) || x == id
    ensures forall x :: Erased(site, n + 1, x) <==> Erased(site, n, x) || (x == id && Absent(site[n].record))
  {
    hide HasId; hide Absent;
    var m := n + 1;
    forall x
      ensures Touched(site, m, x) <==> Touched(site, n, x) || x == id
      ensures Erased(site, m, x) <==> Erased(site, n, x) || (x == id && Absent(site[n].record))
    {
      if HasId(site[n], x) {
        SameId(site[n], id, x);
      }
      if Touched(site, n, x) {
        var j :| 0 <= j < n && HasId(site[j], x);
        assert j < m;
      }
      if Erased(site, n, x) {
        var j :| 0 <= j < n && HasId(site[j], x) && Absent(site[j].record);
        assert j < m;
      }
    }
  }

  lemma DecidedNext(f: Flow, compiled: seq<Item>, site: seq<Item>, n: nat, id: string, s: Scheduled)
    requires n < |site| && HasId(site[n], id) && s.id != id && Decided(f, compiled, site, n, s)
    ensures Decided(f, compiled, site, n + 1, s)
  {
    hide HasId; hide AsSite; hide AsCompiled;
    TouchedNext(site, n, id);
    if Touched(site, n, s.id) {
      var c, j :| c in compiled && 0 <= j < n && AsSite(f, s, c, site[j]);
      assert j < n + 1;
    }
  }

  /** A file of another flow changes nothing but the ids seen. */
  lemma ForeignNext(f: Flow, byId: map<string, string>, compiled: seq<Item>, site: seq<Item>, n: nat, seen: set<string>, sel: seq<Scheduled>, id: string)
    requires n < |site| && OverlaidTo(f, byId, compiled, site, n, seen, sel) && HasId(site[n], id) && !Belongs(f, byId, id)
    ensures OverlaidTo(f, byId, compiled, site, n + 1, seen + {id}, sel)
  {
    hide HasId; hide Decided; hide Touched; hide Erased; hide Belongs;
    TouchedNext(site, n, id);
    forall s | s in sel ensures Decided(f, compiled, site, n + 1, s) {
      DecidedNext(f, compiled, site, n, id, s);
    }
  }

  lemma TombstoneNext(f: Flow, byId: map<string, string>, compiled: seq<Item>, site: seq<Item>, n: nat, seen: set<string>, sel: seq<Scheduled>,
                      id: string, at: nat)
    requires n < |site| && OverlaidTo(f, byId, compiled, site, n, seen, sel) && HasId(site[n], id) && Absent(site[n].record)
    requires at < |sel| && sel[at].id == id
    ensures OverlaidTo(f, byId, compiled, site, n + 1, seen + {id}, sel[..at] + sel[at + 1..])
  {
    hide HasId; hide Decided; hide Touched; hide Erased; hide Belongs; hide Holds;
    TouchedNext(site, n, id);
    var d := sel[..at] + sel[at + 1..];
    forall s | s in d ensures Belongs(f, byId, s.id) && Decided(f, compiled, site, n + 1, s) {
      var j :| 0 <= j < |d| && d[j] == s;
      assert s == if j < at then sel[j] else sel[j + 1];
      assert s in sel;
      DecidedNext(f, compiled, site, n, id, s);
    }
    forall x ensures Holds(d, x) <==> Holds(sel, x) && x != id { DropHolds(sel, at, x); }
    forall i, j | 0 <= i < j < |d| ensures d[i].id != d[j].id {
      assert d[i] == (if i < at then sel[i] else sel[i + 1]) && d[j] == (if j < at then sel[j] else sel[j + 1]);
    }
  }

  lemma ReplacedNext(f: Flow, byId: map<string, string>, compiled: seq<Item>, site: seq<Item>, n: nat, seen: set<string>, sel: seq<Scheduled>,
                     at: nat, c: Item, s: Scheduled)
    requires n < |site| && OverlaidTo(f, byId, compiled, site, n, seen, sel)
    requires at < |sel| && sel[at].id == s.id && c in compiled && AsSite(f, s, c, site[n])
    ensures OverlaidTo(f, byId, compiled, site, n + 1, seen + {s.id}, sel[at := s])
  {
    hide OverlaidTo; hide Belongs; hide Holds; hide AsSite; hide Decided; hide Distinct;
    var d := sel[at := s];
    OverlaidParts(f, byId, compiled, site, n, seen, sel);
    StepKinds(f, compiled, site, n, seen, c, s);
    SiteDecides(f, compiled, site, n, c, s);
    SwapDistinct(sel, at, s);
    SwapDecided(f, byId, compiled, site, n, sel, at, s);
    forall x ensures Holds(d, x) <==> Holds(sel, x) { ReplaceHolds(sel, at, s, x); }
    OverlaidOf(f, byId, compiled, site, n + 1, seen + {s.id}, d);
  }

  lemma StepKinds(f: Flow, compiled: seq<Item>, site: seq<Item>, n: nat, seen: set<string>, c: Item, s: Scheduled)
    requires n < |site| && AsSite(f, s, c, site[n]) && forall id :: id in seen <==> Touched(site, n, id)
    ensures HasId(site[n], s.id) && (forall id :: id in seen + {s.id} <==> Touched(site, n + 1, id))
    ensures forall id :: Erased(site, n + 1, id) <==> Erased(site, n, id)
  {
    assert HasId(site[n], s.id) && !Absent(site[n].record);
    hide HasId; hide Touched; hide Erased; hide AsSite; hide Absent;
    TouchedNext(site, n, s.id);
  }

  ghost predicate KeptBy(f: Flow, byId: map<string, string>, site: seq<Item>, n: nat, sel: seq<Scheduled>)
    requires n <= |site|
  {
    forall id :: Belongs(f, byId, id) ==> (Holds(sel, id) <==> !Erased(site, n, id))
  }

  lemma OverlaidParts(f: Flow, byId: map<string, string>, compiled: seq<Item>, site: seq<Item>, n: nat, seen: set<string>, sel: seq<Scheduled>)
    requires n <= |site| && OverlaidTo(f, byId, compiled, site, n, seen, sel)
    ensures (forall id :: id in seen <==> Touched(site, n, id)) && Distinct(sel) && KeptBy(f, byId, site, n, sel)
    ensures forall s :: s in sel ==> Belongs(f, byId, s.id) && Decided(f, compiled, site, n, s)
  {
    hide Touched; hide Distinct; hide Belongs; hide Decided; hide Holds; hide Erased;
  }

  lemma OverlaidOf(f: Flow, byId: map<string, string>, compiled: seq<Item>, site: seq<Item>, n: nat, seen: set<string>, sel: seq<Scheduled>)
    requires n <= |site| && (forall id :: id in seen <==> Touched(site, n, id)) && Distinct(sel) && KeptBy(f, byId, site, n, sel)
    requires forall s :: s in sel ==> Belongs(f, byId, s.id) && Decided(f, compiled, site, n, s)
    ensures OverlaidTo(f, byId, compiled, site, n, seen, sel)
  {
    hide Touched; hide Distinct; hide Belongs; hide Decided; hide Holds; hide Erased;
  }

  lemma SwapDecided(f: Flow, byId: map<string, string>, compiled: seq<Item>, site: seq<Item>, n: nat, sel: seq<Scheduled>, at: nat, s: Scheduled)
    requires n < |site| && HasId(site[n], s.id) && at < |sel| && sel[at].id == s.id && Distinct(sel)
    requires forall x :: x in sel ==> Belongs(f, byId, x.id) && Decided(f, compiled, site, n, x)
    requires Decided(f, compiled, site, n + 1, s)
    ensures forall x :: x in sel[at := s] ==> Belongs(f, byId, x.id) && Decided(f, compiled, site, n + 1, x)
  {
    hide HasId; hide Belongs; hide Decided; hide Distinct;
    SwapDistinct(sel, at, s);
    assert sel[at] in sel;
    forall x | x in sel[at := s] ensures Belongs(f, byId, x.id) && Decided(f, compiled, site, n + 1, x) {
      if x != s {
        DecidedNext(f, compiled, site, n, s.id, x);
      }
    }
  }

  lemma SwapDistinct(sel: seq<Scheduled>, at: nat, s: Scheduled)
    requires Distinct(sel) && at < |sel| && sel[at].id == s.id
    ensures Distinct(sel[at := s])
    ensures forall x :: x in sel[at := s] && x != s ==> x in sel && x.id != s.id
  {
    var d := sel[at := s];
    forall x | x in d && x != s ensures x in sel && x.id != s.id {
      var j :| 0 <= j < |d| && d[j] == x;
      assert sel[j] == x;
    }
  }

  lemma SiteDecides(f: Flow, compiled: seq<Item>, site: seq<Item>, n: nat, c: Item, s: Scheduled)
    requires n < |site| && c in compiled && AsSite(f, s, c, site[n])
    ensures Decided(f, compiled, site, n + 1, s)
  {
    assert HasId(site[n], s.id);
    hide HasId; hide AsSite; hide AsCompiled;
    TouchedNext(site, n, s.id);
    assert n < n + 1;
  }

  /** A step that no site file has touched is the compiled one. */
  lemma UntouchedIs(f: Flow, byId: map<string, string>, compiled: seq<Item>, site: seq<Item>, n: nat, seen: set<string>, sel: seq<Scheduled>, id: string)
    returns (c: Item)
    requires n <= |site| && OverlaidTo(f, byId, compiled, site, n, seen, sel) && Belongs(f, byId, id) && id !in seen
    ensures c in compiled && HasId(c, id)
    ensures Find(sel, id).Some? && Find(sel, id).value < |sel|
    ensures var s := sel[Find(sel, id).value]; s.id == id && s.record == c.record && s.name == c.name
  {
    hide HasId; hide Stamped; hide InPhase;
    FindHolds(sel, id);
    FindIs(sel, id);
    assert !Erased(site, n, id) by {
      assert !Touched(site, n, id);
    }
    var s := sel[Find(sel, id).value];
    assert s in sel;
    c :| c in compiled && AsCompiled(f, s, c);
  }

  lemma BelongsIs(f: Flow, byId: map<string, string>, id: string)
    ensures Belongs(f, byId, id) <==> id in byId && byId[id] == FlowName(f)
  {
    WordIs(f);
  }

  lemma TombstoneIs(r: Record)
    ensures IsTombstone(r) <==> Absent(r)
    ensures (exists k :: k in r && k != "id" && k != "state") <==> !OnlyTombstone(r)
  {
  }

  /** One turn of the loop over the site layer. */
  lemma OneSite(f: Flow, byId: map<string, string>, compiled: seq<Item>, site: seq<Item>, n: nat, seen: set<string>, sel: seq<Scheduled>)
    requires n < |site| && OverlaidTo(f, byId, compiled, site, n, seen, sel) && OneEach(f, byId, compiled)
    ensures var r := SiteStep(f, byId, site[n], seen, sel);
      && (r.Some? <==> SiteOk(f, byId, compiled, site, n))
      && (r.Some? ==> OverlaidTo(f, byId, compiled, site, n + 1, r.value.0, r.value.1))
  {
    hide HasId; hide IdOf; hide OverlaidTo; hide Overrides; hide Belongs; hide FlowName; hide Sound; hide Placement; hide Semantic; hide Find;
    hide IsTombstone; hide Schedule; hide OneEach;
    var item := site[n];
    forall x ensures IdOf(item.record) == Some(x) <==> HasId(item, x) { IdIs(item, x); }
    if IdOf(item.record).Some? {
      var id := IdOf(item.record).value;
      FindIs(sel, id);
      BelongsIs(f, byId, id);
      SeenIs(f, byId, compiled, site, n, seen, sel, id);
      if id !in seen && id in byId && byId[id] != "" {
        if Belongs(f, byId, id) {
          OwnSite(f, byId, compiled, site, n, seen, sel, id);
        } else {
          ForeignNext(f, byId, compiled, site, n, seen, sel, id);
        }
      }
    }
  }

  lemma SeenIs(f: Flow, byId: map<string, string>, compiled: seq<Item>, site: seq<Item>, n: nat, seen: set<string>, sel: seq<Scheduled>, id: string)
    requires n <= |site| && OverlaidTo(f, byId, compiled, site, n, seen, sel)
    ensures id in seen <==> exists k :: 0 <= k < n && HasId(site[k], id)
  {
    hide HasId; hide Erased; hide Decided; hide Belongs; hide Distinct;
  }

  lemma OwnSite(f: Flow, byId: map<string, string>, compiled: seq<Item>, site: seq<Item>, n: nat, seen: set<string>, sel: seq<Scheduled>, id: string)
    requires n < |site| && OverlaidTo(f, byId, compiled, site, n, seen, sel) && OneEach(f, byId, compiled)
    requires IdOf(site[n].record) == Some(id) && HasId(site[n], id) && Belongs(f, byId, id) && id !in seen && byId[id] != ""
    ensures var r := SiteStep(f, byId, site[n], seen, sel);
      && (r.Some? <==> Overrides(f, compiled, site[n], id))
      && (r.Some? ==> OverlaidTo(f, byId, compiled, site, n + 1, r.value.0, r.value.1))
  {
    hide HasId; hide IdOf; hide OverlaidTo; hide FlowName; hide Sound; hide Placement; hide Semantic; hide Find; hide SameBehaviour;
    hide IsTombstone; hide Absent; hide OnlyTombstone; hide DescribesStep; hide Schedule; hide Stamped; hide IsStamped; hide ScheduledAs;
    var item := site[n];
    BelongsIs(f, byId, id);
    FindIs(sel, id);
    TombstoneIs(item.record);
    SoundIs(item.record, f);
    StampIs(item, f);
    var c := UntouchedIs(f, byId, compiled, site, n, seen, sel, id);
    SemanticIs(c.record, item.record);
    forall x | x in compiled && HasId(x, id) ensures x == c { }
    var at := Find(sel, id).value;
    if Overrides(f, compiled, item, id) {
      if Absent(item.record) {
        TombstoneNext(f, byId, compiled, site, n, seen, sel, id, at);
      } else {
        var index := Placement(item.name, f).value;
        var next := Schedule(f, id, item, index, Site, Some(sel[at].name));
        ScheduleIs(f, id, item, index, Site, Some(sel[at].name));
        ScheduleFields(f, id, item, index, Site, Some(sel[at].name));
        ReplacedNext(f, byId, compiled, site, n, seen, sel, at, c, next);
      }
    }
  }

  lemma {:induction false} OverlayExact(f: Flow, byId: map<string, string>, compiled: seq<Item>, site: seq<Item>, n: nat, seen: set<string>, sel: seq<Scheduled>)
    requires n <= |site| && OverlaidTo(f, byId, compiled, site, n, seen, sel) && OneEach(f, byId, compiled)
    ensures var r := Overlay(f, byId, site[n..], seen, sel);
      && (r.Some? <==> forall j :: n <= j < |site| ==> SiteOk(f, byId, compiled, site, j))
      && (r.Some? ==> exists all :: OverlaidTo(f, byId, compiled, site, |site|, all, r.value))
    decreases |site| - n
  {
    hide SiteStep; hide SiteOk; hide OverlaidTo; hide OneEach;
    if n < |site| {
      assert site[n..][0] == site[n] && site[n..][1..] == site[n + 1..];
      OneSite(f, byId, compiled, site, n, seen, sel);
      var one := SiteStep(f, byId, site[n], seen, sel);
      if one.Some? {
        OverlayExact(f, byId, compiled, site, n + 1, one.value.0, one.value.1);
      }
    }
  }

  // --------------------------------------------------------------------- declarations

  /** No id is declared after a flow that has a name declared it. */
  predicate DeclaredOnce(flows: Flows) {
    forall k, l :: 0 <= k <= l < |flows| && Collide(flows[k].1, flows[l].1, k == l) ==> flows[k].0 == ""
  }

  /** Two lists share an id; one list with itself, when it has an id twice. */
  predicate Collide(a: seq<string>, b: seq<string>, same: bool) {
    if same then !NoTwice(a) else exists id :: id in a && id in b
  }

  predicate DeclaredBy(flows: Flows, name: string, id: string) {
    exists k :: 0 <= k < |flows| && flows[k].0 == name && id in flows[k].1
  }

  predicate Unclaimed(ids: seq<string>, byId: map<string, string>) {
    forall id :: id in ids && id in byId ==> byId[id] == ""
  }

  predicate NoTwice(ids: seq<string>) {
    forall a, b :: 0 <= a < b < |ids| ==> ids[a] != ids[b]
  }

  lemma NoTwiceCons(x: string, rest: seq<string>)
    ensures NoTwice([x] + rest) <==> x !in rest && NoTwice(rest)
  {
    var all := [x] + rest;
    if NoTwice(all) {
      forall b | 0 <= b < |rest| ensures rest[b] != x {
        assert all[b + 1] != all[0];
      }
      forall a, b | 0 <= a < b < |rest| ensures rest[a] != rest[b] {
        assert all[a + 1] != all[b + 1];
      }
    }
  }

  lemma {:induction false} DeclareExact(flow: string, entries: seq<string>, byId: map<string, string>)
    ensures Declare(flow, entries, byId).Some? <==> Unclaimed(entries, byId) && (flow == "" || NoTwice(entries))
    decreases |entries|
  {
    hide NoTwice;
    if entries == [] {
      assert NoTwice([]) by { NoneTwice(); }
    } else {
      DeclareExact(flow, entries[1..], byId[entries[0] := flow]);
      assert entries == [entries[0]] + entries[1..];
      NoTwiceCons(entries[0], entries[1..]);
    }
  }

  lemma NoneTwice()
    ensures NoTwice([])
  {
  }

  /** No id of the flows is owned by a flow that has a name. */
  predicate Free(flows: Flows, byId: map<string, string>) {
    forall k :: 0 <= k < |flows| ==> Unclaimed(flows[k].1, byId)
  }

  lemma FreeNext(flows: Flows, byId: map<string, string>, next: map<string, string>)
    requires flows != [] && Unclaimed(flows[0].1, byId)
    requires forall id :: id in next <==> id in byId || id in flows[0].1
    requires forall id :: id in next ==> next[id] == if id in flows[0].1 then flows[0].0 else byId[id]
    ensures Free(flows[1..], next) <==> Free(flows[1..], byId) && forall l :: 0 < l < |flows| && Collide(flows[0].1, flows[l].1, false) ==> flows[0].0 == ""
  {
    var rest := flows[1..];
    assert forall l :: 0 < l < |flows| ==> flows[l] == rest[l - 1];
    if Free(rest, next) {
      forall l | 0 < l < |flows| && Collide(flows[0].1, flows[l].1, false) ensures flows[0].0 == "" {
        var id :| id in flows[0].1 && id in flows[l].1;
        assert Unclaimed(rest[l - 1].1, next);
      }
      forall k | 0 <= k < |rest| ensures Unclaimed(rest[k].1, byId) {
        assert Unclaimed(rest[k].1, next);
      }
    } else if Free(rest, byId) && forall l :: 0 < l < |flows| && Collide(flows[0].1, flows[l].1, false) ==> flows[0].0 == "" {
      forall k | 0 <= k < |rest| ensures Unclaimed(rest[k].1, next) {
        assert Unclaimed(rest[k].1, byId);
        assert Collide(flows[0].1, flows[k + 1].1, false) ==> flows[0].0 == "";
      }
    }
  }

  lemma OnceCons(flows: Flows)
    requires flows != []
    ensures DeclaredOnce(flows) <==>
      DeclaredOnce(flows[1..]) && (flows[0].0 == "" || NoTwice(flows[0].1))
      && forall l :: 0 < l < |flows| && Collide(flows[0].1, flows[l].1, false) ==> flows[0].0 == ""
  {
    hide NoTwice;
    var rest := flows[1..];
    assert forall l :: 0 < l < |flows| ==> flows[l] == rest[l - 1];
    if DeclaredOnce(flows) {
      forall k, l | 0 <= k <= l < |rest| && Collide(rest[k].1, rest[l].1, k == l) ensures rest[k].0 == "" {
        assert Collide(flows[k + 1].1, flows[l + 1].1, k + 1 == l + 1);
      }
      assert Collide(flows[0].1, flows[0].1, 0 == 0) ==> flows[0].0 == "";
    }
  }

  lemma {:induction false} DeclaresExact(flows: Flows, byId: map<string, string>)
    ensures DeclareAll(flows, byId).Some? <==> Free(flows, byId) && DeclaredOnce(flows)
    decreases |flows|
  {
    hide Declare; hide DeclaredOnce; hide NoTwice; hide Collide;
    if flows == [] {
      NothingDeclared();
    } else {
      DeclareExact(flows[0].0, flows[0].1, byId);
      OnceCons(flows);
      FreeCons(flows, byId);
      var m := Declare(flows[0].0, flows[0].1, byId);
      if m.Some? {
        forall id
          ensures id in m.value <==> id in byId || id in flows[0].1
          ensures id in m.value ==> m.value[id] == if id in flows[0].1 then flows[0].0 else byId[id]
        {
          DeclareKeeps(flows[0].0, flows[0].1, byId, id);
        }
        FreeNext(flows, byId, m.value);
        DeclaresExact(flows[1..], m.value);
      }
    }
  }

  lemma FreeCons(flows: Flows, byId: map<string, string>)
    requires flows != []
    ensures Free(flows, byId) <==> Unclaimed(flows[0].1, byId) && Free(flows[1..], byId)
  {
    hide Unclaimed;
    assert forall l :: 0 < l < |flows| ==> flows[l] == flows[1..][l - 1];
  }

  lemma NothingDeclared()
    ensures DeclaredOnce([])
  {
  }

  lemma {:induction false} EntriesAre(flows: Flows, name: string)
    requires DistinctNames(flows)
    ensures EntriesOf(flows, name).Some? <==> exists k :: 0 <= k < |flows| && flows[k].0 == name
    ensures EntriesOf(flows, name).Some? ==> forall id :: id in EntriesOf(flows, name).value <==> DeclaredBy(flows, name, id)
    ensures EntriesOf(flows, name).None? ==> forall id :: !DeclaredBy(flows, name, id)
  {
    if flows != [] {
      assert forall l :: 0 < l < |flows| ==> flows[l] == flows[1..][l - 1];
      EntriesAre(flows[1..], name);
      if flows[0].0 != name {
        forall id ensures DeclaredBy(flows, name, id) <==> DeclaredBy(flows[1..], name, id) {
          if k :| 0 <= k < |flows| && flows[k].0 == name && id in flows[k].1 {
            assert flows[1..][k - 1] == flows[k];
          }
          if k :| 0 <= k < |flows[1..]| && flows[1..][k].0 == name && id in flows[1..][k].1 {
            assert flows[k + 1] == flows[1..][k];
          }
        }
      }
    }
  }

  // ------------------------------------------------------------------------ the result

  /** Some flow that has a name declares the id. */
  predicate Declared(flows: Flows, id: string) {
    exists k :: 0 <= k < |flows| && flows[k].0 != "" && id in flows[k].1
  }

  ghost predicate CompiledFits(f: Flow, flows: Flows, compiled: seq<Item>, i: nat)
    requires i < |compiled|
  {
    exists id :: HasId(compiled[i], id) && (DeclaredBy(flows, Word(f), id) ==>
      DescribesStep(compiled[i].record, f) && IsStamped(compiled[i], f) && forall k :: 0 <= k < i ==> !HasId(compiled[k], id))
  }

  ghost predicate SiteFits(f: Flow, flows: Flows, compiled: seq<Item>, site: seq<Item>, j: nat)
    requires j < |site|
  {
    exists id :: HasId(site[j], id) && (forall k :: 0 <= k < j ==> !HasId(site[k], id)) && Declared(flows, id)
      && (DeclaredBy(flows, Word(f), id) ==> Overrides(f, compiled, site[j], id))
  }

  ghost predicate IsCompiled(compiled: seq<Item>, id: string) {
    exists k :: 0 <= k < |compiled| && HasId(compiled[k], id)
  }

  /** What loading asks of the catalog and the files. */
  ghost predicate Loadable(f: Flow, flows: Flows, compiled: seq<Item>, site: seq<Item>) {
    && DeclaredOnce(flows) && (exists k :: 0 <= k < |flows| && flows[k].0 == Word(f))
    && (forall i :: 0 <= i < |compiled| ==> CompiledFits(f, flows, compiled, i))
    && (forall id :: DeclaredBy(flows, Word(f), id) ==> IsCompiled(compiled, id))
    && forall j :: 0 <= j < |site| ==> SiteFits(f, flows, compiled, site, j)
  }

  lemma MapIs(f: Flow, flows: Flows, byId: map<string, string>)
    requires DistinctNames(flows) && DeclareAll(flows, map[]) == Some(byId)
    ensures forall id :: Belongs(f, byId, id) <==> DeclaredBy(flows, Word(f), id)
    ensures forall id :: id in byId && byId[id] != "" <==> Declared(flows, id)
  {
    hide DeclareAll; hide EntriesOf; hide DistinctNames;
    forall id ensures Belongs(f, byId, id) <==> DeclaredBy(flows, Word(f), id) {
      OwnerIs(flows, byId, Word(f), id);
    }
    forall id ensures id in byId && byId[id] != "" <==> Declared(flows, id) {
      if id in byId && byId[id] != "" {
        OwnerIs(flows, byId, byId[id], id);
      } else if Declared(flows, id) {
        var k :| 0 <= k < |flows| && flows[k].0 != "" && id in flows[k].1;
        OwnerIs(flows, byId, flows[k].0, id);
      }
    }
  }

  lemma OwnerIs(flows: Flows, byId: map<string, string>, name: string, id: string)
    requires DistinctNames(flows) && DeclareAll(flows, map[]) == Some(byId) && name != ""
    ensures id in byId && byId[id] == name <==> DeclaredBy(flows, name, id)
  {
    hide DeclareAll; hide EntriesOf; hide DistinctNames;
    EntriesAre(flows, name);
    if EntriesOf(flows, name).Some? {
      DeclaredExact(flows, map[], name, id);
    } else {
      NeverDeclared(flows, map[], name, id);
    }
  }

  lemma NothingTaken(f: Flow, declared: seq<string>, compiled: seq<Item>)
    ensures TakenUpTo(f, declared, compiled, 0, [])
  {
  }

  /** What the compiled layer leaves is what the overlay starts from. */
  lemma StartOverlay(f: Flow, byId: map<string, string>, declared: seq<string>, compiled: seq<Item>, site: seq<Item>, sel: seq<Scheduled>)
    requires TakenUpTo(f, declared, compiled, |compiled|, sel) && forall id :: Belongs(f, byId, id) <==> id in declared
    requires forall i :: 0 <= i < |compiled| ==> CompiledOk(f, declared, compiled, i)
    requires forall id :: id in declared ==> IsCompiled(compiled, id)
    ensures OverlaidTo(f, byId, compiled, site, 0, {}, sel) && OneEach(f, byId, compiled)
  {
    hide HasId; hide AsCompiled; hide Belongs; hide DescribesStep; hide IsStamped; hide Holds;
    forall s | s in sel ensures Belongs(f, byId, s.id) && Decided(f, compiled, site, 0, s) {
      assert TakenFrom(f, compiled, |compiled|, s);
    }
    forall a, b, id | a in compiled && b in compiled && HasId(a, id) && HasId(b, id) && Belongs(f, byId, id) ensures a == b {
      var i :| 0 <= i < |compiled| && compiled[i] == a;
      var j :| 0 <= j < |compiled| && compiled[j] == b;
      IdOnce(f, declared, compiled, i, j, id);
    }
  }

  lemma IdOnce(f: Flow, declared: seq<string>, compiled: seq<Item>, i: nat, j: nat, id: string)
    requires i < |compiled| && j < |compiled| && HasId(compiled[i], id) && HasId(compiled[j], id) && id in declared
    requires CompiledOk(f, declared, compiled, i) && CompiledOk(f, declared, compiled, j)
    ensures i == j
  {
    hide HasId; hide DescribesStep; hide IsStamped;
    var x :| HasId(compiled[i], x) && (x in declared ==> forall k :: 0 <= k < i ==> !HasId(compiled[k], x));
    var y :| HasId(compiled[j], y) && (y in declared ==> forall k :: 0 <= k < j ==> !HasId(compiled[k], y));
    SameId(compiled[i], id, x);
    SameId(compiled[j], id, y);
  }

  lemma FitsAreOks(f: Flow, flows: Flows, byId: map<string, string>, declared: seq<string>, compiled: seq<Item>, site: seq<Item>)
    requires forall id :: Belongs(f, byId, id) <==> DeclaredBy(flows, Word(f), id)
    requires forall id :: id in byId && byId[id] != "" <==> Declared(flows, id)
    requires forall id :: id in declared <==> DeclaredBy(flows, Word(f), id)
    ensures forall i :: 0 <= i < |compiled| ==> (CompiledOk(f, declared, compiled, i) <==> CompiledFits(f, flows, compiled, i))
    ensures forall j :: 0 <= j < |site| ==> (SiteOk(f, byId, compiled, site, j) <==> SiteFits(f, flows, compiled, site, j))
  {
    hide HasId; hide DescribesStep; hide IsStamped; hide Overrides; hide Belongs; hide DeclaredBy; hide Declared;
  }

  lemma AllFound(f: Flow, declared: seq<string>, compiled: seq<Item>, sel: seq<Scheduled>)
    requires TakenUpTo(f, declared, compiled, |compiled|, sel)
    ensures (exists i :: 0 <= i < |declared| && Find(sel, declared[i]).None?) <==> !(forall id :: id in declared ==> IsCompiled(compiled, id))
  {
    hide TakenUpTo; hide HasId; hide Find;
    forall id | id in declared ensures Find(sel, id).Some? <==> IsCompiled(compiled, id) {
      TakenHas(f, declared, compiled, |compiled|, sel, id);
    }
    if id :| id in declared && !IsCompiled(compiled, id) {
      var i :| 0 <= i < |declared| && declared[i] == id;
      assert Find(sel, declared[i]).None?;
    }
  }

  /** Steps of a loaded flow: each decided by its file, those declared and not erased, by name. */
  ghost predicate LoadedAs(f: Flow, flows: Flows, compiled: seq<Item>, site: seq<Item>, r: seq<Scheduled>) {
    && Distinct(r) && InOrder(r) && (forall s :: s in r ==> Decided(f, compiled, site, |site|, s))
    && forall id :: Holds(r, id) <==> DeclaredBy(flows, Word(f), id) && !Erased(site, |site|, id)
  }

  /** A flow loads exactly when the catalog and the files are in order, and then every declared
      step that no site file erases stands once, as its site file says or else its compiled one,
      sorted by file name. */
  lemma LoadsExactly(f: Flow, flows: Flows, compiled: seq<Item>, site: seq<Item>)
    requires DistinctNames(flows)
    ensures LoadFlow(f, flows, compiled, site).Some? <==> Loadable(f, flows, compiled, site)
    ensures LoadFlow(f, flows, compiled, site).Some? ==> LoadedAs(f, flows, compiled, site, LoadFlow(f, flows, compiled, site).value)
  {
    hide DistinctNames; hide DeclareAll; hide DeclaredOnce; hide EntriesOf; hide SelectCompiled; hide Overlay; hide Sorted; hide Find;
    hide CompiledFits; hide SiteFits; hide IsCompiled; hide LoadedAs; hide TakenUpTo; hide OverlaidTo; hide OneEach; hide CompiledOk; hide SiteOk;
    hide DeclaredBy; hide Declared; hide Belongs; hide FlowName; hide Word;
    WordIs(f);
    EntriesAre(flows, Word(f));
    NothingFree(flows);
    DeclaresExact(flows, map[]);
    if DeclareAll(flows, map[]).Some? && EntriesOf(flows, Word(f)).Some? {
      var byId, declared := DeclareAll(flows, map[]).value, EntriesOf(flows, Word(f)).value;
      MapIs(f, flows, byId);
      FitsAreOks(f, flows, byId, declared, compiled, site);
      NothingTaken(f, declared, compiled);
      assert compiled[0..] == compiled && site[0..] == site;
      CompiledExact(f, declared, compiled, 0, []);
      if SelectCompiled(f, declared, compiled, []).Some? {
        var sel := SelectCompiled(f, declared, compiled, []).value;
        AllFound(f, declared, compiled, sel);
        if forall id :: id in declared ==> IsCompiled(compiled, id) {
          StartOverlay(f, byId, declared, compiled, site, sel);
          OverlayExact(f, byId, compiled, site, 0, {}, sel);
          if Overlay(f, byId, site, {}, sel).Some? {
            SortedLoads(f, flows, byId, compiled, site, Overlay(f, byId, site, {}, sel).value);
          }
        }
      }
    }
  }

  lemma NothingFree(flows: Flows)
    ensures Free(flows, map[])
  {
  }

  lemma SortedLoads(f: Flow, flows: Flows, byId: map<string, string>, compiled: seq<Item>, site: seq<Item>, all: seq<Scheduled>)
    requires exists seen :: OverlaidTo(f, byId, compiled, site, |site|, seen, all)
    requires forall id :: Belongs(f, byId, id) <==> DeclaredBy(flows, Word(f), id)
    ensures LoadedAs(f, flows, compiled, site, Sorted(all))
  {
    hide Decided; hide Belongs; hide DeclaredBy; hide Erased; hide Sorted; hide Distinct; hide InOrder; hide Holds;
    var seen :| OverlaidTo(f, byId, compiled, site, |site|, seen, all);
    SortedIs(all);
    var r := Sorted(all);
    SameDistinct(all, r);
    forall id ensures Holds(r, id) <==> Holds(all, id) { SameMembers(all, r, id); }
    forall s | s in r ensures s in all {
      assert s in multiset(r);
    }
    forall id | Holds(all, id) ensures Belongs(f, byId, id) { HeldBelongs(f, byId, all, id); }
  }

  lemma HeldBelongs(f: Flow, byId: map<string, string>, all: seq<Scheduled>, id: string)
    requires Holds(all, id) && forall s :: s in all ==> Belongs(f, byId, s.id)
    ensures Belongs(f, byId, id)
  {
  }

  lemma SameDistinct(a: seq<Scheduled>, b: seq<Scheduled>)
    requires multiset(a) == multiset(b) && Distinct(a)
    ensures Distinct(b)
  {
    forall i, j | 0 <= i < j < |b| ensures b[i].id != b[j].id {
      TwiceSame(a, b, i, j);
    }
  }
}
