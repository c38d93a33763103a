/** What a loaded flow is: every declared step that no tombstone removes, once, with the compiled
    behaviour, in the order of its index. */
module CatalogFacts {
  import opened Wrappers
  import opened Catalog

  // -------------------------------------------------------------------- declarations

  predicate DistinctNames(flows: Flows) {
    forall i, j :: 0 <= i < j < |flows| ==> flows[i].0 != flows[j].0
  }

  /** Named declarations are never overwritten. */
  lemma {:induction false} DeclareKeeps(flow: string, entries: seq<string>, byId: map<string, string>, id: string)
    requires Declare(flow, entries, byId).Some?
    ensures var m := Declare(flow, entries, byId).value;
      (id in byId && byId[id] != "" ==> id in m && m[id] == byId[id])
      && (id in byId ==> id in m)
      && (id in entries ==> id in m && m[id] == flow)
      && (id in m && id !in entries ==> id in byId && m[id] == byId[id])
    decreases |entries|
  {
    if entries != [] {
      DeclareKeeps(flow, entries[1..], byId[entries[0] := flow], id);
    }
  }

  lemma {:induction false} DeclareAllKeeps(flows: Flows, byId: map<string, string>, id: string)
    requires DeclareAll(flows, byId).Some? && id in byId && byId[id] != ""
    ensures id in DeclareAll(flows, byId).value && DeclareAll(flows, byId).value[id] == byId[id]
    decreases |flows|
  {
    if flows != [] {
      DeclareKeeps(flows[0].0, flows[0].1, byId, id);
      DeclareAllKeeps(flows[1..], Declare(flows[0].0, flows[0].1, byId).value, id);
    }
  }

  /** An id belongs to a flow exactly when that flow lists it. */
  lemma {:induction false} DeclaredExact(flows: Flows, byId: map<string, string>, name: string, id: string)
    requires DistinctNames(flows) && name != "" && DeclareAll(flows, byId).Some? && EntriesOf(flows, name).Some?
    requires id in byId ==> byId[id] != name
    ensures var m := DeclareAll(flows, byId).value;
      (id in m && m[id] == name) <==> id in EntriesOf(flows, name).value
    decreases |flows|
  {
    var m := Declare(flows[0].0, flows[0].1, byId).value;
    DeclareKeeps(flows[0].0, flows[0].1, byId, id);
    if flows[0].0 == name {
      if id in flows[0].1 {
        DeclareAllKeeps(flows[1..], m, id);
      } else {
        NeverDeclared(flows[1..], m, name, id);
      }
    } else {
      DeclaredExact(flows[1..], m, name, id);
    }
  }

  lemma {:induction false} NeverDeclared(flows: Flows, byId: map<string, string>, name: string, id: string)
    requires DeclareAll(flows, byId).Some? && (id in byId ==> byId[id] != name)
    requires forall i :: 0 <= i < |flows| ==> flows[i].0 != name
    ensures var m := DeclareAll(flows, byId).value; !(id in m && m[id] == name)
    decreases |flows|
  {
    if flows != [] {
      DeclareKeeps(flows[0].0, flows[0].1, byId, id);
      NeverDeclared(flows[1..], Declare(flows[0].0, flows[0].1, byId).value, name, id);
    }
  }

  // ------------------------------------------------------------------------ selection

  /** A selected step and the compiled file it comes from. */
  predicate From(f: Flow, s: Scheduled, compiled: seq<Item>) {
    exists i :: 0 <= i < |compiled| && IdOf(compiled[i].record) == Some(s.id) && Semantic(s.record) == Semantic(compiled[i].record)
  }

  predicate Placed(f: Flow, s: Scheduled) {
    Placement(s.name, f) == Some(s.index) && s.phase == PhaseFor(f, s.index)
  }

  predicate Distinct(sel: seq<Scheduled>) {
    forall i, j :: 0 <= i < j < |sel| ==> sel[i].id != sel[j].id
  }

  predicate Holds(sel: seq<Scheduled>, id: string) {
    exists i :: 0 <= i < |sel| && sel[i].id == id
  }

  ghost predicate Selection(f: Flow, declared: seq<string>, compiled: seq<Item>, sel: seq<Scheduled>) {
    && Distinct(sel)
    && forall i :: 0 <= i < |sel| ==> From(f, sel[i], compiled) && Placed(f, sel[i]) && sel[i].id in declared
  }

  lemma SelectionSnoc(f: Flow, declared: seq<string>, compiled: seq<Item>, sel: seq<Scheduled>, s: Scheduled)
    requires Selection(f, declared, compiled, sel) && From(f, s, compiled) && Placed(f, s) && s.id in declared && !Holds(sel, s.id)
    ensures Selection(f, declared, compiled, sel + [s])
  {
    hide From; hide Placed;
  }

  lemma FindHolds(sel: seq<Scheduled>, id: string)
    ensures Find(sel, id).Some? <==> Holds(sel, id)
  {
    FindIs(sel, id);
  }

  lemma {:induction false} CompiledSelected(f: Flow, declared: seq<string>, compiled: seq<Item>, n: nat, sel: seq<Scheduled>)
    requires n <= |compiled| && Selection(f, declared, compiled, sel) && SelectCompiled(f, declared, compiled[n..], sel).Some?
    ensures Selection(f, declared, compiled, SelectCompiled(f, declared, compiled[n..], sel).value)
    decreases |compiled| - n
  {
    hide Selection; hide Sound; hide Placement; hide Find; hide Semantic; hide PhaseFor;
    if n < |compiled| {
      var item := compiled[n];
      assert compiled[n..][1..] == compiled[n + 1..] && compiled[n..][0] == item;
      var id := IdOf(item.record).value;
      if id in declared {
        var s := Schedule(f, id, item, Placement(item.name, f).value, Compiled, None);
        FindHolds(sel, id);
        assert From(f, s, compiled);
        assert Placed(f, s);
        SelectionSnoc(f, declared, compiled, sel, s);
        CompiledSelected(f, declared, compiled, n + 1, sel + [s]);
      } else {
        CompiledSelected(f, declared, compiled, n + 1, sel);
      }
    }
  }

  /** Whether a site file among these takes an id out of the flow. */
  predicate Removed(f: Flow, byId: map<string, string>, site: seq<Item>, id: string) {
    exists i :: 0 <= i < |site| && IdOf(site[i].record) == Some(id) && IsTombstone(site[i].record)
      && id in byId && byId[id] == FlowName(f)
  }

  /** The selection during the overlay: ids not yet seen are all still there. */
  ghost predicate Overlaid(f: Flow, byId: map<string, string>, declared: seq<string>, compiled: seq<Item>, seen: set<string>, sel: seq<Scheduled>) {
    && Selection(f, declared, compiled, sel)
    && forall id :: id in declared && id !in seen ==> Holds(sel, id)
  }

  lemma ReplaceHolds(sel: seq<Scheduled>, i: nat, s: Scheduled, id: string)
    requires i < |sel| && s.id == sel[i].id
    ensures Holds(sel[i := s], id) <==> Holds(sel, id)
  {
    var t := sel[i := s];
    if j :| 0 <= j < |sel| && sel[j].id == id {
      assert t[j].id == id;
    }
    if j :| 0 <= j < |t| && t[j].id == id {
      assert sel[j].id == id;
    }
  }

  lemma DropHolds(sel: seq<Scheduled>, i: nat, id: string)
    requires i < |sel| && Distinct(sel)
    ensures Holds(sel[..i] + sel[i + 1..], id) <==> Holds(sel, id) && id != sel[i].id
  {
    var d := sel[..i] + sel[i + 1..];
    if j :| 0 <= j < |sel| && sel[j].id == id && id != sel[i].id {
      assert j < i ==> d[j] == sel[j];
      assert j > i ==> d[j - 1] == sel[j];
    }
    if j :| 0 <= j < |d| && d[j].id == id {
      assert d[j] == if j < i then sel[j] else sel[j + 1];
    }
  }

  lemma DropSelection(f: Flow, declared: seq<string>, compiled: seq<Item>, sel: seq<Scheduled>, i: nat)
    requires Selection(f, declared, compiled, sel) && i < |sel|
    ensures Selection(f, declared, compiled, sel[..i] + sel[i + 1..])
  {
    hide From; hide Placed;
    var d := sel[..i] + sel[i + 1..];
    forall j | 0 <= j < |d| ensures From(f, d[j], compiled) && Placed(f, d[j]) && d[j].id in declared {
      assert d[j] == if j < i then sel[j] else sel[j + 1];
    }
    forall j, k | 0 <= j < k < |d| ensures d[j].id != d[k].id {
      assert d[j] == (if j < i then sel[j] else sel[j + 1]) && d[k] == (if k < i then sel[k] else sel[k + 1]);
    }
  }

  lemma SwapSelection(f: Flow, declared: seq<string>, compiled: seq<Item>, sel: seq<Scheduled>, i: nat, s: Scheduled)
    requires Selection(f, declared, compiled, sel) && i < |sel| && s.id == sel[i].id
    requires Semantic(s.record) == Semantic(sel[i].record) && Placed(f, s)
    ensures Selection(f, declared, compiled, sel[i := s])
  {
    hide Placed; hide Semantic;
    assert From(f, sel[i], compiled);
    assert From(f, s, compiled);
    hide From;
  }

  /** One site file keeps the selection in order. */
  lemma SiteStepKeeps(f: Flow, byId: map<string, string>, declared: seq<string>, compiled: seq<Item>, item: Item, seen: set<string>, sel: seq<Scheduled>)
    requires Overlaid(f, byId, declared, compiled, seen, sel) && SiteStep(f, byId, item, seen, sel).Some?
    requires forall id :: id in byId && byId[id] == FlowName(f) ==> id in declared
    ensures var n := SiteStep(f, byId, item, seen, sel).value; var id := IdOf(item.record).value;
      Overlaid(f, byId, declared, compiled, n.0, n.1) && IdOf(item.record).Some? && n.0 == seen + {id} && id !in seen
      && forall x :: Holds(n.1, x) <==>
        Holds(sel, x) && !(x == id && IsTombstone(item.record) && id in byId && byId[id] == FlowName(f))
  {
    hide Selection; hide Sound; hide Placement; hide Semantic; hide Find; hide Holds; hide IsTombstone; hide PhaseFor; hide FlowName;
    var id := IdOf(item.record).value;
    FindIs(sel, id);
    FindHolds(sel, id);
    SelectionDistinct(f, declared, compiled, sel);
    var n := SiteStep(f, byId, item, seen, sel).value;
    if byId[id] == FlowName(f) {
      var i := Find(sel, id).value;
      if IsTombstone(item.record) {
        DropSelection(f, declared, compiled, sel, i);
        forall x ensures Holds(n.1, x) <==> Holds(sel, x) && x != id {
          DropHolds(sel, i, x);
        }
      } else {
        var s := Schedule(f, id, item, Placement(item.name, f).value, Site, Some(sel[i].name));
        assert Placed(f, s);
        SwapSelection(f, declared, compiled, sel, i, s);
        forall x ensures Holds(n.1, x) <==> Holds(sel, x) {
          ReplaceHolds(sel, i, s, x);
        }
      }
    }
  }

  lemma SelectionDistinct(f: Flow, declared: seq<string>, compiled: seq<Item>, sel: seq<Scheduled>)
    requires Selection(f, declared, compiled, sel)
    ensures Distinct(sel)
  {
  }

  lemma {:induction false} OverlayKeeps(f: Flow, byId: map<string, string>, declared: seq<string>, compiled: seq<Item>,
                                        items: seq<Item>, seen: set<string>, sel: seq<Scheduled>)
    requires Overlaid(f, byId, declared, compiled, seen, sel) && Overlay(f, byId, items, seen, sel).Some?
    requires forall id :: id in byId && byId[id] == FlowName(f) ==> id in declared
    ensures var r := Overlay(f, byId, items, seen, sel).value;
      Selection(f, declared, compiled, r) && forall x :: Holds(r, x) <==> Holds(sel, x) && !Removed(f, byId, items, x)
    decreases |items|
  {
    hide Selection; hide Holds; hide SiteStep; hide IsTombstone; hide FlowName;
    if items != [] {
      SiteStepKeeps(f, byId, declared, compiled, items[0], seen, sel);
      var n := SiteStep(f, byId, items[0], seen, sel).value;
      OverlayKeeps(f, byId, declared, compiled, items[1..], n.0, n.1);
      forall x ensures Removed(f, byId, items, x) <==>
        (IdOf(items[0].record) == Some(x) && IsTombstone(items[0].record) && x in byId && byId[x] == FlowName(f)) || Removed(f, byId, items[1..], x)
      {
      }
    }
  }

  // ----------------------------------------------------------------------------- order

  lemma {:induction false} LessTotal(a: string, b: string)
    ensures !(Less(a, b) && Less(b, a))
    ensures a == b || Less(a, b) || Less(b, a)
    decreases |a|
  {
    if a != [] && b != [] && a[0] == b[0] {
      LessTotal(a[1..], b[1..]);
      assert a == [a[0]] + a[1..] && b == [b[0]] + b[1..];
    }
  }

  lemma {:induction false} LessTrans(a: string, b: string, c: string)
    requires !Less(b, a) && !Less(c, b)
    ensures !Less(c, a)
    decreases |a|
  {
    if a != [] && b != [] && c != [] && a[0] == b[0] == c[0] {
      LessTrans(a[1..], b[1..], c[1..]);
    }
  }

  predicate InOrder(sel: seq<Scheduled>) {
    forall i, j :: 0 <= i < j < |sel| ==> !Less(sel[j].name, sel[i].name)
  }

  lemma {:induction false} InsertMembers(s: Scheduled, rest: seq<Scheduled>)
    ensures multiset(Insert(s, rest)) == multiset([s] + rest)
  {
    hide Less;
    if rest != [] && Less(rest[0].name, s.name) {
      InsertMembers(s, rest[1..]);
      assert rest == [rest[0]] + rest[1..];
    }
  }

  lemma {:induction false} InsertKeeps(s: Scheduled, rest: seq<Scheduled>)
    requires InOrder(rest)
    ensures InOrder(Insert(s, rest))
  {
    hide Less;
    if rest != [] && Less(rest[0].name, s.name) {
      InsertKeeps(s, rest[1..]);
      InsertMembers(s, rest[1..]);
      var more := Insert(s, rest[1..]);
      hide Insert;
      forall x: Scheduled | x in multiset(more) ensures !Less(x.name, rest[0].name) {
        if x == s {
          LessTotal(rest[0].name, s.name);
        } else {
          assert x in multiset([s] + rest[1..]);
          assert x in rest[1..];
        }
      }
    } else {
      forall i | 0 <= i < |rest| ensures !Less(rest[i].name, s.name) {
        if i > 0 {
          LessTrans(s.name, rest[0].name, rest[i].name);
        }
      }
    }
  }

  lemma {:induction false} SortedIs(sel: seq<Scheduled>)
    ensures multiset(Sorted(sel)) == multiset(sel) && InOrder(Sorted(sel))
  {
    if sel != [] {
      SortedIs(sel[1..]);
      InsertKeeps(sel[0], Sorted(sel[1..]));
      InsertMembers(sel[0], Sorted(sel[1..]));
      assert sel == [sel[0]] + sel[1..];
      hide Insert;
    }
  }

  /** Names in order have indices in order. */
  lemma OrderedIndex(a: string, b: string, f: Flow)
    requires !Less(b, a) && Placement(a, f).Some? && Placement(b, f).Some?
    ensures 1 <= Placement(a, f).value <= Placement(b, f).value <= 99
  {
    hide Indexed;
    assert Less(b, a) <==> b[0] < a[0] || (b[0] == a[0] && Less(b[1..], a[1..]));
    assert Less(b[1..], a[1..]) <==> b[1] < a[1] || (b[1] == a[1] && Less(b[1..][1..], a[1..][1..]));
  }

  // --------------------------------------------------------------------------- the result

  lemma SameMembers(a: seq<Scheduled>, b: seq<Scheduled>, id: string)
    requires multiset(a) == multiset(b)
    ensures Holds(a, id) <==> Holds(b, id)
  {
    if i :| 0 <= i < |a| && a[i].id == id {
      assert a[i] in multiset(a);
      assert a[i] in b;
    }
    if i :| 0 <= i < |b| && b[i].id == id {
      assert b[i] in multiset(b);
      assert b[i] in a;
    }
  }

  lemma {:induction false} PermutedSelection(f: Flow, declared: seq<string>, compiled: seq<Item>, a: seq<Scheduled>, b: seq<Scheduled>)
    requires multiset(a) == multiset(b) && Selection(f, declared, compiled, a)
    ensures Selection(f, declared, compiled, b)
  {
    hide From; hide Placed;
    forall i | 0 <= i < |b| ensures From(f, b[i], compiled) && Placed(f, b[i]) && b[i].id in declared {
      assert b[i] in multiset(b);
      assert b[i] in a;
    }
    forall i, j | 0 <= i < j < |b| ensures b[i].id != b[j].id {
      if b[i].id == b[j].id {
        TwiceSame(a, b, i, j);
      }
    }
  }

  lemma TwiceSame(a: seq<Scheduled>, b: seq<Scheduled>, i: nat, j: nat)
    requires multiset(a) == multiset(b) && Distinct(a) && i < j < |b|
    ensures b[i].id != b[j].id
  {
    assert b[i] in multiset(b) && b[j] in multiset(b);
    assert b[i] in a && b[j] in a;
    if b[i].id == b[j].id {
      var x, y :| 0 <= x < |a| && a[x] == b[i] && 0 <= y < |a| && a[y] == b[j];
      assert x == y;
      TwiceCount(b, i, j);
      Once(a, x);
    }
  }

  lemma {:induction false} TwiceCount(b: seq<Scheduled>, i: nat, j: nat)
    requires i < j < |b| && b[i] == b[j]
    ensures multiset(b)[b[i]] >= 2
  {
    assert b == b[..i] + [b[i]] + b[i + 1..j] + [b[j]] + b[j + 1..];
  }

  lemma {:induction false} Once(a: seq<Scheduled>, x: nat)
    requires Distinct(a) && x < |a|
    ensures multiset(a)[a[x]] == 1
  {
    assert a == a[..x] + [a[x]] + a[x + 1..];
    assert a[x] !in a[..x] && a[x] !in a[x + 1..];
  }

  /** A loaded flow holds exactly the declared steps that no tombstone removes, each once, each
      behaving as compiled, with indices and phases that never decrease. */
  lemma LoadedExact(f: Flow, flows: Flows, compiled: seq<Item>, site: seq<Item>)
    requires DistinctNames(flows) && LoadFlow(f, flows, compiled, site).Some?
    ensures var r := LoadFlow(f, flows, compiled, site).value; var byId := DeclareAll(flows, map[]);
      byId.Some? && EntriesOf(flows, FlowName(f)).Some?
      && Distinct(r) && (forall i :: 0 <= i < |r| ==> From(f, r[i], compiled) && Placed(f, r[i]))
      && (forall id :: Holds(r, id) <==> id in EntriesOf(flows, FlowName(f)).value && !Removed(f, byId.value, site, id))
      && forall i, j :: 0 <= i < j < |r| ==> r[i].index <= r[j].index && PhaseRank(f, r[i].phase) <= PhaseRank(f, r[j].phase)
  {
    hide SelectCompiled; hide Overlay; hide Sorted; hide Find; hide Removed; hide DeclareAll; hide EntriesOf; hide From; hide Placed;
    var byId := DeclareAll(flows, map[]).value;
    var declared := EntriesOf(flows, FlowName(f)).value;
    forall id ensures id in byId && byId[id] == FlowName(f) <==> id in declared {
      DeclaredExact(flows, map[], FlowName(f), id);
    }
    assert compiled[0..] == compiled;
    CompiledSelected(f, declared, compiled, 0, []);
    var sel := SelectCompiled(f, declared, compiled, []).value;
    forall id | id in declared ensures Holds(sel, id) {
      FindHolds(sel, id);
    }
    OverlayKeeps(f, byId, declared, compiled, site, {}, sel);
    var all := Overlay(f, byId, site, {}, sel).value;
    SortedIs(all);
    PermutedSelection(f, declared, compiled, all, Sorted(all));
    var r := Sorted(all);
    forall id ensures Holds(r, id) <==> id in declared && !Removed(f, byId, site, id) {
      SameMembers(all, r, id);
    }
    OrderedSchedule(f, r);
  }

  lemma OrderedSchedule(f: Flow, r: seq<Scheduled>)
    requires InOrder(r) && forall i :: 0 <= i < |r| ==> Placed(f, r[i])
    ensures forall i, j :: 0 <= i < j < |r| ==> r[i].index <= r[j].index && PhaseRank(f, r[i].phase) <= PhaseRank(f, r[j].phase)
  {
    hide Less; hide PhaseFor; hide PhaseRank; hide Placement;
    forall i, j | 0 <= i < j < |r| ensures r[i].index <= r[j].index && PhaseRank(f, r[i].phase) <= PhaseRank(f, r[j].phase) {
      OrderedIndex(r[i].name, r[j].name, f);
      PhasesGrow(f, r[i].index, r[j].index);
    }
  }
}
