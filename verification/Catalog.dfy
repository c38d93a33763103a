/** Selecting and scheduling the steps of a flow (files/catalog/runtime.ts) and running them
    (files/flow/runtime.ts). */
module Catalog {
  import opened Wrappers
  import opened Framing

  /** A JSON object of a descriptor file. */
  type Record = map<string, Json>

  datatype Flow = Build | Install | Status

  function FlowName(f: Flow): string {
    match f case Build => "build" case Install => "install" case Status => "status"
  }

  /** A file of a layer: its last name and its record. Layers come sorted by name. */
  datatype Item = Item(name: string, record: Record)

  datatype Layer = Compiled | Site

  datatype Scheduled = Scheduled(
    id: string, record: Record, index: nat, phase: string, name: string, layer: Layer, shadowed: Option<string>)

  // ---------------------------------------------------------------------- phases

  /** `phaseFor` */
  function PhaseFor(f: Flow, index: nat): string {
    match f
    case Build =>
      if 1 <= index <= 19 then "prerequisites" else if 20 <= index <= 39 then "prepare"
      else if 40 <= index <= 69 then "compile" else if 70 <= index <= 89 then "package"
      else if 90 <= index <= 99 then "finalize" else "unknown"
    case Install =>
      if 1 <= index <= 19 then "prerequisites" else if 20 <= index <= 29 then "identity"
      else if 30 <= index <= 49 then "materialize" else if 50 <= index <= 69 then "publish"
      else if 70 <= index <= 89 then "activate" else if 90 <= index <= 99 then "record" else "unknown"
    case Status => if 1 <= index <= 99 then "inspect" else "unknown"
  }

  /** Position of a phase in its flow. */
  function PhaseRank(f: Flow, phase: string): nat {
    match f
    case Build =>
      if phase == "prerequisites" then 0 else if phase == "prepare" then 1 else if phase == "compile" then 2
      else if phase == "package" then 3 else 4
    case Install =>
      if phase == "prerequisites" then 0 else if phase == "identity" then 1 else if phase == "materialize" then 2
      else if phase == "publish" then 3 else if phase == "activate" then 4 else 5
    case Status => 0
  }

  lemma PhasesGrow(f: Flow, i: nat, j: nat)
    requires 1 <= i <= j <= 99
    ensures PhaseRank(f, PhaseFor(f, i)) <= PhaseRank(f, PhaseFor(f, j))
  {
    PhaseNumber(f, i);
    PhaseNumber(f, j);
    hide PhaseRank; hide PhaseFor;
  }

  function Band(f: Flow, i: nat): nat {
    match f
    case Build => if i <= 19 then 0 else if i <= 39 then 1 else if i <= 69 then 2 else if i <= 89 then 3 else 4
    case Install => if i <= 19 then 0 else if i <= 29 then 1 else if i <= 49 then 2 else if i <= 69 then 3 else if i <= 89 then 4 else 5
    case Status => 0
  }

  lemma PhaseNumber(f: Flow, i: nat)
    requires 1 <= i <= 99
    ensures PhaseRank(f, PhaseFor(f, i)) == Band(f, i)
  {
  }

  // ------------------------------------------------------------------- placement

  predicate IsDigit(c: char) { '0' <= c <= '9' }

  function Digit(c: char): nat
    requires IsDigit(c)
  {
    (c - '0') as nat
  }

  predicate OneLine(s: string) {
    forall i :: 0 <= i < |s| ==> s[i] != '\n' && s[i] != '\r' && s[i] != '\U{2028}' && s[i] != '\U{2029}'
  }

  /** The middle of `NN-flow-….json`. */
  predicate Indexed(name: string, flow: string) {
    var n := 4 + |flow|;
    |name| > n + 5 && name[2] == '-' && name[3..3 + |flow|] == flow && name[3 + |flow|] == '-'
    && name[|name| - 5..] == ".json" && OneLine(name[n..|name| - 5])
  }

  /** `placement`: the index a file name gives, None where it throws. */
  function Placement(name: string, f: Flow): Option<nat> {
    if |name| < 3 || !IsDigit(name[0]) || !IsDigit(name[1]) || !Indexed(name, FlowName(f)) then None
    else
      var index := 10 * Digit(name[0]) + Digit(name[1]);
      if index < 1 then None else Some(index)
  }

  // ------------------------------------------------------------------ descriptors

  /** `semanticDescriptor`: the record without what placement and selection add. Canonical JSON
      of two records is equal exactly when they are equal as maps. */
  function Semantic(r: Record): Record {
    r - {"index", "effectiveIndex", "effectivePhase", "selectedPath", "selectedLayer", "shadowedPath"}
  }

  function IdOf(r: Record): Option<string> {
    if "id" in r && r["id"].Str? && r["id"].s != "" then Some(r["id"].s) else None
  }

  predicate StringsField(r: Record, key: string) {
    key in r ==> r[key].Arr? && forall i :: 0 <= i < |r[key].items| ==> r[key].items[i].Str?
  }

  /** The checks both layers share: version, flow, invocation, contributors. */
  predicate Sound(r: Record, f: Flow) {
    && "version" in r && r["version"] == Num(1.0)
    && "flow" in r && r["flow"] == Str(FlowName(f))
    && "invoke" in r && r["invoke"].Obj?
    && StringsField(r, "contributors")
  }

  predicate IsTombstone(r: Record) { "state" in r && r["state"] == Str("absent") }

  // -------------------------------------------------------------------- declarations

  /** A declared flow and its entries. */
  type Flows = seq<(string, seq<string>)>

  function Declare(flow: string, entries: seq<string>, byId: map<string, string>): Option<map<string, string>> {
    if entries == [] then Some(byId)
    else if entries[0] in byId && byId[entries[0]] != "" then None
    else Declare(flow, entries[1..], byId[entries[0] := flow])
  }

  /** `declaredById` */
  function DeclareAll(flows: Flows, byId: map<string, string>): Option<map<string, string>> {
    if flows == [] then Some(byId)
    else match Declare(flows[0].0, flows[0].1, byId) case None => None case Some(m) => DeclareAll(flows[1..], m)
  }

  function EntriesOf(flows: Flows, name: string): Option<seq<string>> {
    if flows == [] then None else if flows[0].0 == name then Some(flows[0].1) else EntriesOf(flows[1..], name)
  }

  // ---------------------------------------------------------------------- selection

  function Find(sel: seq<Scheduled>, id: string): Option<nat> {
    if sel == [] then None
    else if sel[0].id == id then Some(0)
    else match Find(sel[1..], id) case None => None case Some(i) => Some(i + 1)
  }

  function Schedule(f: Flow, id: string, item: Item, index: nat, layer: Layer, shadowed: Option<string>): Scheduled {
    Scheduled(id, item.record, index, PhaseFor(f, index), item.name, layer, shadowed)
  }

  /** The loop over the compiled layer. */
  function SelectCompiled(f: Flow, declared: seq<string>, items: seq<Item>, sel: seq<Scheduled>): Option<seq<Scheduled>>
    decreases |items|
  {
    if items == [] then Some(sel)
    else
      var item := items[0];
      match IdOf(item.record)
      case None => None
      case Some(id) =>
        if id !in declared then SelectCompiled(f, declared, items[1..], sel)
        else if !Sound(item.record, f) || Find(sel, id).Some? then None
        else
          match Placement(item.name, f)
          case None => None
          case Some(index) => SelectCompiled(f, declared, items[1..], sel + [Schedule(f, id, item, index, Compiled, None)])
  }

  /** What one site file does to the selection; None where it throws. */
  function SiteStep(f: Flow, byId: map<string, string>, item: Item, seen: set<string>, sel: seq<Scheduled>)
    : Option<(set<string>, seq<Scheduled>)>
  {
    match IdOf(item.record)
    case None => None
    case Some(id) =>
      if id in seen || id !in byId || byId[id] == "" then None
      else if byId[id] != FlowName(f) then Some((seen + {id}, sel))
      else
        FindIs(sel, id);
        var at := Find(sel, id);
        if IsTombstone(item.record) then
          if at.None? || exists k :: k in item.record && k != "id" && k != "state" then None
          else Some((seen + {id}, sel[..at.value] + sel[at.value + 1..]))
        else if !Sound(item.record, f) then None
        else
          match Placement(item.name, f)
          case None => None
          case Some(index) =>
            if at.Some? && Semantic(sel[at.value].record) != Semantic(item.record) then None
            else
              var next := Schedule(f, id, item, index, Site, if at.None? then None else Some(sel[at.value].name));
              Some((seen + {id}, if at.None? then sel + [next] else sel[at.value := next]))
  }

  lemma {:induction false} FindIs(sel: seq<Scheduled>, id: string)
    ensures Find(sel, id).Some? ==> Find(sel, id).value < |sel| && sel[Find(sel, id).value].id == id
    ensures Find(sel, id).None? ==> forall i :: 0 <= i < |sel| ==> sel[i].id != id
  {
    if sel != [] {
      FindIs(sel[1..], id);
      assert forall i :: 1 <= i < |sel| ==> sel[i] == sel[1..][i - 1];
    }
  }

  function Overlay(f: Flow, byId: map<string, string>, items: seq<Item>, seen: set<string>, sel: seq<Scheduled>): Option<seq<Scheduled>>
    decreases |items|
  {
    if items == [] then Some(sel)
    else
      match SiteStep(f, byId, items[0], seen, sel)
      case None => None
      case Some(next) => Overlay(f, byId, items[1..], next.0, next.1)
  }

  // ------------------------------------------------------------------------- order

  /** `left < right` on strings. */
  predicate Less(a: string, b: string) {
    b != [] && (a == [] || a[0] < b[0] || (a[0] == b[0] && Less(a[1..], b[1..])))
  }

  function Insert(s: Scheduled, rest: seq<Scheduled>): seq<Scheduled> {
    if rest == [] || !Less(rest[0].name, s.name) then [s] + rest else [rest[0]] + Insert(s, rest[1..])
  }

  /** The stable sort by file name. */
  function Sorted(sel: seq<Scheduled>): seq<Scheduled> {
    if sel == [] then [] else Insert(sel[0], Sorted(sel[1..]))
  }

  /** `loadFlow` */
  function LoadFlow(f: Flow, flows: Flows, compiled: seq<Item>, site: seq<Item>): Option<seq<Scheduled>> {
    match DeclareAll(flows, map[])
    case None => None
    case Some(byId) =>
      match EntriesOf(flows, FlowName(f))
      case None => None
      case Some(declared) =>
        match SelectCompiled(f, declared, compiled, [])
        case None => None
        case Some(sel) =>
          if exists i :: 0 <= i < |declared| && Find(sel, declared[i]).None? then None
          else match Overlay(f, byId, site, {}, sel) case None => None case Some(all) => Some(Sorted(all))
  }

  /** The loops of `loadFlow`. */
  method Load(f: Flow, flows: Flows, compiled: seq<Item>, site: seq<Item>) returns (r: Option<seq<Scheduled>>)
    ensures r == LoadFlow(f, flows, compiled, site)
  {
    hide Sound; hide Placement; hide SiteStep; hide Sorted; hide Declare;
    var byId: map<string, string> := map[];
    var i := 0;
    assert flows[0..] == flows;
    while i < |flows|
      invariant 0 <= i <= |flows| && DeclareAll(flows, map[]) == DeclareAll(flows[i..], byId)
    {
      assert flows[i..][1..] == flows[i + 1..];
      var next := Declare(flows[i].0, flows[i].1, byId);
      if next.None? {
        return None;
      }
      byId := next.value;
      i := i + 1;
    }
    var declared := EntriesOf(flows, FlowName(f));
    if declared.None? {
      return None;
    }
    var sel: seq<Scheduled> := [];
    i := 0;
    assert compiled[0..] == compiled;
    while i < |compiled|
      invariant 0 <= i <= |compiled|
      invariant SelectCompiled(f, declared.value, compiled, []) == SelectCompiled(f, declared.value, compiled[i..], sel)
    {
      assert compiled[i..][1..] == compiled[i + 1..];
      var item := compiled[i];
      var id := IdOf(item.record);
      if id.None? {
        return None;
      }
      if id.value in declared.value {
        if !Sound(item.record, f) || Find(sel, id.value).Some? {
          return None;
        }
        var index := Placement(item.name, f);
        if index.None? {
          return None;
        }
        sel := sel + [Schedule(f, id.value, item, index.value, Compiled, None)];
      }
      i := i + 1;
    }
    if exists k :: 0 <= k < |declared.value| && Find(sel, declared.value[k]).None? {
      return None;
    }
    var seen: set<string> := {};
    i := 0;
    ghost var selected := sel;
    assert site[0..] == site;
    while i < |site|
      invariant 0 <= i <= |site|
      invariant Overlay(f, byId, site, {}, selected) == Overlay(f, byId, site[i..], seen, sel)
    {
      assert site[i..][1..] == site[i + 1..];
      var next := SiteStep(f, byId, site[i], seen, sel);
      if next.None? {
        return None;
      }
      seen, sel := next.value.0, next.value.1;
      i := i + 1;
    }
    return Some(Sorted(sel));
  }

  // ---------------------------------------------------------------------- execution

  /** Whether a failing status step only calls for attention, or is let pass. */
  datatype Handler = Plain | LegacyStatus(exit2IsError: bool)

  /** How many steps run, and the exit code, when step i ends with `codes[i]`. */
  function RunFrom(f: Flow, codes: seq<int>, handlers: seq<Handler>, attention: bool): (nat, int)
    requires |codes| == |handlers|
    decreases |codes|
  {
    if codes == [] then (0, if attention then 1 else 0)
    else if codes[0] == 0 then Counted(RunFrom(f, codes[1..], handlers[1..], attention))
    else if f.Status? && handlers[0].LegacyStatus? then
      Counted(RunFrom(f, codes[1..], handlers[1..], attention || !(codes[0] == 2 && !handlers[0].exit2IsError)))
    else (1, if codes[0] == 2 then 2 else 1)
  }

  function Counted(r: (nat, int)): (nat, int) { (r.0 + 1, r.1) }

  /** The loop of `executeFlow` outside a dry run. */
  method Execute(f: Flow, codes: seq<int>, handlers: seq<Handler>) returns (ran: nat, code: int)
    requires |codes| == |handlers|
    ensures (ran, code) == RunFrom(f, codes, handlers, false)
  {
    var attention := false;
    var i := 0;
    assert codes[0..] == codes && handlers[0..] == handlers;
    while i < |codes|
      invariant 0 <= i <= |codes|
      invariant RunFrom(f, codes, handlers, false) ==
        (i + RunFrom(f, codes[i..], handlers[i..], attention).0, RunFrom(f, codes[i..], handlers[i..], attention).1)
    {
      assert codes[i..][1..] == codes[i + 1..] && handlers[i..][1..] == handlers[i + 1..];
      if codes[i] != 0 {
        if f.Status? && handlers[i].LegacyStatus? {
          if !(codes[i] == 2 && !handlers[i].exit2IsError) {
            attention := true;
          }
        } else {
          return i + 1, if codes[i] == 2 then 2 else 1;
        }
      }
      i := i + 1;
    }
    return i, if attention then 1 else 0;
  }

  /** Building and installing run exactly the prefix up to the first failure. */
  lemma {:induction false} RunsPrefix(f: Flow, codes: seq<int>, handlers: seq<Handler>, attention: bool)
    requires |codes| == |handlers| && !f.Status?
    ensures var r := RunFrom(f, codes, handlers, attention);
      r.0 <= |codes| && (forall i :: 0 <= i < r.0 - 1 ==> codes[i] == 0)
      && (r.0 < |codes| ==> r.0 > 0 && codes[r.0 - 1] != 0)
    ensures !attention ==> var r := RunFrom(f, codes, handlers, attention);
      (r.1 == 0 <==> forall i :: 0 <= i < |codes| ==> codes[i] == 0)
      && (r.1 == 2 <==> r.0 > 0 && codes[r.0 - 1] == 2) && (r.1 == 0 || r.1 == 1 || r.1 == 2)
    decreases |codes|
  {
    if codes != [] {
      RunsPrefix(f, codes[1..], handlers[1..], attention);
      assert forall i :: 1 <= i < |codes| ==> codes[i] == codes[1..][i - 1];
      var rest := RunFrom(f, codes[1..], handlers[1..], attention);
      if codes[0] == 0 && rest.0 > 0 {
        assert codes[rest.0] == codes[1..][rest.0 - 1];
      }
    }
  }
}
