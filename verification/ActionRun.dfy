/** Running an admitted action graph (files/actions/runtime.ts): the nested processes run a prefix
    of the flattened plan and never meet an operation or an action that was not admitted. */
module ActionRun {
  import opened Wrappers
  import opened Actions
  import opened ActionGraph

  /** Something started: an admitted operation, or an executable of a plan. */
  datatype Leaf = Operate(family: string, op: Op) | Launch(path: string)

  /** What happens at the next start: the invocation was interrupted before it, or the started
      program fails or succeeds. */
  datatype Luck = Succeeds | Fails | Interrupted

  datatype How = Completed | Stopped | Refused

  // ------------------------------------------------------------- the flattened plan

  /** The leaves of a family's plan in order; an authored body runs its children once, in
      order, and then ends itself. */
  function Flat(plans: Plans, name: string, visiting: set<string>): seq<Leaf>
    requires name in plans && visiting <= plans.Keys
    decreases |plans.Keys - visiting|, 0, 0
  {
    if name in visiting then []
    else
      Fewer(plans.Keys, visiting, name);
      FlatSteps(plans, name, plans[name], visiting + {name})
  }

  function FlatSteps(plans: Plans, family: string, steps: seq<Step>, next: set<string>): seq<Leaf>
    requires next <= plans.Keys
    decreases |plans.Keys - next|, 1, Size(steps)
  {
    if steps == [] then [] else FlatStep(plans, family, steps[0], next) + FlatSteps(plans, family, steps[1..], next)
  }

  function FlatStep(plans: Plans, family: string, s: Step, next: set<string>): seq<Leaf>
    requires next <= plans.Keys
    decreases |plans.Keys - next|, 1, StepSize(s)
  {
    match s
    case Domain(op) => [Operate(family, op)]
    case Action(name) => if name in plans then Flat(plans, name, next) else []
    case Exec(path) => [Launch(path)]
    case Body(path, children) => FlatSteps(plans, family, children, next) + [Launch(path)]
  }

  lemma {:induction false} FlatAppend(plans: Plans, family: string, a: seq<Step>, b: seq<Step>, next: set<string>)
    requires next <= plans.Keys
    ensures FlatSteps(plans, family, a + b, next) == FlatSteps(plans, family, a, next) + FlatSteps(plans, family, b, next)
  {
    hide FlatStep;
    if a == [] {
      assert a + b == b;
    } else {
      assert (a + b)[0] == a[0] && (a + b)[1..] == a[1..] + b;
      FlatAppend(plans, family, a[1..], b, next);
    }
  }

  lemma FlatOne(plans: Plans, family: string, s: Step, next: set<string>)
    requires next <= plans.Keys
    ensures FlatSteps(plans, family, [s], next) == FlatStep(plans, family, s, next)
  {
    hide FlatStep;
    assert [s][1..] == [];
  }

  /** What each kind of step stands for: an operation of its own family, one executable, a body
      after its children, and all of another family's plan in the place of its name. Steps are
      taken in order, each once. */
  lemma FlatExact(plans: Plans, family: string, a: seq<Step>, b: seq<Step>, op: Op, path: string, other: string, next: set<string>)
    requires next <= plans.Keys && other in plans && other !in next
    ensures FlatSteps(plans, family, [], next) == []
    ensures FlatSteps(plans, family, a + b, next) == FlatSteps(plans, family, a, next) + FlatSteps(plans, family, b, next)
    ensures FlatSteps(plans, family, [Domain(op)], next) == [Operate(family, op)]
    ensures FlatSteps(plans, family, [Exec(path)], next) == [Launch(path)]
    ensures FlatSteps(plans, family, [Body(path, a)], next) == FlatSteps(plans, family, a, next) + [Launch(path)]
    ensures FlatSteps(plans, family, [Action(other)], next) == FlatSteps(plans, other, plans[other], next + {other})
    ensures Flat(plans, other, {}) == FlatSteps(plans, other, plans[other], {other})
  {
    hide FlatSteps;
    FlatAppend(plans, family, a, b, next);
    NoSteps(plans, family, next);
    FlatOne(plans, family, Domain(op), next);
    FlatOne(plans, family, Exec(path), next);
    FlatOne(plans, family, Body(path, a), next);
    FlatOne(plans, family, Action(other), next);
    assert {} + {other} == {other};
  }

  /** How many of some leaves are started when the n-th start is due. */
  function Started(flat: seq<Leaf>, luck: nat -> Luck, n: nat): (k: nat)
    ensures k <= |flat|
    decreases |flat|
  {
    if flat == [] || luck(n).Interrupted? then 0
    else if luck(n).Fails? then 1
    else 1 + Started(flat[1..], luck, n + 1)
  }

  predicate Done(flat: seq<Leaf>, luck: nat -> Luck, n: nat)
    decreases |flat|
  {
    flat == [] || (luck(n).Succeeds? && Done(flat[1..], luck, n + 1))
  }

  /** From the n-th start on, k of them succeed. */
  ghost predicate AllSucceed(luck: nat -> Luck, n: nat, k: nat) {
    forall m: nat :: n <= m < n + k ==> luck(m).Succeeds?
  }

  /** What was started goes up to the first interrupt, which starts nothing, or the first failure,
      which is its last start. */
  ghost predicate Halts(luck: nat -> Luck, n: nat, k: nat, size: nat) {
    || (k < size && luck(n + k).Interrupted? && AllSucceed(luck, n, k))
    || (0 < k <= size && luck(n + k - 1).Fails? && AllSucceed(luck, n, k - 1))
  }

  /** A plan is done exactly when every start due succeeds; otherwise it halts. */
  lemma {:induction false} StartsExact(flat: seq<Leaf>, luck: nat -> Luck, n: nat)
    ensures Done(flat, luck, n) <==> AllSucceed(luck, n, |flat|)
    ensures !Done(flat, luck, n) ==> Halts(luck, n, Started(flat, luck, n), |flat|)
    decreases |flat|
  {
    if flat != [] {
      StartsExact(flat[1..], luck, n + 1);
    }
  }

  lemma {:induction false} StartedAppend(a: seq<Leaf>, b: seq<Leaf>, luck: nat -> Luck, n: nat)
    ensures Done(a + b, luck, n) <==> Done(a, luck, n) && Done(b, luck, n + |a|)
    ensures Started(a + b, luck, n) == if Done(a, luck, n) then |a| + Started(b, luck, n + |a|) else Started(a, luck, n)
    decreases |a|
  {
    if a == [] {
      assert a + b == b;
    } else {
      assert (a + b)[1..] == a[1..] + b;
      StartedAppend(a[1..], b, luck, n + 1);
    }
  }

  lemma {:induction false} DoneStarts(flat: seq<Leaf>, luck: nat -> Luck, n: nat)
    requires Done(flat, luck, n)
    ensures Started(flat, luck, n) == |flat|
    decreases |flat|
  {
    if flat != [] {
      DoneStarts(flat[1..], luck, n + 1);
    }
  }

  // ------------------------------------------------------------------ what was admitted

  /** The session covers what is reachable from a family: its actions and operations; without
      a session there is no operation to run. */
  ghost predicate Covers(plans: Plans, session: Option<Acc>, name: string) {
    forall x :: Reachable(plans, name, x) && x in plans ==> CoversPlan(session, x, plans[x])
  }

  predicate CoversPlan(session: Option<Acc>, x: string, steps: seq<Step>) {
    && (session.Some? ==> x in session.value.actions)
    && forall op :: op in Ops(steps) ==> session.Some? && Admitted(x, op) in session.value.operations
  }

  lemma CoversRef(plans: Plans, session: Option<Acc>, name: string, r: string)
    requires Covers(plans, session, name) && name in plans && r in Refs(plans[name])
    ensures Covers(plans, session, r)
  {
    hide Reachable; hide CoversPlan;
    forall x | Reachable(plans, r, x) && x in plans ensures CoversPlan(session, x, plans[x]) {
      ReachCons(plans, name, r, x);
    }
  }

  lemma CoversSelf(plans: Plans, session: Option<Acc>, name: string)
    requires Covers(plans, session, name) && name in plans
    ensures CoversPlan(session, name, plans[name])
  {
    hide IsPath;
    OnePath(plans, name);
    assert [name][0] == name && [name][|[name]| - 1] == name;
  }

  /** The session `domainsIn` yields, or none when it found no operation. */
  function SessionFor(acc: Acc): Option<Acc> {
    if acc.operations == [] then None else Some(acc)
  }

  lemma SessionCovers(plans: Plans, root: string, acc: Acc)
    requires root in plans && DomainsIn(plans, root) == Some(acc)
    ensures Covers(plans, SessionFor(acc), root) && Good(plans, root, {})
  {
    hide Visit; hide Acyclic; hide Complete; hide Unambiguous; hide Reachable; hide Good; hide DomainsIn; hide Ops;
    DomainsExact(plans, root);
    GoodIsAcyclic(plans, root);
    forall x | Reachable(plans, root, x) && x in plans ensures CoversPlan(SessionFor(acc), x, plans[x]) {
      forall op | op in Ops(plans[x]) ensures Admitted(x, op) in acc.operations {
        assert Declares(plans, root, x, op);
      }
    }
  }

  // -------------------------------------------------------------------- the processes

  class Invocation {
    const plans: Plans
    const session: Option<Acc>
    const luck: nat -> Luck
    var ran: seq<Leaf>
    var tick: nat

    constructor (plans: Plans, session: Option<Acc>, luck: nat -> Luck)
      ensures this.plans == plans && this.session == session && this.luck == luck && ran == [] && tick == 0
    {
      this.plans, this.session, this.luck, ran, tick := plans, session, luck, [], 0;
    }

    /** The run of some leaves from here: as far as luck goes, in order. */
    twostate predicate Follows(flat: seq<Leaf>, how: How)
      reads this
    {
      && how == (if Done(flat, luck, old(tick)) then Completed else Stopped)
      && ran == old(ran) + flat[..Started(flat, luck, old(tick))]
      && (how.Completed? ==> tick == old(tick) + |flat|)
    }

    method Start(leaf: Leaf) returns (how: How)
      modifies this
      ensures Follows([leaf], how)
    {
      var l := luck(tick);
      assert [leaf][1..] == [];
      tick := tick + 1;
      if l.Interrupted? {
        assert ran + [leaf][..0] == ran;
        return Stopped;
      }
      ran := ran + [leaf];
      how := if l.Fails? then Stopped else Completed;
    }

    /** `runAction` of a family, entered from the families in `visiting`. */
    method RunAction(name: string, visiting: set<string>) returns (how: How)
      requires name in plans && visiting <= plans.Keys
      modifies this
      ensures Good(plans, name, visiting) && Covers(plans, session, name) ==> Follows(Flat(plans, name, visiting), how)
      decreases |plans.Keys - visiting|, 0, 0
    {
      ghost var fit := Good(plans, name, visiting) && Covers(plans, session, name);
      if fit {
        CoversSelf(plans, session, name);
        GoodHere(plans, name, visiting);
      }
      if session.Some? && name !in session.value.actions {
        return Refused;
      }
      if name in visiting {
        return Refused;
      }
      Fewer(plans.Keys, visiting, name);
      if fit {
        FitSteps(plans, session, name, visiting);
      }
      how := ExecuteSteps(name, plans[name], visiting + {name});
    }

    /** `executeSteps`, with the children of authored bodies. */
    method ExecuteSteps(family: string, steps: seq<Step>, next: set<string>) returns (how: How)
      requires next <= plans.Keys
      modifies this
      ensures Fits(plans, session, family, steps, next) ==> Follows(FlatSteps(plans, family, steps, next), how)
      decreases |plans.Keys - next|, 1, Size(steps)
    {
      hide Fits; hide FitsStep; hide Done; hide Started; hide FlatStep; hide FlatSteps; hide CoversPlan;
      var i := 0;
      ghost var flat := FlatSteps(plans, family, steps, next);
      ghost var ahead: seq<Leaf> := [];
      ghost var n, start := tick, ran;
      assert steps[0..] == steps;
      assert ahead + flat == flat;
      NoLeaves(luck, tick);
      while i < |steps|
        invariant 0 <= i <= |steps| && flat == ahead + FlatSteps(plans, family, steps[i..], next)
        invariant Fits(plans, session, family, steps, next) ==>
          ran == start + ahead && tick == n + |ahead| && Done(ahead, luck, n)
      {
        SizeAt(steps, i);
        FlatUnfolds(plans, family, steps, next, i);
        ghost var leaves := FlatStep(plans, family, steps[i], next);
        ghost var rest := FlatSteps(plans, family, steps[i + 1..], next);
        if Fits(plans, session, family, steps, next) {
          FitsAt(plans, session, family, steps, next, i);
        }
        Advance(start, ahead, leaves, rest, luck, n);
        var one := RunStep(family, steps[i], next);
        if one != Completed {
          return one;
        }
        ahead := ahead + leaves;
        i := i + 1;
      }
      assert steps[i..] == [];
      NoSteps(plans, family, next);
      assert ahead + [] == ahead;
      if Fits(plans, session, family, steps, next) {
        DoneStarts(flat, luck, n);
      }
      return Completed;
    }

    method RunStep(family: string, s: Step, next: set<string>) returns (how: How)
      requires next <= plans.Keys
      modifies this
      ensures FitsStep(plans, session, family, s, next) ==> Follows(FlatStep(plans, family, s, next), how)
      decreases |plans.Keys - next|, 1, StepSize(s)
    {
      hide Good; hide Covers; hide CoversPlan; hide Done; hide Started; hide FlatSteps; hide Flat;
      match s {
        case Domain(op) =>
          if session.None? || !exists a :: a in session.value.operations && a.op.id == op.id {
            return Refused;
          }
          how := Start(Operate(family, op));
        case Action(name) =>
          if name !in plans {
            return Refused;
          }
          how := RunAction(name, next);
        case Exec(path) =>
          how := Start(Launch(path));
        case Body(path, children) =>
          label Before:
          how := ExecuteSteps(family, children, next);
          ghost var inner := FlatSteps(plans, family, children, next);
          StartedAppend(inner, [Launch(path)], luck, old(tick));
          if FitsStep(plans, session, family, s, next) {
            BodyPrefix(inner, [Launch(path)], luck, old(tick));
          }
          if how == Completed {
            how := Start(Launch(path));
          }
      }
    }
  }

  lemma NoLeaves(luck: nat -> Luck, n: nat)
    ensures Done([], luck, n) && Started([], luck, n) == 0
  {
  }

  /** Whether running these steps can meet nothing that was not admitted. */
  ghost predicate Fits(plans: Plans, session: Option<Acc>, family: string, steps: seq<Step>, next: set<string>) {
    && (forall op :: op in Ops(steps) ==> session.Some? && Admitted(family, op) in session.value.operations)
    && forall r :: r in Refs(steps) ==> r in plans && Good(plans, r, next) && Covers(plans, session, r)
  }

  ghost predicate FitsStep(plans: Plans, session: Option<Acc>, family: string, s: Step, next: set<string>) {
    match s
    case Domain(op) => session.Some? && Admitted(family, op) in session.value.operations
    case Action(r) => r in plans && Good(plans, r, next) && Covers(plans, session, r)
    case Exec(_) => true
    case Body(_, children) => Fits(plans, session, family, children, next)
  }

  lemma FitSteps(plans: Plans, session: Option<Acc>, name: string, visiting: set<string>)
    requires name in plans && Good(plans, name, visiting) && Covers(plans, session, name)
    ensures Fits(plans, session, name, plans[name], visiting + {name})
  {
    hide Covers; hide IsPath; hide Refs; hide Ops; hide GoodPath;
    CoversSelf(plans, session, name);
    forall r | r in Refs(plans[name])
      ensures r in plans && Good(plans, r, visiting + {name}) && Covers(plans, session, r)
    {
      CoversRef(plans, session, name, r);
      forall p | IsPath(plans, p) && p[0] == r ensures GoodPath(plans, p, visiting + {name}) {
        PathCons(plans, name, p);
        assert GoodPath(plans, [name] + p, visiting);
        GoodTail(plans, name, p, visiting);
      }
      OnePath(plans, r);
      assert GoodPath(plans, [r], visiting + {name});
      FirstGood(plans, [r], visiting + {name});
    }
  }

  lemma GoodHere(plans: Plans, name: string, visiting: set<string>)
    requires Good(plans, name, visiting)
    ensures name !in visiting
  {
    hide GoodPath;
    OnePath(plans, name);
    assert GoodPath(plans, [name], visiting);
    FirstGood(plans, [name], visiting);
  }

  lemma {:induction false} FitsAt(plans: Plans, session: Option<Acc>, family: string, steps: seq<Step>, next: set<string>, i: nat)
    requires i < |steps| && Fits(plans, session, family, steps, next)
    ensures FitsStep(plans, session, family, steps[i], next)
    decreases i
  {
    hide Good; hide Covers;
    if i == 0 {
      forall op | op in OpsOf(steps[0]) ensures op in Ops(steps) {
      }
      forall r | r in RefsOf(steps[0]) ensures r in Refs(steps) {
      }
      OneStep(plans, session, family, steps[0], next);
    } else {
      forall op | op in Ops(steps[1..]) ensures op in Ops(steps) {
      }
      forall r | r in Refs(steps[1..]) ensures r in Refs(steps) {
      }
      FitsAt(plans, session, family, steps[1..], next, i - 1);
    }
  }

  lemma OneStep(plans: Plans, session: Option<Acc>, family: string, s: Step, next: set<string>)
    requires forall op :: op in OpsOf(s) ==> session.Some? && Admitted(family, op) in session.value.operations
    requires forall r :: r in RefsOf(s) ==> r in plans && Good(plans, r, next) && Covers(plans, session, r)
    ensures FitsStep(plans, session, family, s, next)
  {
    hide Good; hide Covers;
    match s {
      case Domain(op) => assert op in OpsOf(s);
      case Action(name) => assert name in RefsOf(s);
      case Exec(_) =>
      case Body(_, children) => assert OpsOf(s) == Ops(children) && RefsOf(s) == Refs(children);
    }
  }

  lemma FlatUnfolds(plans: Plans, family: string, steps: seq<Step>, next: set<string>, i: nat)
    requires next <= plans.Keys && i < |steps|
    ensures FlatSteps(plans, family, steps[i..], next) ==
      FlatStep(plans, family, steps[i], next) + FlatSteps(plans, family, steps[i + 1..], next)
  {
    hide FlatStep;
    assert steps[i..][1..] == steps[i + 1..];
  }

  lemma NoSteps(plans: Plans, family: string, next: set<string>)
    requires next <= plans.Keys
    ensures FlatSteps(plans, family, [], next) == []
  {
  }

  /** The parts of a run add up: what was started after one more stretch. */
  lemma Advance(start: seq<Leaf>, a: seq<Leaf>, b: seq<Leaf>, c: seq<Leaf>, luck: nat -> Luck, n: nat)
    ensures a + (b + c) == (a + b) + c
    ensures Done(a, luck, n) && Done(b, luck, n + |a|) ==>
      Done(a + b, luck, n) && (start + a) + b[..Started(b, luck, n + |a|)] == start + (a + b)
    ensures Done(a, luck, n) && !Done(b, luck, n + |a|) ==>
      !Done(a + (b + c), luck, n) &&
      (start + a) + b[..Started(b, luck, n + |a|)] == start + (a + (b + c))[..Started(a + (b + c), luck, n)]
  {
    StartedAppend(a, b, luck, n);
    StartedAppend(a + b, c, luck, n);
    hide Done;
    if Done(b, luck, n + |a|) {
      DoneStarts(b, luck, n + |a|);
    }
  }

  lemma BodyPrefix(a: seq<Leaf>, b: seq<Leaf>, luck: nat -> Luck, n: nat)
    ensures Done(a, luck, n) ==> Started(a, luck, n) == |a| && a + b[..Started(b, luck, n + |a|)] == (a + b)[..Started(a + b, luck, n)]
    ensures !Done(a, luck, n) ==> (a + b)[..Started(a + b, luck, n)] == a[..Started(a, luck, n)]
  {
    StartedAppend(a, b, luck, n);
    if Done(a, luck, n) {
      DoneStarts(a, luck, n);
    }
  }

  /** Running an admitted root: nothing is refused, and what was started is the flattened plan up
      to the first interrupt or failure. */
  method RunRoot(plans: Plans, root: string, luck: nat -> Luck) returns (admitted: bool, how: How, ran: seq<Leaf>)
    requires root in plans
    ensures admitted <==> DomainsIn(plans, root).Some?
    ensures admitted ==> how != Refused && ran <= Flat(plans, root, {})
    ensures admitted ==> (how == Completed <==> AllSucceed(luck, 0, |Flat(plans, root, {})|))
    ensures admitted ==> how == Completed ==> ran == Flat(plans, root, {})
    ensures admitted ==> how == Stopped ==> Halts(luck, 0, |ran|, |Flat(plans, root, {})|)
  {
    hide DomainsIn; hide Good; hide Covers; hide Flat; hide Started; hide Done; hide AllSucceed; hide Halts;
    var traversal := new Traversal(plans);
    admitted := traversal.Domains(root);
    if !admitted {
      return false, Refused, [];
    }
    var acc := Acc(traversal.actions, traversal.operations);
    SessionCovers(plans, root, acc);
    var run := new Invocation(plans, SessionFor(acc), luck);
    how := run.RunAction(root, {});
    ran := run.ran;
    assert [] + Flat(plans, root, {})[..Started(Flat(plans, root, {}), luck, 0)] == Flat(plans, root, {})[..Started(Flat(plans, root, {}), luck, 0)];
    StartsExact(Flat(plans, root, {}), luck, 0);
    if how == Completed {
      DoneStarts(Flat(plans, root, {}), luck, 0);
    }
  }
}
