/** Admission and running take the same operations in the same order: what a session prepares
    (files/actions/session.ts) is what the run starts (files/actions/runtime.ts). */
module ActionOrder {
  import opened Wrappers
  import opened Actions
  import opened ActionGraph
  import opened ActionRun

  /** The operations among the leaves of a plan, in order. */
  function OpsIn(leaves: seq<Leaf>): seq<Admitted> {
    if leaves == [] then []
    else (match leaves[0] case Operate(family, op) => [Admitted(family, op)] case Launch(_) => []) + OpsIn(leaves[1..])
  }

  /** A list, and what comes for the first time after it, in order. */
  function Firsts<T(==)>(known: seq<T>, more: seq<T>): seq<T>
    decreases |more|
  {
    if more == [] then known else Firsts(if more[0] in known then known else known + [more[0]], more[1..])
  }

  function DoneIn(es: seq<Event>): seq<Admitted> {
    if es == [] then []
    else (match es[0] case Does(family, op) => [Admitted(family, op)] case Enters(_) => []) + DoneIn(es[1..])
  }

  function EnteredIn(es: seq<Event>): seq<string> {
    if es == [] then []
    else (match es[0] case Does(_, _) => [] case Enters(name) => [name]) + EnteredIn(es[1..])
  }

  lemma {:induction false} OpsAppend(a: seq<Leaf>, b: seq<Leaf>)
    ensures OpsIn(a + b) == OpsIn(a) + OpsIn(b)
  {
    if a == [] {
      assert a + b == b;
    } else {
      assert (a + b)[0] == a[0] && (a + b)[1..] == a[1..] + b;
      OpsAppend(a[1..], b);
    }
  }

  lemma {:induction false} DoneAppend(a: seq<Event>, b: seq<Event>)
    ensures DoneIn(a + b) == DoneIn(a) + DoneIn(b)
  {
    if a == [] {
      assert a + b == b;
    } else {
      assert (a + b)[0] == a[0] && (a + b)[1..] == a[1..] + b;
      DoneAppend(a[1..], b);
    }
  }

  lemma {:induction false} VisitOps(plans: Plans, name: string, visiting: set<string>)
    requires name in plans && visiting <= plans.Keys && VisitLog(plans, name, visiting).Some?
    ensures DoneIn(VisitLog(plans, name, visiting).value) == OpsIn(Flat(plans, name, visiting))
    decreases |plans.Keys - visiting|, 0, 0
  {
    hide WalkLog; hide FlatSteps;
    Fewer(plans.Keys, visiting, name);
    WalkOps(plans, name, plans[name], visiting + {name});
    var es := WalkLog(plans, name, plans[name], visiting + {name}).value;
    DoneAppend([Enters(name)], es);
    NoneEntered(name);
  }

  lemma NoneEntered(name: string)
    ensures DoneIn([Enters(name)]) == []
  {
  }

  lemma {:induction false} WalkOps(plans: Plans, family: string, steps: seq<Step>, next: set<string>)
    requires next <= plans.Keys && WalkLog(plans, family, steps, next).Some?
    ensures DoneIn(WalkLog(plans, family, steps, next).value) == OpsIn(FlatSteps(plans, family, steps, next))
    decreases |plans.Keys - next|, 1, Size(steps)
  {
    hide StepLog; hide FlatStep;
    if steps != [] {
      StepOps(plans, family, steps[0], next);
      WalkOps(plans, family, steps[1..], next);
      DoneAppend(StepLog(plans, family, steps[0], next).value, WalkLog(plans, family, steps[1..], next).value);
      OpsAppend(FlatStep(plans, family, steps[0], next), FlatSteps(plans, family, steps[1..], next));
    }
  }

  lemma {:induction false} StepOps(plans: Plans, family: string, s: Step, next: set<string>)
    requires next <= plans.Keys && StepLog(plans, family, s, next).Some?
    ensures DoneIn(StepLog(plans, family, s, next).value) == OpsIn(FlatStep(plans, family, s, next))
    decreases |plans.Keys - next|, 1, StepSize(s)
  {
    hide VisitLog; hide WalkLog; hide Flat; hide FlatSteps;
    match s {
      case Domain(op) => OneDone(family, op);
      case Action(name) => VisitOps(plans, name, next);
      case Exec(path) => OneLaunch(path);
      case Body(path, children) =>
        WalkOps(plans, family, children, next);
        OpsAppend(FlatSteps(plans, family, children, next), [Launch(path)]);
        OneLaunch(path);
    }
  }

  lemma OneDone(family: string, op: Op)
    ensures DoneIn([Does(family, op)]) == [Admitted(family, op)] && OpsIn([Operate(family, op)]) == [Admitted(family, op)]
  {
    assert [Does(family, op)][1..] == [] && [Operate(family, op)][1..] == [];
  }

  lemma OneLaunch(path: string)
    ensures OpsIn([Launch(path)]) == [] && DoneIn([]) == []
  {
    assert [Launch(path)][1..] == [];
  }

  lemma {:induction false} FoldFirsts(acc: Acc, es: seq<Event>)
    requires Fold(acc, es).Some?
    ensures Fold(acc, es).value.operations == Firsts(acc.operations, DoneIn(es))
    ensures Fold(acc, es).value.actions == Firsts(acc.actions, EnteredIn(es))
    decreases |es|
  {
    hide FindOp;
    if es != [] {
      var next := ApplyEvent(acc, es[0]).value;
      FoldFirsts(next, es[1..]);
      match es[0] {
        case Enters(name) =>
          assert [] + DoneIn(es[1..]) == DoneIn(es[1..]);
          FirstsOne(acc.actions, name, EnteredIn(es[1..]));
        case Does(family, op) =>
          FindOpIs(acc.operations, op.id);
          FirstsOne(acc.operations, Admitted(family, op), DoneIn(es[1..]));
          assert [] + EnteredIn(es[1..]) == EnteredIn(es[1..]);
      }
    }
  }

  lemma FirstsOne<T>(known: seq<T>, x: T, more: seq<T>)
    ensures Firsts(known, [x] + more) == Firsts(if x in known then known else known + [x], more)
  {
    assert ([x] + more)[1..] == more;
  }

  /** The session of an admitted root holds the operations of its run, each where the run starts it
      first, and the families in the order in which they are entered first. */
  lemma OrderExact(plans: Plans, root: string)
    requires root in plans && DomainsIn(plans, root).Some?
    ensures DomainsIn(plans, root).value.operations == Firsts([], OpsIn(Flat(plans, root, {})))
    ensures VisitLog(plans, root, {}).Some? && DomainsIn(plans, root).value.actions == Firsts([], EnteredIn(VisitLog(plans, root, {}).value))
  {
    hide Visit; hide VisitLog; hide Fold; hide Flat; hide Firsts;
    VisitIsLog(plans, root, {}, NOTHING);
    VisitOps(plans, root, {});
    FoldFirsts(NOTHING, VisitLog(plans, root, {}).value);
  }
}
