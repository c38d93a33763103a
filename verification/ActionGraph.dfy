/** What the traversal of an action graph admits: exactly the reachable families and operations,
    exactly when the reachable graph is acyclic, complete, unambiguous and within bounds. */
module ActionGraph {
  import opened Wrappers
  import opened Actions

  // ------------------------------------------------------------------- the graph

  /** The actions a plan refers to, inside authored bodies too. */
  function Refs(steps: seq<Step>): seq<string>
    decreases steps
  {
    if steps == [] then [] else RefsOf(steps[0]) + Refs(steps[1..])
  }

  function RefsOf(s: Step): seq<string>
    decreases s
  {
    match s case Action(name) => [name] case Body(_, children) => Refs(children) case _ => []
  }

  /** The operations a plan declares. */
  function Ops(steps: seq<Step>): seq<Op>
    decreases steps
  {
    if steps == [] then [] else OpsOf(steps[0]) + Ops(steps[1..])
  }

  function OpsOf(s: Step): seq<Op>
    decreases s
  {
    match s case Domain(op) => [op] case Body(_, children) => Ops(children) case _ => []
  }

  predicate IsPath(plans: Plans, p: seq<string>): (r: bool)
    ensures r ==> p != []
  {
    p != [] && forall i :: 0 <= i < |p| - 1 ==> p[i] in plans && p[i + 1] in Refs(plans[p[i]])
  }

  ghost predicate Reachable(plans: Plans, root: string, x: string) {
    exists p :: IsPath(plans, p) && p[0] == root && p[|p| - 1] == x
  }

  predicate NoRepeat(p: seq<string>) {
    forall i, j :: 0 <= i < j < |p| ==> p[i] != p[j]
  }

  /** No path from the root comes back to a family. */
  ghost predicate Acyclic(plans: Plans, root: string) {
    forall p :: IsPath(plans, p) && p[0] == root ==> NoRepeat(p)
  }

  /** Every family reached has a plan for the audience. */
  ghost predicate Complete(plans: Plans, root: string) {
    forall x :: Reachable(plans, root, x) ==> x in plans
  }

  ghost predicate Declares(plans: Plans, root: string, f: string, op: Op) {
    Reachable(plans, root, f) && f in plans && op in Ops(plans[f])
  }

  /** Among the reachable families an operation id stands for one declaration. */
  ghost predicate Unambiguous(plans: Plans, root: string) {
    forall f, g, a, b :: Declares(plans, root, f, a) && Declares(plans, root, g, b) && a.id == b.id ==> f == g && a == b
  }

  // -------------------------------------------------------- the traversal as a log

  datatype Event = Enters(family: string) | Does(family: string, op: Op)

  type Log = Option<seq<Event>>

  function Before(es: seq<Event>, r: Log): Log {
    match r case None => None case Some(rest) => Some(es + rest)
  }

  function Join(a: Log, b: Log): Log {
    match a case None => None case Some(es) => Before(es, b)
  }

  function VisitLog(plans: Plans, name: string, visiting: set<string>): Log
    requires name in plans && visiting <= plans.Keys
    decreases |plans.Keys - visiting|, 0, 0
  {
    if name in visiting then None
    else
      Fewer(plans.Keys, visiting, name);
      Before([Enters(name)], WalkLog(plans, name, plans[name], visiting + {name}))
  }

  function WalkLog(plans: Plans, family: string, steps: seq<Step>, next: set<string>): Log
    requires next <= plans.Keys
    decreases |plans.Keys - next|, 1, Size(steps)
  {
    if steps == [] then Some([])
    else Join(StepLog(plans, family, steps[0], next), WalkLog(plans, family, steps[1..], next))
  }

  function StepLog(plans: Plans, family: string, s: Step, next: set<string>): Log
    requires next <= plans.Keys
    decreases |plans.Keys - next|, 1, StepSize(s)
  {
    match s
    case Domain(op) => Some([Does(family, op)])
    case Action(name) => if name !in plans then None else VisitLog(plans, name, next)
    case Exec(_) => Some([])
    case Body(_, children) => WalkLog(plans, family, children, next)
  }

  function ApplyEvent(acc: Acc, e: Event): Option<Acc> {
    match e case Enters(name) => Some(Enter(acc, name)) case Does(f, op) => Admit(acc, f, op)
  }

  function Fold(acc: Acc, es: seq<Event>): Option<Acc>
    decreases |es|
  {
    if es == [] then Some(acc)
    else match ApplyEvent(acc, es[0]) case None => None case Some(a) => Fold(a, es[1..])
  }

  function FoldLog(acc: Acc, l: Log): Option<Acc> {
    match l case None => None case Some(es) => Fold(acc, es)
  }

  lemma {:induction false} FoldAppend(acc: Acc, a: seq<Event>, b: seq<Event>)
    ensures Fold(acc, a + b) == match Fold(acc, a) case None => None case Some(x) => Fold(x, b)
    decreases |a|
  {
    hide ApplyEvent;
    if a == [] {
      assert a + b == b;
    } else {
      assert (a + b)[1..] == a[1..] + b;
      var next := ApplyEvent(acc, a[0]);
      if next.Some? {
        FoldAppend(next.value, a[1..], b);
      }
    }
  }

  lemma FoldJoin(acc: Acc, a: Log, b: Log)
    ensures FoldLog(acc, Join(a, b)).Some? ==> FoldLog(acc, a).Some? && FoldLog(acc, Join(a, b)) == FoldLog(FoldLog(acc, a).value, b)
    ensures a.Some? && b.Some? && FoldLog(acc, a).Some? ==> FoldLog(acc, Join(a, b)) == FoldLog(FoldLog(acc, a).value, b)
    ensures a.Some? && b.Some? && FoldLog(acc, a).None? ==> FoldLog(acc, Join(a, b)).None?
  {
    hide Fold;
    if a.Some? && b.Some? {
      FoldAppend(acc, a.value, b.value);
    }
  }

  /** Visiting is logging first and collecting afterwards. */
  lemma {:induction false} VisitIsLog(plans: Plans, name: string, visiting: set<string>, acc: Acc)
    requires name in plans && visiting <= plans.Keys
    ensures Visit(plans, name, visiting, acc) == FoldLog(acc, VisitLog(plans, name, visiting))
    decreases |plans.Keys - visiting|, 0, 0
  {
    hide Enter; hide Admit; hide WalkLog; hide Walk; hide Fold; hide Join;
    if name !in visiting {
      Fewer(plans.Keys, visiting, name);
      WalkIsLog(plans, name, plans[name], visiting + {name}, Enter(acc, name));
      var rest := WalkLog(plans, name, plans[name], visiting + {name});
      if rest.Some? {
        FoldEnter(acc, name, rest.value);
      }
    }
  }

  lemma FoldEnter(acc: Acc, name: string, es: seq<Event>)
    ensures Fold(acc, [Enters(name)] + es) == Fold(Enter(acc, name), es)
  {
    hide Enter; hide Admit;
    assert ([Enters(name)] + es)[1..] == es;
  }

  lemma {:induction false} WalkIsLog(plans: Plans, family: string, steps: seq<Step>, next: set<string>, acc: Acc)
    requires next <= plans.Keys
    ensures Walk(plans, family, steps, next, acc) == FoldLog(acc, WalkLog(plans, family, steps, next))
    decreases |plans.Keys - next|, 1, Size(steps)
  {
    hide Enter; hide Admit; hide Visit; hide VisitLog; hide StepLog; hide Join; hide Fold; hide FoldLog;
    if steps != [] {
      var a, b := StepLog(plans, family, steps[0], next), WalkLog(plans, family, steps[1..], next);
      StepIsLog(plans, family, steps[0], next, acc);
      FoldJoin(acc, a, b);
      var mid := FoldLog(acc, a);
      if mid.Some? {
        WalkIsLog(plans, family, steps[1..], next, mid.value);
      }
      NoLog(acc, a, b);
    } else {
      EmptyLog(acc);
    }
  }

  lemma EmptyLog(acc: Acc)
    ensures FoldLog(acc, Some([])) == Some(acc)
  {
  }

  lemma NoLog(acc: Acc, a: Log, b: Log)
    ensures a.None? ==> FoldLog(acc, a).None? && FoldLog(acc, Join(a, b)).None?
    ensures b.None? ==> FoldLog(acc, Join(a, b)).None? && forall x :: FoldLog(x, b).None?
  {
  }

  /** What walking does with its first step. */
  function WalkOne(plans: Plans, family: string, s: Step, next: set<string>, acc: Acc): Option<Acc>
    requires next <= plans.Keys
  {
    match s
    case Domain(op) => Admit(acc, family, op)
    case Action(name) => if name !in plans then None else Visit(plans, name, next, acc)
    case Exec(_) => Some(acc)
    case Body(_, children) => Walk(plans, family, children, next, acc)
  }

  lemma {:induction false} StepIsLog(plans: Plans, family: string, s: Step, next: set<string>, acc: Acc)
    requires next <= plans.Keys
    ensures WalkOne(plans, family, s, next, acc) == FoldLog(acc, StepLog(plans, family, s, next))
    decreases |plans.Keys - next|, 1, StepSize(s)
  {
    hide Enter; hide Admit; hide Visit; hide VisitLog; hide Walk; hide WalkLog; hide Fold;
    match s {
      case Domain(op) => FoldDoes(acc, family, op);
      case Action(name) =>
        if name in plans {
          VisitIsLog(plans, name, next, acc);
        }
      case Exec(_) => EmptyLog(acc);
      case Body(_, children) => WalkIsLog(plans, family, children, next, acc);
    }
  }

  lemma FoldDoes(acc: Acc, family: string, op: Op)
    ensures Fold(acc, [Does(family, op)]) == Admit(acc, family, op)
  {
    hide Admit;
    var es := [Does(family, op)];
    assert es[1..] == [];
  }

  // --------------------------------------------------------- logs and the graph

  lemma SizeBody(steps: seq<Step>)
    requires steps != [] && steps[0].Body?
    ensures Size(steps[0].children) < Size(steps)
  {
    assert StepSize(steps[0]) == 1 + Size(steps[0].children);
  }

  lemma {:induction false} RefsLog(plans: Plans, family: string, steps: seq<Step>, next: set<string>, r: string)
    requires next <= plans.Keys && WalkLog(plans, family, steps, next).Some? && r in Refs(steps)
    ensures r in plans && VisitLog(plans, r, next).Some?
    ensures forall e :: e in VisitLog(plans, r, next).value ==> e in WalkLog(plans, family, steps, next).value
    decreases Size(steps)
  {
    hide VisitLog;
    if r in RefsOf(steps[0]) {
      match steps[0] {
        case Body(_, children) =>
          SizeBody(steps);
          RefsLog(plans, family, children, next, r);
        case _ =>
      }
    } else {
      RefsLog(plans, family, steps[1..], next, r);
    }
  }

  /** What a log of steps holds: its own operations, and the logs of its references. */
  lemma {:induction false} WalkLogHolds(plans: Plans, family: string, steps: seq<Step>, next: set<string>, e: Event)
    requires next <= plans.Keys && WalkLog(plans, family, steps, next).Some?
    ensures e in WalkLog(plans, family, steps, next).value ==>
      (e.Does? && e.family == family && e.op in Ops(steps)) ||
      exists r :: r in Refs(steps) && r in plans && VisitLog(plans, r, next).Some? && e in VisitLog(plans, r, next).value
    ensures e.Does? && e.family == family && e.op in Ops(steps) ==> e in WalkLog(plans, family, steps, next).value
    decreases Size(steps)
  {
    hide VisitLog;
    if steps != [] {
      var first := steps[0];
      WalkLogHolds(plans, family, steps[1..], next, e);
      if first.Body? {
        SizeBody(steps);
        WalkLogHolds(plans, family, first.children, next, e);
      }
      assert WalkLog(plans, family, steps, next).value == StepLog(plans, family, first, next).value + WalkLog(plans, family, steps[1..], next).value;
      StepLogHolds(plans, family, first, next, e);
      hide StepLog; hide WalkLog; hide RefsOf; hide OpsOf;
    }
  }

  lemma StepLogHolds(plans: Plans, family: string, s: Step, next: set<string>, e: Event)
    requires next <= plans.Keys && StepLog(plans, family, s, next).Some?
    requires s.Body? && e in WalkLog(plans, family, s.children, next).value ==>
      (e.Does? && e.family == family && e.op in Ops(s.children)) ||
      exists r :: r in Refs(s.children) && r in plans && VisitLog(plans, r, next).Some? && e in VisitLog(plans, r, next).value
    requires s.Body? && e.Does? && e.family == family && e.op in Ops(s.children) ==> e in WalkLog(plans, family, s.children, next).value
    ensures e in StepLog(plans, family, s, next).value ==>
      (e.Does? && e.family == family && e.op in OpsOf(s)) ||
      exists r :: r in RefsOf(s) && r in plans && VisitLog(plans, r, next).Some? && e in VisitLog(plans, r, next).value
    ensures e.Does? && e.family == family && e.op in OpsOf(s) ==> e in StepLog(plans, family, s, next).value
  {
    hide VisitLog; hide WalkLog;
    match s {
      case Action(name) =>
        assert name in RefsOf(s);
      case _ =>
    }
  }

  /** The walk over some steps succeeds when every family they refer to can be visited. */
  lemma {:induction false} WalkLogSome(plans: Plans, family: string, steps: seq<Step>, next: set<string>)
    requires next <= plans.Keys
    requires forall r :: r in Refs(steps) ==> r in plans && VisitLog(plans, r, next).Some?
    ensures WalkLog(plans, family, steps, next).Some?
    decreases Size(steps)
  {
    hide VisitLog;
    if steps != [] {
      forall r | r in RefsOf(steps[0]) ensures r in Refs(steps) {
      }
      forall r | r in Refs(steps[1..]) ensures r in Refs(steps) {
      }
      if steps[0].Body? {
        SizeBody(steps);
        WalkLogSome(plans, family, steps[0].children, next);
      }
      WalkLogSome(plans, family, steps[1..], next);
    }
  }

  /** Every path from here stays off `visiting`, never repeats, and has plans. */
  ghost predicate Good(plans: Plans, name: string, visiting: set<string>) {
    forall p :: IsPath(plans, p) && p[0] == name ==> GoodPath(plans, p, visiting)
  }

  predicate GoodPath(plans: Plans, p: seq<string>, visiting: set<string>) {
    NoRepeat(p) && forall i :: 0 <= i < |p| ==> p[i] in plans && p[i] !in visiting
  }

  lemma PathTail(plans: Plans, p: seq<string>)
    requires IsPath(plans, p) && |p| > 1
    ensures p[0] in plans && p[1] in Refs(plans[p[0]]) && IsPath(plans, p[1..]) && p[1..][0] == p[1]
  {
    hide Refs;
  }

  lemma PathCons(plans: Plans, x: string, p: seq<string>)
    requires IsPath(plans, p) && x in plans && p[0] in Refs(plans[x])
    ensures IsPath(plans, [x] + p)
  {
    hide Refs;
    var q := [x] + p;
    forall i | 0 <= i < |q| - 1 ensures q[i] in plans && q[i + 1] in Refs(plans[q[i]]) {
      if i > 0 {
        assert q[i] == p[i - 1] && q[i + 1] == p[i];
      }
    }
  }

  lemma GoodCons(plans: Plans, p: seq<string>, visiting: set<string>)
    requires |p| > 0 && p[0] in plans && p[0] !in visiting && (|p| > 1 ==> GoodPath(plans, p[1..], visiting + {p[0]}))
    ensures GoodPath(plans, p, visiting)
  {
    if |p| > 1 {
      var q := p[1..];
      forall i | 0 <= i < |p| ensures p[i] in plans && p[i] !in visiting {
        if i > 0 {
          assert p[i] == q[i - 1];
        }
      }
      forall i, j | 0 <= i < j < |p| ensures p[i] != p[j] {
        assert p[j] == q[j - 1];
        if i > 0 {
          assert p[i] == q[i - 1];
        }
      }
    }
  }

  /** A visit that succeeds leaves no bad path. */
  lemma {:induction false} VisitGood(plans: Plans, name: string, visiting: set<string>, p: seq<string>)
    requires name in plans && visiting <= plans.Keys && VisitLog(plans, name, visiting).Some?
    requires IsPath(plans, p) && p[0] == name
    ensures GoodPath(plans, p, visiting)
    decreases |p|
  {
    hide IsPath; hide WalkLog; hide Refs; hide GoodPath;
    if |p| > 1 {
      PathTail(plans, p);
      RefsLog(plans, name, plans[name], visiting + {name}, p[1]);
      VisitGood(plans, p[1], visiting + {name}, p[1..]);
    }
    GoodCons(plans, p, visiting);
  }

  /** Where no path is bad, the visit succeeds. */
  lemma {:induction false} GoodVisits(plans: Plans, name: string, visiting: set<string>)
    requires name in plans && visiting <= plans.Keys && Good(plans, name, visiting)
    ensures VisitLog(plans, name, visiting).Some?
    decreases |plans.Keys - visiting|
  {
    hide IsPath; hide WalkLog; hide Refs; hide GoodPath;
    OnePath(plans, name);
    assert GoodPath(plans, [name], visiting);
    FirstGood(plans, [name], visiting);
    Fewer(plans.Keys, visiting, name);
    forall r | r in Refs(plans[name]) ensures r in plans && VisitLog(plans, r, visiting + {name}).Some? {
      forall p | IsPath(plans, p) && p[0] == r ensures GoodPath(plans, p, visiting + {name}) {
            PathCons(plans, name, p);
        assert GoodPath(plans, [name] + p, visiting);
        GoodTail(plans, name, p, visiting);
      }
      OnePath(plans, r);
      assert GoodPath(plans, [r], visiting + {name});
      FirstGood(plans, [r], visiting + {name});
      GoodVisits(plans, r, visiting + {name});
    }
    WalkLogSome(plans, name, plans[name], visiting + {name});
  }

  lemma OnePath(plans: Plans, x: string)
    ensures IsPath(plans, [x])
  {
  }

  lemma FirstGood(plans: Plans, p: seq<string>, visiting: set<string>)
    requires p != [] && GoodPath(plans, p, visiting)
    ensures p[0] in plans && p[0] !in visiting
  {
  }

  lemma GoodTail(plans: Plans, x: string, p: seq<string>, visiting: set<string>)
    requires GoodPath(plans, [x] + p, visiting)
    ensures GoodPath(plans, p, visiting + {x})
  {
    var q := [x] + p;
    forall i | 0 <= i < |p| ensures p[i] in plans && p[i] !in visiting + {x} {
      assert p[i] == q[i + 1] && q[0] != q[i + 1];
    }
    forall i, j | 0 <= i < j < |p| ensures p[i] != p[j] {
      assert p[i] == q[i + 1] && p[j] == q[j + 1];
    }
  }

  // ------------------------------------------------------------- what a log holds

  lemma {:induction false} LogReaches(plans: Plans, name: string, visiting: set<string>, e: Event)
    requires name in plans && visiting <= plans.Keys && VisitLog(plans, name, visiting).Some?
    requires e in VisitLog(plans, name, visiting).value
    ensures Reachable(plans, name, e.family) && e.family in plans && (e.Does? ==> e.op in Ops(plans[e.family]))
    decreases |plans.Keys - visiting|
  {
    hide IsPath; hide WalkLog; hide Refs; hide Ops;
    var next := visiting + {name};
    if e == Enters(name) {
      OnePath(plans, name);
      assert [name][0] == name && [name][|[name]| - 1] == name;
    } else {
      WalkLogHolds(plans, name, plans[name], next, e);
      if e.Does? && e.family == name && e.op in Ops(plans[name]) {
        OnePath(plans, name);
        assert [name][0] == name && [name][|[name]| - 1] == name;
      } else {
        var r :| r in Refs(plans[name]) && r in plans && VisitLog(plans, r, next).Some? && e in VisitLog(plans, r, next).value;
        Fewer(plans.Keys, visiting, name);
        LogReaches(plans, r, next, e);
        ReachCons(plans, name, r, e.family);
      }
    }
  }

  lemma ReachCons(plans: Plans, x: string, r: string, y: string)
    requires x in plans && r in Refs(plans[x]) && Reachable(plans, r, y)
    ensures Reachable(plans, x, y)
  {
    hide IsPath; hide Refs;
    var p :| IsPath(plans, p) && p[0] == r && p[|p| - 1] == y;
    PathCons(plans, x, p);
    assert ([x] + p)[|[x] + p| - 1] == y;
  }

  lemma {:induction false} PathLogged(plans: Plans, name: string, visiting: set<string>, p: seq<string>, e: Event)
    requires name in plans && visiting <= plans.Keys && VisitLog(plans, name, visiting).Some?
    requires IsPath(plans, p) && p[0] == name && e.family == p[|p| - 1]
    requires e.Does? ==> e.family in plans && e.op in Ops(plans[e.family])
    ensures e in VisitLog(plans, name, visiting).value
    decreases |p|
  {
    hide IsPath; hide WalkLog; hide Refs; hide Ops;
    var next := visiting + {name};
    if |p| == 1 {
      WalkLogHolds(plans, name, plans[name], next, e);
    } else {
      PathTail(plans, p);
      RefsLog(plans, name, plans[name], next, p[1]);
      PathLogged(plans, p[1], next, p[1..], e);
    }
  }

  // ---------------------------------------------------------------- collecting a log

  /** Operation ids in a log stand for one declaration each. */
  ghost predicate Consistent(es: seq<Event>) {
    forall x, y :: x in es && y in es && x.Does? && y.Does? && x.op.id == y.op.id ==> x == y
  }

  predicate NoDuplicates(acc: Acc) {
    && (forall i, j :: 0 <= i < j < |acc.actions| ==> acc.actions[i] != acc.actions[j])
    && forall i, j :: 0 <= i < j < |acc.operations| ==> acc.operations[i].op.id != acc.operations[j].op.id
  }

  lemma {:induction false} FindOpIs(ops: seq<Admitted>, id: string)
    ensures FindOp(ops, id).None? ==> forall a :: a in ops ==> a.op.id != id
    ensures FindOp(ops, id).Some? ==> FindOp(ops, id).value in ops && FindOp(ops, id).value.op.id == id
    decreases |ops|
  {
    if ops != [] {
      var front, last := ops[..|ops| - 1], ops[|ops| - 1];
      FindOpIs(front, id);
      assert ops == front + [last];
    }
  }

  /** The lists collected from a log hold what the log holds. */
  ghost predicate Collected(acc: Acc, es: seq<Event>) {
    && NoDuplicates(acc)
    && (forall x :: x in acc.actions <==> Enters(x) in es)
    && forall a :: a in acc.operations <==> Does(a.family, a.op) in es
  }

  lemma EnterCollects(acc: Acc, es: seq<Event>, name: string)
    requires Collected(acc, es)
    ensures Collected(Enter(acc, name), es + [Enters(name)])
  {
  }

  lemma AdmitCollects(acc: Acc, es: seq<Event>, family: string, op: Op)
    requires Collected(acc, es)
    ensures Admit(acc, family, op).Some? ==> Collected(Admit(acc, family, op).value, es + [Does(family, op)])
    ensures Admit(acc, family, op).Some? <==> forall y :: y in es && y.Does? && y.op.id == op.id ==> y == Does(family, op)
  {
    FindOpIs(acc.operations, op.id);
    hide FindOp;
    if Admit(acc, family, op).None? {
      var a := FindOp(acc.operations, op.id).value;
      assert Does(a.family, a.op) in es;
    } else if FindOp(acc.operations, op.id).None? {
      forall y | y in es && y.Does? ensures y.op.id != op.id {
        assert Admitted(y.family, y.op) in acc.operations;
      }
    } else {
      forall y | y in es && y.Does? && y.op.id == op.id ensures y == Does(family, op) {
        assert Admitted(y.family, y.op) in acc.operations;
      }
    }
  }

  lemma {:induction false} FoldCollects(acc: Acc, done: seq<Event>, es: seq<Event>)
    requires Collected(acc, done) && Consistent(done)
    ensures Fold(acc, es).Some? <==> Consistent(done + es)
    ensures Fold(acc, es).Some? ==> Collected(Fold(acc, es).value, done + es)
    decreases |es|
  {
    hide Collected; hide Enter; hide Admit; hide Consistent;
    if es == [] {
      assert done + es == done;
    } else {
      assert done + es == (done + [es[0]]) + es[1..];
      match es[0] {
        case Enters(name) =>
          EnterCollects(acc, done, name);
          EnterConsistent(done, name);
          FoldCollects(Enter(acc, name), done + [es[0]], es[1..]);
        case Does(f, op) =>
          AdmitCollects(acc, done, f, op);
          DoesConsistent(done, f, op, es[1..]);
          if Admit(acc, f, op).Some? {
            FoldCollects(Admit(acc, f, op).value, done + [es[0]], es[1..]);
          }
      }
    }
  }

  lemma EnterConsistent(done: seq<Event>, name: string)
    requires Consistent(done)
    ensures Consistent(done + [Enters(name)])
  {
  }

  lemma DoesConsistent(done: seq<Event>, family: string, op: Op, rest: seq<Event>)
    requires Consistent(done)
    ensures Consistent(done + [Does(family, op)]) <==> forall y :: y in done && y.Does? && y.op.id == op.id ==> y == Does(family, op)
    ensures Consistent(done + [Does(family, op)] + rest) ==> Consistent(done + [Does(family, op)])
  {
    var es := done + [Does(family, op)];
    if Consistent(es) {
      forall y | y in done && y.Does? && y.op.id == op.id ensures y == Does(family, op) {
        assert y in es && Does(family, op) in es;
      }
    }
    assert forall y :: y in es ==> y in es + rest;
  }

  // --------------------------------------------------------------------- the results

  /** The traversal succeeds exactly when everything reachable is acyclic, has its plan, and is
      unambiguous; it then returns exactly the reachable families and their operations, each
      once. */
  lemma TraversalExact(plans: Plans, root: string)
    requires root in plans
    ensures Visit(plans, root, {}, NOTHING).Some? <==> Acyclic(plans, root) && Complete(plans, root) && Unambiguous(plans, root)
    ensures Visit(plans, root, {}, NOTHING).Some? ==> Exactly(plans, root, Visit(plans, root, {}, NOTHING).value)
  {
    hide Visit; hide VisitLog; hide Fold; hide Acyclic; hide Complete; hide Unambiguous; hide Good; hide Collected; hide Consistent; hide Exactly;
    VisitIsLog(plans, root, {}, NOTHING);
    var l := VisitLog(plans, root, {});
    GoodIsAcyclic(plans, root);
    LogIsGood(plans, root);
    if l.Some? {
      assert Collected(NOTHING, []) && Consistent([]) by { NothingCollected(); }
      FoldCollects(NOTHING, [], l.value);
      assert [] + l.value == l.value;
      LogConsistent(plans, root, l.value);
      if Fold(NOTHING, l.value).Some? {
        LogExact(plans, root, l.value, Fold(NOTHING, l.value).value);
      }
    }
  }

  lemma NothingCollected()
    ensures Collected(NOTHING, []) && Consistent([])
  {
  }

  /** Exactly the reachable families and the operations they declare, each once. */
  ghost predicate Exactly(plans: Plans, root: string, acc: Acc) {
    && NoDuplicates(acc)
    && (forall x :: x in acc.actions <==> Reachable(plans, root, x))
    && forall a :: a in acc.operations <==> Declares(plans, root, a.family, a.op)
  }

  lemma GoodIsAcyclic(plans: Plans, root: string)
    requires root in plans
    ensures Good(plans, root, {}) <==> Acyclic(plans, root) && Complete(plans, root)
  {
    hide IsPath;
    if Good(plans, root, {}) {
      forall p | IsPath(plans, p) && p[0] == root ensures NoRepeat(p) {
        assert GoodPath(plans, p, {});
      }
      forall x | Reachable(plans, root, x) ensures x in plans {
        var p :| IsPath(plans, p) && p[0] == root && p[|p| - 1] == x;
        assert GoodPath(plans, p, {});
      }
    }
    if Acyclic(plans, root) && Complete(plans, root) {
      forall p | IsPath(plans, p) && p[0] == root ensures GoodPath(plans, p, {}) {
        forall i | 0 <= i < |p| ensures p[i] in plans {
          PathPrefix(plans, p, i);
          assert p[..i + 1][i] == p[i];
          assert Reachable(plans, root, p[i]);
        }
      }
    }
  }

  lemma PathPrefix(plans: Plans, p: seq<string>, i: nat)
    requires IsPath(plans, p) && i < |p|
    ensures IsPath(plans, p[..i + 1]) && p[..i + 1][0] == p[0]
  {
    hide Refs;
  }

  lemma LogIsGood(plans: Plans, root: string)
    requires root in plans
    ensures VisitLog(plans, root, {}).Some? <==> Good(plans, root, {})
  {
    hide VisitLog; hide IsPath; hide GoodPath;
    if VisitLog(plans, root, {}).Some? {
      forall p | IsPath(plans, p) && p[0] == root ensures GoodPath(plans, p, {}) {
        VisitGood(plans, root, {}, p);
      }
    }
    if Good(plans, root, {}) {
      GoodVisits(plans, root, {});
    }
  }

  lemma LogHolds(plans: Plans, root: string, es: seq<Event>, e: Event)
    requires root in plans && VisitLog(plans, root, {}) == Some(es)
    ensures e in es <==> if e.Does? then Declares(plans, root, e.family, e.op) else Reachable(plans, root, e.family)
  {
    hide VisitLog; hide IsPath; hide Ops;
    if e in es {
      LogReaches(plans, root, {}, e);
    }
    if Reachable(plans, root, e.family) && (e.Does? ==> e.family in plans && e.op in Ops(plans[e.family])) {
      var p :| IsPath(plans, p) && p[0] == root && p[|p| - 1] == e.family;
      PathLogged(plans, root, {}, p, e);
    }
  }

  lemma LogConsistent(plans: Plans, root: string, es: seq<Event>)
    requires root in plans && VisitLog(plans, root, {}) == Some(es)
    ensures Consistent(es) <==> Unambiguous(plans, root)
  {
    hide VisitLog; hide Declares; hide Reachable;
    if Consistent(es) {
      forall f, g, a, b | Declares(plans, root, f, a) && Declares(plans, root, g, b) && a.id == b.id ensures f == g && a == b {
        LogHolds(plans, root, es, Does(f, a));
        LogHolds(plans, root, es, Does(g, b));
      }
    }
    if Unambiguous(plans, root) {
      forall x, y | x in es && y in es && x.Does? && y.Does? && x.op.id == y.op.id ensures x == y {
        LogHolds(plans, root, es, x);
        LogHolds(plans, root, es, y);
      }
    }
  }

  lemma LogExact(plans: Plans, root: string, es: seq<Event>, acc: Acc)
    requires root in plans && VisitLog(plans, root, {}) == Some(es) && Collected(acc, es)
    ensures Exactly(plans, root, acc)
  {
    hide VisitLog; hide Declares; hide Reachable; hide NoDuplicates;
    forall x ensures x in acc.actions <==> Reachable(plans, root, x) {
      LogHolds(plans, root, es, Enters(x));
    }
    forall a ensures a in acc.operations <==> Declares(plans, root, a.family, a.op) {
      LogHolds(plans, root, es, Does(a.family, a.op));
    }
  }

  /** `domainsIn` with its bounds. */
  lemma DomainsExact(plans: Plans, root: string)
    requires root in plans
    ensures DomainsIn(plans, root).Some? ==> Exactly(plans, root, DomainsIn(plans, root).value)
    ensures DomainsIn(plans, root).Some? <==>
      Acyclic(plans, root) && Complete(plans, root) && Unambiguous(plans, root)
      && forall acc :: Exactly(plans, root, acc) ==> |acc.actions| <= 128 && |acc.operations| <= 128
  {
    hide Visit; hide Acyclic; hide Complete; hide Unambiguous; hide Exactly;
    TraversalExact(plans, root);
    var r := Visit(plans, root, {}, NOTHING);
    if r.Some? {
      forall acc | Exactly(plans, root, acc) ensures |acc.actions| == |r.value.actions| && |acc.operations| == |r.value.operations| {
        SameSize(plans, root, acc, r.value);
      }
    }
  }

  lemma SameSize(plans: Plans, root: string, a: Acc, b: Acc)
    requires Exactly(plans, root, a) && Exactly(plans, root, b)
    ensures |a.actions| == |b.actions| && |a.operations| == |b.operations|
  {
    hide Reachable; hide Declares;
    forall i, j | 0 <= i < j < |a.operations| ensures a.operations[i] != a.operations[j] {
    }
    forall i, j | 0 <= i < j < |b.operations| ensures b.operations[i] != b.operations[j] {
    }
    forall x ensures x in a.actions <==> x in b.actions {
    }
    forall x ensures x in a.operations <==> x in b.operations {
    }
    SameLength(a.actions, b.actions);
    SameLength(a.operations, b.operations);
  }

  predicate Once<T(==)>(s: seq<T>) {
    forall i, j :: 0 <= i < j < |s| ==> s[i] != s[j]
  }

  lemma {:induction false} SetSize<T>(s: seq<T>)
    requires Once(s)
    ensures |set x | x in s| == |s|
  {
    if s != [] {
      var front, last := s[..|s| - 1], s[|s| - 1];
      SetSize(front);
      assert (set x | x in s) == (set x | x in front) + {last};
    }
  }

  lemma SameLength<T>(a: seq<T>, b: seq<T>)
    requires Once(a) && Once(b) && forall x :: x in a <==> x in b
    ensures |a| == |b|
  {
    SetSize(a);
    SetSize(b);
    assert (set x | x in a) == (set x | x in b);
  }
}
