/** Admission of an action graph, as it stands in `domainsIn` of files/actions/session.ts, over
    the plans one audience has. */
module Actions {
  import opened Wrappers

  /** A domain step: its id and the rest of its declaration. Two are equal when their JSON is. */
  datatype Op = Op(id: string, body: string)

  /** An `exec` step with children is an authored body. */
  datatype Step = Domain(op: Op) | Action(name: string) | Exec(path: string) | Body(path: string, children: seq<Step>)

  /** The plan of every family that has one for the audience. */
  type Plans = map<string, seq<Step>>

  const MAX_OPERATIONS: nat := 128

  function Size(steps: seq<Step>): nat
    decreases steps
  {
    if steps == [] then 0 else 1 + StepSize(steps[0]) + Size(steps[1..])
  }

  function StepSize(s: Step): nat
    decreases s
  {
    match s case Body(_, children) => 1 + Size(children) case _ => 0
  }

  // ------------------------------------------------------------------ the traversal

  datatype Admitted = Admitted(family: string, op: Op)

  /** The insertion-ordered `actions` set and `operations` map. */
  datatype Acc = Acc(actions: seq<string>, operations: seq<Admitted>)

  const NOTHING := Acc([], [])

  function FindOp(ops: seq<Admitted>, id: string): Option<Admitted> {
    if ops == [] then None
    else if ops[|ops| - 1].op.id == id then Some(ops[|ops| - 1])
    else FindOp(ops[..|ops| - 1], id)
  }

  function Enter(acc: Acc, name: string): Acc {
    if name in acc.actions then acc else acc.(actions := acc.actions + [name])
  }

  /** None for a duplicate operation id. */
  function Admit(acc: Acc, family: string, op: Op): Option<Acc> {
    match FindOp(acc.operations, op.id)
    case None => Some(acc.(operations := acc.operations + [Admitted(family, op)]))
    case Some(known) => if known == Admitted(family, op) then Some(acc) else None
  }

  function Visit(plans: Plans, name: string, visiting: set<string>, acc: Acc): Option<Acc>
    requires name in plans && visiting <= plans.Keys
    decreases |plans.Keys - visiting|, 0, 0
  {
    if name in visiting then None
    else
      Fewer(plans.Keys, visiting, name);
      Walk(plans, name, plans[name], visiting + {name}, Enter(acc, name))
  }

  function Walk(plans: Plans, family: string, steps: seq<Step>, next: set<string>, acc: Acc): Option<Acc>
    requires next <= plans.Keys
    decreases |plans.Keys - next|, 1, Size(steps)
  {
    if steps == [] then Some(acc)
    else
      match steps[0]
      case Domain(op) =>
        (match Admit(acc, family, op)
         case None => None
         case Some(a) => Walk(plans, family, steps[1..], next, a))
      case Action(name) =>
        if name !in plans then None
        else
          (match Visit(plans, name, next, acc)
           case None => None
           case Some(a) => Walk(plans, family, steps[1..], next, a))
      case Exec(_) => Walk(plans, family, steps[1..], next, acc)
      case Body(_, children) =>
        assert StepSize(steps[0]) == 1 + Size(children);
        (match Walk(plans, family, children, next, acc)
         case None => None
         case Some(a) => Walk(plans, family, steps[1..], next, a))
  }

  lemma Fewer(all: set<string>, some: set<string>, x: string)
    requires x in all && x !in some && some <= all
    ensures |all - (some + {x})| < |all - some|
  {
    assert all - some == (all - (some + {x})) + {x};
  }

  /** `domainsIn`: None when it throws. */
  function DomainsIn(plans: Plans, root: string): Option<Acc>
    requires root in plans
  {
    match Visit(plans, root, {}, NOTHING)
    case None => None
    case Some(acc) =>
      if |acc.operations| > MAX_OPERATIONS || |acc.actions| > MAX_OPERATIONS then None else Some(acc)
  }

  /** The closure variables of `domainsIn` with its two recursive functions. */
  class Traversal {
    const plans: Plans
    var actions: seq<string>
    var operations: seq<Admitted>

    constructor (plans: Plans)
      ensures this.plans == plans && Now() == NOTHING
    {
      this.plans, actions, operations := plans, [], [];
    }

    ghost function Now(): Acc
      reads this
    {
      Acc(actions, operations)
    }

    method VisitFamily(name: string, visiting: set<string>) returns (ok: bool)
      requires name in plans && visiting <= plans.Keys
      modifies this
      ensures var r := Visit(plans, name, visiting, old(Now())); ok == r.Some? && (ok ==> Now() == r.value)
      decreases |plans.Keys - visiting|, 0, 0
    {
      if name in visiting {
        return false;
      }
      if name !in actions {
        actions := actions + [name];
      }
      Fewer(plans.Keys, visiting, name);
      ok := WalkSteps(name, plans[name], visiting + {name});
    }

    method WalkSteps(family: string, steps: seq<Step>, next: set<string>) returns (ok: bool)
      requires next <= plans.Keys
      modifies this
      ensures var r := Walk(plans, family, steps, next, old(Now())); ok == r.Some? && (ok ==> Now() == r.value)
      decreases |plans.Keys - next|, 1, Size(steps)
    {
      hide FindOp;
      var i := 0;
      assert steps[0..] == steps;
      while i < |steps|
        invariant 0 <= i <= |steps|
        invariant Walk(plans, family, steps, next, old(Now())) == Walk(plans, family, steps[i..], next, Now())
      {
        assert steps[i..][1..] == steps[i + 1..];
        SizeAt(steps, i);
        match steps[i] {
          case Domain(op) =>
            var existing := FindOp(operations, op.id);
            if existing.Some? && existing.value != Admitted(family, op) {
              return false;
            }
            if existing.None? {
              operations := operations + [Admitted(family, op)];
            }
          case Action(name) =>
            if name !in plans {
              return false;
            }
            ok := VisitFamily(name, next);
            if !ok {
              return false;
            }
          case Exec(_) =>
          case Body(_, children) =>
            ok := WalkSteps(family, children, next);
            if !ok {
              return false;
            }
        }
        i := i + 1;
      }
      return true;
    }

    method Domains(root: string) returns (ok: bool)
      requires root in plans && Now() == NOTHING
      modifies this
      ensures ok <==> DomainsIn(plans, root).Some?
      ensures ok ==> Now() == DomainsIn(plans, root).value
    {
      ok := VisitFamily(root, {});
      ok := ok && |operations| <= MAX_OPERATIONS && |actions| <= MAX_OPERATIONS;
    }
  }

  lemma {:induction false} SizeAt(steps: seq<Step>, i: nat)
    requires i < |steps|
    ensures StepSize(steps[i]) < Size(steps)
    decreases i
  {
    if i > 0 {
      SizeAt(steps[1..], i - 1);
    }
  }
}
