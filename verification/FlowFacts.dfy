/** Which flow files load, which file decides each step, and how a run of the steps ends, said on
    the files and the exit codes themselves. */
module FlowFacts {
  import opened Wrappers
  import opened Framing
  import opened Catalog
  import opened CatalogFacts

  // --------------------------------------------------------------------------- files

  /** The flows as the files spell them. */
  function Word(f: Flow): string {
    match f case Build => "build" case Install => "install" case Status => "status"
  }

  const DIGITS := "0123456789"

  function FileName(n: nat, f: Flow, rest: string): string
    requires n < 100
  {
    [DIGITS[n / 10], DIGITS[n % 10]] + "-" + Word(f) + "-" + rest + ".json"
  }

  /** A file name `NN-flow-rest.json` and its number. */
  ghost predicate Stamped(name: string, f: Flow, n: nat) {
    1 <= n <= 99 && exists rest :: rest != "" && OneLine(rest) && name == FileName(n, f, rest)
  }

  lemma DigitIs(c: char)
    ensures IsDigit(c) <==> c in DIGITS
    ensures IsDigit(c) ==> DIGITS[Digit(c)] == c
  {
  }

  lemma DigitOf(k: nat)
    requires k < 10
    ensures IsDigit(DIGITS[k]) && Digit(DIGITS[k]) == k
  {
  }

  lemma FileParts(n: nat, f: Flow, rest: string)
    requires n < 100
    ensures var name, m := FileName(n, f, rest), 4 + |Word(f)|;
      |name| == m + |rest| + 5 && name[0] == DIGITS[n / 10] && name[1] == DIGITS[n % 10] && name[2] == '-' && name[3..3 + |Word(f)|] == Word(f)
      && name[3 + |Word(f)|] == '-' && name[|name| - 5..] == ".json" && name[m..|name| - 5] == rest
  {
    hide Word;
  }

  lemma FileWhole(name: string, n: nat, f: Flow)
    requires n < 100 && |name| > 2 && Indexed(name, Word(f)) && name[0] == DIGITS[n / 10] && name[1] == DIGITS[n % 10]
    ensures 4 + |Word(f)| < |name| - 5 && OneLine(name[4 + |Word(f)|..|name| - 5]) && name == FileName(n, f, name[4 + |Word(f)|..|name| - 5])
  {
    hide Word; hide OneLine;
    var w := Word(f);
    var m := 4 + |w|;
    assert name == name[..3] + name[3..3 + |w|] + name[3 + |w|..m] + name[m..|name| - 5] + name[|name| - 5..];
    assert name[..3] == [name[0], name[1]] + "-" && name[3 + |w|..m] == "-";
  }

  lemma WordIs(f: Flow)
    ensures FlowName(f) == Word(f)
  {
  }

  lemma StampedPlaces(name: string, f: Flow, n: nat)
    requires Stamped(name, f, n)
    ensures Placement(name, f) == Some(n)
  {
    hide OneLine; hide IsDigit; hide Digit; hide FileName; hide FlowName;
    var rest :| rest != "" && OneLine(rest) && name == FileName(n, f, rest);
    WordIs(f);
    FileParts(n, f, rest);
    DigitOf(n / 10);
    DigitOf(n % 10);
    hide Word;
  }

  lemma PlacedStamps(name: string, f: Flow)
    requires Placement(name, f).Some?
    ensures Stamped(name, f, Placement(name, f).value)
  {
    hide OneLine; hide IsDigit; hide FileName; hide FlowName; hide Indexed;
    WordIs(f);
    DigitIs(name[0]);
    DigitIs(name[1]);
    var n := Placement(name, f).value;
    Tens(Digit(name[0]), Digit(name[1]));
    hide Digit; hide Word;
    FileWhole(name, n, f);
  }

  lemma Tens(a: nat, b: nat)
    requires a < 10 && b < 10
    ensures (10 * a + b) / 10 == a && (10 * a + b) % 10 == b && 10 * a + b < 100
  {
  }

  lemma PlacementExact(name: string, f: Flow, n: nat)
    ensures Placement(name, f) == Some(n) <==> Stamped(name, f, n)
  {
    hide Placement; hide Stamped;
    if Stamped(name, f, n) {
      StampedPlaces(name, f, n);
    } else if Placement(name, f) == Some(n) {
      PlacedStamps(name, f);
    }
  }

  /** The phases of a flow, by number. */
  const PHASES: seq<(Flow, nat, nat, string)> := [
    (Build, 1, 19, "prerequisites"), (Build, 20, 39, "prepare"), (Build, 40, 69, "compile"), (Build, 70, 89, "package"),
    (Build, 90, 99, "finalize"), (Install, 1, 19, "prerequisites"), (Install, 20, 29, "identity"), (Install, 30, 49, "materialize"),
    (Install, 50, 69, "publish"), (Install, 70, 89, "activate"), (Install, 90, 99, "record"), (Status, 1, 99, "inspect")]

  predicate InPhase(f: Flow, n: nat, phase: string) {
    exists k :: 0 <= k < |PHASES| && PHASES[k].0 == f && PHASES[k].1 <= n <= PHASES[k].2 && PHASES[k].3 == phase
  }

  lemma PhaseExact(f: Flow, n: nat)
    requires 1 <= n <= 99
    ensures InPhase(f, n, PhaseFor(f, n))
  {
    var k := match f
      case Build => (if n <= 19 then 0 else if n <= 39 then 1 else if n <= 69 then 2 else if n <= 89 then 3 else 4)
      case Install =>
        (if n <= 19 then 5 else if n <= 29 then 6 else if n <= 49 then 7 else if n <= 69 then 8 else if n <= 89 then 9 else 10)
      case Status => 11;
    assert PHASES[k].0 == f && PHASES[k].1 <= n <= PHASES[k].2 && PHASES[k].3 == PhaseFor(f, n);
  }

  // ------------------------------------------------------------------------- running

  /** A step whose failure ends the run: any, but those of a status flow that speak the status
      protocol. */
  predicate Ends(f: Flow, code: int, h: Handler) {
    code != 0 && (f != Status || h == Plain)
  }

  /** A failure that is let pass and calls for attention: not an exit code 2 that is none. */
  predicate Alarms(f: Flow, code: int, h: Handler) {
    code != 0 && f == Status && h != Plain && (code != 2 || h == LegacyStatus(true))
  }

  ghost predicate EndsAt(f: Flow, codes: seq<int>, handlers: seq<Handler>, n: int)
    requires |codes| == |handlers|
  {
    0 <= n < |codes| && Ends(f, codes[n], handlers[n]) && forall i :: 0 <= i < n ==> !Ends(f, codes[i], handlers[i])
  }

  ghost predicate Unended(f: Flow, codes: seq<int>, handlers: seq<Handler>)
    requires |codes| == |handlers|
  {
    forall i :: 0 <= i < |codes| ==> !Ends(f, codes[i], handlers[i])
  }

  ghost predicate Alarmed(f: Flow, codes: seq<int>, handlers: seq<Handler>)
    requires |codes| == |handlers|
  {
    exists i :: 0 <= i < |codes| && Alarms(f, codes[i], handlers[i])
  }

  /** A run goes up to the first step that ends it, whose exit code 2 it keeps and any other makes
      1; if none does it runs all, and its exit code is 1 exactly when some step called for
      attention. */
  lemma {:induction false} RunExact(f: Flow, codes: seq<int>, handlers: seq<Handler>, attention: bool)
    requires |codes| == |handlers|
    ensures var r := RunFrom(f, codes, handlers, attention);
      && (forall n :: EndsAt(f, codes, handlers, n) ==> r == (n + 1, if codes[n] == 2 then 2 else 1))
      && (Unended(f, codes, handlers) ==> r == (|codes|, if attention || Alarmed(f, codes, handlers) then 1 else 0))
    decreases |codes|
  {
    hide Ends; hide Alarms; hide EndsAt; hide Unended; hide Alarmed; hide RunFrom;
    if codes == [] {
      NoneRun(f, attention);
      forall n ensures !EndsAt(f, codes, handlers, n) { EndInside(f, codes, handlers, n); }
    } else {
      var rest, more := codes[1..], handlers[1..];
      RunStep(f, codes, handlers, attention);
      RunExact(f, rest, more, attention || Alarms(f, codes[0], handlers[0]));
      LaterAlarm(f, codes, handlers);
      forall n | EndsAt(f, codes, handlers, n)
        ensures 0 <= n < |codes| && RunFrom(f, codes, handlers, attention) == (n + 1, if codes[n] == 2 then 2 else 1)
      {
        LaterEnd(f, codes, handlers, n);
      }
    }
  }

  lemma NoneRun(f: Flow, attention: bool)
    ensures RunFrom(f, [], [], attention) == (0, if attention then 1 else 0) && !Alarmed(f, [], [])
  {
  }

  lemma EndInside(f: Flow, codes: seq<int>, handlers: seq<Handler>, n: int)
    requires |codes| == |handlers|
    ensures EndsAt(f, codes, handlers, n) ==> 0 <= n < |codes|
  {
  }

  lemma RunStep(f: Flow, codes: seq<int>, handlers: seq<Handler>, attention: bool)
    requires |codes| == |handlers| && codes != []
    ensures RunFrom(f, codes, handlers, attention) ==
      if Ends(f, codes[0], handlers[0]) then (1, if codes[0] == 2 then 2 else 1)
      else Counted(RunFrom(f, codes[1..], handlers[1..], attention || Alarms(f, codes[0], handlers[0])))
  {
  }

  lemma LaterEnd(f: Flow, codes: seq<int>, handlers: seq<Handler>, n: int)
    requires |codes| == |handlers| && codes != [] && EndsAt(f, codes, handlers, n)
    ensures 0 <= n < |codes| && (n == 0 <==> Ends(f, codes[0], handlers[0]))
    ensures n > 0 ==> EndsAt(f, codes[1..], handlers[1..], n - 1) && codes[n] == codes[1..][n - 1]
  {
    hide Ends;
  }

  lemma LaterAlarm(f: Flow, codes: seq<int>, handlers: seq<Handler>)
    requires |codes| == |handlers| && codes != []
    ensures Alarmed(f, codes, handlers) <==> Alarms(f, codes[0], handlers[0]) || Alarmed(f, codes[1..], handlers[1..])
    ensures Unended(f, codes, handlers) ==> !Ends(f, codes[0], handlers[0]) && Unended(f, codes[1..], handlers[1..])
  {
    hide Alarms; hide Ends;
    if i :| 0 <= i < |codes| && Alarms(f, codes[i], handlers[i]) {
      assert i > 0 ==> Alarms(f, codes[1..][i - 1], handlers[1..][i - 1]);
    }
    if i :| 0 <= i < |codes[1..]| && Alarms(f, codes[1..][i], handlers[1..][i]) {
      assert Alarms(f, codes[i + 1], handlers[i + 1]);
    }
  }
}
