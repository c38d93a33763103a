/** The relay with its surroundings: the target process holding one key bit, the commands in
    flight to it, and the connection `stop` opens to release the key once more. */
module RelayWorld {
  import opened Wrappers
  import opened Framing
  import opened Relay

  /** The variables of `resetTarget`. */
  datatype Reset = Reset(
    open: bool, connected: bool, pending: Bytes, barrier: bool, asking: bool, outcome: Option<bool>,
    sent: seq<Cmd>, done: nat, heard: nat)

  const RESET := Reset(true, false, [], false, false, None, [], 0, 0)

  function Finish(r: Reset, ok: bool): Reset {
    if r.outcome.Some? then r else r.(open := false, asking := false, outcome := Some(ok))
  }

  function ResetSends(r: Reset, cmds: seq<Cmd>): Reset {
    if r.open then r.(sent := r.sent + cmds) else r
  }

  datatype ResetFlow = ResetFlow(r: Reset, next: bool)

  /** One message of the reset connection. */
  function OnResetValue(o: Options, r: Reset, v: Json): ResetFlow {
    if Refused(v) then ResetFlow(Finish(r, false), false)
    else if !r.barrier && Has(v, "FakeKeyNames") then
      if !Defines(v, o.virtualKey) then ResetFlow(Finish(r, false), false)
      else ResetFlow(ResetSends(r.(barrier := true), [Key(false), QueryLayer]), true)
    else if r.barrier && AsText(ReplyName(v)).Some? then
      if AsText(ReplyName(v)).value == o.fallbackLayer then ResetFlow(Finish(r, true), true)
      else ResetFlow(r.(asking := true), true)
    else ResetFlow(r, true)
  }

  function OnResetValues(o: Options, r: Reset, vs: seq<Json>): Reset
    decreases |vs|
  {
    if vs == [] then r
    else
      var f := OnResetValue(o, r.(heard := r.heard + ReplyCount(vs[0])), vs[0]);
      if f.next then OnResetValues(o, f.r, vs[1..]) else f.r
  }

  function OnResetData(o: Options, r: Reset, chunk: Bytes): Reset {
    match Frames(o.codec, LIMIT, r.pending + chunk)
    case Err(_) => Finish(r, false)
    case Ok(p) => OnResetValues(o, r.(pending := p.1), p.0)
  }

  /** What the peer has of the current target connection: `done` of its commands were run, the
      rest is still to come unless `cut`; `heard` layer replies have arrived; `barrier` is the
      query whose reply made the relay adopt the connection. `residue` is what dead
      connections left behind. `dropped`: commands were lost after the reset began. */
  datatype World = World(
    st: State, bit: bool, done: nat, cut: bool, heard: nat, barrier: Option<nat>,
    residue: seq<Cmd>, reset: Option<Reset>, dropped: bool)

  function Begin(bit: bool): World {
    World(START, bit, 0, false, 0, None, [], None, false)
  }

  datatype Event =
    | Opens(role: Role, now: int, room: nat)
    | Drains(role: Role, room: nat)
    | Connects(role: Role)
    | Arrives(role: Role, chunk: Bytes, now: int)
    | Ticks(role: Role, now: int)
    | Dies(role: Role)
    | Closes(role: Role)
    | PeerRuns
    | PeerRunsLate
    | LosesRest
    | LosesResidue
    | StopCalled
    | ResetConnects
    | ResetArrives(chunk: Bytes)
    | ResetAsks
    | ResetFails
    | ResetRuns
    | DestroysAll

  // ------------------------------------------------------------------- counting

  function ReplyCount(v: Json): nat { if IsReply(v) then 1 else 0 }

  function Replies(vs: seq<Json>): nat {
    if vs == [] then 0 else ReplyCount(vs[0]) + Replies(vs[1..])
  }

  function Layers(cmds: seq<Cmd>): nat {
    if cmds == [] then 0 else Layers(cmds[..|cmds| - 1]) + if cmds[|cmds| - 1].QueryLayer? then 1 else 0
  }

  /** Position of the layer query that `n` others precede. */
  function NthQuery(cmds: seq<Cmd>, n: nat): (q: nat)
    requires n < Layers(cmds)
    ensures q < |cmds| && cmds[q] == QueryLayer
  {
    if n < Layers(cmds[..|cmds| - 1]) then NthQuery(cmds[..|cmds| - 1], n) else |cmds| - 1
  }

  /** The key actions among some commands. */
  function Keys(cmds: seq<Cmd>): seq<bool> {
    if cmds == [] then []
    else Keys(cmds[..|cmds| - 1]) + if cmds[|cmds| - 1].Key? then [cmds[|cmds| - 1].held] else []
  }

  /** The key bit after the peer runs some commands. */
  function RunKeys(bit: bool, cmds: seq<Cmd>): bool
    decreases |cmds|
  {
    if cmds == [] then bit else RunKeys(RunOne(bit, cmds[0]), cmds[1..])
  }

  function RunOne(bit: bool, c: Cmd): bool {
    match c case Key(h) => h case _ => bit
  }

  // --------------------------------------------------------------------- steps

  /** One message on the target connection, with the barrier noted at adoption. */
  function Hear(o: Options, w: World, v: Json, now: int): (World, bool)
    requires w.st.target.Some?
  {
    var f := OnTargetValue(o, w.st, v, now);
    var adopts := !w.st.target.value.ready && f.st.target.value.ready;
    var q := if w.heard < Layers(w.st.target.value.sent) then Some(NthQuery(w.st.target.value.sent, w.heard)) else None;
    (w.(st := f.st, heard := w.heard + ReplyCount(v), barrier := if adopts then q else w.barrier), f.Next?)
  }

  function HearAll(o: Options, w: World, vs: seq<Json>, now: int): World
    requires w.st.target.Some?
    decreases |vs|
  {
    if vs == [] then w
    else
      var h := Hear(o, w, vs[0], now);
      if h.1 then HearAll(o, h.0, vs[1..], now) else h.0
  }

  /** What is still to be run by the peer on the relay's behalf. */
  function Rest(w: World): seq<Cmd> {
    if w.st.target.None? || w.cut || w.done > |w.st.target.value.sent| then [] else w.st.target.value.sent[w.done..]
  }

  function InFlight(w: World): seq<Cmd> { w.residue + Rest(w) }

  /** A dead connection's commands were all run or lost. */
  predicate Over(w: World) {
    w.residue == [] && (w.st.target.Some? && !w.st.target.value.open ==> Rest(w) == [])
  }

  /** Layer replies only come for layer queries the peer has run. */
  predicate Answered(w: World, t: Session, vs: seq<Json>) {
    w.done <= |t.sent| && w.heard + Replies(vs) <= Layers(t.sent[..w.done])
  }

  predicate Enabled(o: Options, w: World, e: Event) {
    match e
    case Opens(role, _, _) => SessionOf(w.st, role).None? && !w.st.aborted
    case Drains(role, _) => SessionOf(w.st, role).Some?
    case Connects(role) => var s := SessionOf(w.st, role); s.Some? && s.value.open && !s.value.connected
    case Arrives(role, chunk, _) =>
      var s := SessionOf(w.st, role);
      s.Some? && s.value.open && s.value.connected &&
      (role.Source? || Answered(w, s.value, Received(o, s.value, chunk)))
    case Ticks(role, _) => SessionOf(w.st, role).Some?
    case Dies(role) => SessionOf(w.st, role).Some?
    case Closes(role) => SessionOf(w.st, role).Some? && !SessionOf(w.st, role).value.open
    case PeerRuns => w.residue == [] && Rest(w) != []
    case PeerRunsLate => w.residue != []
    case LosesRest => w.st.target.Some? && !w.st.target.value.open && Rest(w) != []
    case LosesResidue => w.residue != []
    case StopCalled => !w.st.stopping
    case ResetConnects => w.reset.Some? && w.reset.value.open && !w.reset.value.connected
    case ResetArrives(chunk) =>
      w.reset.Some? && w.reset.value.open && w.reset.value.connected && w.reset.value.done <= |w.reset.value.sent| &&
      (var r := w.reset.value;
       match Frames(o.codec, LIMIT, r.pending + chunk)
       case Err(_) => true
       case Ok(p) => r.heard + Replies(p.0) <= Layers(r.sent[..r.done]))
    case ResetAsks => w.reset.Some? && w.reset.value.asking
    case ResetFails => w.reset.Some?
    case ResetRuns =>
      w.reset.Some? && w.reset.value.done < |w.reset.value.sent| && (w.reset.value.done == 0 ==> Over(w))
    case DestroysAll => w.reset.Some? && w.reset.value.outcome.Some?
  }

  function Destroy(s: Option<Session>): Option<Session> {
    match s case None => None case Some(x) => Some(x.(open := false))
  }

  /** Whether commands lost now could come after the reset connection's. */
  function LossMatters(w: World): bool { w.dropped || (w.reset.Some? && w.reset.value.done > 0) }

  function TargetArrives(o: Options, w: World, chunk: Bytes, now: int): World
    requires w.st.target.Some?
  {
    var t := w.st.target.value;
    match Frames(o.codec, LIMIT, t.pending + chunk)
    case Err(_) => w.(st := w.st.(target := Some(t.(open := false))))
    case Ok(p) => HearAll(o, w.(st := w.st.(target := Some(t.(pending := p.1)))), p.0, now)
  }

  function TargetCloses(w: World): World {
    w.(st := OnClose(w.st, Target), done := 0, cut := false, heard := 0, barrier := None, residue := InFlight(w))
  }

  function Step(o: Options, w: World, e: Event): World
    requires Enabled(o, w, e)
  {
    match e
    case Opens(role, now, room) => w.(st := Connect(o, w.st, role, now, room))
    case Drains(role, room) => w.(st := WithSession(w.st, role, SessionOf(w.st, role).value.(room := room)))
    case Connects(role) => w.(st := OnConnect(w.st, role))
    case Arrives(role, chunk, now) =>
      if role.Source? then w.(st := OnData(o, w.st, role, chunk, now)) else TargetArrives(o, w, chunk, now)
    case Ticks(role, now) => w.(st := OnTimer(o, w.st, role, now))
    case Dies(role) => w.(st := WithSession(w.st, role, SessionOf(w.st, role).value.(open := false)))
    case Closes(role) => if role.Source? then w.(st := OnClose(w.st, Source)) else TargetCloses(w)
    case PeerRuns => w.(bit := RunOne(w.bit, Rest(w)[0]), done := w.done + 1)
    case PeerRunsLate => w.(bit := RunOne(w.bit, w.residue[0]), residue := w.residue[1..])
    case LosesRest => w.(cut := true, dropped := LossMatters(w))
    case LosesResidue => w.(residue := [], dropped := LossMatters(w))
    case StopCalled => w.(st := Stop(w.st), reset := Some(RESET))
    case ResetConnects => w.(reset := Some(ResetSends(w.reset.value.(connected := true), [QueryNames])))
    case ResetArrives(chunk) => w.(reset := Some(OnResetData(o, w.reset.value, chunk)))
    case ResetAsks => w.(reset := Some(ResetSends(w.reset.value.(asking := false), [QueryLayer])))
    case ResetFails => w.(reset := Some(Finish(w.reset.value, false)))
    case ResetRuns =>
      var r := w.reset.value;
      w.(bit := RunOne(w.bit, r.sent[r.done]), reset := Some(r.(done := r.done + 1)))
    case DestroysAll => w.(st := w.st.(source := Destroy(w.st.source), target := Destroy(w.st.target)))
  }

  /** A run: every event possible where it happens. */
  predicate Valid(o: Options, w: World, run: seq<Event>)
    decreases |run|
  {
    run == [] || (Enabled(o, w, run[0]) && Valid(o, Step(o, w, run[0]), run[1..]))
  }

  function After(o: Options, w: World, run: seq<Event>): World
    requires Valid(o, w, run)
    decreases |run|
  {
    if run == [] then w else After(o, Step(o, w, run[0]), run[1..])
  }

  /** The world's account of a chunk is the data handler's. */
  lemma {:induction false} HearsWhatHandlerDoes(o: Options, w: World, vs: seq<Json>, now: int)
    requires w.st.target.Some?
    ensures HearAll(o, w, vs, now).st == OnValues(o, w.st, Target, vs, now)
    decreases |vs|
  {
    hide OnTargetValue; hide Layers; hide NthQuery;
    if vs != [] {
      var h := Hear(o, w, vs[0], now);
      if h.1 {
        HearsWhatHandlerDoes(o, h.0, vs[1..], now);
      }
    }
  }

  /** Target chunks are handled by `OnData`, too. */
  lemma TargetDataIsHandled(o: Options, w: World, chunk: Bytes, now: int)
    requires w.st.target.Some?
    ensures TargetArrives(o, w, chunk, now).st == OnData(o, w.st, Target, chunk, now)
  {
    var t := w.st.target.value;
    var f := Frames(o.codec, LIMIT, t.pending + chunk);
    hide Frames; hide OnValues; hide HearAll;
    if f.Ok? {
      HearsWhatHandlerDoes(o, w.(st := w.st.(target := Some(t.(pending := f.value.1)))), f.value.0, now);
    }
  }
}
