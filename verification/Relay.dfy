/** The Kanata relay of files/kanata-dial/relay.ts: its event handlers as functions of the relay
    state, and the class whose methods are those handlers. */
module Relay {
  import opened Wrappers
  import opened Framing

  /** The requests written to a Kanata socket. */
  datatype Cmd = QueryNames | QueryLayer | Key(held: bool)

  datatype Role = Source | Target

  datatype Options = Options(
    precisionLayer: string, virtualKey: string, fallbackLayer: string, timeoutMs: int, pollMs: int, codec: Codec)

  const LIMIT: nat := 65536

  /** One connection and the variables of its handlers. `open` is writable and not destroyed;
      `room` is how many more writes stay below the backpressure mark; `sent` is everything
      handed to the socket. */
  datatype Session = Session(
    open: bool, room: nat, connected: bool, pending: Bytes,
    ready: bool, resetting: bool, awaiting: bool,
    deadline: int, resetDeadline: int, nextPoll: int,
    sent: seq<Cmd>)

  /** `adopted`: the field `target` of the relay is the current target connection. */
  datatype State = State(
    source: Option<Session>, target: Option<Session>, adopted: bool,
    sourceHeld: bool, sentHeld: bool, stopping: bool, aborted: bool)

  function Fresh(o: Options, now: int, room: nat): Session {
    Session(true, room, false, [], false, false, true, now + o.timeoutMs, now + o.timeoutMs, now + o.pollMs, [])
  }

  /** `write`: backpressure destroys the connection, the message being already queued. */
  function Write(s: Session, c: Cmd): (r: (Session, bool)) {
    if !s.open then (s, false)
    else if s.room == 0 then (s.(open := false, sent := s.sent + [c]), false)
    else (s.(room := s.room - 1, sent := s.sent + [c]), true)
  }

  function Wanted(st: State): bool {
    !st.stopping && st.sourceHeld
  }

  /** `apply` */
  function Apply(st: State): (r: State)
    ensures r.source == st.source && (r.target.Some? <==> st.target.Some?)
  {
    if st.adopted && st.target.Some? && Wanted(st) != st.sentHeld then
      var w := Write(st.target.value, Key(Wanted(st)));
      st.(target := Some(w.0), sentHeld := if w.1 then Wanted(st) else st.sentHeld)
    else st
  }

  // -------------------------------------------------------------------- messages

  /** `object(v)?.[key]` */
  function Member(v: Option<Json>, key: string): Option<Json> {
    match v
    case Some(Obj(members)) => if key in members then Some(members[key]) else None
    case _ => None
  }

  predicate Truthy(v: Option<Json>) {
    match v
    case None | Some(Null) => false
    case Some(Bool(b)) => b
    case Some(Num(n)) => n != 0.0
    case Some(Str(s)) => s != ""
    case Some(Arr(_)) => true
    case Some(Obj(_)) => true
  }

  function Has(v: Json, key: string): bool { Truthy(Member(Some(v), key)) }

  predicate IsReply(v: Json) { Has(v, "CurrentLayerName") }

  /** Not an object, or an error report: the handler throws. */
  predicate Refused(v: Json) {
    !v.Obj? || Has(v, "Error") || Member(Some(v), "status") == Some(Str("Error"))
  }

  function ReplyName(v: Json): Option<Json> { Member(Member(Some(v), "CurrentLayerName"), "name") }

  function AsText(v: Option<Json>): Option<string> {
    match v case Some(Str(s)) => Some(s) case _ => None
  }

  /** `layerName` */
  function LayerName(v: Json): Option<string> {
    var changed := Member(Member(Some(v), "LayerChange"), "new");
    AsText(if changed.None? || changed == Some(Null) then ReplyName(v) else changed)
  }

  predicate Defines(v: Json, virtualKey: string) {
    match Member(Member(Some(v), "FakeKeyNames"), "names")
    case Some(Arr(items)) => Str(virtualKey) in items
    case _ => false
  }

  // -------------------------------------------------------------------- handlers

  function SessionOf(st: State, role: Role): Option<Session> {
    if role.Source? then st.source else st.target
  }

  function WithSession(st: State, role: Role, s: Session): State {
    if role.Source? then st.(source := Some(s)) else st.(target := Some(s))
  }

  /** A handler either goes on with the next message or leaves the rest of the chunk. */
  datatype Flow = Next(st: State) | Leave(st: State)

  /** A throw inside the data handler. */
  function Throw(st: State, role: Role): (f: Flow)
    requires SessionOf(st, role).Some?
    ensures SessionOf(f.st, role).Some?
  {
    Leave(WithSession(st, role, SessionOf(st, role).value.(open := false)))
  }

  /** The part of the loop both roles share. */
  function Serve(o: Options, st: State, role: Role, v: Json, now: int): (f: Flow)
    requires SessionOf(st, role).Some?
    ensures SessionOf(f.st, role).Some?
  {
    var s := SessionOf(st, role).value;
    if !s.ready then Next(st)
    else if IsReply(v) && AsText(ReplyName(v)).None? then Throw(st, role)
    else if IsReply(v) || Has(v, "FakeKeyNames") then
      Next(WithSession(st, role, s.(awaiting := false, nextPoll := now + o.pollMs)))
    else Next(st)
  }

  function OnSourceValue(o: Options, st: State, v: Json, now: int): (f: Flow)
    requires st.source.Some?
    ensures f.st.source.Some?
  {
    if Refused(v) then Throw(st, Source)
    else
      match LayerName(v)
      case Some(layer) =>
        Serve(o, Apply(st.(source := Some(st.source.value.(ready := true)), sourceHeld := layer == o.precisionLayer)), Source, v, now)
      case None =>
        if Has(v, "LayerChange") || IsReply(v) then Throw(st, Source) else Serve(o, st, Source, v, now)
  }

  /** The target knows the key: release it first, then ask for the layer. */
  function Release(st: State): (f: Flow)
    requires st.target.Some?
    ensures f.st.target.Some?
  {
    var w := Write(st.target.value, Key(false));
    if !w.1 then Leave(st.(target := Some(w.0)))
    else Next(st.(target := Some(Write(w.0.(resetting := true, awaiting := true), QueryLayer).0)))
  }

  /** The fallback layer was seen behind the release: the connection becomes the target. */
  function Adopt(st: State): (r: State)
    requires st.target.Some?
    ensures r.target.Some?
  {
    Apply(st.(target := Some(st.target.value.(resetting := false, ready := true)), adopted := true, sentHeld := false))
  }

  function Min(a: int, b: int): int { if a < b then a else b }

  function OnTargetValue(o: Options, st: State, v: Json, now: int): (f: Flow)
    requires st.target.Some?
    ensures f.st.target.Some?
  {
    var t := st.target.value;
    if Refused(v) then Throw(st, Target)
    else if !t.ready && !t.resetting && Has(v, "FakeKeyNames") then
      if !Defines(v, o.virtualKey) then Throw(st, Target) else Release(st)
    else if t.resetting && IsReply(v) then
      match AsText(ReplyName(v))
      case None => Throw(st, Target)
      case Some(layer) =>
        if layer == o.fallbackLayer then Serve(o, Adopt(st), Target, v, now)
        else Next(st.(target := Some(t.(awaiting := false, nextPoll := now + Min(o.pollMs, 25)))))
    else Serve(o, st, Target, v, now)
  }

  function OnValue(o: Options, st: State, role: Role, v: Json, now: int): (f: Flow)
    requires SessionOf(st, role).Some?
    ensures SessionOf(f.st, role).Some?
  {
    if role.Source? then OnSourceValue(o, st, v, now) else OnTargetValue(o, st, v, now)
  }

  function OnValues(o: Options, st: State, role: Role, vs: seq<Json>, now: int): (r: State)
    requires SessionOf(st, role).Some?
    ensures SessionOf(r, role).Some?
    decreases |vs|
  {
    if vs == [] then st
    else
      match OnValue(o, st, role, vs[0], now)
      case Leave(r) => r
      case Next(r) => OnValues(o, r, role, vs[1..], now)
  }

  /** The messages a chunk completes; none when the framing throws. */
  function Received(o: Options, s: Session, chunk: Bytes): seq<Json> {
    match Frames(o.codec, LIMIT, s.pending + chunk) case Err(_) => [] case Ok(p) => p.0
  }

  function OnData(o: Options, st: State, role: Role, chunk: Bytes, now: int): State
    requires SessionOf(st, role).Some?
  {
    var s := SessionOf(st, role).value;
    match Frames(o.codec, LIMIT, s.pending + chunk)
    case Err(_) => WithSession(st, role, s.(open := false))
    case Ok(p) => OnValues(o, WithSession(st, role, s.(pending := p.1)), role, p.0, now)
  }

  function OnConnect(st: State, role: Role): State
    requires SessionOf(st, role).Some?
  {
    var s := SessionOf(st, role).value.(connected := true);
    WithSession(st, role, Write(s, if role.Target? then QueryNames else QueryLayer).0)
  }

  function Polled(o: Options, s: Session, now: int): Session {
    if (!s.ready && now >= s.resetDeadline) || (s.awaiting && now >= s.deadline) then s.(open := false)
    else if (s.ready || s.resetting) && !s.awaiting && now >= s.nextPoll then
      Write(s.(awaiting := true, deadline := now + o.timeoutMs), QueryLayer).0
    else s
  }

  function OnTimer(o: Options, st: State, role: Role, now: int): State
    requires SessionOf(st, role).Some?
  {
    WithSession(st, role, Polled(o, SessionOf(st, role).value, now))
  }

  function OnClose(st: State, role: Role): State {
    match role
    case Source => Apply(st.(source := None, sourceHeld := false))
    case Target => st.(target := None, adopted := false, sentHeld := if st.adopted then false else st.sentHeld)
  }

  /** The synchronous part of `stop`. */
  function Stop(st: State): State {
    if st.stopping then st else Apply(st.(stopping := true, sourceHeld := false)).(aborted := true)
  }

  /** `follow` opens the next connection of a role when the last one has closed. */
  function Connect(o: Options, st: State, role: Role, now: int, room: nat): State {
    WithSession(st, role, Fresh(o, now, room))
  }

  const START := State(None, None, false, false, false, false, false)

  // ------------------------------------------------------------------- the object

  class PrecisionRelay {
    const options: Options
    var source: Option<Session>
    var target: Option<Session>
    var adopted: bool
    var sourceHeld: bool
    var sentHeld: bool
    var stopping: bool
    var aborted: bool

    constructor (options: Options)
      ensures Now() == START && this.options == options
    {
      this.options := options;
      source, target, adopted := None, None, false;
      sourceHeld, sentHeld, stopping, aborted := false, false, false, false;
    }

    ghost function Now(): State
      reads this
    {
      State(source, target, adopted, sourceHeld, sentHeld, stopping, aborted)
    }

    method Assign(role: Role, s: Session)
      modifies this`source, this`target
      ensures Now() == WithSession(old(Now()), role, s)
    {
      if role.Source? {
        source := Some(s);
      } else {
        target := Some(s);
      }
    }

    /** `write` */
    method Send(role: Role, c: Cmd) returns (ok: bool)
      requires SessionOf(Now(), role).Some?
      modifies this`source, this`target
      ensures ok == Write(SessionOf(old(Now()), role).value, c).1
      ensures Now() == WithSession(old(Now()), role, Write(SessionOf(old(Now()), role).value, c).0)
    {
      var s := if role.Source? then source.value else target.value;
      if !s.open {
        return false;
      }
      ok := s.room > 0;
      s := s.(open := ok, room := if ok then s.room - 1 else 0, sent := s.sent + [c]);
      Assign(role, s);
    }

    method ApplyHeld()
      modifies this`source, this`target, this`sentHeld
      ensures Now() == Apply(old(Now()))
    {
      var held := !stopping && sourceHeld;
      if adopted && target.Some? && held != sentHeld {
        var ok := Send(Target, Key(held));
        if ok {
          sentHeld := held;
        }
      }
    }

    method HandleConnect(role: Role)
      requires SessionOf(Now(), role).Some?
      modifies this`source, this`target
      ensures Now() == OnConnect(old(Now()), role)
    {
      if role.Target? {
        target := Some(target.value.(connected := true));
        var _ := Send(role, QueryNames);
      } else {
        source := Some(source.value.(connected := true));
        var _ := Send(role, QueryLayer);
      }
    }

    /** The loop body for a source message; false when it throws. */
    method HandleSource(v: Json, now: int) returns (next: bool)
      requires source.Some?
      modifies this`source, this`target, this`sourceHeld, this`sentHeld
      ensures source.Some?
      ensures OnSourceValue(options, old(Now()), v, now) == if next then Next(Now()) else Leave(Now())
    {
      hide Refused; hide LayerName; hide IsReply; hide Has; hide Apply;
      if Refused(v) {
        source := Some(source.value.(open := false));
        return false;
      }
      var layer := LayerName(v);
      if layer.Some? {
        source := Some(source.value.(ready := true));
        sourceHeld := layer.value == options.precisionLayer;
        ApplyHeld();
      } else if Has(v, "LayerChange") || IsReply(v) {
        source := Some(source.value.(open := false));
        return false;
      }
      next := HandleServe(Source, v, now);
    }

    method HandleServe(role: Role, v: Json, now: int) returns (next: bool)
      requires SessionOf(Now(), role).Some?
      modifies this`source, this`target
      ensures Serve(options, old(Now()), role, v, now) == if next then Next(Now()) else Leave(Now())
    {
      hide IsReply; hide Has; hide ReplyName; hide AsText;
      var s := if role.Source? then source.value else target.value;
      if !s.ready {
        return true;
      }
      next := !(IsReply(v) && AsText(ReplyName(v)).None?);
      if !next {
        s := s.(open := false);
      } else if IsReply(v) || Has(v, "FakeKeyNames") {
        s := s.(awaiting := false, nextPoll := now + options.pollMs);
      }
      Assign(role, s);
    }

    /** The loop body for a target message; false when it throws or returns. */
    method HandleTarget(v: Json, now: int) returns (next: bool)
      requires target.Some?
      modifies this`source, this`target, this`adopted, this`sentHeld
      ensures target.Some?
      ensures OnTargetValue(options, old(Now()), v, now) == if next then Next(Now()) else Leave(Now())
    {
      hide Refused; hide IsReply; hide Has; hide ReplyName; hide AsText; hide Defines; hide Apply; hide Serve;
      var t := target.value;
      if Refused(v) {
        target := Some(t.(open := false));
        return false;
      }
      if !t.ready && !t.resetting && Has(v, "FakeKeyNames") {
        if !Defines(v, options.virtualKey) {
          target := Some(t.(open := false));
          return false;
        }
        next := Send(Target, Key(false));
        if next {
          target := Some(target.value.(resetting := true, awaiting := true));
          var _ := Send(Target, QueryLayer);
        }
        return;
      }
      if t.resetting && IsReply(v) {
        var layer := AsText(ReplyName(v));
        if layer.None? {
          target := Some(t.(open := false));
          return false;
        }
        if layer.value != options.fallbackLayer {
          target := Some(t.(awaiting := false, nextPoll := now + Min(options.pollMs, 25)));
          return true;
        }
        target := Some(t.(resetting := false, ready := true));
        adopted, sentHeld := true, false;
        ApplyHeld();
      }
      next := HandleServe(Target, v, now);
    }

    /** The data handler: frame, then every message until one throws. */
    method HandleData(role: Role, chunk: Bytes, now: int)
      requires SessionOf(Now(), role).Some?
      modifies this
      ensures Now() == OnData(options, old(Now()), role, chunk, now)
    {
      hide OnSourceValue; hide OnTargetValue;
      var s := if role.Source? then source.value else target.value;
      var frames := new JsonLines(LIMIT, options.codec);
      frames.pending := s.pending;
      var values := frames.Push(chunk);
      s := if values.Err? then s.(open := false) else s.(pending := frames.pending);
      Assign(role, s);
      if values.Err? {
        return;
      }
      var vs := values.value;
      ghost var start := Now();
      var i := 0;
      assert vs[0..] == vs;
      while i < |vs|
        invariant 0 <= i <= |vs| && SessionOf(Now(), role).Some?
        invariant OnValues(options, start, role, vs, now) == OnValues(options, Now(), role, vs[i..], now)
      {
        assert vs[i..][1..] == vs[i + 1..];
        ghost var before := Now();
        var next: bool;
        if role.Source? {
          next := HandleSource(vs[i], now);
        } else {
          next := HandleTarget(vs[i], now);
        }
        assert OnValue(options, before, role, vs[i], now) == if next then Next(Now()) else Leave(Now());
        if !next {
          return;
        }
        i := i + 1;
      }
    }

    method HandleTimer(role: Role, now: int)
      requires SessionOf(Now(), role).Some?
      modifies this`source, this`target
      ensures Now() == OnTimer(options, old(Now()), role, now)
    {
      var s := if role.Source? then source.value else target.value;
      if (!s.ready && now >= s.resetDeadline) || (s.awaiting && now >= s.deadline) {
        Assign(role, s.(open := false));
      } else if (s.ready || s.resetting) && !s.awaiting && now >= s.nextPoll {
        Assign(role, s.(awaiting := true, deadline := now + options.timeoutMs));
        var _ := Send(role, QueryLayer);
      }
    }

    method HandleClose(role: Role)
      modifies this
      ensures Now() == OnClose(old(Now()), role)
    {
      if role.Source? {
        source := None;
        sourceHeld := false;
        ApplyHeld();
      } else {
        target := None;
        if adopted {
          adopted, sentHeld := false, false;
        }
      }
    }

    /** `stop` up to its reset of the target over a connection of its own. */
    method BeginStop()
      modifies this
      ensures Now() == Stop(old(Now()))
    {
      if stopping {
        return;
      }
      stopping, sourceHeld := true, false;
      ApplyHeld();
      aborted := true;
    }
  }
}
