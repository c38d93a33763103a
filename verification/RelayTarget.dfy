/** What the target connection and the reset connection are told, message by message and tick by
    tick, spelled out on the messages and the bytes handed over. */
module RelayTarget {
  import opened Wrappers
  import opened Framing
  import opened Relay
  import opened RelayWorld
  import opened RelayLayer
  import RelaySafety

  /** Commands handed to a socket one after another: the one that meets backpressure is still
      queued, but it destroys the connection and nothing follows it. */
  function Handed(t: Session, cmds: seq<Cmd>): Session {
    if !t.open || cmds == [] then t
    else if |cmds| <= t.room then t.(room := t.room - |cmds|, sent := t.sent + cmds)
    else t.(open := false, room := 0, sent := t.sent + cmds[..t.room + 1])
  }

  lemma WriteHands(t: Session, c: Cmd)
    ensures Write(t, c).0 == Handed(t, [c]) && (Write(t, c).1 <==> t.open && t.room > 0)
  {
    assert [c][..1] == [c];
  }

  /** `apply` hands the target a press or a release exactly when the relay wants the other one. */
  lemma ApplyTells(st: State)
    requires st.target.Some?
    ensures var want, t := st.sourceHeld && !st.stopping, st.target.value;
      Apply(st) ==
        if st.adopted && want != st.sentHeld
        then st.(target := Some(Handed(t, [Key(want)])), sentHeld := if t.open && t.room > 0 then want else st.sentHeld)
        else st
  {
    WriteHands(st.target.value, Key(Wanted(st)));
    hide Write;
  }

  /** The names reply: a target that does not list the key is closed, one that does is released
      and asked for its layer; nothing else moves it on. */
  lemma AskedForNames(o: Options, st: State, v: Json, now: int)
    requires st.target.Some? && !st.target.value.ready && !st.target.value.resetting
    ensures var t := st.target.value;
      OnTargetValue(o, st, v, now) ==
        if Broken(v) || (Carries(v, "FakeKeyNames") && !Lists(v, o.virtualKey)) then Leave(st.(target := Some(t.(open := false))))
        else if !Carries(v, "FakeKeyNames") then Next(st)
        else if !t.open || t.room == 0 then Leave(st.(target := Some(Handed(t, [Key(false)]))))
        else Next(st.(target := Some(Handed(t, [Key(false), QueryLayer]).(resetting := true, awaiting := true))))
  {
    hide Has; hide Holds; hide Carries; hide Refused; hide Broken; hide Lists; hide Defines; hide Adopt; hide Write; hide IsReply;
    hide ReplyName;
    Shapes(v, "FakeKeyNames");
    DefinesIs(v, o.virtualKey);
    ReleaseHands(st);
  }

  lemma ReleaseHands(st: State)
    requires st.target.Some?
    ensures var t := st.target.value;
      Release(st) ==
        if !t.open || t.room == 0 then Leave(st.(target := Some(Handed(t, [Key(false)]))))
        else Next(st.(target := Some(Handed(t, [Key(false), QueryLayer]).(resetting := true, awaiting := true))))
  {
    var t := st.target.value;
    WriteHands(t, Key(false));
    if t.open && t.room > 0 {
      WriteHands(Handed(t, [Key(false)]).(resetting := true, awaiting := true), QueryLayer);
      assert [Key(false), QueryLayer][..2] == [Key(false), QueryLayer];
      assert [QueryLayer][..1] == [QueryLayer];
      assert t.sent + [Key(false)] + [QueryLayer] == t.sent + [Key(false), QueryLayer];
    }
    hide Write;
  }

  /** Behind the release: only the answer that names the fallback layer makes the connection the
      target, which is then told at once to press when the relay wants the key held; an answer
      naming another layer is followed by the next query no later than 25 ms on. */
  lemma BehindRelease(o: Options, st: State, v: Json, now: int)
    requires st.target.Some? && !st.target.value.ready && st.target.value.resetting
    ensures var t, want := st.target.value, st.sourceHeld && !st.stopping;
      OnTargetValue(o, st, v, now) ==
        if Broken(v) || Nameless(v) then Leave(st.(target := Some(t.(open := false))))
        else if !Carries(v, "CurrentLayerName") then Next(st)
        else if !Holds(v, "CurrentLayerName", "name", Str(o.fallbackLayer)) then
          Next(st.(target := Some(t.(awaiting := false, nextPoll := now + if o.pollMs < 25 then o.pollMs else 25))))
        else
          var r := t.(resetting := false, ready := true, awaiting := false, nextPoll := now + o.pollMs);
          Next(st.(adopted := true, sentHeld := want && t.open && t.room > 0,
            target := Some(Handed(r, if want then [Key(true)] else []))))
  {
    hide Has; hide Holds; hide Carries; hide Refused; hide Broken; hide Nameless; hide Defines; hide Release; hide Adopt; hide ReplyName;
    Shapes(v, "CurrentLayerName");
    NamelessIs(v);
    AnswerIs(v, o.fallbackLayer);
    AdoptTells(st);
    ServeIs(o, st, Target, v, now);
    ServeIs(o, Adopt(st), Target, v, now);
    hide Serve;
  }

  lemma NamelessIs(v: Json)
    ensures Nameless(v) <==> Carries(v, "CurrentLayerName") && AsText(ReplyName(v)).None?
  {
    hide ReplyName; hide AsText; hide Holds;
    AnswerNamed(v);
  }

  lemma AdoptTells(st: State)
    requires st.target.Some?
    ensures var t, want := st.target.value.(resetting := false, ready := true), st.sourceHeld && !st.stopping;
      Adopt(st) == st.(adopted := true, sentHeld := want && t.open && t.room > 0,
        target := Some(Handed(t, if want then [Key(true)] else [])))
  {
    hide Apply;
    ApplyTells(st.(target := Some(st.target.value.(resetting := false, ready := true)), adopted := true, sentHeld := false));
  }

  lemma ServeIs(o: Options, st: State, role: Role, v: Json, now: int)
    requires SessionOf(st, role).Some?
    ensures var s := SessionOf(st, role).value;
      Serve(o, st, role, v, now) ==
        if !s.ready then Next(st)
        else if Nameless(v) then Leave(WithSession(st, role, s.(open := false)))
        else if Carries(v, "CurrentLayerName") || Carries(v, "FakeKeyNames") then
          Next(WithSession(st, role, s.(awaiting := false, nextPoll := now + o.pollMs)))
        else Next(st)
  {
    hide Has; hide Carries; hide ReplyName; hide AsText; hide Nameless;
    Shapes(v, "CurrentLayerName");
    Shapes(v, "FakeKeyNames");
    NamelessIs(v);
  }

  /** An adopted target: an answer names a layer or closes the connection, and only answers, not
      other notices, count as service. */
  lemma Served(o: Options, st: State, v: Json, now: int)
    requires st.target.Some? && st.target.value.ready && !st.target.value.resetting
    ensures var t := st.target.value;
      OnTargetValue(o, st, v, now) ==
        if Broken(v) || Nameless(v) then Leave(st.(target := Some(t.(open := false))))
        else if Carries(v, "CurrentLayerName") || Carries(v, "FakeKeyNames") then
          Next(st.(target := Some(t.(awaiting := false, nextPoll := now + o.pollMs))))
        else Next(st)
  {
    hide Has; hide Holds; hide Carries; hide Refused; hide Broken; hide Nameless; hide Serve; hide Release; hide Adopt; hide ReplyName;
    hide Defines;
    Shapes(v, "CurrentLayerName");
    ServeIs(o, st, Target, v, now);
  }

  /** The connection `stop` opens: it releases once the key is listed, and only an answer naming
      the fallback layer behind that release makes it succeed. */
  lemma ResetHears(o: Options, r: Reset, v: Json)
    ensures OnResetValue(o, r, v) ==
      if Broken(v) || (!r.barrier && Carries(v, "FakeKeyNames") && !Lists(v, o.virtualKey)) then
        ResetFlow(if r.outcome.Some? then r else r.(open := false, asking := false, outcome := Some(false)), false)
      else if !r.barrier && Carries(v, "FakeKeyNames") then
        ResetFlow(r.(barrier := true, sent := if r.open then r.sent + [Key(false), QueryLayer] else r.sent), true)
      else if !r.barrier then ResetFlow(r, true)
      else if Holds(v, "CurrentLayerName", "name", Str(o.fallbackLayer)) then
        ResetFlow(if r.outcome.Some? then r else r.(open := false, asking := false, outcome := Some(true)), true)
      else if exists s :: Holds(v, "CurrentLayerName", "name", Str(s)) then ResetFlow(r.(asking := true), true)
      else ResetFlow(r, true)
  {
    hide Has; hide Holds; hide Carries; hide Refused; hide Broken; hide Lists; hide Defines; hide ReplyName; hide AsText;
    Shapes(v, "FakeKeyNames");
    DefinesIs(v, o.virtualKey);
    AnswerIs(v, o.fallbackLayer);
    AnswerNamed(v);
  }

  // ---------------------------------------------------------------------- the clock

  /** A tick hangs up on a connection that is not ready by its first deadline or whose query is
      overdue; it asks again only when nothing is asked and the poll is due. */
  lemma TickExact(o: Options, s: Session, now: int)
    ensures Polled(o, s, now) ==
      if (!s.ready && s.resetDeadline <= now) || (s.awaiting && s.deadline <= now) then s.(open := false)
      else if s.awaiting || now < s.nextPoll || !(s.ready || s.resetting) then s
      else Handed(s.(awaiting := true, deadline := now + o.timeoutMs), [QueryLayer])
  {
    WriteHands(s.(awaiting := true, deadline := now + o.timeoutMs), QueryLayer);
    hide Write;
  }

  /** The first thing a connection is asked: the target its key names, the source its layer. */
  lemma ConnectAsks(st: State, role: Role)
    requires SessionOf(st, role).Some?
    ensures OnConnect(st, role) == WithSession(st, role,
      Handed(SessionOf(st, role).value.(connected := true), if role.Target? then [QueryNames] else [QueryLayer]))
  {
    WriteHands(SessionOf(st, role).value.(connected := true), if role.Target? then QueryNames else QueryLayer);
    hide Write;
  }

  /** When the role's connection that is there was opened. */
  function OpenedAt(role: Role, at: int, run: seq<Event>): int
    decreases |run|
  {
    if run == [] then at
    else OpenedAt(role, if run[0].Opens? && run[0].role == role then run[0].now else at, run[1..])
  }

  predicate SameClock(a: Option<Session>, b: Option<Session>) {
    b.Some? ==> a.Some? && a.value.resetDeadline == b.value.resetDeadline
  }

  predicate SameClocks(a: State, b: State) {
    && (a.source.Some? <==> b.source.Some?) && (a.target.Some? <==> b.target.Some?)
    && SameClock(a.source, b.source) && SameClock(a.target, b.target)
  }

  lemma ApplyClocks(st: State)
    ensures SameClocks(st, Apply(st))
  {
  }

  lemma ServeClocks(o: Options, st: State, role: Role, v: Json, now: int)
    requires SessionOf(st, role).Some?
    ensures SameClocks(st, Serve(o, st, role, v, now).st)
  {
    hide IsReply; hide Has; hide ReplyName; hide AsText;
  }

  lemma ReleaseClocks(st: State)
    requires st.target.Some?
    ensures SameClocks(st, Release(st).st) && SameClocks(st, Adopt(st))
  {
    hide Apply;
    ApplyClocks(st.(target := Some(st.target.value.(resetting := false, ready := true)), adopted := true, sentHeld := false));
  }

  lemma ClocksTrans(a: State, b: State, c: State)
    requires SameClocks(a, b) && SameClocks(b, c)
    ensures SameClocks(a, c)
  {
  }

  lemma SourceClocks(o: Options, st: State, v: Json, now: int)
    requires st.source.Some?
    ensures SameClocks(st, OnSourceValue(o, st, v, now).st)
  {
    hide Refused; hide LayerName; hide Has; hide Apply; hide Serve; hide IsReply; hide SameClocks;
    var layer := LayerName(v);
    SourceSet(st, st.source.value.(open := false), st.sourceHeld);
    ServeClocks(o, st, Source, v, now);
    if layer.Some? {
      var held := layer.value == o.precisionLayer;
      var next := st.(source := Some(st.source.value.(ready := true)), sourceHeld := held);
      SourceSet(st, st.source.value.(ready := true), held);
      ApplyClocks(next);
      ServeClocks(o, Apply(next), Source, v, now);
      ClocksTrans(st, next, Apply(next));
      ClocksTrans(st, Apply(next), Serve(o, Apply(next), Source, v, now).st);
    }
  }

  lemma SourceSet(st: State, s: Session, held: bool)
    requires st.source.Some? && s.resetDeadline == st.source.value.resetDeadline
    ensures SameClocks(st, st.(source := Some(s), sourceHeld := held))
  {
  }

  lemma TargetSet(st: State, s: Session)
    requires st.target.Some? && s.resetDeadline == st.target.value.resetDeadline
    ensures SameClocks(st, st.(target := Some(s))) && SameClocks(st, st)
  {
  }

  lemma TargetClocks(o: Options, st: State, v: Json, now: int)
    requires st.target.Some?
    ensures SameClocks(st, OnTargetValue(o, st, v, now).st)
  {
    hide Refused; hide Has; hide Defines; hide IsReply; hide AsText; hide ReplyName; hide Serve; hide Adopt; hide Release;
    hide SameClocks;
    var t := st.target.value;
    TargetSet(st, t.(open := false));
    TargetSet(st, t.(awaiting := false, nextPoll := now + Min(o.pollMs, 25)));
    ReleaseClocks(st);
    ServeClocks(o, st, Target, v, now);
    ServeClocks(o, Adopt(st), Target, v, now);
    ClocksTrans(st, Adopt(st), Serve(o, Adopt(st), Target, v, now).st);
  }

  lemma {:induction false} ValuesClocks(o: Options, st: State, role: Role, vs: seq<Json>, now: int)
    requires SessionOf(st, role).Some?
    ensures SameClocks(st, OnValues(o, st, role, vs, now))
    decreases |vs|
  {
    hide OnSourceValue; hide OnTargetValue;
    if vs != [] {
      if role.Source? {
        SourceClocks(o, st, vs[0], now);
      } else {
        TargetClocks(o, st, vs[0], now);
      }
      var f := OnValue(o, st, role, vs[0], now);
      if f.Next? {
        ValuesClocks(o, f.st, role, vs[1..], now);
      }
    }
  }

  lemma SessionSet(st: State, role: Role, s: Session)
    requires SessionOf(st, role).Some? && s.resetDeadline == SessionOf(st, role).value.resetDeadline
    ensures SameClocks(st, WithSession(st, role, s))
  {
  }

  lemma DataClocks(o: Options, st: State, role: Role, chunk: Bytes, now: int)
    requires SessionOf(st, role).Some?
    ensures SameClocks(st, OnData(o, st, role, chunk, now))
  {
    hide Frames; hide OnValues; hide SameClocks;
    var s := SessionOf(st, role).value;
    var f := Frames(o.codec, LIMIT, s.pending + chunk);
    SessionSet(st, role, s.(open := false));
    if f.Ok? {
      var next := WithSession(st, role, s.(pending := f.value.1));
      SessionSet(st, role, s.(pending := f.value.1));
      ValuesClocks(o, next, role, f.value.0, now);
      ClocksTrans(st, next, OnValues(o, next, role, f.value.0, now));
    }
  }

  lemma TimerClocks(o: Options, st: State, role: Role, now: int)
    requires SessionOf(st, role).Some?
    ensures SameClocks(st, OnTimer(o, st, role, now))
  {
    TickExact(o, SessionOf(st, role).value, now);
    hide Polled;
  }

  lemma CloseClocks(st: State)
    ensures SameClock(st.target, OnClose(st, Source).target) && OnClose(st, Source).source.None?
    ensures SameClock(st.source, OnClose(st, Target).source) && OnClose(st, Target).target.None?
    ensures SameClocks(st, Stop(st))
  {
    hide Apply;
    ApplyClocks(st.(source := None, sourceHeld := false));
    ApplyClocks(st.(stopping := true, sourceHeld := false));
  }

  predicate Timed(o: Options, s: Option<Session>, at: int) {
    s.Some? ==> s.value.resetDeadline == at + o.timeoutMs
  }

  /** Only opening and closing a connection change what it is to answer by. */
  lemma StepClocks(o: Options, w: World, e: Event)
    requires Enabled(o, w, e) && !e.Opens? && !e.Closes?
    ensures SameClocks(w.st, Step(o, w, e).st)
  {
    hide TargetArrives; hide OnData; hide OnClose; hide OnConnect; hide OnTimer; hide Answered; hide InFlight; hide Frames; hide Stop;
    hide OnResetData; hide RunOne; hide Rest; hide LossMatters; hide Finish; hide ResetSends; hide Over; hide SameClocks;
    if e.Arrives? {
      DataClocks(o, w.st, e.role, e.chunk, e.now);
      if e.role.Target? {
        TargetDataIsHandled(o, w, e.chunk, e.now);
      }
    } else if e.Ticks? {
      TimerClocks(o, w.st, e.role, e.now);
    } else if e.Connects? {
      ConnectClocks(w.st, e.role);
    } else {
      OtherClocks(w.st, e);
    }
  }

  lemma OtherClocks(st: State, e: Event)
    ensures SameClocks(st, st) && SameClocks(st, Stop(st))
    ensures SameClocks(st, st.(source := Destroy(st.source), target := Destroy(st.target)))
    ensures e.Drains? && SessionOf(st, e.role).Some? ==>
      SameClocks(st, WithSession(st, e.role, SessionOf(st, e.role).value.(room := e.room)))
    ensures e.Dies? && SessionOf(st, e.role).Some? ==>
      SameClocks(st, WithSession(st, e.role, SessionOf(st, e.role).value.(open := false)))
  {
    hide SameClocks; hide Stop; hide Destroy; hide SameClock;
    CloseClocks(st);
    DestroyClocks(st);
    if (e.Drains? || e.Dies?) && SessionOf(st, e.role).Some? {
      var s := SessionOf(st, e.role).value;
      SessionSet(st, e.role, if e.Drains? then s.(room := e.room) else s.(open := false));
    }
  }

  lemma DestroyClocks(st: State)
    ensures SameClocks(st, st) && SameClocks(st, st.(source := Destroy(st.source), target := Destroy(st.target)))
  {
  }

  lemma StepTimed(o: Options, w: World, e: Event, role: Role, at: int)
    requires Enabled(o, w, e) && Timed(o, SessionOf(w.st, role), at)
    ensures Timed(o, SessionOf(Step(o, w, e).st, role), OpenedAt(role, at, [e]))
  {
    assert [e][1..] == [];
    if e.Opens? || e.Closes? {
      hide OnClose; hide InFlight;
      CloseClocks(w.st);
    } else {
      hide Step; hide Enabled;
      StepClocks(o, w, e);
    }
  }

  lemma ConnectClocks(st: State, role: Role)
    requires SessionOf(st, role).Some?
    ensures SameClocks(st, OnConnect(st, role))
  {
    ConnectAsks(st, role);
    hide OnConnect;
  }

  lemma {:induction false} RunTimed(o: Options, w: World, run: seq<Event>, role: Role, at: int)
    requires Valid(o, w, run) && Timed(o, SessionOf(w.st, role), at)
    ensures Timed(o, SessionOf(After(o, w, run).st, role), OpenedAt(role, at, run))
    decreases |run|
  {
    hide Step; hide Enabled; hide Timed;
    if run != [] {
      StepTimed(o, w, run[0], role, at);
      RunTimed(o, Step(o, w, run[0]), run[1..], role, OpenedAt(role, at, [run[0]]));
    }
  }

  /** In every run a connection still open after a tick was opened within the timeout, or is one
      that already serves: the source has shown a layer, the target is adopted. */
  lemma HangsUp(o: Options, bit: bool, run: seq<Event>, role: Role, now: int)
    requires Valid(o, Begin(bit), run) && Enabled(o, After(o, Begin(bit), run), Ticks(role, now))
    ensures var w := Step(o, After(o, Begin(bit), run), Ticks(role, now));
      && SessionOf(w.st, role).Some?
      && (SessionOf(w.st, role).value.open && o.timeoutMs + OpenedAt(role, 0, run) <= now ==>
            if role.Target? then w.st.adopted
            else Follow(o, None, run).Some? && Follow(o, None, run).value.layer.Some?)
  {
    hide Valid; hide After; hide Follow; hide OpenedAt; hide RelaySafety.Safe; hide Polled;
    var w := After(o, Begin(bit), run);
    RunTimed(o, Begin(bit), run, role, 0);
    RunMatches(o, Begin(bit), run, None);
    RelaySafety.BeginSafe(bit);
    RelaySafety.RunSafe(o, Begin(bit), run);
    TickExact(o, SessionOf(w.st, role).value, now);
    AdoptedReady(w);
  }

  lemma AdoptedReady(w: World)
    requires RelaySafety.Safe(w)
    ensures w.st.adopted <==> w.st.target.Some? && w.st.target.value.ready
  {
    hide RelaySafety.Handshake; hide RelaySafety.Behind; hide RelaySafety.Bits; hide RelaySafety.LastKey;
  }

  /** A chunk for a connection: when every line that is now complete is a message of at most 65536
      bytes, and so is what is left over in length, the messages are taken in order; otherwise the
      connection is closed and none is. */
  lemma DataExact(o: Options, st: State, role: Role, chunk: Bytes, now: int, lines: seq<Bytes>, rest: Bytes)
    requires SessionOf(st, role).Some? && SessionOf(st, role).value.pending + chunk == Wire(lines, rest)
    requires (forall i :: 0 <= i < |lines| ==> 10 !in lines[i]) && 10 !in rest
    ensures var s := SessionOf(st, role).value;
      if AllMessages(o.codec, 65536, lines) && |rest| <= 65536 then
        exists vs :: ReadsAs(o.codec, lines, vs) &&
          OnData(o, st, role, chunk, now) == OnValues(o, WithSession(st, role, s.(pending := rest)), role, vs, now)
      else OnData(o, st, role, chunk, now) == WithSession(st, role, s.(open := false))
  {
    hide Frames; hide AllMessages; hide ReadsAs; hide OnValues; hide Wire;
    FramesExact(o.codec, 65536, lines, rest);
  }

  /** Messages are taken in order up to the first that ends it. */
  lemma {:induction false} ValuesExact(o: Options, st: State, role: Role, a: seq<Json>, b: seq<Json>, now: int)
    requires SessionOf(st, role).Some?
    ensures OnValues(o, st, role, [], now) == st
    ensures OnValues(o, st, role, a + b, now) ==
      if Left(o, st, role, a, now) then OnValues(o, st, role, a, now) else OnValues(o, OnValues(o, st, role, a, now), role, b, now)
    decreases |a|
  {
    hide OnValue;
    if a == [] {
      assert a + b == b;
    } else {
      assert (a + b)[0] == a[0] && (a + b)[1..] == a[1..] + b;
      var r := OnValue(o, st, role, a[0], now);
      if r.Next? {
        ValuesExact(o, r.st, role, a[1..], b, now);
      }
    }
  }

  /** One of the messages ends the handling of its chunk. */
  predicate Left(o: Options, st: State, role: Role, vs: seq<Json>, now: int)
    requires SessionOf(st, role).Some?
    decreases |vs|
  {
    vs != [] &&
    match OnValue(o, st, role, vs[0], now)
    case Leave(_) => true
    case Next(r) => Left(o, r, role, vs[1..], now)
  }
}
