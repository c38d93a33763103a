/** What the messages on the wire make the relay do, spelled out on the messages themselves: the
    layer the source last showed, what the target is handed, and what the reset waits for. */
module RelayLayer {
  import opened Wrappers
  import opened Framing
  import opened Relay
  import opened RelayWorld
  import opened RelaySafety

  // ------------------------------------------------------------------ message shapes

  /** A message object whose member `key` is there and truthy in JavaScript. */
  predicate Carries(v: Json, key: string) {
    v.Obj? && key in v.members && v.members[key] !in {Null, Bool(false), Num(0.0), Str("")}
  }

  /** `v.outer.inner` is there and is `x`. */
  predicate Holds(v: Json, outer: string, inner: string, x: Json) {
    && v.Obj? && outer in v.members
    && v.members[outer].Obj? && inner in v.members[outer].members
    && v.members[outer].members[inner] == x
  }

  /** No message at all, or a report of an error. */
  predicate Broken(v: Json) {
    !v.Obj? || Carries(v, "Error") || ("status" in v.members && v.members["status"] == Str("Error"))
  }

  /** A change of layer names it; otherwise the answer to a layer query does. */
  ghost predicate Names(v: Json, layer: string) {
    || Holds(v, "LayerChange", "new", Str(layer))
    || (Holds(v, "CurrentLayerName", "name", Str(layer)) && forall x :: Holds(v, "LayerChange", "new", x) ==> x == Null)
  }

  /** An answer to a layer query that names no layer. */
  ghost predicate Nameless(v: Json) {
    Carries(v, "CurrentLayerName") && forall s :: !Holds(v, "CurrentLayerName", "name", Str(s))
  }

  ghost predicate Lists(v: Json, key: string) {
    exists items :: Holds(v, "FakeKeyNames", "names", Arr(items)) && Str(key) in items
  }

  lemma Shapes(v: Json, key: string)
    ensures Has(v, key) <==> Carries(v, key)
    ensures Refused(v) <==> Broken(v)
  {
  }

  lemma LayerIs(v: Json, layer: string)
    ensures LayerName(v) == Some(layer) <==> Names(v, layer)
  {
    var c := Member(Member(Some(v), "LayerChange"), "new");
    assert c.Some? ==> Holds(v, "LayerChange", "new", c.value);
  }

  lemma AnswerIs(v: Json, layer: string)
    ensures AsText(ReplyName(v)) == Some(layer) <==> Holds(v, "CurrentLayerName", "name", Str(layer))
  {
  }

  lemma AnswerNamed(v: Json)
    ensures AsText(ReplyName(v)).Some? <==> exists s :: Holds(v, "CurrentLayerName", "name", Str(s))
  {
    hide ReplyName; hide AsText; hide Holds;
    if AsText(ReplyName(v)).Some? {
      AnswerIs(v, AsText(ReplyName(v)).value);
    } else {
      forall s ensures !Holds(v, "CurrentLayerName", "name", Str(s)) { AnswerIs(v, s); }
    }
  }

  lemma DefinesIs(v: Json, key: string)
    ensures Defines(v, key) <==> Lists(v, key)
  {
    var names := Member(Member(Some(v), "FakeKeyNames"), "names");
    assert Defines(v, key) ==> Holds(v, "FakeKeyNames", "names", Arr(names.value.items));
  }

  // ------------------------------------------------------------- the source's layer

  /** The layer last named when some messages have come in: those from the first that throws on
      are not heard, but one that names a layer is even when it then throws. */
  ghost function Shown(vs: seq<Json>, layer: Option<string>): Option<string>
    decreases |vs|
  {
    if vs == [] || Broken(vs[0]) then layer
    else if exists l :: Names(vs[0], l) then
      var l :| Names(vs[0], l);
      if Nameless(vs[0]) then Some(l) else Shown(vs[1..], Some(l))
    else if Carries(vs[0], "LayerChange") || Carries(vs[0], "CurrentLayerName") then layer
    else Shown(vs[1..], layer)
  }

  /** The source connection that is there, seen from the wire: the unfinished frame and the layer
      it last showed. */
  datatype Line = Line(pending: Bytes, layer: Option<string>)

  ghost function Heard(o: Options, line: Option<Line>, e: Event): Option<Line> {
    match e
    case Opens(Source, _, _) => Some(Line([], None))
    case Closes(Source) => None
    case Arrives(Source, chunk, _) => (
      match line
      case None => None
      case Some(l) =>
        var frames := Frames(o.codec, 65536, l.pending + chunk);
        if frames.Err? then line else Some(Line(frames.value.1, Shown(frames.value.0, l.layer))))
    case _ => line
  }

  ghost function Follow(o: Options, line: Option<Line>, run: seq<Event>): Option<Line>
    decreases |run|
  {
    if run == [] then line else Follow(o, Heard(o, line, run[0]), run[1..])
  }

  /** The source shows the layer that means the key is held. */
  ghost predicate Holding(o: Options, run: seq<Event>) {
    var line := Follow(o, None, run);
    line.Some? && line.value.layer == Some(o.precisionLayer)
  }

  predicate Tracks(o: Options, st: State, layer: Option<string>) {
    && st.source.Some? && (st.source.value.ready <==> layer.Some?)
    && (!st.stopping ==> (st.sourceHeld <==> layer == Some(o.precisionLayer)))
  }

  predicate Matches(o: Options, st: State, line: Option<Line>) {
    && (st.source.Some? <==> line.Some?)
    && (line.Some? ==> Tracks(o, st, line.value.layer) && st.source.value.pending == line.value.pending)
    && (line.None? && !st.stopping ==> !st.sourceHeld)
  }

  /** What `apply` and the poll bookkeeping leave alone on the source's side. */
  predicate SameSource(a: State, b: State) {
    && b.source == a.source && b.sourceHeld == a.sourceHeld && b.stopping == a.stopping
  }

  lemma ApplyKeepsSource(st: State)
    ensures SameSource(st, Apply(st))
  {
  }

  lemma ServeKeeps(o: Options, st: State, role: Role, v: Json, now: int)
    requires SessionOf(st, role).Some?
    ensures var r := Serve(o, st, role, v, now).st;
      && (role.Target? ==> SameSource(st, r))
      && r.sourceHeld == st.sourceHeld && r.stopping == st.stopping
      && SessionOf(r, role).value.ready == SessionOf(st, role).value.ready
      && SessionOf(r, role).value.pending == SessionOf(st, role).value.pending
    ensures Serve(o, st, role, v, now).Leave? <==> SessionOf(st, role).value.ready && Nameless(v)
  {
    hide Has; hide ReplyName; hide AsText; hide Holds; hide Carries;
    Shapes(v, "CurrentLayerName");
    AnswerNamed(v);
  }

  /** One message of the source, in terms of what it names. */
  lemma SourceHears(o: Options, st: State, v: Json, now: int)
    requires st.source.Some?
    ensures var f := OnSourceValue(o, st, v, now);
      && f.st.stopping == st.stopping
      && f.st.source.value.pending == st.source.value.pending
    ensures Broken(v) ==> OnSourceValue(o, st, v, now) == Leave(st.(source := Some(st.source.value.(open := false))))
    ensures forall l :: !Broken(v) && Names(v, l) ==>
      var f := OnSourceValue(o, st, v, now);
      f.st.source.value.ready && f.st.sourceHeld == (l == o.precisionLayer) && (f.Leave? <==> Nameless(v))
    ensures !Broken(v) && (forall l :: !Names(v, l)) ==>
      var f := OnSourceValue(o, st, v, now);
      && f.st.sourceHeld == st.sourceHeld && f.st.source.value.ready == st.source.value.ready
      && (f.Leave? <==> Carries(v, "LayerChange") || Carries(v, "CurrentLayerName"))
  {
    hide Has; hide Holds; hide Carries; hide Refused; hide Broken; hide LayerName; hide Names; hide Serve; hide Apply; hide Nameless;
    Shapes(v, "LayerChange");
    Shapes(v, "CurrentLayerName");
    var name := LayerName(v);
    forall l ensures name == Some(l) <==> Names(v, l) { LayerIs(v, l); }
    if name.Some? {
      var next := st.(source := Some(st.source.value.(ready := true)), sourceHeld := name.value == o.precisionLayer);
      ApplyKeepsSource(next);
      ServeKeeps(o, Apply(next), Source, v, now);
    } else {
      assert name == None;
      ServeKeeps(o, st, Source, v, now);
      NamelessCarries(v);
    }
  }

  lemma NamelessCarries(v: Json)
    ensures Nameless(v) ==> Carries(v, "CurrentLayerName")
  {
  }

  lemma {:induction false} SourceShows(o: Options, st: State, vs: seq<Json>, now: int, layer: Option<string>)
    requires Tracks(o, st, layer)
    ensures var r := OnValues(o, st, Source, vs, now);
      Tracks(o, r, Shown(vs, layer)) && r.stopping == st.stopping && r.source.value.pending == st.source.value.pending
    decreases |vs|
  {
    hide OnSourceValue; hide Broken; hide Names; hide Nameless; hide Carries;
    if vs != [] {
      SourceHears(o, st, vs[0], now);
      var f := OnSourceValue(o, st, vs[0], now);
      if f.Next? {
        if l :| Names(vs[0], l) {
          NameUnique(vs[0]);
          SourceShows(o, f.st, vs[1..], now, Some(l));
        } else {
          SourceShows(o, f.st, vs[1..], now, layer);
        }
      } else {
        NameUnique(vs[0]);
      }
    }
  }

  lemma NameUnique(v: Json)
    ensures forall a, b :: Names(v, a) && Names(v, b) ==> a == b
  {
    hide LayerName; hide Names;
    forall a, b | Names(v, a) && Names(v, b) ensures a == b {
      LayerIs(v, a);
      LayerIs(v, b);
    }
  }

  // -------------------------------------------------------------- every other event

  lemma TargetValueKeeps(o: Options, st: State, v: Json, now: int)
    requires st.target.Some?
    ensures SameSource(st, OnTargetValue(o, st, v, now).st)
  {
    hide Refused; hide Has; hide Defines; hide IsReply; hide AsText; hide ReplyName; hide Serve; hide Adopt; hide Release;
    hide SameSource;
    var f := OnTargetValue(o, st, v, now);
    ServedKeeps(o, st, v, now);
    AdoptKeeps(st);
    ServedKeeps(o, Adopt(st), v, now);
    SourceStays(st, Adopt(st), Serve(o, Adopt(st), Target, v, now).st);
    SourceStays(st, st.(target := f.st.target), st.(target := f.st.target));
  }

  lemma ServedKeeps(o: Options, st: State, v: Json, now: int)
    requires st.target.Some?
    ensures SameSource(st, Serve(o, st, Target, v, now).st)
  {
    hide Serve; hide Nameless;
    ServeKeeps(o, st, Target, v, now);
  }

  lemma SourceStays(a: State, b: State, c: State)
    ensures SameSource(a, b) && SameSource(b, c) ==> SameSource(a, c)
    ensures a == b.(target := a.target) ==> SameSource(a, b)
  {
  }

  lemma AdoptKeeps(st: State)
    requires st.target.Some?
    ensures SameSource(st, Adopt(st)) && SameSource(st, Release(st).st)
  {
    hide Apply; hide Write;
    ApplyKeepsSource(st.(target := Some(st.target.value.(resetting := false, ready := true)), adopted := true, sentHeld := false));
  }

  lemma {:induction false} TargetValuesKeep(o: Options, st: State, vs: seq<Json>, now: int)
    requires st.target.Some?
    ensures SameSource(st, OnValues(o, st, Target, vs, now))
    decreases |vs|
  {
    hide OnTargetValue;
    if vs != [] {
      TargetValueKeeps(o, st, vs[0], now);
      var f := OnTargetValue(o, st, vs[0], now);
      if f.Next? {
        TargetValuesKeep(o, f.st, vs[1..], now);
      }
    }
  }

  lemma TargetArrivesKeeps(o: Options, w: World, chunk: Bytes, now: int)
    requires w.st.target.Some?
    ensures SameSource(w.st, TargetArrives(o, w, chunk, now).st)
  {
    hide Frames; hide OnValues; hide TargetArrives;
    TargetDataIsHandled(o, w, chunk, now);
    var f := Frames(o.codec, LIMIT, w.st.target.value.pending + chunk);
    if f.Ok? {
      TargetValuesKeep(o, w.st.(target := Some(w.st.target.value.(pending := f.value.1))), f.value.0, now);
    }
  }

  predicate Idle(a: Option<Session>, b: Option<Session>) {
    (a.Some? <==> b.Some?) && (a.Some? ==> a.value.ready == b.value.ready && a.value.pending == b.value.pending)
  }

  lemma IdleMatches(o: Options, a: State, b: State, line: Option<Line>)
    requires Matches(o, a, line) && Idles(a, b)
    ensures Matches(o, b, line)
  {
  }

  lemma PolledIdle(o: Options, s: Session, now: int)
    ensures Idle(Some(s), Some(Polled(o, s, now)))
  {
  }

  lemma ConnectIdle(st: State, role: Role)
    requires SessionOf(st, role).Some?
    ensures var r := OnConnect(st, role);
      Idle(st.source, r.source) && r.sourceHeld == st.sourceHeld && r.stopping == st.stopping
  {
  }

  lemma SourceArrivesMatches(o: Options, st: State, chunk: Bytes, now: int, line: Option<Line>)
    requires Matches(o, st, line) && st.source.Some?
    ensures Matches(o, OnData(o, st, Source, chunk, now), Heard(o, line, Arrives(Source, chunk, now)))
    ensures OnData(o, st, Source, chunk, now).stopping == st.stopping
  {
    hide Frames; hide OnValues; hide Shown;
    var s := st.source.value;
    var f := Frames(o.codec, LIMIT, s.pending + chunk);
    if f.Ok? {
      SourceShows(o, st.(source := Some(s.(pending := f.value.1))), f.value.0, now, line.value.layer);
    }
  }

  lemma CloseMatches(o: Options, st: State)
    ensures Matches(o, OnClose(st, Source), None) && OnClose(st, Source).stopping == st.stopping
    ensures SameSource(st, OnClose(st, Target))
  {
    hide Apply;
    ApplyKeepsSource(st.(source := None, sourceHeld := false));
  }

  lemma StopMatches(o: Options, st: State, line: Option<Line>)
    requires Matches(o, st, line)
    ensures Matches(o, Stop(st), line) && Stop(st).stopping
  {
    hide Apply;
    ApplyKeepsSource(st.(stopping := true, sourceHeld := false));
  }

  lemma StepMatches(o: Options, w: World, e: Event, line: Option<Line>)
    requires Enabled(o, w, e) && Matches(o, w.st, line)
    ensures Matches(o, Step(o, w, e).st, Heard(o, line, e))
    ensures Step(o, w, e).st.stopping <==> w.st.stopping || e.StopCalled?
  {
    hide Matches; hide TargetArrives; hide OnData; hide OnClose; hide Stop; hide Frames; hide Shown; hide Answered; hide InFlight;
    if Apart(e) {
      StepIdles(o, w, e);
      IdleMatches(o, w.st, Step(o, w, e).st, line);
      hide Step; hide Enabled;
    } else {
      match e
      case Arrives(Source, chunk, now) => SourceArrivesMatches(o, w.st, chunk, now, line);
      case Closes(Source) => CloseMatches(o, w.st);
      case StopCalled => StopMatches(o, w.st, line);
      case Opens(Source, now, room) => OpensMatches(o, w.st, now, room, line);
    }
  }

  /** Neither of the source connection's coming and going nor `stop`. */
  predicate Apart(e: Event) {
    !e.StopCalled? && ((e.Arrives? || e.Closes? || e.Opens?) ==> e.role.Target?)
  }

  predicate Idles(a: State, b: State) {
    Idle(a.source, b.source) && a.sourceHeld == b.sourceHeld && a.stopping == b.stopping
  }

  /** What happens to the peer and to the reset connection. */
  predicate Elsewhere(e: Event) {
    || e.PeerRuns? || e.PeerRunsLate? || e.LosesRest? || e.LosesResidue?
    || e.ResetConnects? || e.ResetArrives? || e.ResetAsks? || e.ResetFails? || e.ResetRuns?
  }

  lemma PeerIdles(o: Options, w: World, e: Event)
    requires Enabled(o, w, e) && Elsewhere(e)
    ensures Step(o, w, e).st == w.st
  {
    hide OnResetData; hide RunOne; hide Rest; hide LossMatters; hide Finish; hide ResetSends; hide InFlight; hide Frames;
  }

  lemma SocketIdles(o: Options, w: World, e: Event)
    requires Enabled(o, w, e) && (e.Connects? || e.Ticks?)
    ensures Idles(w.st, Step(o, w, e).st)
  {
    hide OnConnect; hide Polled;
    if e.Connects? {
      ConnectIdle(w.st, e.role);
    } else {
      PolledIdle(o, SessionOf(w.st, e.role).value, e.now);
    }
  }

  lemma LineIdles(o: Options, w: World, e: Event)
    requires Enabled(o, w, e) && (e.Drains? || e.Dies? || e.DestroysAll?)
    ensures Idles(w.st, Step(o, w, e).st)
  {
  }

  lemma TargetIdles(o: Options, w: World, e: Event)
    requires Enabled(o, w, e) && (e.Arrives? || e.Closes? || e.Opens?) && e.role.Target?
    ensures Idles(w.st, Step(o, w, e).st)
  {
    hide TargetArrives; hide OnClose;
    if e.Arrives? {
      TargetArrivesKeeps(o, w, e.chunk, e.now);
    } else if e.Closes? {
      CloseMatches(o, w.st);
    }
  }

  lemma StepIdles(o: Options, w: World, e: Event)
    requires Enabled(o, w, e) && Apart(e)
    ensures Idles(w.st, Step(o, w, e).st)
  {
    hide Enabled; hide Step;
    if Elsewhere(e) {
      PeerIdles(o, w, e);
    } else if e.Arrives? || e.Closes? || e.Opens? {
      TargetIdles(o, w, e);
    } else if e.Connects? || e.Ticks? {
      SocketIdles(o, w, e);
    } else {
      LineIdles(o, w, e);
    }
  }

  lemma OpensMatches(o: Options, st: State, now: int, room: nat, line: Option<Line>)
    requires Matches(o, st, line) && st.source.None?
    ensures Matches(o, Connect(o, st, Source, now, room), Some(Line([], None)))
  {
  }

  lemma {:induction false} RunMatches(o: Options, w: World, run: seq<Event>, line: Option<Line>)
    requires Valid(o, w, run) && Matches(o, w.st, line)
    ensures Matches(o, After(o, w, run).st, Follow(o, line, run))
    ensures After(o, w, run).st.stopping <==> w.st.stopping || StopCalled in run
    decreases |run|
  {
    hide Matches; hide Heard; hide Step; hide Enabled;
    if run != [] {
      StepMatches(o, w, run[0], line);
      RunMatches(o, Step(o, w, run[0]), run[1..], Heard(o, line, run[0]));
      assert run == [run[0]] + run[1..];
    }
  }

  /** In every run with a usable target, the key the peer holds once everything in flight is run
      is held exactly when the source connection that is there last showed the precision layer
      and `stop` was not called. */
  lemma KeyFollowsLayer(o: Options, bit: bool, run: seq<Event>)
    requires Valid(o, Begin(bit), run)
    ensures var w := After(o, Begin(bit), run);
      w.st.adopted && w.st.target.Some? && w.st.target.value.open ==>
        (RunKeys(w.bit, InFlight(w)) <==> Holding(o, run) && StopCalled !in run)
  {
    hide Valid; hide After; hide RunKeys; hide InFlight; hide Follow;
    HeldAgrees(o, bit, run);
    RunMatches(o, Begin(bit), run, None);
  }
}
