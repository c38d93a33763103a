/** Safety of the relay over every run: what the target's key bit will be, how commands
    alternate, what precedes the first press, and what a finished stop guarantees. */
module RelaySafety {
  import opened Wrappers
  import opened Framing
  import opened Relay
  import opened RelayWorld

  // ------------------------------------------------------------------ command lists

  lemma {:induction false} KeysAppend(a: seq<Cmd>, b: seq<Cmd>)
    ensures Keys(a + b) == Keys(a) + Keys(b)
    ensures Layers(a + b) == Layers(a) + Layers(b)
    decreases |b|
  {
    if b == [] {
      assert a + b == a;
    } else {
      assert (a + b)[..|a + b| - 1] == a + b[..|b| - 1];
      KeysAppend(a, b[..|b| - 1]);
    }
  }

  lemma KeysOne(c: Cmd)
    ensures Keys([c]) == if c.Key? then [c.held] else []
  {
    assert [c][..0] == [];
  }

  function LastKey(cmds: seq<Cmd>): bool {
    Keys(cmds) != [] && Keys(cmds)[|Keys(cmds)| - 1]
  }

  /** Running commands leaves the bit at the last key action, if there is one. */
  lemma {:induction false} RunIsLast(bit: bool, cmds: seq<Cmd>)
    ensures RunKeys(bit, cmds) == if Keys(cmds) == [] then bit else LastKey(cmds)
    decreases |cmds|
  {
    if cmds != [] {
      assert cmds == [cmds[0]] + cmds[1..];
      KeysAppend([cmds[0]], cmds[1..]);
      KeysOne(cmds[0]);
      RunIsLast(RunOne(bit, cmds[0]), cmds[1..]);
    }
  }

  /** Release first, then press and release in turn. */
  predicate Alternates(ks: seq<bool>) {
    forall i :: 0 <= i < |ks| ==> ks[i] == (i % 2 == 1)
  }

  /** Every layer query follows a key action. */
  predicate QueriesBehind(cmds: seq<Cmd>) {
    forall i :: 0 <= i < |cmds| && cmds[i].QueryLayer? ==> Keys(cmds[..i]) != []
  }

  predicate History(cmds: seq<Cmd>) {
    Alternates(Keys(cmds)) && QueriesBehind(cmds)
  }

  lemma KeysAdd(cmds: seq<Cmd>, c: Cmd)
    ensures Keys(cmds + [c]) == if c.Key? then Keys(cmds) + [c.held] else Keys(cmds)
  {
    KeysAppend(cmds, [c]);
    KeysOne(c);
  }

  lemma QueriesAdd(cmds: seq<Cmd>, c: Cmd)
    requires QueriesBehind(cmds) && (c.QueryLayer? ==> Keys(cmds) != [])
    ensures QueriesBehind(cmds + [c])
  {
    hide Keys;
    var all := cmds + [c];
    forall i | 0 <= i < |all| && all[i].QueryLayer? ensures Keys(all[..i]) != [] {
      assert all[..i] == cmds[..i];
      assert cmds[..|cmds|] == cmds;
    }
  }

  lemma HistoryAdd(cmds: seq<Cmd>, c: Cmd)
    requires History(cmds)
    requires c.Key? ==> c.held == (Keys(cmds) != [] && !LastKey(cmds))
    requires c.QueryLayer? ==> Keys(cmds) != []
    ensures History(cmds + [c])
    ensures Keys(cmds + [c]) == if c.Key? then Keys(cmds) + [c.held] else Keys(cmds)
  {
    hide Keys; hide QueriesBehind;
    KeysAdd(cmds, c);
    QueriesAdd(cmds, c);
  }

  // ---------------------------------------------------------- one target connection

  predicate Handshake(t: Session) {
    && !(t.ready && t.resetting)
    && (t.ready || t.resetting ==> Keys(t.sent) != [])
    && (!t.ready ==> |Keys(t.sent)| <= 1)
    && (t.open && !t.ready && !t.resetting ==> Keys(t.sent) == [])
    && History(t.sent)
  }

  /** The press-free part: the query whose reply adopted the connection was run by the peer and
      precedes every press. */
  predicate Behind(t: Session, done: nat, barrier: Option<nat>) {
    && done <= |t.sent|
    && (t.ready <==> barrier.Some?)
    && (barrier.Some? ==> BarrierAt(t.sent, done, barrier.value))
  }

  predicate BarrierAt(sent: seq<Cmd>, done: nat, q: nat) {
    q < done <= |sent| && sent[q].QueryLayer? && forall i :: 0 <= i < |sent| && sent[i] == Key(true) ==> q < i
  }

  predicate Good(st: State, done: nat, barrier: Option<nat>) {
    && (st.adopted <==> st.target.Some? && st.target.value.ready)
    && (st.target.Some? ==> Handshake(st.target.value) && Behind(st.target.value, done, barrier))
    && (st.target.Some? && st.target.value.open && st.target.value.ready ==> st.sentHeld == LastKey(st.target.value.sent))
  }

  /** What holds after every handler: a usable target was told what it should hold. */
  predicate Settled(st: State) {
    st.target.Some? && st.target.value.open && st.target.value.ready ==> st.sentHeld == Wanted(st)
  }

  /** Nothing but a tail was added to what the target was sent, without a press once stopping. */
  predicate Extends(a: State, b: State) {
    && (a.target.Some? <==> b.target.Some?)
    && (a.target.Some? ==> Grew(a.target.value, b.target.value, a.stopping))
    && (a.stopping ==> b.stopping)
  }

  predicate Grew(t: Session, r: Session, stopping: bool) {
    && t.sent <= r.sent
    && (!t.open ==> !r.open && r.sent == t.sent)
    && (stopping ==> Key(true) !in r.sent[|t.sent|..])
  }

  lemma ExtendsTrans(a: State, b: State, c: State)
    requires Extends(a, b) && Extends(b, c)
    ensures Extends(a, c)
  {
    if a.target.Some? {
      var x, y, z := a.target.value.sent, b.target.value.sent, c.target.value.sent;
      assert z[|x|..] == y[|x|..] + z[|y|..];
    }
  }

  lemma WriteSends(t: Session, c: Cmd)
    ensures Write(t, c).0.sent == if t.open then t.sent + [c] else t.sent
    ensures !t.open ==> !Write(t, c).0.open
    ensures var r := Write(t, c).0; r.ready == t.ready && r.resetting == t.resetting
    ensures Write(t, c).1 ==> t.open && Write(t, c).0.open
    ensures t.open && !Write(t, c).1 ==> !Write(t, c).0.open
  {
  }

  lemma BehindAdd(t: Session, r: Session, c: Cmd, done: nat, barrier: Option<nat>)
    requires Behind(t, done, barrier) && r.ready == t.ready && (r.sent == t.sent || r.sent == t.sent + [c])
    requires c == Key(true) ==> t.ready
    ensures Behind(r, done, barrier)
  {
  }

  /** `apply` settles the state and keeps the connection in good order. */
  lemma ApplySettles(st: State, done: nat, barrier: Option<nat>)
    requires Good(st, done, barrier)
    ensures Good(Apply(st), done, barrier) && Settled(Apply(st)) && Extends(st, Apply(st))
  {
    hide Keys; hide History; hide Behind;
    if st.adopted && Wanted(st) != st.sentHeld {
      var t := st.target.value;
      var c := Key(Wanted(st));
      WriteSends(t, c);
      var r := Write(t, c).0;
      BehindAdd(t, r, c, done, barrier);
      if t.open {
        HistoryAdd(t.sent, c);
        assert (t.sent + [c])[|t.sent|..] == [c];
      }
      hide Write;
      assert LastKey(t.sent + [c]) == Wanted(st) || !t.open;
    }
  }

  // ------------------------------------------------------------------- the handlers

  predicate Fine(st: State, done: nat, barrier: Option<nat>) {
    Good(st, done, barrier) && Settled(st)
  }

  /** Any change of the target connection that sends nothing and keeps its phase. */
  predicate SamePhase(t: Session, r: Session) {
    r.sent == t.sent && r.ready == t.ready && r.resetting == t.resetting && (r.open ==> t.open)
  }

  lemma TouchTarget(st: State, r: Session, done: nat, barrier: Option<nat>)
    requires Fine(st, done, barrier) && st.target.Some? && SamePhase(st.target.value, r)
    ensures Fine(st.(target := Some(r)), done, barrier) && Extends(st, st.(target := Some(r)))
  {
    hide History; hide Keys; hide LastKey;
    assert r.sent[|st.target.value.sent|..] == [];
  }

  lemma TouchSource(st: State, s: Option<Session>, done: nat, barrier: Option<nat>)
    requires Fine(st, done, barrier)
    ensures Fine(st.(source := s), done, barrier) && Extends(st, st.(source := s))
  {
    hide Handshake; hide Behind; hide LastKey;
    SameExtends(st, st.(source := s));
  }

  lemma SameExtends(a: State, b: State)
    requires a.target == b.target && (a.stopping ==> b.stopping)
    ensures Extends(a, b)
  {
    assert a.target.Some? ==> a.target.value.sent[|a.target.value.sent|..] == [];
  }

  /** A query is sent once the release is out, the names query before it. */
  lemma AskTarget(st: State, c: Cmd, done: nat, barrier: Option<nat>)
    requires Fine(st, done, barrier) && st.target.Some?
    requires c.QueryNames? || (c.QueryLayer? && (st.target.value.ready || st.target.value.resetting))
    ensures var st2 := st.(target := Some(Write(st.target.value, c).0)); Fine(st2, done, barrier) && Extends(st, st2)
  {
    hide Keys;
    var t := st.target.value;
    var r := Write(t, c).0;
    WriteSends(t, c);
    BehindAdd(t, r, c, done, barrier);
    HistoryAdd(t.sent, c);
    hide Write; hide History; hide Behind;
    assert (t.sent + [c])[|t.sent|..] == [c];
    assert t.sent[|t.sent|..] == [];
  }

  lemma ServeFine(o: Options, st: State, v: Json, now: int, done: nat, barrier: Option<nat>)
    requires Fine(st, done, barrier) && st.target.Some?
    ensures Fine(Serve(o, st, Target, v, now).st, done, barrier) && Extends(st, Serve(o, st, Target, v, now).st)
    ensures Serve(o, st, Target, v, now).st.target.value.ready == st.target.value.ready
  {
    hide Fine; hide IsReply; hide Has; hide ReplyName; hide AsText;
    var f := Serve(o, st, Target, v, now);
    TouchTarget(st, f.st.target.value, done, barrier);
  }

  lemma ServeSource(o: Options, st: State, v: Json, now: int, done: nat, barrier: Option<nat>)
    requires Fine(st, done, barrier) && st.source.Some?
    ensures Fine(Serve(o, st, Source, v, now).st, done, barrier) && Extends(st, Serve(o, st, Source, v, now).st)
  {
    hide Fine; hide IsReply; hide Has; hide ReplyName; hide AsText; hide Extends;
    var f := Serve(o, st, Source, v, now);
    TouchSource(st, f.st.source, done, barrier);
    SameExtends(st, st);
  }

  lemma GoodSource(st: State, s: Option<Session>, held: bool, done: nat, barrier: Option<nat>)
    requires Good(st, done, barrier)
    ensures Good(st.(source := s, sourceHeld := held), done, barrier)
    ensures Extends(st, st.(source := s, sourceHeld := held))
  {
    hide Handshake; hide Behind; hide LastKey;
    SameExtends(st, st.(source := s, sourceHeld := held));
  }

  lemma SourceValueFine(o: Options, st: State, v: Json, now: int, done: nat, barrier: Option<nat>)
    requires Fine(st, done, barrier) && st.source.Some?
    ensures Fine(OnSourceValue(o, st, v, now).st, done, barrier) && Extends(st, OnSourceValue(o, st, v, now).st)
  {
    hide Settled; hide Good; hide Extends; hide Refused; hide LayerName; hide Has; hide Apply; hide Serve; hide IsReply;
    if Refused(v) || (LayerName(v).None? && (Has(v, "LayerChange") || IsReply(v))) {
      TouchSource(st, Some(st.source.value.(open := false)), done, barrier);
    } else if LayerName(v).Some? {
      var s, held := Some(st.source.value.(ready := true)), LayerName(v).value == o.precisionLayer;
      var a := st.(source := s, sourceHeld := held);
      GoodSource(st, s, held, done, barrier);
      ApplySettles(a, done, barrier);
      ServeSource(o, Apply(a), v, now, done, barrier);
      ExtendsTrans(st, a, Apply(a));
      ExtendsTrans(st, Apply(a), Serve(o, Apply(a), Source, v, now).st);
    } else {
      ServeSource(o, st, v, now, done, barrier);
    }
  }

  lemma {:induction false} SourceValuesFine(o: Options, st: State, vs: seq<Json>, now: int, done: nat, barrier: Option<nat>)
    requires Fine(st, done, barrier) && st.source.Some?
    ensures Fine(OnValues(o, st, Source, vs, now), done, barrier) && Extends(st, OnValues(o, st, Source, vs, now))
    decreases |vs|
  {
    hide Fine; hide Extends; hide OnSourceValue;
    if vs == [] {
      SameExtends(st, st);
    } else {
      var f := OnSourceValue(o, st, vs[0], now);
      SourceValueFine(o, st, vs[0], now, done, barrier);
      if f.Next? {
        SourceValuesFine(o, f.st, vs[1..], now, done, barrier);
        ExtendsTrans(st, f.st, OnValues(o, f.st, Source, vs[1..], now));
      }
    }
  }

  /** The release at the start of the handshake. */
  lemma ReleaseFine(st: State, done: nat, barrier: Option<nat>)
    requires Fine(st, done, barrier) && st.target.Some? && st.target.value.open
    requires !st.target.value.ready && !st.target.value.resetting
    ensures Fine(Release(st).st, done, barrier) && Extends(st, Release(st).st) && !Release(st).st.target.value.ready
  {
    hide Keys; hide QueriesBehind; hide Extends;
    var t := st.target.value;
    var c := Key(false);
    HistoryAdd(t.sent, c);
    WriteSends(t, c);
    var w := Write(t, c);
    BehindAdd(t, w.0, c, done, barrier);
    ReleaseGrows(st, w.0);
    if w.1 {
      var r := w.0.(resetting := true, awaiting := true);
      var mid := st.(target := Some(r));
      ReleaseGrows(st, r);
      assert Fine(mid, done, barrier);
      AskTarget(mid, QueryLayer, done, barrier);
      WriteSends(r, QueryLayer);
      ExtendsTrans(st, mid, Release(st).st);
    }
  }

  lemma ReleaseGrows(st: State, r: Session)
    requires st.target.Some? && st.target.value.open && r.sent == st.target.value.sent + [Key(false)]
    ensures Extends(st, st.(target := Some(r)))
  {
    assert r.sent[|st.target.value.sent|..] == [Key(false)];
  }

  /** Adoption after the reply to a query the peer has run. */
  lemma AdoptFine(st: State, done: nat, q: nat)
    requires Fine(st, done, None) && st.target.Some? && st.target.value.resetting
    requires q < done && st.target.value.sent[q].QueryLayer?
    ensures Fine(Adopt(st), done, Some(q)) && Extends(st, Adopt(st)) && Adopt(st).target.value.ready
  {
    var t := st.target.value;
    NoPressYet(t.sent);
    var r := t.(resetting := false, ready := true);
    var a := st.(target := Some(r), adopted := true, sentHeld := false);
    hide Keys; hide History; hide Apply;
    assert Good(a, done, Some(q));
    assert Extends(st, a) by {
      assert t.sent[|t.sent|..] == [];
    }
    hide Good; hide Extends;
    ApplySettles(a, done, Some(q));
    ExtendsTrans(st, a, Apply(a));
  }

  lemma {:induction false} KeyShows(cmds: seq<Cmd>, i: nat)
    requires i < |cmds| && cmds[i].Key?
    ensures cmds[i].held in Keys(cmds)
    decreases |cmds|
  {
    if i < |cmds| - 1 {
      KeyShows(cmds[..|cmds| - 1], i);
    }
  }

  lemma NoPressYet(cmds: seq<Cmd>)
    requires |Keys(cmds)| <= 1 && Alternates(Keys(cmds))
    ensures forall i :: 0 <= i < |cmds| ==> cmds[i] != Key(true)
  {
    hide Keys;
    forall i | 0 <= i < |cmds| ensures cmds[i] != Key(true) {
      if cmds[i].Key? {
        KeyShows(cmds, i);
      }
    }
  }

  // ------------------------------------------------------------------ target chunks

  lemma {:induction false} NthPrefix(a: seq<Cmd>, b: seq<Cmd>, n: nat)
    requires n < Layers(a)
    ensures n < Layers(a + b) && NthQuery(a + b, n) == NthQuery(a, n)
    decreases |b|
  {
    if b == [] {
      assert a + b == a;
    } else {
      assert (a + b)[..|a + b| - 1] == a + b[..|b| - 1];
      NthPrefix(a, b[..|b| - 1], n);
    }
  }

  /** The query a layer reply answers was run by the peer. */
  lemma AnsweredQuery(sent: seq<Cmd>, done: nat, heard: nat)
    requires done <= |sent| && heard < Layers(sent[..done])
    ensures heard < Layers(sent) && NthQuery(sent, heard) < done && sent[NthQuery(sent, heard)].QueryLayer?
  {
    assert sent == sent[..done] + sent[done..];
    NthPrefix(sent[..done], sent[done..], heard);
  }

  predicate ReplyDue(w: World, v: Json) {
    w.st.target.Some? && w.done <= |w.st.target.value.sent|
    && (IsReply(v) ==> w.heard < Layers(w.st.target.value.sent[..w.done]))
  }

  lemma DeadRelease(st: State)
    requires st.target.Some? && !st.target.value.open
    ensures Release(st) == Leave(st)
  {
  }

  lemma HearsReply(o: Options, w: World, v: Json, now: int)
    requires Fine(w.st, w.done, w.barrier) && ReplyDue(w, v)
    requires w.st.target.value.resetting && IsReply(v) && AsText(ReplyName(v)) == Some(o.fallbackLayer) && !Refused(v)
    ensures var h := Hear(o, w, v, now).0; Fine(h.st, w.done, h.barrier) && Extends(w.st, h.st)
  {
    hide Refused; hide IsReply; hide Has; hide ReplyName; hide AsText; hide Serve; hide Defines; hide Adopt; hide Layers; hide NthQuery;
    hide Settled; hide Extends; hide Handshake;
    AnsweredQuery(w.st.target.value.sent, w.done, w.heard);
    var q := NthQuery(w.st.target.value.sent, w.heard);
    ResettingUnready(w.st, w.done, w.barrier);
    AdoptFine(w.st, w.done, q);
    ServeFine(o, Adopt(w.st), v, now, w.done, Some(q));
    ExtendsTrans(w.st, Adopt(w.st), Serve(o, Adopt(w.st), Target, v, now).st);
  }

  lemma ResettingUnready(st: State, done: nat, barrier: Option<nat>)
    requires Good(st, done, barrier) && st.target.Some? && st.target.value.resetting
    ensures !st.target.value.ready && barrier == None
  {
    hide History; hide Keys; hide LastKey;
  }

  lemma HearsOther(o: Options, w: World, v: Json, now: int)
    requires Fine(w.st, w.done, w.barrier) && w.st.target.Some?
    requires Refused(v) || !w.st.target.value.resetting || !IsReply(v) || AsText(ReplyName(v)) != Some(o.fallbackLayer)
    ensures var f := OnTargetValue(o, w.st, v, now).st;
      Fine(f, w.done, w.barrier) && Extends(w.st, f) && f.target.value.ready == w.st.target.value.ready
  {
    hide Refused; hide IsReply; hide Has; hide ReplyName; hide AsText; hide Serve; hide Defines; hide Release; hide Fine; hide Extends;
    var st := w.st;
    var t := st.target.value;
    var f := OnTargetValue(o, st, v, now).st;
    if !Refused(v) && !t.ready && !t.resetting && Has(v, "FakeKeyNames") && Defines(v, o.virtualKey) {
      if t.open {
        ReleaseFine(st, w.done, w.barrier);
      } else {
        DeadRelease(st);
        TouchTarget(st, t, w.done, w.barrier);
      }
    } else if SamePhase(t, f.target.value) && f == st.(target := f.target) {
      TouchTarget(st, f.target.value, w.done, w.barrier);
    } else {
      ServeFine(o, st, v, now, w.done, w.barrier);
    }
  }

  lemma HearFine(o: Options, w: World, v: Json, now: int)
    requires Fine(w.st, w.done, w.barrier) && ReplyDue(w, v)
    ensures var h := Hear(o, w, v, now).0;
      Fine(h.st, w.done, h.barrier) && Extends(w.st, h.st) && h == w.(st := h.st, heard := w.heard + ReplyCount(v), barrier := h.barrier)
  {
    hide Refused; hide ReplyName; hide AsText; hide OnTargetValue; hide Fine; hide Extends; hide Layers; hide NthQuery; hide IsReply;
    if w.st.target.value.resetting && IsReply(v) && AsText(ReplyName(v)) == Some(o.fallbackLayer) && !Refused(v) {
      HearsReply(o, w, v, now);
    } else {
      HearsOther(o, w, v, now);
    }
  }

  lemma SentStays(a: State, b: State, done: nat)
    requires Extends(a, b) && a.target.Some? && done <= |a.target.value.sent|
    ensures b.target.Some? && done <= |b.target.value.sent| && b.target.value.sent[..done] == a.target.value.sent[..done]
  {
  }

  lemma {:induction false} HearAllFine(o: Options, w: World, vs: seq<Json>, now: int)
    requires Fine(w.st, w.done, w.barrier) && w.st.target.Some? && Answered(w, w.st.target.value, vs)
    ensures var h := HearAll(o, w, vs, now);
      Fine(h.st, w.done, h.barrier) && Extends(w.st, h.st) && h == w.(st := h.st, heard := h.heard, barrier := h.barrier)
      && h.heard <= w.heard + Replies(vs)
    decreases |vs|
  {
    hide Fine; hide Extends; hide Hear; hide IsReply; hide Layers;
    if vs == [] {
      SameExtends(w.st, w.st);
    } else {
      HearFine(o, w, vs[0], now);
      var h := Hear(o, w, vs[0], now);
      SentStays(w.st, h.0.st, w.done);
      if h.1 {
        HearAllFine(o, h.0, vs[1..], now);
        ExtendsTrans(w.st, h.0.st, HearAll(o, h.0, vs[1..], now).st);
      }
    }
  }

  // --------------------------------------------------------------- the key bit

  predicate Released(w: World) {
    w.reset.Some? && w.reset.value.done <= |w.reset.value.sent| && Keys(w.reset.value.sent[..w.reset.value.done]) != []
  }

  /** The connection of `resetTarget`. */
  predicate ResetFine(r: Reset) {
    && r.done <= |r.sent| && r.heard <= Layers(r.sent[..r.done])
    && Key(true) !in r.sent
    && QueriesBehind(r.sent)
    && (!r.barrier ==> Keys(r.sent) == [])
    && (r.barrier ==> Keys(r.sent) != [])
    && (r.open <==> r.outcome.None?)
    && (r.asking ==> r.barrier)
    && (r.outcome == Some(true) ==> Keys(r.sent[..r.done]) != [])
  }

  predicate Bits(w: World) {
    && (w.st.target.None? ==> w.done == 0 && w.barrier.None? && w.heard == 0 && !w.cut)
    && (w.st.target.Some? ==> w.done <= |w.st.target.value.sent| && w.heard <= Layers(w.st.target.value.sent[..w.done]))
    && (w.cut ==> w.st.target.Some? && !w.st.target.value.open)
    && (w.done > 0 ==> w.residue == [])
    && (w.reset.Some? ==> w.st.stopping && ResetFine(w.reset.value))
    && (w.st.target.Some? && Keys(w.st.target.value.sent[..w.done]) != [] ==>
          w.bit == LastKey(w.st.target.value.sent[..w.done]) || (Released(w) && !w.bit))
    && (w.reset.Some? && w.reset.value.done > 0 && !w.dropped ==> !RunKeys(false, InFlight(w)))
    && (Released(w) && !w.dropped ==> !RunKeys(w.bit, InFlight(w)))
  }

  /** The invariant of every run. */
  predicate Safe(w: World) {
    Fine(w.st, w.done, w.barrier) && Bits(w)
  }

  lemma LastOf(a: seq<Cmd>, b: seq<Cmd>)
    ensures LastKey(a + b) == if Keys(b) == [] then LastKey(a) else LastKey(b)
  {
    KeysAppend(a, b);
    hide Keys;
    assert Keys(b) == [] ==> Keys(a) + [] == Keys(a);
  }

  lemma InFlightIs(w: World)
    requires Bits(w) && w.st.target.Some? && w.st.target.value.open && w.done > 0
    ensures InFlight(w) == w.st.target.value.sent[w.done..]
    ensures w.st.target.value.sent == w.st.target.value.sent[..w.done] + w.st.target.value.sent[w.done..]
  {
    hide Keys; hide RunKeys; hide ResetFine; hide Layers;
    assert w.residue + Rest(w) == Rest(w);
  }

  /** With a usable target, the peer's bit after everything in flight is what the relay believes
      it to be, and that is what it wants. */
  lemma HeldIsTrue(w: World)
    requires Safe(w) && w.st.adopted && w.st.target.value.open
    ensures RunKeys(w.bit, InFlight(w)) == w.st.sentHeld == (w.st.sourceHeld && !w.st.stopping)
  {
    hide Keys; hide RunKeys; hide History; hide InFlight; hide ResetFine; hide LastKey; hide Layers;
    var t := w.st.target.value;
    var a, b := t.sent[..w.done], t.sent[w.done..];
    BarrierKeys(t, w.done, w.barrier.value);
    InFlightIs(w);
    RunIsLast(w.bit, b);
    LastOf(a, b);
    if w.st.stopping {
      QuietTarget(w.st, w.done, w.barrier);
    }
  }

  lemma BarrierKeys(t: Session, done: nat, q: nat)
    requires History(t.sent) && BarrierAt(t.sent, done, q)
    ensures Keys(t.sent[..done]) != []
  {
    assert t.sent[..done] == t.sent[..q] + t.sent[q..done];
    KeysAppend(t.sent[..q], t.sent[q..done]);
  }

  /** A stopping relay's usable target was last told to release. */
  lemma QuietTarget(st: State, done: nat, barrier: Option<nat>)
    requires Fine(st, done, barrier) && st.target.Some? && st.target.value.open && st.stopping
    ensures !LastKey(st.target.value.sent)
  {
    hide Keys; hide QueriesBehind;
    var t := st.target.value;
  }

  // ------------------------------------------------------- every step keeps the invariant

  lemma RunAppend(bit: bool, a: seq<Cmd>, b: seq<Cmd>)
    requires Key(true) !in b && !RunKeys(bit, a)
    ensures !RunKeys(bit, a + b)
  {
    hide Keys; hide RunKeys;
    RunIsLast(bit, a);
    RunIsLast(bit, a + b);
    LastOf(a, b);
    KeysAppend(a, b);
    NoPressKeys(b);
    if Keys(b) != [] {
      assert Keys(b)[|Keys(b)| - 1] in Keys(b);
    } else {
      assert Keys(a) + [] == Keys(a);
    }
  }

  lemma {:induction false} NoPressKeys(cmds: seq<Cmd>)
    requires Key(true) !in cmds
    ensures forall k :: k in Keys(cmds) ==> !k
    decreases |cmds|
  {
    if cmds != [] {
      assert cmds[|cmds| - 1] in cmds;
      NoPressKeys(cmds[..|cmds| - 1]);
    }
  }

  lemma InFlightGrows(w: World, st: State) returns (tail: seq<Cmd>)
    requires Bits(w) && Extends(w.st, st)
    ensures InFlight(w.(st := st)) == InFlight(w) + tail
    ensures w.st.stopping ==> Key(true) !in tail
  {
    hide Keys; hide RunKeys; hide ResetFine; hide Layers;
    if w.st.target.None? || w.cut {
      tail := [];
      assert InFlight(w) + tail == InFlight(w);
    } else {
      var a, b := w.st.target.value.sent, st.target.value.sent;
      tail := b[|a|..];
      assert b[w.done..] == a[w.done..] + tail;
      Assoc3(w.residue, a[w.done..], tail);
    }
  }

  lemma Assoc3(a: seq<Cmd>, b: seq<Cmd>, c: seq<Cmd>)
    ensures a + (b + c) == (a + b) + c
  {
  }

  /** The bit's account survives every handler of the relay. */
  lemma BitsExtend(w: World, st: State, heard: nat, barrier: Option<nat>)
    requires Bits(w) && Extends(w.st, st)
    requires w.st.target.None? ==> heard == 0 && barrier.None?
    requires w.st.target.Some? ==> heard <= Layers(w.st.target.value.sent[..w.done])
    ensures Bits(w.(st := st, heard := heard, barrier := barrier))
  {
    var w2 := w.(st := st, heard := heard, barrier := barrier);
    var tail := InFlightGrows(w, st);
    assert InFlight(w2) == InFlight(w) + tail;
    if w.st.target.Some? {
      SentStays(w.st, st, w.done);
    }
    hide Keys; hide RunKeys; hide ResetFine; hide Layers; hide InFlight; hide LastKey;
    if w.reset.Some? && w.reset.value.done > 0 && !w.dropped {
      RunAppend(false, InFlight(w), tail);
    }
    if Released(w) && !w.dropped {
      RunAppend(w.bit, InFlight(w), tail);
    }
  }

  /** A handler that leaves the replies counted as they are. */
  lemma Handled(w: World, st: State)
    requires Safe(w) && Fine(st, w.done, w.barrier) && Extends(w.st, st)
    ensures Safe(w.(st := st))
  {
    hide Fine; hide Extends; hide Layers; hide Keys; hide RunKeys; hide InFlight; hide ResetFine; hide LastKey;
    BitsExtend(w, st, w.heard, w.barrier);
  }

  lemma TouchSession(st: State, role: Role, r: Session, done: nat, barrier: Option<nat>)
    requires Fine(st, done, barrier) && SessionOf(st, role).Some? && SamePhase(SessionOf(st, role).value, r)
    ensures Fine(WithSession(st, role, r), done, barrier) && Extends(st, WithSession(st, role, r))
  {
    hide Fine; hide Extends;
    if role.Source? {
      TouchSource(st, Some(r), done, barrier);
    } else {
      TouchTarget(st, r, done, barrier);
    }
  }

  lemma OpensSafe(o: Options, w: World, role: Role, now: int, room: nat)
    requires Safe(w) && SessionOf(w.st, role).None?
    ensures Safe(w.(st := Connect(o, w.st, role, now, room)))
  {
    hide RunKeys; hide ResetFine;
    if role.Source? {
      TouchSource(w.st, Some(Fresh(o, now, room)), w.done, w.barrier);
      hide Fine; hide Bits; hide Extends;
      Handled(w, w.st.(source := Some(Fresh(o, now, room))));
    } else {
      var t := Fresh(o, now, room);
      assert t.sent[..0] == [] && t.sent[0..] == [];
      assert Handshake(t);
      hide Handshake;
      assert InFlight(w.(st := Connect(o, w.st, role, now, room))) == InFlight(w);
      hide InFlight;
    }
  }

  lemma ConnectsFine(st: State, role: Role, done: nat, barrier: Option<nat>)
    requires Fine(st, done, barrier) && SessionOf(st, role).Some?
    ensures Fine(OnConnect(st, role), done, barrier) && Extends(st, OnConnect(st, role))
  {
    hide Fine; hide Extends; hide Write;
    var s := SessionOf(st, role).value.(connected := true);
    var mid := WithSession(st, role, s);
    TouchSession(st, role, s, done, barrier);
    if role.Source? {
      TouchSource(mid, OnConnect(st, role).source, done, barrier);
    } else {
      AskTarget(mid, QueryNames, done, barrier);
    }
    ExtendsTrans(st, mid, OnConnect(st, role));
  }

  lemma PollCases(o: Options, s: Session, now: int)
    ensures var r := Polled(o, s, now);
      SamePhase(s, r) || ((s.ready || s.resetting) && r == Write(s.(awaiting := true, deadline := now + o.timeoutMs), QueryLayer).0)
  {
    hide Write;
  }

  lemma TimerFine(o: Options, st: State, role: Role, now: int, done: nat, barrier: Option<nat>)
    requires Fine(st, done, barrier) && SessionOf(st, role).Some?
    ensures Fine(OnTimer(o, st, role, now), done, barrier) && Extends(st, OnTimer(o, st, role, now))
  {
    hide Fine; hide Extends; hide Write; hide Polled;
    var s := SessionOf(st, role).value;
    var r := Polled(o, s, now);
    PollCases(o, s, now);
    if role.Source? {
      TouchSource(st, Some(r), done, barrier);
    } else if SamePhase(s, r) {
      TouchTarget(st, r, done, barrier);
    } else {
      var waiting := s.(awaiting := true, deadline := now + o.timeoutMs);
      TouchTarget(st, waiting, done, barrier);
      var mid := st.(target := Some(waiting));
      AskTarget(mid, QueryLayer, done, barrier);
      ExtendsTrans(st, mid, OnTimer(o, st, role, now));
    }
  }

  lemma SourceDataFine(o: Options, st: State, chunk: Bytes, now: int, done: nat, barrier: Option<nat>)
    requires Fine(st, done, barrier) && st.source.Some?
    ensures Fine(OnData(o, st, Source, chunk, now), done, barrier) && Extends(st, OnData(o, st, Source, chunk, now))
  {
    hide Fine; hide Extends; hide Frames; hide OnValues;
    var s := st.source.value;
    var f := Frames(o.codec, LIMIT, s.pending + chunk);
    if f.Err? {
      TouchSource(st, Some(s.(open := false)), done, barrier);
    } else {
      var mid := st.(source := Some(s.(pending := f.value.1)));
      TouchSource(st, mid.source, done, barrier);
      SourceValuesFine(o, mid, f.value.0, now, done, barrier);
      ExtendsTrans(st, mid, OnData(o, st, Source, chunk, now));
    }
  }

  lemma TargetArrivesSafe(o: Options, w: World, chunk: Bytes, now: int)
    requires Safe(w) && w.st.target.Some? && Answered(w, w.st.target.value, Received(o, w.st.target.value, chunk))
    ensures Safe(TargetArrives(o, w, chunk, now)) && Extends(w.st, TargetArrives(o, w, chunk, now).st)
  {
    hide Fine; hide Extends; hide Frames; hide HearAll; hide Layers; hide Keys; hide Bits; hide Replies;
    var t := w.st.target.value;
    var f := Frames(o.codec, LIMIT, t.pending + chunk);
    if f.Err? {
      TouchTarget(w.st, t.(open := false), w.done, w.barrier);
      Handled(w, w.st.(target := Some(t.(open := false))));
    } else {
      var mid := w.(st := w.st.(target := Some(t.(pending := f.value.1))));
      TouchTarget(w.st, t.(pending := f.value.1), w.done, w.barrier);
      HearAllFine(o, mid, f.value.0, now);
      var h := HearAll(o, mid, f.value.0, now);
      ExtendsTrans(w.st, mid.st, h.st);
      BitsExtend(w, h.st, h.heard, h.barrier);
      assert h == w.(st := h.st, heard := h.heard, barrier := h.barrier);
    }
  }

  lemma CloseSourceFine(st: State, done: nat, barrier: Option<nat>)
    requires Fine(st, done, barrier)
    ensures Fine(OnClose(st, Source), done, barrier) && Extends(st, OnClose(st, Source))
  {
    hide Good; hide Settled; hide Extends; hide Apply;
    GoodSource(st, None, false, done, barrier);
    var mid := st.(source := None, sourceHeld := false);
    ApplySettles(mid, done, barrier);
    ExtendsTrans(st, mid, Apply(mid));
  }

  lemma CloseTargetSafe(w: World)
    requires Safe(w) && w.st.target.Some?
    ensures Safe(TargetCloses(w))
  {
    hide RunKeys; hide ResetFine; hide Keys; hide Layers; hide Handshake;
    var w2 := TargetCloses(w);
    assert InFlight(w2) == InFlight(w) + [];
    assert InFlight(w) + [] == InFlight(w);
    hide InFlight; hide LastKey; hide Behind;
  }

  lemma StopFine(st: State, done: nat, barrier: Option<nat>)
    requires Fine(st, done, barrier) && !st.stopping
    ensures Fine(Stop(st), done, barrier) && Extends(st, Stop(st)) && Stop(st).stopping
  {
    var mid := st.(stopping := true, sourceHeld := false);
    hide Handshake; hide Behind; hide LastKey; hide Apply; hide Grew;
    assert Good(mid, done, barrier);
    SameExtends(st, mid);
    ApplySettles(mid, done, barrier);
    hide Good;
    ExtendsTrans(st, mid, Apply(mid));
    SameExtends(Apply(mid), Stop(st));
    ExtendsTrans(st, Apply(mid), Stop(st));
  }

  lemma RunStep(bit: bool, cmds: seq<Cmd>)
    requires cmds != []
    ensures RunKeys(RunOne(bit, cmds[0]), cmds[1..]) == RunKeys(bit, cmds)
    ensures !RunKeys(false, cmds) ==> !RunKeys(false, cmds[1..])
  {
    hide Keys;
    RunIsLast(false, cmds[1..]);
    RunIsLast(RunOne(false, cmds[0]), cmds[1..]);
  }

  lemma DoneOneMore(sent: seq<Cmd>, done: nat, bit: bool)
    requires done < |sent|
    ensures sent[done..][0] == sent[done] && sent[done..][1..] == sent[done + 1..]
    ensures Keys(sent[..done + 1]) == if sent[done].Key? then Keys(sent[..done]) + [sent[done].held] else Keys(sent[..done])
    ensures Layers(sent[..done]) <= Layers(sent[..done + 1])
  {
    assert sent[..done + 1][..done] == sent[..done];
    hide Keys;
    assert Keys(sent[..done]) + [] == Keys(sent[..done]);
    KeysAppend(sent[..done], [sent[done]]);
    KeysOne(sent[done]);
    assert sent[..done + 1] == sent[..done] + [sent[done]];
  }

  lemma BehindLater(st: State, done: nat, barrier: Option<nat>)
    requires Fine(st, done, barrier) && st.target.Some? && done < |st.target.value.sent|
    ensures Fine(st, done + 1, barrier)
  {
    hide Handshake; hide LastKey;
  }

  lemma NextInFlight(w: World)
    requires w.residue == [] && Rest(w) != []
    ensures var w2 := w.(bit := RunOne(w.bit, Rest(w)[0]), done := w.done + 1);
      InFlight(w) == Rest(w) && InFlight(w2) == Rest(w)[1..] && Rest(w)[0] == w.st.target.value.sent[w.done]
    ensures w.st.target.Some? && w.done < |w.st.target.value.sent|
  {
    assert w.residue + Rest(w) == Rest(w);
  }

  lemma PeerRunsSafe(w: World)
    requires Safe(w) && w.residue == [] && Rest(w) != []
    ensures Safe(w.(bit := RunOne(w.bit, Rest(w)[0]), done := w.done + 1))
  {
    hide RunKeys; hide ResetFine; hide Keys; hide Layers; hide Fine; hide InFlight; hide Rest;
    NextInFlight(w);
    DoneOneMore(w.st.target.value.sent, w.done, w.bit);
    RunStep(w.bit, Rest(w));
    RunStep(false, Rest(w));
    BehindLater(w.st, w.done, w.barrier);
  }

  lemma PeerRunsLateSafe(w: World)
    requires Safe(w) && w.residue != []
    ensures Safe(w.(bit := RunOne(w.bit, w.residue[0]), residue := w.residue[1..]))
  {
    var w2 := w.(bit := RunOne(w.bit, w.residue[0]), residue := w.residue[1..]);
    assert InFlight(w2) == InFlight(w)[1..] && InFlight(w)[0] == w.residue[0];
    RunStep(w.bit, InFlight(w));
    RunStep(false, InFlight(w));
    assert w.st.target.Some? ==> w.st.target.value.sent[..0] == [];
    hide RunKeys; hide ResetFine; hide Layers; hide Handshake; hide InFlight;
  }

  lemma NothingReleased(w: World)
    ensures Released(w) ==> w.reset.value.done > 0
  {
    assert w.reset.Some? ==> w.reset.value.sent[..0] == [];
  }

  // ----------------------------------------------------------------- the reset's steps

  lemma QueriesAppend(a: seq<Cmd>, b: seq<Cmd>)
    requires QueriesBehind(a) && (Keys(a) != [] || QueriesBehind(b))
    ensures QueriesBehind(a + b)
  {
    hide Keys;
    forall i | 0 <= i < |a + b| && (a + b)[i].QueryLayer? ensures Keys((a + b)[..i]) != [] {
      if i < |a| {
        assert (a + b)[..i] == a[..i];
      } else {
        assert (a + b)[..i] == a + b[..i - |a|];
        KeysAppend(a, b[..i - |a|]);
      }
    }
  }

  lemma ResetSendsFine(r: Reset, cmds: seq<Cmd>)
    requires ResetFine(r) && Key(true) !in cmds && (Keys(r.sent) != [] || QueriesBehind(cmds))
    requires !r.barrier ==> Keys(cmds) == []
    ensures ResetFine(ResetSends(r, cmds)) && ResetSends(r, cmds).sent[..r.done] == r.sent[..r.done]
  {
    hide Keys; hide Layers; hide QueriesBehind;
    if r.open {
      KeysAppend(r.sent, cmds);
      QueriesAppend(r.sent, cmds);
      assert (r.sent + cmds)[..r.done] == r.sent[..r.done];
    }
  }

  lemma ReleaseThenAsk(cmds: seq<Cmd>)
    requires cmds == [Key(false), QueryLayer]
    ensures Keys(cmds) == [false] && QueriesBehind(cmds)
  {
    assert cmds == [Key(false)] + [QueryLayer];
    KeysAppend([Key(false)], [QueryLayer]);
    KeysOne(Key(false));
    KeysOne(QueryLayer);
    assert cmds[..1] == [Key(false)];
    hide Keys;
  }

  /** The reset starts its barrier: release first, then the query. */
  lemma ResetReleases(r: Reset)
    requires ResetFine(r) && r.open && !r.barrier
    ensures var s := ResetSends(r.(barrier := true), [Key(false), QueryLayer]);
      ResetFine(s) && s.sent[..r.done] == r.sent[..r.done]
  {
    hide Keys; hide Layers; hide QueriesBehind;
    var cmds := [Key(false), QueryLayer];
    ReleaseThenAsk(cmds);
    KeysAppend(r.sent, cmds);
    QueriesAppend(r.sent, cmds);
    assert (r.sent + cmds)[..r.done] == r.sent[..r.done];
  }

  lemma ResetAnswered(r: Reset)
    requires ResetFine(r) && r.heard < Layers(r.sent[..r.done])
    ensures Keys(r.sent[..r.done]) != []
  {
    AnsweredQuery(r.sent, r.done, r.heard);
    var q := NthQuery(r.sent, r.heard);
    assert r.sent[..r.done] == r.sent[..q] + r.sent[q..r.done];
    KeysAppend(r.sent[..q], r.sent[q..r.done]);
    hide Keys;
  }

  /** A message on the reset connection, with the reply it may be not yet counted. */
  lemma ResetValueFine(o: Options, r: Reset, v: Json)
    requires ResetFine(r) && (r.barrier || r.open) && (IsReply(v) ==> r.heard < Layers(r.sent[..r.done]))
    ensures var f := OnResetValue(o, r.(heard := r.heard + ReplyCount(v)), v);
      ResetFine(f.r) && f.r.sent[..r.done] == r.sent[..r.done] && f.r.done == r.done && f.r.heard == r.heard + ReplyCount(v)
      && (f.next ==> f.r.barrier || f.r.open)
  {
    var r1 := r.(heard := r.heard + ReplyCount(v));
    assert ResetFine(r1);
    if IsReply(v) {
      ResetAnswered(r);
    }
    hide Refused; hide Has; hide Defines; hide AsText; hide ReplyName; hide Keys; hide Layers; hide QueriesBehind; hide IsReply;
    if !Refused(v) && !r1.barrier && Has(v, "FakeKeyNames") && Defines(v, o.virtualKey) {
      ResetReleases(r1);
    }
  }

  lemma {:induction false} ResetValuesFine(o: Options, r: Reset, vs: seq<Json>)
    requires ResetFine(r) && (r.barrier || r.open) && r.heard + Replies(vs) <= Layers(r.sent[..r.done])
    ensures var f := OnResetValues(o, r, vs); ResetFine(f) && f.done == r.done && f.sent[..r.done] == r.sent[..r.done]
    decreases |vs|
  {
    hide OnResetValue; hide IsReply; hide Layers; hide Keys; hide QueriesBehind;
    if vs != [] {
      ResetValueFine(o, r, vs[0]);
      var f := OnResetValue(o, r.(heard := r.heard + ReplyCount(vs[0])), vs[0]);
      if f.next {
        ResetValuesFine(o, f.r, vs[1..]);
      }
    }
  }

  lemma ResetDataFine(o: Options, r: Reset, chunk: Bytes)
    requires ResetFine(r) && r.open
    requires var f := Frames(o.codec, LIMIT, r.pending + chunk); f.Ok? ==> r.heard + Replies(f.value.0) <= Layers(r.sent[..r.done])
    ensures var n := OnResetData(o, r, chunk); ResetFine(n) && n.done == r.done && n.sent[..r.done] == r.sent[..r.done]
  {
    hide Frames; hide OnResetValues; hide Layers; hide Keys; hide QueriesBehind; hide Replies;
    var f := Frames(o.codec, LIMIT, r.pending + chunk);
    if f.Ok? {
      ResetValuesFine(o, r.(pending := f.value.1), f.value.0);
    }
  }

  /** A step of the reset connection that runs nothing at the peer. */
  lemma ResetSafe(w: World, r: Reset)
    requires Safe(w) && w.reset.Some? && ResetFine(r)
    requires r.done == w.reset.value.done && r.sent[..r.done] == w.reset.value.sent[..r.done]
    ensures Safe(w.(reset := Some(r)))
  {
    assert InFlight(w.(reset := Some(r))) == InFlight(w);
    assert Released(w.(reset := Some(r))) <==> Released(w);
    hide Fine; hide InFlight; hide Keys; hide RunKeys; hide Layers; hide LastKey; hide ResetFine;
  }

  lemma ResetRunsSafe(w: World)
    requires Safe(w) && w.reset.Some? && w.reset.value.done < |w.reset.value.sent|
    requires w.reset.value.done == 0 ==> Over(w)
    ensures var r := w.reset.value;
      Safe(w.(bit := RunOne(w.bit, r.sent[r.done]), reset := Some(r.(done := r.done + 1))))
  {
    hide Fine; hide Keys; hide RunKeys; hide Layers; hide LastKey; hide InFlight; hide Rest; hide QueriesBehind; hide Over;
    var r := w.reset.value;
    var w2 := w.(bit := RunOne(w.bit, r.sent[r.done]), reset := Some(r.(done := r.done + 1)));
    SameInFlight(w, w2);
    DoneOneMore(r.sent, r.done, w.bit);
    assert r.sent[r.done] in r.sent;
    if r.done == 0 {
      FirstOfReset(w);
    }
  }

  lemma SameInFlight(a: World, b: World)
    requires a.st == b.st && a.done == b.done && a.cut == b.cut && a.residue == b.residue
    ensures InFlight(a) == InFlight(b)
  {
  }

  /** When the reset's first command runs, whatever is in flight ends in a release. */
  lemma FirstOfReset(w: World)
    requires Safe(w) && w.reset.Some? && Over(w)
    ensures !RunKeys(false, InFlight(w))
  {
    hide Keys; hide ResetFine; hide Layers; hide QueriesBehind;
    RunIsLast(false, InFlight(w));
    assert w.residue + Rest(w) == Rest(w);
    if w.st.target.Some? && w.st.target.value.open && Rest(w) != [] {
      QuietTarget(w.st, w.done, w.barrier);
      var sent := w.st.target.value.sent;
      LastOf(sent[..w.done], sent[w.done..]);
      assert sent == sent[..w.done] + sent[w.done..];
    }
  }

  // --------------------------------------------------------------------- all steps

  lemma RelayStepSafe(o: Options, w: World, e: Event)
    requires Safe(w) && Enabled(o, w, e)
    requires e.Opens? || e.Drains? || e.Connects? || e.Arrives? || e.Ticks? || e.Dies? || e.Closes?
    ensures Safe(Step(o, w, e))
    ensures !e.Opens? && !(e.Closes? && e.role.Target?) ==> Extends(w.st, Step(o, w, e).st)
  {
    hide Safe; hide Fine; hide Extends; hide OnData; hide OnClose; hide OnConnect; hide OnTimer; hide Connect;
    hide TargetArrives; hide TargetCloses; hide Received; hide Answered;
    SafeIsFine(w);
    match e {
      case Opens(role, now, room) => OpensSafe(o, w, role, now, room);
      case Drains(role, room) =>
        TouchSession(w.st, role, SessionOf(w.st, role).value.(room := room), w.done, w.barrier);
        Handled(w, Step(o, w, e).st);
      case Connects(role) =>
        ConnectsFine(w.st, role, w.done, w.barrier);
        Handled(w, Step(o, w, e).st);
      case Arrives(role, chunk, now) =>
        if role.Source? {
          SourceDataFine(o, w.st, chunk, now, w.done, w.barrier);
          Handled(w, Step(o, w, e).st);
        } else {
          TargetArrivesSafe(o, w, chunk, now);
        }
      case Ticks(role, now) =>
        TimerFine(o, w.st, role, now, w.done, w.barrier);
        Handled(w, Step(o, w, e).st);
      case Dies(role) =>
        TouchSession(w.st, role, SessionOf(w.st, role).value.(open := false), w.done, w.barrier);
        Handled(w, Step(o, w, e).st);
      case Closes(role) =>
        if role.Source? {
          CloseSourceFine(w.st, w.done, w.barrier);
          Handled(w, Step(o, w, e).st);
        } else {
          CloseTargetSafe(w);
        }
    }
  }

  lemma SafeIsFine(w: World)
    requires Safe(w)
    ensures Fine(w.st, w.done, w.barrier)
  {
  }

  lemma PeerStepSafe(o: Options, w: World, e: Event)
    requires Safe(w) && Enabled(o, w, e) && (e.PeerRuns? || e.PeerRunsLate? || e.LosesRest? || e.LosesResidue?)
    ensures Safe(Step(o, w, e)) && Step(o, w, e).st == w.st
  {
    DoneFacts(w);
    hide Safe; hide RunKeys; hide Rest; hide LossMatters;
    match e {
      case PeerRuns => PeerRunsSafe(w);
      case PeerRunsLate => PeerRunsLateSafe(w);
      case LosesRest =>
      case LosesResidue =>
    }
  }

  lemma DoneFacts(w: World)
    requires Safe(w)
    ensures w.done > 0 ==> w.residue == []
    ensures w.cut ==> w.st.target.Some? && !w.st.target.value.open
  {
    hide Fine; hide ResetFine; hide RunKeys; hide Keys; hide Layers;
  }

  lemma StopSafe(w: World)
    requires Safe(w) && !w.st.stopping
    ensures Safe(w.(st := Stop(w.st), reset := Some(RESET))) && Extends(w.st, Stop(w.st))
  {
    hide Extends; hide Fine; hide Stop; hide RunKeys; hide Layers; hide InFlight;
    StopFine(w.st, w.done, w.barrier);
    Handled(w, Stop(w.st));
    var mid := w.(st := Stop(w.st));
    hide Handshake;
    assert ResetFine(RESET);
    hide ResetFine;
    NothingReleased(w.(st := Stop(w.st), reset := Some(RESET)));
    hide Keys; hide LastKey;
  }

  lemma ResetWritesSafe(o: Options, w: World, e: Event)
    requires Safe(w) && Enabled(o, w, e) && (e.ResetConnects? || e.ResetAsks?)
    ensures Safe(Step(o, w, e)) && Step(o, w, e).st == w.st
  {
    hide Safe; hide RunKeys; hide Layers; hide Keys; hide QueriesBehind; hide ResetSends;
    ResetOf(w);
    var r := w.reset.value;
    if e.ResetConnects? {
      NamesQuery();
      ResetSendsFine(r.(connected := true), [QueryNames]);
      SendsSameDone(r.(connected := true), [QueryNames]);
      ResetSafe(w, ResetSends(r.(connected := true), [QueryNames]));
    } else {
      ResetSendsFine(r.(asking := false), [QueryLayer]);
      SendsSameDone(r.(asking := false), [QueryLayer]);
      ResetSafe(w, ResetSends(r.(asking := false), [QueryLayer]));
    }
  }

  lemma SendsSameDone(r: Reset, cmds: seq<Cmd>)
    ensures ResetSends(r, cmds).done == r.done
  {
  }

  lemma ResetArrivesSafe(o: Options, w: World, chunk: Bytes)
    requires Safe(w) && Enabled(o, w, ResetArrives(chunk))
    ensures Safe(Step(o, w, ResetArrives(chunk)))
  {
    hide Safe; hide Frames; hide RunKeys; hide Layers; hide Keys; hide QueriesBehind; hide OnResetData; hide Replies;
    ResetOf(w);
    ResetDataFine(o, w.reset.value, chunk);
    ResetSafe(w, OnResetData(o, w.reset.value, chunk));
  }

  lemma ResetFailsSafe(w: World)
    requires Safe(w) && w.reset.Some?
    ensures Safe(w.(reset := Some(Finish(w.reset.value, false))))
  {
    hide Safe; hide RunKeys; hide Layers; hide Keys; hide QueriesBehind;
    ResetOf(w);
    ResetSafe(w, Finish(w.reset.value, false));
  }

  lemma ResetStepSafe(o: Options, w: World, e: Event)
    requires Safe(w) && Enabled(o, w, e)
    requires e.ResetConnects? || e.ResetArrives? || e.ResetAsks? || e.ResetFails? || e.ResetRuns?
    ensures Safe(Step(o, w, e)) && Step(o, w, e).st == w.st
  {
    hide Safe; hide Frames; hide Layers; hide OnResetData; hide Replies; hide Over; hide ResetSends;
    if e.ResetConnects? || e.ResetAsks? {
      ResetWritesSafe(o, w, e);
    } else if e.ResetArrives? {
      ResetArrivesSafe(o, w, e.chunk);
    } else if e.ResetFails? {
      ResetFailsSafe(w);
    } else {
      ResetRunsSafe(w);
    }
  }

  lemma NamesQuery()
    ensures Keys([QueryNames]) == [] && QueriesBehind([QueryNames])
  {
    KeysOne(QueryNames);
  }

  lemma ResetOf(w: World)
    requires Safe(w)
    ensures w.reset.Some? ==> ResetFine(w.reset.value)
  {
    hide Fine; hide ResetFine; hide RunKeys; hide Keys; hide Layers;
  }

  lemma DestroySafe(w: World)
    requires Safe(w)
    ensures var st := w.st.(source := Destroy(w.st.source), target := Destroy(w.st.target));
      Safe(w.(st := st)) && Extends(w.st, st)
  {
    hide Fine; hide Extends; hide Bits;
    var mid := w.st.(source := Destroy(w.st.source));
    TouchSource(w.st, Destroy(w.st.source), w.done, w.barrier);
    var st := mid.(target := Destroy(mid.target));
    if mid.target.Some? {
      TouchTarget(mid, mid.target.value.(open := false), w.done, w.barrier);
    } else {
      SameExtends(mid, st);
    }
    ExtendsTrans(w.st, mid, st);
    Handled(w, st);
  }

  /** Every step of every participant keeps the invariant. */
  lemma StepSafe(o: Options, w: World, e: Event)
    requires Safe(w) && Enabled(o, w, e)
    ensures Safe(Step(o, w, e))
    ensures !e.Opens? && !(e.Closes? && e.role.Target?) ==> Extends(w.st, Step(o, w, e).st)
  {
    hide Safe; hide Enabled; hide Extends;
    if e.Opens? || e.Drains? || e.Connects? || e.Arrives? || e.Ticks? || e.Dies? || e.Closes? {
      RelayStepSafe(o, w, e);
    } else if e.PeerRuns? || e.PeerRunsLate? || e.LosesRest? || e.LosesResidue? {
      PeerStepSafe(o, w, e);
      SameExtends(w.st, w.st);
    } else if e.ResetConnects? || e.ResetArrives? || e.ResetAsks? || e.ResetFails? || e.ResetRuns? {
      ResetStepSafe(o, w, e);
      SameExtends(w.st, w.st);
    } else {
      LastSteps(o, w, e);
    }
  }

  lemma LastSteps(o: Options, w: World, e: Event)
    requires Safe(w) && Enabled(o, w, e) && (e.StopCalled? || e.DestroysAll?)
    ensures Safe(Step(o, w, e)) && Extends(w.st, Step(o, w, e).st)
  {
    hide Safe; hide Extends; hide Stop; hide Destroy;
    if e.StopCalled? {
      StopSafe(w);
    } else {
      DestroySafe(w);
    }
  }

  lemma BeginSafe(bit: bool)
    ensures Safe(Begin(bit))
  {
  }

  lemma {:induction false} RunSafe(o: Options, w: World, run: seq<Event>)
    requires Safe(w) && Valid(o, w, run)
    ensures Safe(After(o, w, run))
    decreases |run|
  {
    hide Safe; hide Step; hide Enabled;
    if run != [] {
      StepSafe(o, w, run[0]);
      RunSafe(o, Step(o, w, run[0]), run[1..]);
    }
  }

  // -------------------------------------------------------------------- the results

  /** In every reachable state with a usable target, running the peer's key bit through the
      commands still in flight gives what the relay thinks it sent, which is what it wants. */
  lemma HeldAgrees(o: Options, bit: bool, run: seq<Event>)
    requires Valid(o, Begin(bit), run)
    ensures var w := After(o, Begin(bit), run);
      w.st.adopted && w.st.target.Some? && w.st.target.value.open ==>
        RunKeys(w.bit, InFlight(w)) == w.st.sentHeld == (w.st.sourceHeld && !w.st.stopping)
  {
    hide Safe; hide Valid; hide RunKeys; hide InFlight; hide Begin; hide After;
    BeginSafe(bit);
    RunSafe(o, Begin(bit), run);
    var w := After(o, Begin(bit), run);
    if w.st.adopted && w.st.target.Some? && w.st.target.value.open {
      HeldIsTrue(w);
    }
  }

  /** On every target connection: one release, then press and release in turn, and every press
      behind a query that the peer ran after the release and answered with the fallback layer. */
  lemma TraceAlternates(o: Options, bit: bool, run: seq<Event>)
    requires Valid(o, Begin(bit), run)
    ensures var w := After(o, Begin(bit), run);
      w.st.target.Some? ==>
        var t := w.st.target.value;
        Alternates(Keys(t.sent)) && QueriesBehind(t.sent) &&
        (Key(true) in t.sent ==> w.barrier.Some? && BarrierAt(t.sent, w.done, w.barrier.value))
  {
    hide Valid; hide Begin; hide After; hide Bits; hide Keys;
    BeginSafe(bit);
    RunSafe(o, Begin(bit), run);
    var w := After(o, Begin(bit), run);
    if w.st.target.Some? && !w.st.target.value.ready {
      NoPressYet(w.st.target.value.sent);
    }
  }

  predicate TargetReady(st: State) {
    st.target.Some? && st.target.value.ready
  }

  predicate NamesFallback(o: Options, v: Json) {
    IsReply(v) && AsText(ReplyName(v)) == Some(o.fallbackLayer)
  }

  lemma ValueReadies(o: Options, st: State, v: Json, now: int)
    requires st.target.Some? && !TargetReady(st)
    ensures TargetReady(OnTargetValue(o, st, v, now).st) ==> st.target.value.resetting && NamesFallback(o, v)
  {
    hide Refused; hide Has; hide Defines; hide IsReply; hide AsText; hide ReplyName; hide Adopt; hide Serve; hide Release;
    ServeKeepsReady(o, st, v, now);
    ReleaseKeepsReady(st);
  }

  lemma ServeKeepsReady(o: Options, st: State, v: Json, now: int)
    requires st.target.Some?
    ensures TargetReady(Serve(o, st, Target, v, now).st) == TargetReady(st)
  {
    hide Refused; hide Has; hide Defines; hide IsReply; hide AsText; hide ReplyName;
  }

  lemma ReleaseKeepsReady(st: State)
    requires st.target.Some?
    ensures TargetReady(Release(st).st) == TargetReady(st)
  {
  }

  lemma {:induction false} ValuesReady(o: Options, st: State, vs: seq<Json>, now: int)
    requires st.target.Some? && !TargetReady(st)
    ensures TargetReady(OnValues(o, st, Target, vs, now)) ==> exists k :: 0 <= k < |vs| && NamesFallback(o, vs[k])
    decreases |vs|
  {
    hide OnTargetValue; hide NamesFallback; hide TargetReady;
    if vs != [] {
      ValueReadies(o, st, vs[0], now);
      var f := OnTargetValue(o, st, vs[0], now);
      if f.Next? && !TargetReady(f.st) {
        ValuesReady(o, f.st, vs[1..], now);
        if k :| 0 <= k < |vs[1..]| && NamesFallback(o, vs[1..][k]) {
          assert vs[k + 1] == vs[1..][k];
        }
      }
    }
  }

  lemma ApplyKeepsReady(st: State)
    ensures TargetReady(Apply(st)) <==> TargetReady(st)
  {
  }

  lemma ConnectKeepsReady(o: Options, st: State, role: Role, now: int, room: nat)
    ensures !TargetReady(st) ==> !TargetReady(Connect(o, st, role, now, room))
    ensures !TargetReady(st) && SessionOf(st, role).Some? ==> !TargetReady(OnConnect(st, role)) && !TargetReady(OnTimer(o, st, role, now))
  {
    hide OnConnect; hide OnTimer;
    if SessionOf(st, role).Some? {
      ConnectedKeepsReady(st, role);
      TimerKeepsReady(o, st, role, now);
    }
  }

  lemma ConnectedKeepsReady(st: State, role: Role)
    requires SessionOf(st, role).Some?
    ensures TargetReady(OnConnect(st, role)) == TargetReady(st)
  {
  }

  lemma TimerKeepsReady(o: Options, st: State, role: Role, now: int)
    requires SessionOf(st, role).Some?
    ensures TargetReady(OnTimer(o, st, role, now)) == TargetReady(st)
  {
    PollKeepsReady(o, SessionOf(st, role).value, now);
    hide Polled;
  }

  lemma PollKeepsReady(o: Options, s: Session, now: int)
    ensures Polled(o, s, now).ready == s.ready
  {
  }

  lemma CloseKeepsReady(st: State)
    ensures !TargetReady(st) ==> !TargetReady(OnClose(st, Source)) && !TargetReady(OnClose(st, Target)) && !TargetReady(Stop(st))
  {
    hide Apply;
    ApplyKeepsReady(st.(source := None, sourceHeld := false));
    ApplyKeepsReady(st.(stopping := true, sourceHeld := false));
  }

  predicate OfSession(e: Event) {
    e.Opens? || e.Drains? || e.Connects? || e.Ticks? || e.Dies?
  }

  lemma SessionStepsKeep(o: Options, w: World, e: Event)
    requires Enabled(o, w, e) && OfSession(e) && !TargetReady(w.st)
    ensures !TargetReady(Step(o, w, e).st)
  {
    hide OnConnect; hide OnTimer; hide Connect; hide OnData; hide TargetArrives; hide OnResetData; hide OnClose; hide TargetCloses; hide Stop;
    hide LossMatters; hide Finish; hide ResetSends; hide Destroy; hide RunOne; hide Rest;
    if e.Opens? {
      ConnectKeepsReady(o, w.st, e.role, e.now, e.room);
    } else if e.Ticks? {
      ConnectKeepsReady(o, w.st, e.role, e.now, 0);
    } else if e.Connects? {
      ConnectKeepsReady(o, w.st, e.role, 0, 0);
    }
  }

  lemma DestroyedKeeps(st: State)
    ensures !TargetReady(st) ==> !TargetReady(st.(source := Destroy(st.source), target := Destroy(st.target)))
  {
  }

  lemma OtherStepsKeep(o: Options, w: World, e: Event)
    requires Enabled(o, w, e) && !e.Arrives? && !OfSession(e) && !TargetReady(w.st)
    ensures !TargetReady(Step(o, w, e).st)
  {
    hide OnResetData; hide RunKeys; hide Frames; hide InFlight; hide Over; hide OnClose; hide Stop; hide LossMatters; hide Finish;
    hide ResetSends; hide Destroy; hide TargetReady; hide Layers; hide Replies;
    CloseKeepsReady(w.st);
    DestroyedKeeps(w.st);
  }

  lemma TargetBrings(o: Options, w: World, chunk: Bytes, now: int)
    requires w.st.target.Some? && !TargetReady(w.st) && TargetReady(TargetArrives(o, w, chunk, now).st)
    ensures exists v :: v in Received(o, w.st.target.value, chunk) && NamesFallback(o, v)
  {
    hide OnValues; hide NamesFallback; hide Frames; hide HearAll;
    var t := w.st.target.value;
    TargetDataIsHandled(o, w, chunk, now);
    var f := Frames(o.codec, LIMIT, t.pending + chunk);
    hide TargetArrives;
    if f.Ok? {
      var st := w.st.(target := Some(t.(pending := f.value.1)));
      ValuesReady(o, st, f.value.0, now);
      var k :| 0 <= k < |f.value.0| && NamesFallback(o, f.value.0[k]);
      assert f.value.0[k] in Received(o, t, chunk);
    }
  }

  /** A target connection becomes the one that presses can go to only in a step that brings the
      answer to a layer query naming the fallback layer. */
  lemma AdoptsOnFallback(o: Options, w: World, e: Event)
    requires Enabled(o, w, e) && !TargetReady(w.st) && TargetReady(Step(o, w, e).st)
    ensures e.Arrives? && e.role.Target? && w.st.target.Some?
    ensures exists v :: v in Received(o, w.st.target.value, e.chunk) && NamesFallback(o, v)
  {
    hide NamesFallback; hide TargetArrives; hide TargetReady; hide OnData; hide Received; hide Answered;
    if OfSession(e) {
      SessionStepsKeep(o, w, e);
    } else if !e.Arrives? {
      OtherStepsKeep(o, w, e);
    } else if e.role.Source? {
      SourceKeepsReady(o, w.st, e.chunk, e.now);
    } else {
      TargetBrings(o, w, e.chunk, e.now);
    }
  }

  lemma {:induction false} SourceValuesKeep(o: Options, st: State, vs: seq<Json>, now: int)
    requires st.source.Some? && !TargetReady(st)
    ensures !TargetReady(OnValues(o, st, Source, vs, now))
    decreases |vs|
  {
    hide OnSourceValue;
    if vs != [] {
      SourceValueKeeps(o, st, vs[0], now);
      var f := OnSourceValue(o, st, vs[0], now);
      if f.Next? {
        SourceValuesKeep(o, f.st, vs[1..], now);
      }
    }
  }

  lemma SourceValueKeeps(o: Options, st: State, v: Json, now: int)
    requires st.source.Some? && !TargetReady(st)
    ensures !TargetReady(OnSourceValue(o, st, v, now).st)
  {
    hide Apply; hide LayerName; hide IsReply; hide Has; hide ReplyName; hide Refused; hide Serve; hide TargetReady;
    var layer := LayerName(v);
    SourceThrows(st);
    if layer.Some? {
      var next := st.(source := Some(st.source.value.(ready := true)), sourceHeld := layer.value == o.precisionLayer);
      SameTarget(st, next);
      ApplyKeepsReady(next);
      ServeSourceKeeps(o, Apply(next), v, now);
    } else {
      ServeSourceKeeps(o, st, v, now);
    }
  }

  lemma SameTarget(a: State, b: State)
    requires a.target == b.target
    ensures TargetReady(a) == TargetReady(b)
  {
  }

  lemma SourceThrows(st: State)
    requires st.source.Some?
    ensures TargetReady(Throw(st, Source).st) == TargetReady(st)
  {
  }

  lemma ServeSourceKeeps(o: Options, st: State, v: Json, now: int)
    requires st.source.Some?
    ensures TargetReady(Serve(o, st, Source, v, now).st) == TargetReady(st)
  {
    hide IsReply; hide Has; hide ReplyName;
  }

  lemma SourceKeepsReady(o: Options, st: State, chunk: Bytes, now: int)
    requires st.source.Some? && !TargetReady(st)
    ensures !TargetReady(OnData(o, st, Source, chunk, now))
  {
    hide OnValues; hide Frames;
    var s := st.source.value;
    var f := Frames(o.codec, LIMIT, s.pending + chunk);
    if f.Ok? {
      SourceValuesKeep(o, st.(source := Some(s.(pending := f.value.1))), f.value.0, now);
    }
  }

  /** What a step hands to the target connection. */
  function Written(a: Option<Session>, b: Option<Session>): seq<Cmd> {
    if b.None? then []
    else if a.None? || !(a.value.sent <= b.value.sent) then b.value.sent
    else b.value.sent[|a.value.sent|..]
  }

  /** Once stopping, no step of any run writes a press. */
  lemma NoPressOnceStopping(o: Options, bit: bool, run: seq<Event>, e: Event)
    requires Valid(o, Begin(bit), run) && Enabled(o, After(o, Begin(bit), run), e)
    requires After(o, Begin(bit), run).st.stopping
    ensures Key(true) !in Written(After(o, Begin(bit), run).st.target, Step(o, After(o, Begin(bit), run), e).st.target)
  {
    hide Valid; hide Begin; hide After; hide Safe; hide Enabled;
    BeginSafe(bit);
    RunSafe(o, Begin(bit), run);
    StepSafe(o, After(o, Begin(bit), run), e);
    if e.Opens? {
      OpensQuietly(o, After(o, Begin(bit), run), e);
    } else if e.Closes? && e.role.Target? {
      hide Extends;
    } else {
      hide Step;
    }
  }

  lemma OpensQuietly(o: Options, w: World, e: Event)
    requires Enabled(o, w, e) && e.Opens?
    ensures Written(w.st.target, Step(o, w, e).st.target) == []
  {
  }

  /** When `resetTarget` has succeeded, its release was run, and the peer's bit after everything
      in flight is released, as long as no dying connection loses a release from then on. */
  lemma StopReleases(o: Options, bit: bool, run: seq<Event>)
    requires Valid(o, Begin(bit), run)
    ensures var w := After(o, Begin(bit), run);
      w.reset.Some? && w.reset.value.outcome == Some(true) && !w.dropped ==> Released(w) && !RunKeys(w.bit, InFlight(w))
  {
    hide Valid; hide Begin; hide After; hide Fine; hide Keys; hide RunKeys; hide InFlight;
    BeginSafe(bit);
    RunSafe(o, Begin(bit), run);
  }
}
