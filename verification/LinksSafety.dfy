/** Applying a plan of managed links: what reported managed is managed in the end, and applying
    again changes nothing. */
module LinksSafety {
  import opened Wrappers
  import opened Delivery
  import opened Links
  import opened LinksVerdict

  // ------------------------------------------------------------------ the layout of a plan

  function DestOf(m: Machine, r: Record): Entry
    requires Phys(m, r.dest).Some?
  {
    Phys(m, r.dest).value
  }

  predicate AllBound(m: Machine, rs: seq<Record>) {
    forall i :: 0 <= i < |rs| ==> Phys(m, rs[i].dest).Some? && Phys(m, rs[i].src).Some?
  }

  function Dests(m: Machine, rs: seq<Record>): set<Entry> {
    set i | 0 <= i < |rs| && Phys(m, rs[i].dest).Some? :: Phys(m, rs[i].dest).value
  }

  function AboveDests(m: Machine, rs: seq<Record>): set<Entry> {
    set i, x | 0 <= i < |rs| && Phys(m, rs[i].dest).Some? && x in m.above(Phys(m, rs[i].dest).value) :: x
  }

  /** What applying a plan may write: its destinations and missing directories above them. */
  predicate Written(m: Machine, t: Tree, rs: seq<Record>, e: Entry) {
    e in Dests(m, rs) || (e in AboveDests(m, rs) && e !in t)
  }

  /** No entry on the way from here to the file behind it is written. */
  predicate ChainClear(m: Machine, t: Tree, rs: seq<Record>, e: Entry, fuel: nat)
    decreases fuel
  {
    && !Written(m, t, rs, e) && !e.Temp?
    && match Get(t, e)
       case Some(Link(target)) =>
         fuel > 0 && m.kernel(e, target).Some? ==> ChainClear(m, t, rs, m.kernel(e, target).value, fuel - 1)
       case _ => true
  }

  /** Destinations are shared only by the same claim, in either scope, and are off the way of
      every source. Link targets are read as written. What is there has its directories. */
  ghost predicate Layout(m: Machine, t: Tree, rs: seq<Record>, selected: Option<Strategy>) {
    && AllBound(m, rs)
    && (forall i :: 0 <= i < |rs| ==> DestOf(m, rs[i]).Named? && Offers(rs[i], selected))
    && (forall i, j :: 0 <= i < |rs| && 0 <= j < |rs| && DestOf(m, rs[i]) == DestOf(m, rs[j]) ==> SameDest(rs[i], rs[j]))
    && (forall i :: 0 <= i < |rs| ==> ChainClear(m, t, rs, Phys(m, rs[i].src).value, MAX_LINKS))
    && (forall i :: 0 <= i < |rs| ==> m.lexical(rs[i].dest, TextOf(rs[i].src)) == rs[i].src)
    && (forall i :: 0 <= i < |rs| ==> Footed(m, t, rs[i]))
  }

  predicate Footed(m: Machine, t: Tree, r: Record)
    requires Phys(m, r.dest).Some?
  {
    r.present && DestOf(m, r) in t ==> Standing(t, m.above(DestOf(m, r)))
  }

  /** The strategy to deliver by is one the record declares. */
  predicate Offers(r: Record, selected: Option<Strategy>) {
    r.present ==> Chosen(r, selected) in r.available
  }

  predicate SameDest(a: Record, b: Record) {
    SameClaim(a, b) && a.dest == b.dest
  }

  /** Everything a plan may not write is as it was. */
  ghost predicate Kept(m: Machine, t0: Tree, t: Tree, rs: seq<Record>) {
    forall e: Entry :: !e.Temp? && !Written(m, t0, rs, e) ==> Get(t, e) == Get(t0, e)
  }

  /** What a record's step writes: its destination, and directories above it. */
  ghost predicate Stepped(m: Machine, t: Tree, t2: Tree, r: Record, deed: Deed) {
    if Phys(m, r.dest).None? || deed.Leaves? then Undisturbed(t, t2, {}, {})
    else Undisturbed(t, t2, {DestOf(m, r)}, MadeBy(m, t, r, deed))
  }

  lemma DoneSteps(m: Machine, t: Tree, t2: Tree, r: Record, deed: Deed)
    requires Phys(m, r.dest).Some? && Phys(m, r.src).Some? && Done(m, t, t2, r, deed)
    ensures Stepped(m, t, t2, r, deed)
  {
    hide Referent;
  }

  lemma FailSteps(m: Machine, t: Tree, t2: Tree, r: Record, deed: Deed)
    requires Undisturbed(t, t2, {}, MadeBy(m, t, r, deed))
    ensures Stepped(m, t, t2, r, deed)
  {
  }

  lemma StepKept(m: Machine, t0: Tree, t: Tree, t2: Tree, rs: seq<Record>, i: nat, deed: Deed)
    requires i < |rs| && Kept(m, t0, t, rs) && Stepped(m, t, t2, rs[i], deed)
    ensures Kept(m, t0, t2, rs)
  {
    forall e: Entry | !e.Temp? && !Written(m, t0, rs, e) ensures Get(t2, e) == Get(t0, e) {
      if Phys(m, rs[i].dest).Some? {
        assert e != DestOf(m, rs[i]);
        if e !in t {
          assert Get(t0, e) == None;
          assert e !in m.above(DestOf(m, rs[i]));
        }
      }
    }
  }

  lemma {:induction false} FollowKept(m: Machine, t0: Tree, t: Tree, rs: seq<Record>, e: Entry, fuel: nat)
    requires Kept(m, t0, t, rs) && ChainClear(m, t0, rs, e, fuel)
    ensures Follow(m, t, e, fuel) == Follow(m, t0, e, fuel)
    ensures Follow(m, t0, e, fuel).Some? ==> Get(t, Follow(m, t0, e, fuel).value) == Get(t0, Follow(m, t0, e, fuel).value)
    decreases fuel
  {
    hide Written;
    assert Get(t, e) == Get(t0, e);
    match Get(t0, e) {
      case Some(Link(target)) =>
        if fuel > 0 && m.kernel(e, target).Some? {
          FollowKept(m, t0, t, rs, m.kernel(e, target).value, fuel - 1);
        }
      case _ =>
    }
  }

  /** Sources look the same throughout. */
  lemma SourceKept(m: Machine, t0: Tree, t: Tree, rs: seq<Record>, i: nat)
    requires Kept(m, t0, t, rs) && i < |rs| && Phys(m, rs[i].src).Some? && ChainClear(m, t0, rs, Phys(m, rs[i].src).value, MAX_LINKS)
    ensures SourceExists(m, t, rs[i].src) == SourceExists(m, t0, rs[i].src)
    ensures Referent(m, t, Phys(m, rs[i].src).value) == Referent(m, t0, Phys(m, rs[i].src).value)
  {
    hide Written; hide Follow;
    var e := Phys(m, rs[i].src).value;
    FollowKept(m, t0, t, rs, e, MAX_LINKS);
    assert Get(t, e) == Get(t0, e);
  }

  /** The assessment only depends on the destination entry and on what the source reaches. */
  lemma AssessSame(m: Machine, t: Tree, t2: Tree, r: Record)
    requires Phys(m, r.dest).Some? && Phys(m, r.src).Some? && Get(t2, Phys(m, r.dest).value) == Get(t, Phys(m, r.dest).value)
    requires SourceExists(m, t2, r.src) == SourceExists(m, t, r.src)
    requires Referent(m, t2, Phys(m, r.src).value) == Referent(m, t, Phys(m, r.src).value)
    ensures Assess(m, t2, r) == Assess(m, t, r)
  {
    hide Referent;
  }

  lemma AssessClaim(m: Machine, t: Tree, a: Record, b: Record)
    requires SameDest(a, b) && Phys(m, a.dest).Some?
    ensures Assess(m, t, a) == Assess(m, t, b)
  {
    hide Referent;
  }

  // ---------------------------------------------------------------- one step at a time

  /** Applying this record here would write nothing. */
  predicate Still(m: Machine, t: Tree, r: Record, selected: Option<Strategy>, overwrite: bool)
    requires Phys(m, r.dest).Some?
  {
    Decide(r, Assess(m, t, r), selected, overwrite).deed.Leaves?
  }

  /** What the destination holds and what the source reaches make the record managed. */
  predicate Looks(m: Machine, t: Tree, r: Record)
    requires Phys(m, r.dest).Some?
  {
    Classify(r, Assess(m, t, r), None).MANAGED?
  }

  /** `classifyRecord` reports MANAGED. */
  predicate Managed(m: Machine, t: Tree, r: Record)
    requires Phys(m, r.dest).Some?
  {
    Visible(m, t, r) && Looks(m, t, r)
  }

  lemma LeavesAlone(m: Machine, t: Tree, t2: Tree, r: Record)
    requires Phys(m, r.dest).Some? && Phys(m, r.src).Some? && Done(m, t, t2, r, Leaves)
    ensures forall e: Entry :: !e.Temp? ==> Get(t2, e) == Get(t, e)
  {
  }

  /** What a delivery leaves is healthy by its strategy. */
  lemma DeliveredHealthy(m: Machine, t: Tree, t2: Tree, r: Record, s: Strategy)
    requires Phys(m, r.dest).Some? && Phys(m, r.src).Some? && Done(m, t, t2, r, Delivers(s)) && s in r.available
    requires m.lexical(r.dest, TextOf(r.src)) == r.src
    requires SourceExists(m, t, r.src) && SourceExists(m, t2, r.src)
    requires Referent(m, t2, Phys(m, r.src).value) == Referent(m, t, Phys(m, r.src).value)
    ensures Assess(m, t2, r).kind == Healthy(s) && Assess(m, t2, r).sourceExists
  {
    hide Undisturbed; hide Referent;
  }

  lemma RemovedAbsent(m: Machine, t: Tree, t2: Tree, r: Record)
    requires Phys(m, r.dest).Some? && Phys(m, r.src).Some? && Done(m, t, t2, r, Removes)
    ensures Assess(m, t2, r).kind == Absent
  {
    hide Undisturbed; hide Referent;
  }

  /** A record just applied: nothing left to write, and managed if it reported so. */
  lemma AppliedSettles(m: Machine, t: Tree, t2: Tree, r: Record, selected: Option<Strategy>, overwrite: bool)
    requires Phys(m, r.dest).Some? && Phys(m, r.src).Some? && DestNamed(m, r)
    requires Offers(r, selected) && m.lexical(r.dest, TextOf(r.src)) == r.src
    requires SourceExists(m, t2, r.src) == SourceExists(m, t, r.src)
    requires Referent(m, t2, Phys(m, r.src).value) == Referent(m, t, Phys(m, r.src).value)
    requires var v := Decide(r, Assess(m, t, r), selected, overwrite); Done(m, t, t2, r, v.deed)
    ensures Still(m, t2, r, selected, overwrite)
    ensures Decide(r, Assess(m, t, r), selected, overwrite).status.MANAGED? ==> Looks(m, t2, r)
  {
    hide Assess; hide Undisturbed; hide Referent;
    var a := Assess(m, t, r);
    var v := Decide(r, a, selected, overwrite);
    SourceFacts(m, t, r);
    match v.deed {
      case Leaves =>
        LeavesAlone(m, t, t2, r);
        AssessSame(m, t, t2, r);
      case Removes => RemovedAbsent(m, t, t2, r);
      case Delivers(s) =>
        DeliveredHealthy(m, t, t2, r, s);
    }
  }

  predicate DestNamed(m: Machine, r: Record)
    requires Phys(m, r.dest).Some?
  {
    DestOf(m, r).Named?
  }

  lemma SourceFacts(m: Machine, t: Tree, r: Record)
    requires Phys(m, r.dest).Some?
    ensures Assess(m, t, r).sourceExists == SourceExists(m, t, r.src)
    ensures Assess(m, t, r).sourceRegular == SourceRegular(m, t, r.src)
  {
    hide Referent;
  }

  /** A directory at a destination is left alone. */
  lemma FolderStill(m: Machine, t: Tree, r: Record, selected: Option<Strategy>, overwrite: bool)
    requires Phys(m, r.dest).Some? && (Get(t, DestOf(m, r)) == Some(Directory) || Get(t, DestOf(m, r)) == Some(Special))
    ensures Still(m, t, r, selected, overwrite) && !Looks(m, t, r)
  {
    hide Referent;
  }

  /** Another record's step leaves a settled record settled, and managed where it is present. */
  lemma OthersSettle(m: Machine, t0: Tree, t: Tree, t2: Tree, rs: seq<Record>, i: nat, j: nat, selected: Option<Strategy>, wi: bool, wj: bool)
    requires Layout(m, t0, rs, selected) && Kept(m, t0, t, rs) && Kept(m, t0, t2, rs) && i < |rs| && j < |rs|
    requires Still(m, t, rs[i], selected, wi)
    requires Done(m, t, t2, rs[j], Decide(rs[j], Assess(m, t, rs[j]), selected, wj).deed)
    ensures Still(m, t2, rs[i], selected, wi)
    ensures Looks(m, t, rs[i]) && rs[i].present ==> Looks(m, t2, rs[i])
  {
    hide Assess; hide Undisturbed; hide Referent; hide ChainClear; hide Done; hide Kept; hide Looks; hide Still;
    SourceKept(m, t0, t, rs, i);
    SourceKept(m, t0, t2, rs, i);
    if DestOf(m, rs[i]) != DestOf(m, rs[j]) {
      OtherDest(m, t, t2, rs[i], rs[j], Decide(rs[j], Assess(m, t, rs[j]), selected, wj).deed);
      ManagedStands(m, t, rs[i]);
      if Get(t2, DestOf(m, rs[i])) == Get(t, DestOf(m, rs[i])) {
        SameStill(m, t, t2, rs[i], selected, wi);
      } else {
        FolderStill(m, t2, rs[i], selected, wi);
      }
    } else {
      SharedDest(m, t, t2, rs[i], rs[j], selected, wi, wj);
    }
  }

  lemma ManagedStands(m: Machine, t: Tree, r: Record)
    requires Phys(m, r.dest).Some?
    ensures Looks(m, t, r) ==> (r.present <==> DestOf(m, r) in t)
    ensures !r.present && DestOf(m, r) !in t ==> Looks(m, t, r)
  {
    hide Referent;
  }

  lemma SameStill(m: Machine, t: Tree, t2: Tree, r: Record, selected: Option<Strategy>, w: bool)
    requires Phys(m, r.dest).Some? && Phys(m, r.src).Some? && Get(t2, DestOf(m, r)) == Get(t, DestOf(m, r))
    requires SourceExists(m, t2, r.src) == SourceExists(m, t, r.src)
    requires Referent(m, t2, Phys(m, r.src).value) == Referent(m, t, Phys(m, r.src).value)
    ensures Still(m, t2, r, selected, w) == Still(m, t, r, selected, w) && Looks(m, t2, r) == Looks(m, t, r)
    ensures Decide(r, Assess(m, t2, r), selected, w) == Decide(r, Assess(m, t, r), selected, w)
  {
    hide Assess; hide Referent;
    AssessSame(m, t, t2, r);
  }

  /** Another destination keeps what it holds, or becomes a directory above this one. */
  lemma OtherDest(m: Machine, t: Tree, t2: Tree, a: Record, b: Record, deed: Deed)
    requires Phys(m, a.dest).Some? && Phys(m, b.dest).Some? && Phys(m, b.src).Some? && Done(m, t, t2, b, deed)
    requires DestOf(m, a) != DestOf(m, b) && DestOf(m, a).Named?
    ensures Get(t2, DestOf(m, a)) == Get(t, DestOf(m, a))
      || (DestOf(m, a) !in t && DestOf(m, a) in m.above(DestOf(m, b)) && deed.Delivers? && Get(t2, DestOf(m, a)) == Some(Directory))
  {
    hide Referent;
  }

  lemma SharedDest(m: Machine, t: Tree, t2: Tree, a: Record, b: Record, selected: Option<Strategy>, wa: bool, wb: bool)
    requires SameDest(a, b) && Phys(m, a.dest).Some? && Phys(m, a.src).Some? && DestNamed(m, a)
    requires Offers(a, selected) && m.lexical(a.dest, TextOf(a.src)) == a.src
    requires SourceExists(m, t2, a.src) == SourceExists(m, t, a.src)
    requires Referent(m, t2, Phys(m, a.src).value) == Referent(m, t, Phys(m, a.src).value)
    requires Still(m, t, a, selected, wa) && Done(m, t, t2, b, Decide(b, Assess(m, t, b), selected, wb).deed)
    ensures Still(m, t2, a, selected, wa)
    ensures Looks(m, t, a) ==> Looks(m, t2, a)
  {
    hide Assess; hide Undisturbed; hide Referent;
    AssessClaim(m, t, a, b);
    AssessClaim(m, t2, a, b);
    SourceFacts(m, t, b);
    var v := Decide(b, Assess(m, t, b), selected, wb);
    match v.deed {
      case Leaves =>
        LeavesAlone(m, t, t2, b);
        AssessSame(m, t, t2, a);
      case Removes => RemovedAbsent(m, t, t2, b);
      case Delivers(s) => DeliveredHealthy(m, t, t2, b, s);
    }
  }

  lemma WrittenLess(m: Machine, t0: Tree, t: Tree, rs: seq<Record>, e: Entry)
    requires Kept(m, t0, t, rs) && !e.Temp? && !Written(m, t0, rs, e)
    ensures !Written(m, t, rs, e)
  {
    assert Get(t, e) == Get(t0, e);
  }

  lemma {:induction false} ChainStays(m: Machine, t0: Tree, t: Tree, rs: seq<Record>, e: Entry, fuel: nat)
    requires Kept(m, t0, t, rs) && ChainClear(m, t0, rs, e, fuel)
    ensures ChainClear(m, t, rs, e, fuel)
    decreases fuel
  {
    hide Written;
    WrittenLess(m, t0, t, rs, e);
    assert Get(t, e) == Get(t0, e);
    match Get(t0, e) {
      case Some(Link(target)) =>
        if fuel > 0 && m.kernel(e, target).Some? {
          ChainStays(m, t0, t, rs, m.kernel(e, target).value, fuel - 1);
        }
      case _ =>
    }
  }

  lemma LayoutKept(m: Machine, t0: Tree, t: Tree, rs: seq<Record>, selected: Option<Strategy>)
    requires Layout(m, t0, rs, selected) && Kept(m, t0, t, rs) && forall i :: 0 <= i < |rs| ==> Footed(m, t, rs[i])
    ensures Layout(m, t, rs, selected)
  {
    hide ChainClear; hide Written; hide Kept; hide Footed;
    forall i | 0 <= i < |rs| ensures ChainClear(m, t, rs, Phys(m, rs[i].src).value, MAX_LINKS) {
      ChainStays(m, t0, t, rs, Phys(m, rs[i].src).value, MAX_LINKS);
    }
  }

  ghost predicate SameTree(a: Tree, b: Tree) {
    forall e: Entry :: !e.Temp? ==> Get(b, e) == Get(a, e)
  }

  ghost predicate StillAll(m: Machine, t: Tree, rs: seq<Record>, selected: Option<Strategy>, overwrite: string -> bool)
    requires Layout(m, t, rs, selected)
  {
    forall i :: 0 <= i < |rs| ==> Still(m, t, rs[i], selected, overwrite(rs[i].id))
  }

  // ------------------------------------------------- what no step may overwrite

  /** Only a present record may overwrite, under the replace policy or when selected for it. */
  predicate Licensed(r: Record, overwrite: bool) {
    r.present && (r.policy.Replace? || (r.policy.Preserve? && overwrite))
  }

  /** An entry the record does not manage and may not overwrite. A file that is no copy of the
      source must stay none, so the source is not to be written either. */
  predicate Unlicensed(m: Machine, t: Tree, rs: seq<Record>, r: Record, overwrite: bool)
    requires Phys(m, r.dest).Some?
  {
    && Assess(m, t, r).kind.Foreign? && !Licensed(r, overwrite)
    && (IsFile(Get(t, DestOf(m, r))) && ByCopy in r.available && Phys(m, r.src).Some? ==>
          ChainClear(m, t, rs, Phys(m, r.src).value, MAX_LINKS))
  }

  /** A directory, a special file, or an entry no record of the plan may overwrite. */
  predicate Guarded(m: Machine, t: Tree, rs: seq<Record>, overwrite: string -> bool, e: Entry) {
    && !e.Temp? && e in t
    && (t[e].Directory? || t[e].Special?
        || forall i :: 0 <= i < |rs| && Phys(m, rs[i].dest) == Some(e) ==> Unlicensed(m, t, rs, rs[i], overwrite(rs[i].id)))
  }

  ghost predicate GuardKept(m: Machine, t0: Tree, t: Tree, rs: seq<Record>, overwrite: string -> bool) {
    forall e: Entry :: Guarded(m, t0, rs, overwrite, e) ==> Get(t, e) == Get(t0, e)
  }

  /** The deed on a guarded destination is to leave it. */
  lemma DeedsAreLicensed(m: Machine, t0: Tree, t: Tree, rs: seq<Record>, i: nat, selected: Option<Strategy>, overwrite: string -> bool)
    requires i < |rs| && Phys(m, rs[i].dest).Some? && Kept(m, t0, t, rs)
    requires Guarded(m, t0, rs, overwrite, DestOf(m, rs[i])) && Get(t, DestOf(m, rs[i])) == Get(t0, DestOf(m, rs[i]))
    ensures DeedOf(m, t, rs[i], selected, overwrite(rs[i].id)).Leaves?
  {
    hide Kept; hide ChainClear; hide Referent; hide Written; hide Looks;
    var r, e := rs[i], DestOf(m, rs[i]);
    if t0[e].Directory? || t0[e].Special? {
      FolderStill(m, t, r, selected, overwrite(r.id));
    } else {
      assert Unlicensed(m, t0, rs, r, overwrite(r.id));
      if t0[e].File? && ByCopy in r.available && Phys(m, r.src).Some? {
        SourceKept(m, t0, t, rs, i);
      }
    }
  }

  lemma GuardStep(m: Machine, t0: Tree, t: Tree, t2: Tree, rs: seq<Record>, i: nat, selected: Option<Strategy>, overwrite: string -> bool)
    requires i < |rs| && Kept(m, t0, t, rs) && GuardKept(m, t0, t, rs, overwrite)
    requires Stepped(m, t, t2, rs[i], DeedOf(m, t, rs[i], selected, overwrite(rs[i].id)))
    ensures GuardKept(m, t0, t2, rs, overwrite)
  {
    hide Kept; hide Guarded; hide DeedOf;
    forall e: Entry | Guarded(m, t0, rs, overwrite, e) ensures Get(t2, e) == Get(t0, e) {
      assert Get(t, e) == Get(t0, e);
      GuardedStands(m, t0, rs, overwrite, e);
      if Phys(m, rs[i].dest) == Some(e) {
        DeedsAreLicensed(m, t0, t, rs, i, selected, overwrite);
      }
    }
  }

  lemma GuardedStands(m: Machine, t: Tree, rs: seq<Record>, overwrite: string -> bool, e: Entry)
    requires Guarded(m, t, rs, overwrite, e)
    ensures e in t && !e.Temp?
  {
  }

  // ----------------------------------------------------- what becomes of each record

  ghost predicate Rooted(m: Machine) {
    forall e: Entry :: NamedAbove(m, e)
  }

  /** What the record's destination holds in the beginning calls for a delivery. */
  predicate Due(m: Machine, t0: Tree, r: Record, selected: Option<Strategy>, overwrite: bool) {
    Phys(m, r.dest).Some? && Decide(r, Assess(m, t0, r), selected, overwrite).deed.Delivers?
  }

  /** One of the first `n` records, due, has its destination beneath an entry. */
  predicate DueBeneath(m: Machine, t0: Tree, rs: seq<Record>, selected: Option<Strategy>, overwrite: string -> bool, e: Entry, n: nat)
    requires AllBound(m, rs) && n <= |rs|
  {
    exists i :: 0 <= i < n && e in m.above(DestOf(m, rs[i])) && Due(m, t0, rs[i], selected, overwrite(rs[i].id))
  }

  /** Record `j`, one of the first `n`, is due and keeps its place. */
  predicate Seated(m: Machine, t0: Tree, rs: seq<Record>, selected: Option<Strategy>, overwrite: string -> bool, j: nat, n: nat)
    requires AllBound(m, rs) && n <= |rs|
  {
    j < n && Due(m, t0, rs[j], selected, overwrite(rs[j].id)) && !DueBeneath(m, t0, rs, selected, overwrite, DestOf(m, rs[j]), n)
  }

  /** Something is delivered above an entry. */
  predicate SeatAbove(m: Machine, t0: Tree, rs: seq<Record>, selected: Option<Strategy>, overwrite: string -> bool, e: Entry, n: nat)
    requires AllBound(m, rs) && n <= |rs|
  {
    exists j :: 0 <= j < n && DestOf(m, rs[j]) in m.above(e) && Seated(m, t0, rs, selected, overwrite, j, n)
  }

  /** A record of something absent: a due one beneath its destination makes that a directory, a
      due one above its destination puts it out of reach. */
  predicate Lost(m: Machine, t0: Tree, rs: seq<Record>, selected: Option<Strategy>, overwrite: string -> bool, k: nat)
    requires AllBound(m, rs) && k < |rs|
  {
    !rs[k].present
    && (DueBeneath(m, t0, rs, selected, overwrite, DestOf(m, rs[k]), |rs|) || SeatAbove(m, t0, rs, selected, overwrite, DestOf(m, rs[k]), |rs|))
  }

  /** A file or link stands here. */
  predicate Sits(t: Tree, e: Entry) {
    e in t && (t[e].File? || t[e].Link?)
  }

  /** A record reported managed: managed if it is present; if it is absent, a directory with a
      due record beneath it, and else missing, and visible unless something is delivered above. */
  ghost predicate Fate(m: Machine, t0: Tree, t: Tree, rs: seq<Record>, selected: Option<Strategy>, overwrite: string -> bool, k: nat, n: nat)
    requires AllBound(m, rs) && k < |rs| && n <= |rs|
  {
    var e := DestOf(m, rs[k]);
    if rs[k].present then Looks(m, t, rs[k]) && Standing(t, m.above(e))
    else if DueBeneath(m, t0, rs, selected, overwrite, e, n) then Get(t, e) == Some(Directory)
    else e !in t && (CanMake(t, m.above(e)) || SeatAbove(m, t0, rs, selected, overwrite, e, n))
  }

  /** A destination holds what it held, or is settled; one to be present has its directories, and
      is delivered as wanted or has become a directory itself; one to be absent is gone or has
      become a directory. */
  ghost predicate History(m: Machine, t0: Tree, t: Tree, rs: seq<Record>, selected: Option<Strategy>, overwrite: string -> bool, k: nat, n: nat)
    requires AllBound(m, rs) && k < |rs| && n <= |rs|
  {
    var e := DestOf(m, rs[k]);
    Get(t, e) == Get(t0, e)
    || (Still(m, t, rs[k], selected, overwrite(rs[k].id))
        && (rs[k].present ==> Standing(t, m.above(e)))
        && ((if rs[k].present then Carries(m, t, rs[k], selected) else e !in t) || DueBeneath(m, t0, rs, selected, overwrite, e, n)))
  }

  /** Delivered by the strategy to deliver by. */
  predicate Carries(m: Machine, t: Tree, r: Record, selected: Option<Strategy>) {
    Manages(m, t, r, Wanted(r, selected))
  }

  lemma CarriesSits(m: Machine, t: Tree, r: Record, selected: Option<Strategy>)
    requires Phys(m, r.dest).Some?
    ensures Carries(m, t, r, selected) ==> Sits(t, DestOf(m, r))
    ensures Carries(m, t, r, selected) <==> Assess(m, t, r).kind == Healthy(Chosen(r, selected))
  {
    hide Referent;
    HealthyIs(m, t, r, Wanted(r, selected));
  }

  /** Entries with a due record beneath them are directories, and who is seated sits. */
  ghost predicate Places(m: Machine, t0: Tree, t: Tree, rs: seq<Record>, selected: Option<Strategy>, overwrite: string -> bool, n: nat)
    requires AllBound(m, rs) && n <= |rs|
  {
    && (forall e: Entry :: DueBeneath(m, t0, rs, selected, overwrite, e, n) ==> Get(t, e) == Some(Directory))
    && (forall j :: 0 <= j < n && Seated(m, t0, rs, selected, overwrite, j, n) ==> Sits(t, DestOf(m, rs[j])))
  }

  ghost predicate SettledUpTo(m: Machine, t0: Tree, t: Tree, rs: seq<Record>, selected: Option<Strategy>, overwrite: string -> bool,
                              rows: seq<Status>, n: nat)
    requires Layout(m, t0, rs, selected) && n <= |rs| && |rows| == n
  {
    && Kept(m, t0, t, rs) && FoldersKept(t0, t)
    && Places(m, t0, t, rs, selected, overwrite, n)
    && (forall k :: 0 <= k < |rs| ==> History(m, t0, t, rs, selected, overwrite, k, n))
    && (forall k :: 0 <= k < n ==> Still(m, t, rs[k], selected, overwrite(rs[k].id)))
    && (forall k :: 0 <= k < n && rows[k].MANAGED? ==> Fate(m, t0, t, rs, selected, overwrite, k, n))
  }

  ghost predicate AnsweredUpTo(m: Machine, t0: Tree, t: Tree, rs: seq<Record>, selected: Option<Strategy>, overwrite: string -> bool,
                               rows: seq<Status>, n: nat)
    requires AllBound(m, rs) && n <= |rs| && |rows| == n
  {
    && (forall k :: 0 <= k < n ==> Answer(m, t0, t, rs, selected, overwrite, k, n, rows[k]))
    && (forall k :: 0 <= k < |rs| ==> SitsOn(m, t0, t, rs[k]))
  }

  /** A file or link where something is to be present stays one. */
  predicate SitsOn(m: Machine, t0: Tree, t: Tree, r: Record)
    requires Phys(m, r.dest).Some?
  {
    r.present && Sits(t0, DestOf(m, r)) ==> Sits(t, DestOf(m, r))
  }

  /** What record `k` reports, by what stood in the beginning, and where that leaves it. */
  ghost predicate Answer(m: Machine, t0: Tree, t: Tree, rs: seq<Record>, selected: Option<Strategy>, overwrite: string -> bool,
                         k: nat, n: nat, row: Status)
    requires AllBound(m, rs) && k < |rs| && n <= |rs|
  {
    var r := rs[k];
    var beneath := DueBeneath(m, t0, rs, selected, overwrite, DestOf(m, r), n);
    && (row.SOURCE_MISSING? <==> r.present && !HasSource(m, t0, r))
    && (row.SOURCE_UNUSABLE? <==> r.present && Unusable(m, t0, r, selected))
    && (Owed(m, t0, r, selected, overwrite(r.id)) ==> (row.MANAGED? <==> !beneath) && (row.MANAGED? ==> Carries(m, t, r, selected)))
    && (r.present && HasSource(m, t0, r) && Satisfied(m, t0, r, selected) ==> row.MANAGED?)
    && (!r.present && (ToRemove(m, t0, r) || Vacant(m, t0, r)) && !beneath ==> row.MANAGED?)
    && (row.MANAGED? || row.SOURCE_MISSING? || row.SOURCE_UNUSABLE? || row == Refusal(r))
  }

  predicate Unusable(m: Machine, t: Tree, r: Record, selected: Option<Strategy>) {
    HasSource(m, t, r) && !Serves(m, t, r, Wanted(r, selected)) && !Satisfied(m, t, r, selected)
  }

  /** What a record reports that leaves alone what it finds. */
  function Refusal(r: Record): Status {
    if r.present && r.policy != Preserve then CONFLICT else OVERRIDE
  }

  ghost predicate FoldersKept(a: Tree, b: Tree) {
    forall e: Entry :: !e.Temp? && Get(a, e) == Some(Directory) ==> Get(b, e) == Some(Directory)
  }

  lemma KeptRefl(m: Machine, t: Tree, rs: seq<Record>, selected: Option<Strategy>, overwrite: string -> bool)
    ensures Kept(m, t, t, rs) && GuardKept(m, t, t, rs, overwrite)
    ensures Layout(m, t, rs, selected) ==>
      AllBound(m, rs) && SettledUpTo(m, t, t, rs, selected, overwrite, [], 0) && AnsweredUpTo(m, t, t, rs, selected, overwrite, [], 0)
  {
    hide Written; hide Guarded; hide Still; hide ChainClear; hide Due; hide Footed;
  }

  /** Directories stay: no deed is done to one. */
  lemma FoldersStay(m: Machine, t: Tree, t2: Tree, r: Record, selected: Option<Strategy>, overwrite: bool, e: Entry)
    requires Phys(m, r.dest).Some? && Phys(m, r.src).Some? && Done(m, t, t2, r, Decide(r, Assess(m, t, r), selected, overwrite).deed)
    requires !e.Temp? && Get(t, e) == Some(Directory)
    ensures Get(t2, e) == Some(Directory)
  {
    hide Referent; hide Assess; hide Decide;
    if e == DestOf(m, r) {
      FolderStill(m, t, r, selected, overwrite);
    }
  }

  lemma StandingStays(m: Machine, t: Tree, t2: Tree, r: Record, selected: Option<Strategy>, overwrite: bool, e: Entry)
    requires Phys(m, r.dest).Some? && Phys(m, r.src).Some? && Done(m, t, t2, r, Decide(r, Assess(m, t, r), selected, overwrite).deed)
    requires NamedAbove(m, e) && Standing(t, m.above(e))
    ensures Standing(t2, m.above(e))
  {
    hide Done; hide Assess; hide Decide;
    forall x | x in m.above(e) ensures Get(t2, x) == Some(Directory) {
      assert Get(t, x) == Some(Directory);
      FoldersStay(m, t, t2, r, selected, overwrite, x);
    }
  }

  lemma FoldersStep(m: Machine, t0: Tree, t: Tree, t2: Tree, r: Record, selected: Option<Strategy>, overwrite: bool)
    requires Phys(m, r.dest).Some? && Phys(m, r.src).Some? && Done(m, t, t2, r, Decide(r, Assess(m, t, r), selected, overwrite).deed)
    requires FoldersKept(t0, t)
    ensures FoldersKept(t0, t2)
  {
    hide Done; hide Assess; hide Decide;
    forall e: Entry | !e.Temp? && Get(t0, e) == Some(Directory) ensures Get(t2, e) == Some(Directory) {
      FoldersStay(m, t, t2, r, selected, overwrite, e);
    }
  }

  /** Sources serve the same throughout, and an unchanged destination is what it was. */
  lemma SameServes(m: Machine, t0: Tree, t: Tree, rs: seq<Record>, i: nat, s: Strategy)
    requires Kept(m, t0, t, rs) && i < |rs| && Phys(m, rs[i].dest).Some? && Phys(m, rs[i].src).Some?
    requires ChainClear(m, t0, rs, Phys(m, rs[i].src).value, MAX_LINKS)
    ensures HasSource(m, t, rs[i]) == HasSource(m, t0, rs[i]) && Serves(m, t, rs[i], s) == Serves(m, t0, rs[i], s)
    ensures Get(t, DestOf(m, rs[i])) == Get(t0, DestOf(m, rs[i])) ==>
      (forall x :: Manages(m, t, rs[i], x) == Manages(m, t0, rs[i], x))
      && Vacant(m, t, rs[i]) == Vacant(m, t0, rs[i]) && Strange(m, t, rs[i]) == Strange(m, t0, rs[i])
  {
    hide Kept; hide ChainClear; hide Referent;
    SourceKept(m, t0, t, rs, i);
  }

  lemma OwedDue(m: Machine, t: Tree, r: Record, selected: Option<Strategy>, overwrite: bool)
    requires Phys(m, r.dest).Some?
    ensures Due(m, t, r, selected, overwrite) <==> Owed(m, t, r, selected, overwrite)
  {
    hide Owed; hide Decide; hide Assess; hide ToRemove; hide Vacant; hide Satisfied; hide Serves; hide HasSource;
    VerdictExact(m, t, r, selected, overwrite);
    OwedServes(m, t, r, selected, overwrite);
  }

  lemma OwedServes(m: Machine, t: Tree, r: Record, selected: Option<Strategy>, overwrite: bool)
    ensures Owed(m, t, r, selected, overwrite) ==> r.present && HasSource(m, t, r)
  {
    hide HasSource; hide Strange; hide Vacant; hide ManagedOtherwise;
  }

  lemma NamedOf(m: Machine, e: Entry)
    requires Rooted(m)
    ensures NamedAbove(m, e)
  {
  }

  lemma StandingAbove(m: Machine, t: Tree, t2: Tree, r: Record, deed: Deed, e: Entry)
    requires Phys(m, r.dest).Some? && Phys(m, r.src).Some? && Done(m, t, t2, r, deed) && deed.Delivers?
    requires NamedAbove(m, DestOf(m, r)) && e in m.above(DestOf(m, r))
    ensures Standing(t2, m.above(e)) && Get(t2, e) == Some(Directory)
  {
    hide Referent; hide Undisturbed;
  }

  lemma DeliveredSits(m: Machine, t: Tree, t2: Tree, r: Record, deed: Deed)
    requires Phys(m, r.dest).Some? && Phys(m, r.src).Some? && Done(m, t, t2, r, deed) && deed.Delivers?
    ensures Sits(t2, DestOf(m, r)) && Standing(t2, m.above(DestOf(m, r))) && CanMake(t, m.above(DestOf(m, r)))
  {
    hide Referent; hide Undisturbed;
  }

  /** What the step of record `n` is about: it delivers only if the record was due, and a due
      record has its directories afterwards and sits or is a directory itself. */
  lemma DueStep(m: Machine, t0: Tree, t: Tree, t2: Tree, rs: seq<Record>, selected: Option<Strategy>, overwrite: string -> bool, n: nat)
    requires Layout(m, t0, rs, selected) && Rooted(m) && n < |rs| && Kept(m, t0, t, rs)
    requires History(m, t0, t, rs, selected, overwrite, n, n)
    requires Done(m, t, t2, rs[n], Decide(rs[n], Assess(m, t, rs[n]), selected, overwrite(rs[n].id)).deed)
    ensures Decide(rs[n], Assess(m, t, rs[n]), selected, overwrite(rs[n].id)).deed.Delivers? ==> Due(m, t0, rs[n], selected, overwrite(rs[n].id))
    ensures Due(m, t0, rs[n], selected, overwrite(rs[n].id)) ==>
      rs[n].present && Standing(t2, m.above(DestOf(m, rs[n])))
      && (Sits(t2, DestOf(m, rs[n])) || DueBeneath(m, t0, rs, selected, overwrite, DestOf(m, rs[n]), n))
    ensures Due(m, t0, rs[n], selected, overwrite(rs[n].id)) ==> CanMake(t, m.above(DestOf(m, rs[n])))
  {
    hide Assess; hide Referent; hide ChainClear; hide Kept; hide Decide; hide Done; hide Footed; hide Rooted;
    var e := DestOf(m, rs[n]);
    DuePresent(m, t0, rs[n], selected, overwrite(rs[n].id));
    var deed := Decide(rs[n], Assess(m, t, rs[n]), selected, overwrite(rs[n].id)).deed;
    NamedOf(m, e);
    CarriesSits(m, t, rs[n], selected);
    if Get(t, e) == Get(t0, e) {
      SourceKept(m, t0, t, rs, n);
      SameStill(m, t0, t, rs[n], selected, overwrite(rs[n].id));
      if deed.Delivers? {
        DeliveredSits(m, t, t2, rs[n], deed);
      }
    } else {
      LeavesAlone(m, t, t2, rs[n]);
      assert Get(t2, e) == Get(t, e);
      if rs[n].present {
        StandingStays(m, t, t2, rs[n], selected, overwrite(rs[n].id), e);
      }
    }
  }

  lemma DuePresent(m: Machine, t: Tree, r: Record, selected: Option<Strategy>, overwrite: bool)
    requires Phys(m, r.dest).Some?
    ensures Due(m, t, r, selected, overwrite) ==> r.present
  {
    hide Assess;
  }

  lemma BeneathStep(m: Machine, t0: Tree, rs: seq<Record>, selected: Option<Strategy>, overwrite: string -> bool, e: Entry, n: nat)
    requires AllBound(m, rs) && n < |rs|
    ensures DueBeneath(m, t0, rs, selected, overwrite, e, n + 1) ==
      (DueBeneath(m, t0, rs, selected, overwrite, e, n) || (e in m.above(DestOf(m, rs[n])) && Due(m, t0, rs[n], selected, overwrite(rs[n].id))))
  {
    hide Due;
  }

  /** A file or link at a destination that is present stays one, but for a due record beneath. */
  lemma SitsStep(m: Machine, t0: Tree, t: Tree, t2: Tree, rs: seq<Record>, selected: Option<Strategy>, overwrite: string -> bool, k: nat, n: nat)
    requires Layout(m, t0, rs, selected) && k < |rs| && n < |rs| && rs[k].present && Sits(t, DestOf(m, rs[k]))
    requires Done(m, t, t2, rs[n], Decide(rs[n], Assess(m, t, rs[n]), selected, overwrite(rs[n].id)).deed)
    ensures Sits(t2, DestOf(m, rs[k]))
  {
    hide Assess; hide Referent; hide ChainClear; hide Done; hide Footed;
    var deed := Decide(rs[n], Assess(m, t, rs[n]), selected, overwrite(rs[n].id)).deed;
    if DestOf(m, rs[k]) != DestOf(m, rs[n]) {
      OtherDest(m, t, t2, rs[k], rs[n], deed);
    } else {
      assert SameDest(rs[k], rs[n]);
      if deed.Delivers? {
        DeliveredSits(m, t, t2, rs[n], deed);
      } else {
        PresentStays(m, t, t2, rs[n], deed, selected, overwrite(rs[n].id));
      }
    }
  }

  /** What is delivered as wanted stays so. */
  lemma CarriesStep(m: Machine, t0: Tree, t: Tree, t2: Tree, rs: seq<Record>, selected: Option<Strategy>, overwrite: string -> bool, k: nat, n: nat)
    requires Layout(m, t0, rs, selected) && k < |rs| && n < |rs| && rs[k].present && Kept(m, t0, t, rs) && Kept(m, t0, t2, rs)
    requires Carries(m, t, rs[k], selected)
    requires Done(m, t, t2, rs[n], Decide(rs[n], Assess(m, t, rs[n]), selected, overwrite(rs[n].id)).deed)
    ensures Carries(m, t2, rs[k], selected)
  {
    hide Assess; hide Referent; hide ChainClear; hide Done; hide Footed; hide Carries; hide Kept;
    var deed := Decide(rs[n], Assess(m, t, rs[n]), selected, overwrite(rs[n].id)).deed;
    SourceKept(m, t0, t, rs, k);
    SourceKept(m, t0, t2, rs, k);
    CarriesSits(m, t, rs[k], selected);
    CarriesSits(m, t2, rs[k], selected);
    if DestOf(m, rs[k]) != DestOf(m, rs[n]) {
      OtherDest(m, t, t2, rs[k], rs[n], deed);
    } else {
      assert SameDest(rs[k], rs[n]);
      AssessClaim(m, t, rs[k], rs[n]);
      PresentStays(m, t, t2, rs[n], deed, selected, overwrite(rs[n].id));
    }
    AssessSame(m, t, t2, rs[k]);
  }

  lemma PlacesStep(m: Machine, t0: Tree, t: Tree, t2: Tree, rs: seq<Record>, selected: Option<Strategy>, overwrite: string -> bool, n: nat)
    requires Layout(m, t0, rs, selected) && Rooted(m) && n < |rs| && Kept(m, t0, t, rs)
    requires Places(m, t0, t, rs, selected, overwrite, n) && History(m, t0, t, rs, selected, overwrite, n, n)
    requires Done(m, t, t2, rs[n], Decide(rs[n], Assess(m, t, rs[n]), selected, overwrite(rs[n].id)).deed)
    ensures Places(m, t0, t2, rs, selected, overwrite, n + 1)
  {
    hide Assess; hide Referent; hide ChainClear; hide Kept; hide Decide; hide Done; hide Footed; hide Rooted; hide History; hide Due; hide DueBeneath;
    hide Sits;
    DueStep(m, t0, t, t2, rs, selected, overwrite, n);
    forall e: Entry | DueBeneath(m, t0, rs, selected, overwrite, e, n + 1) ensures Get(t2, e) == Some(Directory) {
      BeneathStep(m, t0, rs, selected, overwrite, e, n);
      if DueBeneath(m, t0, rs, selected, overwrite, e, n) {
        BeneathNamed(m, t0, rs, selected, overwrite, e, n);
        FoldersStay(m, t, t2, rs[n], selected, overwrite(rs[n].id), e);
      }
    }
    forall j | 0 <= j < n + 1 && Seated(m, t0, rs, selected, overwrite, j, n + 1) ensures Sits(t2, DestOf(m, rs[j])) {
      BeneathStep(m, t0, rs, selected, overwrite, DestOf(m, rs[j]), n);
      if j < n {
        DuePresent(m, t0, rs[j], selected, overwrite(rs[j].id));
        SitsStep(m, t0, t, t2, rs, selected, overwrite, j, n);
      }
    }
  }

  lemma BeneathNamed(m: Machine, t0: Tree, rs: seq<Record>, selected: Option<Strategy>, overwrite: string -> bool, e: Entry, n: nat)
    requires AllBound(m, rs) && n <= |rs| && Rooted(m) && DueBeneath(m, t0, rs, selected, overwrite, e, n)
    ensures e.Named?
  {
    hide Due;
    var i :| 0 <= i < n && e in m.above(DestOf(m, rs[i]));
    assert NamedAbove(m, DestOf(m, rs[i]));
  }

  /** The step of record `n` and the history of record `k`. */
  lemma HistoryStep(m: Machine, t0: Tree, t: Tree, t2: Tree, rs: seq<Record>, selected: Option<Strategy>, overwrite: string -> bool, k: nat, n: nat)
    requires Layout(m, t0, rs, selected) && Rooted(m) && k < |rs| && n < |rs| && Kept(m, t0, t, rs) && Kept(m, t0, t2, rs)
    requires History(m, t0, t, rs, selected, overwrite, k, n) && History(m, t0, t, rs, selected, overwrite, n, n)
    requires Done(m, t, t2, rs[n], Decide(rs[n], Assess(m, t, rs[n]), selected, overwrite(rs[n].id)).deed)
    ensures History(m, t0, t2, rs, selected, overwrite, k, n + 1)
  {
    hide Assess; hide Undisturbed; hide Referent; hide ChainClear; hide Done; hide Kept; hide Looks; hide Decide; hide Still; hide Standing; hide Rooted;
    hide Footed; hide Due; hide DueBeneath; hide Sits;
    var e := DestOf(m, rs[k]);
    NamedOf(m, e);
    BeneathStep(m, t0, rs, selected, overwrite, e, n);
    if Get(t, e) != Get(t0, e) {
      OthersSettle(m, t0, t, t2, rs, k, n, selected, overwrite(rs[k].id), overwrite(rs[n].id));
      if rs[k].present {
        StandingStays(m, t, t2, rs[n], selected, overwrite(rs[n].id), e);
        if Carries(m, t, rs[k], selected) {
          CarriesStep(m, t0, t, t2, rs, selected, overwrite, k, n);
        }
      } else if e !in t && !DueBeneath(m, t0, rs, selected, overwrite, e, n + 1) {
        MissingStep(m, t0, t, t2, rs, selected, overwrite, k, n);
      }
    } else if Get(t2, e) != Get(t, e) {
      ChangedHistory(m, t0, t, t2, rs, selected, overwrite, k, n);
    }
  }

  lemma ChangedHistory(m: Machine, t0: Tree, t: Tree, t2: Tree, rs: seq<Record>, selected: Option<Strategy>, overwrite: string -> bool, k: nat, n: nat)
    requires Layout(m, t0, rs, selected) && Rooted(m) && k < |rs| && n < |rs| && Kept(m, t0, t, rs) && Kept(m, t0, t2, rs)
    requires History(m, t0, t, rs, selected, overwrite, n, n)
    requires Get(t, DestOf(m, rs[k])) == Get(t0, DestOf(m, rs[k])) && Get(t2, DestOf(m, rs[k])) != Get(t, DestOf(m, rs[k]))
    requires Done(m, t, t2, rs[n], Decide(rs[n], Assess(m, t, rs[n]), selected, overwrite(rs[n].id)).deed)
    ensures History(m, t0, t2, rs, selected, overwrite, k, n + 1)
  {
    hide Assess; hide Undisturbed; hide Referent; hide ChainClear; hide Done; hide Kept; hide Looks; hide Decide; hide Still; hide Standing; hide Rooted;
    hide Footed; hide Due; hide DueBeneath; hide Sits;
    var e := DestOf(m, rs[k]);
    BeneathStep(m, t0, rs, selected, overwrite, e, n);
    if e == DestOf(m, rs[n]) {
      OwnHistory(m, t0, t, t2, rs, selected, overwrite, k, n);
    } else {
      OtherDest(m, t, t2, rs[k], rs[n], Decide(rs[n], Assess(m, t, rs[n]), selected, overwrite(rs[n].id)).deed);
      FolderStill(m, t2, rs[k], selected, overwrite(rs[k].id));
      NamedOf(m, DestOf(m, rs[n]));
      StandingAbove(m, t, t2, rs[n], Decide(rs[n], Assess(m, t, rs[n]), selected, overwrite(rs[n].id)).deed, e);
      DueStep(m, t0, t, t2, rs, selected, overwrite, n);
    }
  }

  /** A destination changed by a record of its own claim is settled. */
  lemma OwnHistory(m: Machine, t0: Tree, t: Tree, t2: Tree, rs: seq<Record>, selected: Option<Strategy>, overwrite: string -> bool, k: nat, n: nat)
    requires Layout(m, t0, rs, selected) && k < |rs| && n < |rs| && Kept(m, t0, t, rs) && Kept(m, t0, t2, rs)
    requires DestOf(m, rs[k]) == DestOf(m, rs[n]) && Get(t2, DestOf(m, rs[k])) != Get(t, DestOf(m, rs[k]))
    requires Done(m, t, t2, rs[n], Decide(rs[n], Assess(m, t, rs[n]), selected, overwrite(rs[n].id)).deed)
    ensures Still(m, t2, rs[k], selected, overwrite(rs[k].id))
    ensures rs[k].present ==> Standing(t2, m.above(DestOf(m, rs[k]))) && Carries(m, t2, rs[k], selected)
    ensures !rs[k].present ==> DestOf(m, rs[k]) !in t2
  {
    hide Manages; hide Assess; hide Undisturbed; hide Referent; hide ChainClear; hide Kept; hide Looks; hide Written; hide Footed;
    SourceKept(m, t0, t, rs, n);
    SourceKept(m, t0, t2, rs, n);
    SourceFacts(m, t, rs[n]);
    AssessClaim(m, t2, rs[k], rs[n]);
    CarriesSits(m, t2, rs[k], selected);
    var v := Decide(rs[n], Assess(m, t, rs[n]), selected, overwrite(rs[n].id));
    match v.deed {
      case Leaves => LeavesAlone(m, t, t2, rs[n]);
      case Removes =>
        RemovedAbsent(m, t, t2, rs[n]);
        KindIs(m, t2, rs[n]);
      case Delivers(s) =>
        DeliveredHealthy(m, t, t2, rs[n], s);
        DeliveredSits(m, t, t2, rs[n], v.deed);
    }
  }

  /** The step of record `n` and a record reported managed before. */
  lemma FateStep(m: Machine, t0: Tree, t: Tree, t2: Tree, rs: seq<Record>, selected: Option<Strategy>, overwrite: string -> bool, k: nat, n: nat)
    requires Layout(m, t0, rs, selected) && Rooted(m) && k < n < |rs| && Kept(m, t0, t, rs) && Kept(m, t0, t2, rs)
    requires Fate(m, t0, t, rs, selected, overwrite, k, n) && Still(m, t, rs[k], selected, overwrite(rs[k].id))
    requires Places(m, t0, t, rs, selected, overwrite, n) && Places(m, t0, t2, rs, selected, overwrite, n + 1)
    requires History(m, t0, t, rs, selected, overwrite, n, n)
    requires Done(m, t, t2, rs[n], Decide(rs[n], Assess(m, t, rs[n]), selected, overwrite(rs[n].id)).deed)
    ensures Fate(m, t0, t2, rs, selected, overwrite, k, n + 1)
  {
    hide Assess; hide Undisturbed; hide Referent; hide ChainClear; hide Done; hide Kept; hide Looks; hide Decide; hide Still; hide Standing; hide Rooted;
    hide History; hide Footed; hide Places; hide DueBeneath; hide SeatAbove; hide CanMake;
    if rs[k].present {
      OthersSettle(m, t0, t, t2, rs, k, n, selected, overwrite(rs[k].id), overwrite(rs[n].id));
      NamedOf(m, DestOf(m, rs[k]));
      StandingStays(m, t, t2, rs[n], selected, overwrite(rs[n].id), DestOf(m, rs[k]));
    } else {
      AbsentFate(m, t0, t, t2, rs, selected, overwrite, k, n);
    }
  }

  /** A missing destination becomes a directory exactly in the step of a due record beneath it,
      and goes out of sight only in the step of a due record above it. */
  lemma AbsentFate(m: Machine, t0: Tree, t: Tree, t2: Tree, rs: seq<Record>, selected: Option<Strategy>, overwrite: string -> bool, k: nat, n: nat)
    requires Layout(m, t0, rs, selected) && Rooted(m) && k < n < |rs| && Kept(m, t0, t, rs)
    requires Fate(m, t0, t, rs, selected, overwrite, k, n) && !rs[k].present
    requires Places(m, t0, t, rs, selected, overwrite, n) && Places(m, t0, t2, rs, selected, overwrite, n + 1)
    requires History(m, t0, t, rs, selected, overwrite, n, n)
    requires Done(m, t, t2, rs[n], Decide(rs[n], Assess(m, t, rs[n]), selected, overwrite(rs[n].id)).deed)
    ensures Fate(m, t0, t2, rs, selected, overwrite, k, n + 1)
  {
    hide Assess; hide Undisturbed; hide Referent; hide ChainClear; hide Done; hide Kept; hide Looks; hide Decide; hide Still; hide Standing; hide Rooted;
    hide History; hide Footed; hide DueBeneath; hide SeatAbove; hide CanMake; hide Due; hide Seated;
    var e := DestOf(m, rs[k]);
    BeneathStep(m, t0, rs, selected, overwrite, e, n);
    if !DueBeneath(m, t0, rs, selected, overwrite, e, n + 1) {
      MissingStep(m, t0, t, t2, rs, selected, overwrite, k, n);
      if CanMake(t, m.above(e)) {
        if !CanMake(t2, m.above(e)) {
          HiddenBySeat(m, t0, t, t2, rs, selected, overwrite, e, n);
        }
      } else {
        SeatStays(m, t0, t, t2, rs, selected, overwrite, e, n);
      }
    }
  }

  lemma MissingStep(m: Machine, t0: Tree, t: Tree, t2: Tree, rs: seq<Record>, selected: Option<Strategy>, overwrite: string -> bool, k: nat, n: nat)
    requires Layout(m, t0, rs, selected) && Rooted(m) && k < |rs| && n < |rs| && Kept(m, t0, t, rs) && !rs[k].present && DestOf(m, rs[k]) !in t
    requires History(m, t0, t, rs, selected, overwrite, n, n) && !DueBeneath(m, t0, rs, selected, overwrite, DestOf(m, rs[k]), n + 1)
    requires Done(m, t, t2, rs[n], Decide(rs[n], Assess(m, t, rs[n]), selected, overwrite(rs[n].id)).deed)
    ensures DestOf(m, rs[k]) !in t2
  {
    hide Assess; hide Undisturbed; hide Referent; hide ChainClear; hide Done; hide Kept; hide Decide; hide Still; hide Rooted; hide Standing;
    hide History; hide Footed; hide DueBeneath; hide Due;
    var e := DestOf(m, rs[k]);
    var deed := Decide(rs[n], Assess(m, t, rs[n]), selected, overwrite(rs[n].id)).deed;
    BeneathStep(m, t0, rs, selected, overwrite, e, n);
    DueStep(m, t0, t, t2, rs, selected, overwrite, n);
    if e == DestOf(m, rs[n]) {
      assert SameDest(rs[k], rs[n]) && e.Named?;
      AbsentLeft(m, t, rs[n], selected, overwrite(rs[n].id));
      LeavesAlone(m, t, t2, rs[n]);
      assert Get(t2, e) == Get(t, e);
    } else {
      OtherDest(m, t, t2, rs[k], rs[n], deed);
    }
  }

  lemma AbsentLeft(m: Machine, t: Tree, r: Record, selected: Option<Strategy>, overwrite: bool)
    requires Phys(m, r.dest).Some? && DestOf(m, r) !in t && !r.present
    ensures Decide(r, Assess(m, t, r), selected, overwrite).deed.Leaves?
  {
    hide Referent;
  }

  /** What puts an entry out of sight is a delivery above it, which keeps its place. */
  lemma HiddenBySeat(m: Machine, t0: Tree, t: Tree, t2: Tree, rs: seq<Record>, selected: Option<Strategy>, overwrite: string -> bool, e: Entry, n: nat)
    requires Layout(m, t0, rs, selected) && Rooted(m) && n < |rs| && Kept(m, t0, t, rs)
    requires CanMake(t, m.above(e)) && !CanMake(t2, m.above(e))
    requires History(m, t0, t, rs, selected, overwrite, n, n) && Places(m, t0, t2, rs, selected, overwrite, n + 1)
    requires Done(m, t, t2, rs[n], Decide(rs[n], Assess(m, t, rs[n]), selected, overwrite(rs[n].id)).deed)
    ensures SeatAbove(m, t0, rs, selected, overwrite, e, n + 1)
  {
    hide Assess; hide Referent; hide ChainClear; hide Kept; hide Decide; hide Rooted; hide Footed; hide History; hide DueBeneath; hide Due; hide Done;
    DueStep(m, t0, t, t2, rs, selected, overwrite, n);
    NamedOf(m, e);
    var deed := Decide(rs[n], Assess(m, t, rs[n]), selected, overwrite(rs[n].id)).deed;
    var d := DestOf(m, rs[n]);
    if !(deed.Delivers? && d in m.above(e)) {
      StillMakes(m, t, t2, rs[n], deed, e);
    } else {
      DeliveredSits(m, t, t2, rs[n], deed);
      assert Seated(m, t0, rs, selected, overwrite, n, n + 1);
    }
  }

  lemma SeatStays(m: Machine, t0: Tree, t: Tree, t2: Tree, rs: seq<Record>, selected: Option<Strategy>, overwrite: string -> bool, e: Entry, n: nat)
    requires Layout(m, t0, rs, selected) && Rooted(m) && n < |rs| && Kept(m, t0, t, rs) && SeatAbove(m, t0, rs, selected, overwrite, e, n)
    requires History(m, t0, t, rs, selected, overwrite, n, n) && Places(m, t0, t, rs, selected, overwrite, n)
    requires Done(m, t, t2, rs[n], Decide(rs[n], Assess(m, t, rs[n]), selected, overwrite(rs[n].id)).deed)
    ensures SeatAbove(m, t0, rs, selected, overwrite, e, n + 1)
  {
    hide Assess; hide Referent; hide ChainClear; hide Kept; hide Decide; hide Rooted; hide Footed; hide History; hide DueBeneath; hide Due; hide Done;
    var j :| 0 <= j < n && DestOf(m, rs[j]) in m.above(e) && Seated(m, t0, rs, selected, overwrite, j, n);
    DueStep(m, t0, t, t2, rs, selected, overwrite, n);
    BeneathStep(m, t0, rs, selected, overwrite, DestOf(m, rs[j]), n);
    assert Sits(t, DestOf(m, rs[j]));
    assert Seated(m, t0, rs, selected, overwrite, j, n + 1);
  }

  /** An answer given stays right: nothing due later stands beneath what was delivered. */
  lemma AnswerStep(m: Machine, t0: Tree, t: Tree, t2: Tree, rs: seq<Record>, selected: Option<Strategy>, overwrite: string -> bool,
                   k: nat, n: nat, row: Status)
    requires Layout(m, t0, rs, selected) && Rooted(m) && k < n < |rs| && Kept(m, t0, t, rs) && Kept(m, t0, t2, rs)
    requires Answer(m, t0, t, rs, selected, overwrite, k, n, row) && History(m, t0, t, rs, selected, overwrite, n, n)
    requires Done(m, t, t2, rs[n], Decide(rs[n], Assess(m, t, rs[n]), selected, overwrite(rs[n].id)).deed)
    ensures Answer(m, t0, t2, rs, selected, overwrite, k, n + 1, row)
  {
    hide Assess; hide Referent; hide ChainClear; hide Kept; hide Decide; hide Done; hide Footed; hide Rooted; hide History; hide Due; hide DueBeneath;
    hide HasSource; hide Satisfied; hide Serves; hide ToRemove; hide Vacant; hide Owed; hide Carries; hide Unusable;
    BeneathStep(m, t0, rs, selected, overwrite, DestOf(m, rs[k]), n);
    DueStep(m, t0, t, t2, rs, selected, overwrite, n);
    if Owed(m, t0, rs[k], selected, overwrite(rs[k].id)) && row.MANAGED? {
      OwedServes(m, t0, rs[k], selected, overwrite(rs[k].id));
      CarriesStep(m, t0, t, t2, rs, selected, overwrite, k, n);
      CarriesSits(m, t, rs[k], selected);
    }
  }

  lemma ManagesSits(m: Machine, t: Tree, r: Record)
    requires Phys(m, r.dest).Some? && !Sits(t, DestOf(m, r))
    ensures (forall s :: !Manages(m, t, r, s)) && !Strange(m, t, r)
  {
    hide Referent;
  }

  lemma CopyServes(m: Machine, t: Tree, r: Record, selected: Option<Strategy>)
    requires Carries(m, t, r, selected) && HasSource(m, t, r)
    ensures Serves(m, t, r, Wanted(r, selected))
  {
    hide Referent;
  }

  /** Record `n` finds its destination as it was in the beginning. */
  lemma AnswerSame(m: Machine, t0: Tree, t: Tree, t2: Tree, rs: seq<Record>, selected: Option<Strategy>, overwrite: string -> bool, n: nat)
    requires Layout(m, t0, rs, selected) && Rooted(m) && n < |rs| && Kept(m, t0, t, rs) && Kept(m, t0, t2, rs)
    requires Get(t, DestOf(m, rs[n])) == Get(t0, DestOf(m, rs[n])) && Places(m, t0, t, rs, selected, overwrite, n)
    requires Done(m, t, t2, rs[n], Decide(rs[n], Assess(m, t, rs[n]), selected, overwrite(rs[n].id)).deed)
    ensures Answer(m, t0, t2, rs, selected, overwrite, n, n + 1, Decide(rs[n], Assess(m, t, rs[n]), selected, overwrite(rs[n].id)).status)
  {
    hide Assess; hide Referent; hide ChainClear; hide Kept; hide Decide; hide Done; hide Footed; hide Rooted; hide Due; hide DueBeneath;
    hide Manages; hide HasSource; hide Serves; hide Strange; hide Seated; hide Carries;
    var r, e := rs[n], DestOf(m, rs[n]);
    NamedOf(m, e);
    BeneathStep(m, t0, rs, selected, overwrite, e, n);
    SameServes(m, t0, t, rs, n, Wanted(r, selected));
    VerdictExact(m, t, r, selected, overwrite(r.id));
    if DueBeneath(m, t0, rs, selected, overwrite, e, n) {
      ManagesSits(m, t0, r);
    }
    if Owed(m, t0, r, selected, overwrite(r.id)) {
      OwedServes(m, t0, r, selected, overwrite(r.id));
      OwedDelivers(m, t0, t, t2, rs, selected, n);
    }
  }

  lemma OwedDelivers(m: Machine, t0: Tree, t: Tree, t2: Tree, rs: seq<Record>, selected: Option<Strategy>, n: nat)
    requires Layout(m, t0, rs, selected) && n < |rs| && Kept(m, t0, t, rs) && Kept(m, t0, t2, rs) && rs[n].present && HasSource(m, t, rs[n])
    requires Done(m, t, t2, rs[n], Delivers(Wanted(rs[n], selected)))
    ensures Carries(m, t2, rs[n], selected)
  {
    hide Assess; hide Referent; hide ChainClear; hide Kept; hide Done; hide Footed; hide Carries;
    SourceKept(m, t0, t, rs, n);
    SourceKept(m, t0, t2, rs, n);
    CarriesSits(m, t2, rs[n], selected);
    DeliveredHealthy(m, t, t2, rs[n], Wanted(rs[n], selected));
  }

  /** Record `n` finds its destination changed by the steps before it. */
  lemma AnswerChanged(m: Machine, t0: Tree, t: Tree, t2: Tree, rs: seq<Record>, selected: Option<Strategy>, overwrite: string -> bool, n: nat)
    requires Layout(m, t0, rs, selected) && Rooted(m) && n < |rs| && Kept(m, t0, t, rs) && Kept(m, t0, t2, rs)
    requires Get(t, DestOf(m, rs[n])) != Get(t0, DestOf(m, rs[n]))
    requires History(m, t0, t, rs, selected, overwrite, n, n) && Places(m, t0, t, rs, selected, overwrite, n) && SitsOn(m, t0, t, rs[n])
    requires Done(m, t, t2, rs[n], Decide(rs[n], Assess(m, t, rs[n]), selected, overwrite(rs[n].id)).deed)
    ensures Answer(m, t0, t2, rs, selected, overwrite, n, n + 1, Decide(rs[n], Assess(m, t, rs[n]), selected, overwrite(rs[n].id)).status)
  {
    hide Assess; hide Referent; hide ChainClear; hide Kept; hide Decide; hide Done; hide Footed; hide Rooted; hide Due; hide DueBeneath;
    hide HasSource; hide Serves; hide Strange; hide Seated; hide Standing; hide HoldsBy;
    var r, e := rs[n], DestOf(m, rs[n]);
    var ow := overwrite(r.id);
    NamedOf(m, e);
    BeneathStep(m, t0, rs, selected, overwrite, e, n);
    SameServes(m, t0, t, rs, n, Wanted(r, selected));
    VerdictExact(m, t, r, selected, ow);
    CarriesSits(m, t, r, selected);
    OwedServes(m, t0, r, selected, ow);
    if DueBeneath(m, t0, rs, selected, overwrite, e, n) {
      ManagesSits(m, t, r);
      if !Sits(t0, e) {
        ManagesSits(m, t0, r);
      }
    } else if r.present {
      if HasSource(m, t, r) {
        CopyServes(m, t, r, selected);
      }
      CarriesStep(m, t0, t, t2, rs, selected, overwrite, n, n);
    }
  }

  /** The answer of record `n` when its turn comes. */
  lemma AnswerNew(m: Machine, t0: Tree, t: Tree, t2: Tree, rs: seq<Record>, selected: Option<Strategy>, overwrite: string -> bool, n: nat)
    requires Layout(m, t0, rs, selected) && Rooted(m) && n < |rs| && Kept(m, t0, t, rs) && Kept(m, t0, t2, rs)
    requires History(m, t0, t, rs, selected, overwrite, n, n) && Places(m, t0, t, rs, selected, overwrite, n) && SitsOn(m, t0, t, rs[n])
    requires Done(m, t, t2, rs[n], Decide(rs[n], Assess(m, t, rs[n]), selected, overwrite(rs[n].id)).deed)
    ensures Answer(m, t0, t2, rs, selected, overwrite, n, n + 1, Decide(rs[n], Assess(m, t, rs[n]), selected, overwrite(rs[n].id)).status)
  {
    hide Layout; hide Kept; hide History; hide Places; hide SitsOn; hide Done; hide Answer; hide Rooted; hide Decide; hide Assess;
    LayoutBound(m, t0, rs, selected);
    if Get(t, DestOf(m, rs[n])) == Get(t0, DestOf(m, rs[n])) {
      AnswerSame(m, t0, t, t2, rs, selected, overwrite, n);
    } else {
      AnswerChanged(m, t0, t, t2, rs, selected, overwrite, n);
    }
  }

  lemma SettledAll(m: Machine, t0: Tree, t: Tree, rs: seq<Record>, selected: Option<Strategy>, overwrite: string -> bool, rows: seq<Status>)
    requires Layout(m, t0, rs, selected) && Rooted(m) && |rows| == |rs| && SettledUpTo(m, t0, t, rs, selected, overwrite, rows, |rs|)
    ensures forall i :: 0 <= i < |rs| ==> Phys(m, rs[i].dest).Some? && Still(m, t, rs[i], selected, overwrite(rs[i].id)) && Footed(m, t, rs[i])
    ensures forall i :: 0 <= i < |rs| && rows[i].MANAGED? ==> (Managed(m, t, rs[i]) <==> !Lost(m, t0, rs, selected, overwrite, i))
  {
    hide Kept; hide Looks; hide Still; hide ChainClear; hide DueBeneath; hide Seated; hide Due; hide SeatAbove; hide CanMake; hide Places;
    forall i | 0 <= i < |rs| ensures Footed(m, t, rs[i]) {
      assert Footed(m, t0, rs[i]);
      NamedOf(m, DestOf(m, rs[i]));
      EndFooted(m, t0, t, rs, selected, overwrite, i, |rs|);
    }
    forall i | 0 <= i < |rs| && rows[i].MANAGED? ensures Managed(m, t, rs[i]) <==> !Lost(m, t0, rs, selected, overwrite, i) {
      assert Fate(m, t0, t, rs, selected, overwrite, i, |rs|);
      ManagedStands(m, t, rs[i]);
      StandingMakes(t, m.above(DestOf(m, rs[i])));
      SeatHides(m, t0, t, rs, selected, overwrite, DestOf(m, rs[i]));
    }
  }

  lemma StandingMakes(t: Tree, dirs: set<Entry>)
    ensures Standing(t, dirs) ==> CanMake(t, dirs)
  {
  }

  lemma SeatHides(m: Machine, t0: Tree, t: Tree, rs: seq<Record>, selected: Option<Strategy>, overwrite: string -> bool, e: Entry)
    requires AllBound(m, rs) && Places(m, t0, t, rs, selected, overwrite, |rs|)
    ensures SeatAbove(m, t0, rs, selected, overwrite, e, |rs|) ==> !CanMake(t, m.above(e))
  {
    hide Seated; hide DueBeneath;
  }

  lemma EndFooted(m: Machine, t0: Tree, t: Tree, rs: seq<Record>, selected: Option<Strategy>, overwrite: string -> bool, i: nat, n: nat)
    requires AllBound(m, rs) && i < |rs| && n <= |rs| && History(m, t0, t, rs, selected, overwrite, i, n) && FoldersKept(t0, t) && Footed(m, t0, rs[i])
    requires NamedAbove(m, DestOf(m, rs[i]))
    ensures Footed(m, t, rs[i])
  {
    hide Still; hide DueBeneath;
    var e := DestOf(m, rs[i]);
    if Get(t, e) == Get(t0, e) && rs[i].present && e in t {
      forall x | x in m.above(e) ensures Get(t, x) == Some(Directory) {
        assert Get(t0, x) == Some(Directory);
      }
    }
  }

  lemma AnswerNext(m: Machine, t0: Tree, t: Tree, t2: Tree, rs: seq<Record>, selected: Option<Strategy>, overwrite: string -> bool,
                   rows: seq<Status>, i: nat, status: Status)
    requires Layout(m, t0, rs, selected) && Rooted(m) && i < |rs| && |rows| == i && Kept(m, t0, t2, rs)
    requires SettledUpTo(m, t0, t, rs, selected, overwrite, rows, i) && AnsweredUpTo(m, t0, t, rs, selected, overwrite, rows, i)
    requires var v := Decide(rs[i], Assess(m, t, rs[i]), selected, overwrite(rs[i].id));
      status == v.status && Done(m, t, t2, rs[i], v.deed)
    ensures AnsweredUpTo(m, t0, t2, rs, selected, overwrite, rows + [status], i + 1)
  {
    hide Assess; hide Undisturbed; hide Referent; hide ChainClear; hide Done; hide Kept; hide Looks; hide Decide; hide Still; hide History; hide Fate;
    hide Rooted; hide Footed; hide Places; hide FoldersKept; hide Answer; hide Sits;
    var next, all := i + 1, rows + [status];
    AnswerNew(m, t0, t, t2, rs, selected, overwrite, i);
    forall k | 0 <= k < next ensures Answer(m, t0, t2, rs, selected, overwrite, k, next, all[k]) {
      if k < i {
        AnswerStep(m, t0, t, t2, rs, selected, overwrite, k, i, rows[k]);
      }
    }
    forall k | 0 <= k < |rs| ensures SitsOn(m, t0, t2, rs[k]) {
      assert SitsOn(m, t0, t, rs[k]);
      if rs[k].present && Sits(t, DestOf(m, rs[k])) {
        SitsStep(m, t0, t, t2, rs, selected, overwrite, k, i);
      }
    }
  }

  lemma SettleNext(m: Machine, t0: Tree, t: Tree, t2: Tree, rs: seq<Record>, selected: Option<Strategy>, overwrite: string -> bool,
                   rows: seq<Status>, i: nat, status: Status)
    requires Layout(m, t0, rs, selected) && Rooted(m) && i < |rs| && |rows| == i && Visible(m, t, rs[i])
    requires SettledUpTo(m, t0, t, rs, selected, overwrite, rows, i)
    requires var v := Decide(rs[i], Assess(m, t, rs[i]), selected, overwrite(rs[i].id));
      status == v.status && Done(m, t, t2, rs[i], v.deed)
    ensures SettledUpTo(m, t0, t2, rs, selected, overwrite, rows + [status], i + 1)
  {
    hide Assess; hide Undisturbed; hide Referent; hide ChainClear; hide Done; hide Kept; hide Looks; hide Decide; hide Still; hide History; hide Fate;
    hide Rooted; hide Footed; hide Places; hide FoldersKept; hide Visible; hide Stepped; hide MadeBy;
    var v := Decide(rs[i], Assess(m, t, rs[i]), selected, overwrite(rs[i].id));
    DoneSteps(m, t, t2, rs[i], v.deed);
    StepKept(m, t0, t, t2, rs, i, v.deed);
    FoldersStep(m, t0, t, t2, rs[i], selected, overwrite(rs[i].id));
    SourceKept(m, t0, t, rs, i);
    SourceKept(m, t0, t2, rs, i);
    AppliedSettles(m, t, t2, rs[i], selected, overwrite(rs[i].id));
    PlacesStep(m, t0, t, t2, rs, selected, overwrite, i);
    NewFate(m, t0, t, t2, rs, selected, overwrite, i);
    var next := i + 1;
    forall k | 0 <= k < |rs| ensures History(m, t0, t2, rs, selected, overwrite, k, next) {
      HistoryStep(m, t0, t, t2, rs, selected, overwrite, k, i);
    }
    forall k | 0 <= k < i
      ensures Still(m, t2, rs[k], selected, overwrite(rs[k].id))
      ensures rows[k].MANAGED? ==> Fate(m, t0, t2, rs, selected, overwrite, k, i + 1)
    {
      OthersSettle(m, t0, t, t2, rs, k, i, selected, overwrite(rs[k].id), overwrite(rs[i].id));
      if rows[k].MANAGED? {
        FateStep(m, t0, t, t2, rs, selected, overwrite, k, i);
      }
    }
  }

  /** A record just reported managed is managed. */
  lemma NewFate(m: Machine, t0: Tree, t: Tree, t2: Tree, rs: seq<Record>, selected: Option<Strategy>, overwrite: string -> bool, i: nat)
    requires Layout(m, t0, rs, selected) && Rooted(m) && i < |rs| && Kept(m, t0, t, rs) && FoldersKept(t0, t) && Visible(m, t, rs[i])
    requires History(m, t0, t, rs, selected, overwrite, i, i) && Places(m, t0, t2, rs, selected, overwrite, i + 1)
    requires Done(m, t, t2, rs[i], Decide(rs[i], Assess(m, t, rs[i]), selected, overwrite(rs[i].id)).deed)
    requires Decide(rs[i], Assess(m, t, rs[i]), selected, overwrite(rs[i].id)).status.MANAGED? ==> Looks(m, t2, rs[i])
    ensures Decide(rs[i], Assess(m, t, rs[i]), selected, overwrite(rs[i].id)).status.MANAGED? ==> Fate(m, t0, t2, rs, selected, overwrite, i, i + 1)
  {
    hide Assess; hide ChainClear; hide Looks; hide Decide; hide Done; hide Kept; hide Rooted; hide Still; hide DueBeneath; hide SeatAbove; hide Referent;
    var e := DestOf(m, rs[i]);
    var v := Decide(rs[i], Assess(m, t, rs[i]), selected, overwrite(rs[i].id));
    NamedOf(m, e);
    ManagedStands(m, t2, rs[i]);
    DuePresent(m, t, rs[i], selected, overwrite(rs[i].id));
    if v.status.MANAGED? {
      if v.deed.Delivers? {
        DeliveredSits(m, t, t2, rs[i], v.deed);
      } else if rs[i].present {
        PresentStays(m, t, t2, rs[i], v.deed, selected, overwrite(rs[i].id));
        assert Footed(m, t0, rs[i]);
        EndFooted(m, t0, t, rs, selected, overwrite, i, i);
        StandingStays(m, t, t2, rs[i], selected, overwrite(rs[i].id), e);
      } else {
        StillMakes(m, t, t2, rs[i], v.deed, e);
      }
    }
  }

  lemma PresentStays(m: Machine, t: Tree, t2: Tree, r: Record, deed: Deed, selected: Option<Strategy>, overwrite: bool)
    requires Phys(m, r.dest).Some? && Phys(m, r.src).Some? && Done(m, t, t2, r, deed) && !deed.Delivers? && r.present && !DestOf(m, r).Temp?
    requires deed == Decide(r, Assess(m, t, r), selected, overwrite).deed
    ensures Get(t2, DestOf(m, r)) == Get(t, DestOf(m, r))
  {
    hide Assess;
  }

  lemma StillStep(m: Machine, t0: Tree, t: Tree, t2: Tree, rs: seq<Record>, selected: Option<Strategy>, overwrite: string -> bool, i: nat)
    requires Layout(m, t0, rs, selected) && i < |rs| && SameTree(t0, t) && Still(m, t0, rs[i], selected, overwrite(rs[i].id))
    requires Done(m, t, t2, rs[i], Decide(rs[i], Assess(m, t, rs[i]), selected, overwrite(rs[i].id)).deed)
    ensures SameTree(t0, t2)
  {
    hide Undisturbed; hide ChainClear; hide Decide; hide Assess; hide Done; hide Referent;
    assert Kept(m, t0, t, rs);
    hide Kept;
    SourceKept(m, t0, t, rs, i);
    AssessSame(m, t0, t, rs[i]);
    LeavesAlone(m, t, t2, rs[i]);
  }

  // ----------------------------------------------------------------- nothing in the way

  /** Directories above the destinations can be made when their turn comes. */
  predicate Unhindered(m: Machine, t: Tree, rs: seq<Record>) {
    && AllBound(m, rs)
    && (forall k :: 0 <= k < |rs| ==> CanMake(t, m.above(DestOf(m, rs[k]))) && (rs[k].present ==> Phys(m, rs[k].src) != Phys(m, rs[k].dest)))
    && forall l, k :: 0 <= l < k < |rs| && rs[l].present ==> DestOf(m, rs[l]) !in m.above(DestOf(m, rs[k]))
  }

  predicate CanMakeFrom(m: Machine, t: Tree, rs: seq<Record>, n: nat)
    requires AllBound(m, rs)
  {
    forall k :: n <= k < |rs| ==> CanMake(t, m.above(DestOf(m, rs[k])))
  }

  lemma MakeStep(m: Machine, t0: Tree, t: Tree, t2: Tree, rs: seq<Record>, selected: Option<Strategy>, overwrite: string -> bool, n: nat)
    requires Unhindered(m, t0, rs) && Rooted(m) && n < |rs| && CanMakeFrom(m, t, rs, n)
    requires Done(m, t, t2, rs[n], Decide(rs[n], Assess(m, t, rs[n]), selected, overwrite(rs[n].id)).deed)
    ensures CanMakeFrom(m, t2, rs, n + 1)
  {
    hide Assess; hide Referent; hide Decide; hide CanMake; hide Undisturbed; hide Done;
    var deed := Decide(rs[n], Assess(m, t, rs[n]), selected, overwrite(rs[n].id)).deed;
    PresentDelivers(m, t, rs[n], selected, overwrite(rs[n].id));
    forall k | n < k < |rs| ensures CanMake(t2, m.above(DestOf(m, rs[k]))) {
      NamedOf(m, DestOf(m, rs[k]));
      StillMakes(m, t, t2, rs[n], deed, DestOf(m, rs[k]));
    }
  }

  lemma PresentDelivers(m: Machine, t: Tree, r: Record, selected: Option<Strategy>, overwrite: bool)
    requires Phys(m, r.dest).Some?
    ensures Decide(r, Assess(m, t, r), selected, overwrite).deed.Delivers? ==> r.present
  {
    hide Assess;
  }

  lemma StillMakes(m: Machine, t: Tree, t2: Tree, r: Record, deed: Deed, e: Entry)
    requires Phys(m, r.dest).Some? && Phys(m, r.src).Some? && Done(m, t, t2, r, deed) && CanMake(t, m.above(e)) && NamedAbove(m, e)
    requires deed.Delivers? ==> DestOf(m, r) !in m.above(e)
    ensures CanMake(t2, m.above(e))
  {
    hide Referent;
  }

  lemma StepFeasible(m: Machine, t0: Tree, t: Tree, rs: seq<Record>, selected: Option<Strategy>, overwrite: string -> bool, n: nat)
    requires Unhindered(m, t0, rs) && n < |rs| && CanMakeFrom(m, t, rs, n)
    ensures Feasible(m, t, rs[n], DeedOf(m, t, rs[n], selected, overwrite(rs[n].id)))
  {
    hide Assess; hide Decide; hide CanMake;
    PresentDelivers(m, t, rs[n], selected, overwrite(rs[n].id));
  }

  // ---------------------------------------------------------------------- whole plans

  /** The status a record gets when its turn comes with this tree. */
  predicate Reports(m: Machine, t: Tree, r: Record, selected: Option<Strategy>, overwrite: bool, status: Status) {
    Phys(m, r.dest).Some? && status == Decide(r, Assess(m, t, r), selected, overwrite).status
  }

  /** A record that is owed a delivery has its destination beneath an entry. */
  predicate OwedBeneath(m: Machine, t: Tree, rs: seq<Record>, selected: Option<Strategy>, overwrite: string -> bool, e: Entry) {
    exists i :: 0 <= i < |rs| && Phys(m, rs[i].dest).Some? && e in m.above(Phys(m, rs[i].dest).value)
      && Owed(m, t, rs[i], selected, overwrite(rs[i].id))
  }

  /** What a record reports and what is at its destination in the end, by what was on the disk in
      the beginning: a record owed a delivery has it, and one to be absent is gone, unless its
      destination had to become a directory for another. */
  predicate RowExact(m: Machine, t0: Tree, t: Tree, rs: seq<Record>, selected: Option<Strategy>, overwrite: string -> bool, r: Record, row: Status)
    requires Phys(m, r.dest).Some?
  {
    var beneath := OwedBeneath(m, t0, rs, selected, overwrite, Phys(m, r.dest).value);
    && (row == SOURCE_MISSING <==> r.present && !HasSource(m, t0, r))
    && (row == SOURCE_UNUSABLE <==> r.present && Unusable(m, t0, r, selected))
    && (Owed(m, t0, r, selected, overwrite(r.id)) ==> (row == MANAGED <==> !beneath) && (row == MANAGED ==> Manages(m, t, r, Wanted(r, selected))))
    && (r.present && HasSource(m, t0, r) && Satisfied(m, t0, r, selected) ==> row == MANAGED)
    && (!r.present && (ToRemove(m, t0, r) || Vacant(m, t0, r)) && !beneath ==> row == MANAGED && Vacant(m, t, r))
    && (row in {MANAGED, SOURCE_MISSING, SOURCE_UNUSABLE} || row == if r.present && r.policy != Preserve then CONFLICT else OVERRIDE)
  }

  ghost predicate RowsExact(m: Machine, t0: Tree, t: Tree, rs: seq<Record>, selected: Option<Strategy>, overwrite: string -> bool, rows: seq<Status>) {
    |rows| == |rs| && forall i :: 0 <= i < |rs| ==> Phys(m, rs[i].dest).Some? && RowExact(m, t0, t, rs, selected, overwrite, rs[i], rows[i])
  }

  lemma BeneathIsOwed(m: Machine, t: Tree, rs: seq<Record>, selected: Option<Strategy>, overwrite: string -> bool, e: Entry)
    requires AllBound(m, rs)
    ensures DueBeneath(m, t, rs, selected, overwrite, e, |rs|) <==> OwedBeneath(m, t, rs, selected, overwrite, e)
  {
    hide Due; hide Owed;
    forall i | 0 <= i < |rs| ensures Due(m, t, rs[i], selected, overwrite(rs[i].id)) <==> Owed(m, t, rs[i], selected, overwrite(rs[i].id)) {
      OwedDue(m, t, rs[i], selected, overwrite(rs[i].id));
    }
  }

  lemma AnsweredAll(m: Machine, t0: Tree, t: Tree, rs: seq<Record>, selected: Option<Strategy>, overwrite: string -> bool, rows: seq<Status>)
    requires Layout(m, t0, rs, selected) && |rows| == |rs|
    requires SettledUpTo(m, t0, t, rs, selected, overwrite, rows, |rs|) && AnsweredUpTo(m, t0, t, rs, selected, overwrite, rows, |rs|)
    ensures RowsExact(m, t0, t, rs, selected, overwrite, rows)
  {
    hide Owed; hide HasSource; hide Satisfied; hide Unusable; hide ToRemove; hide DueBeneath; hide OwedBeneath; hide Kept; hide Places; hide History;
    hide Still; hide ChainClear; hide Footed; hide Looks; hide Standing; hide SeatAbove;
    forall i | 0 <= i < |rs| ensures Phys(m, rs[i].dest).Some? && RowExact(m, t0, t, rs, selected, overwrite, rs[i], rows[i]) {
      assert Answer(m, t0, t, rs, selected, overwrite, i, |rs|, rows[i]);
      assert rows[i].MANAGED? ==> Fate(m, t0, t, rs, selected, overwrite, i, |rs|);
      BeneathIsOwed(m, t0, rs, selected, overwrite, DestOf(m, rs[i]));
    }
  }

  /** A step, done or thrown, keeps what a plan may not write. */
  lemma StepTaken(m: Machine, t0: Tree, t: Tree, t2: Tree, rs: seq<Record>, i: nat, selected: Option<Strategy>, overwrite: string -> bool, done: bool)
    requires i < |rs| && Kept(m, t0, t, rs) && GuardKept(m, t0, t, rs, overwrite)
    requires done ==> Phys(m, rs[i].src).Some? && Visible(m, t, rs[i])
    requires done ==> Done(m, t, t2, rs[i], Decide(rs[i], Assess(m, t, rs[i]), selected, overwrite(rs[i].id)).deed)
    requires !done ==> Undisturbed(t, t2, {}, MadeBy(m, t, rs[i], DeedOf(m, t, rs[i], selected, overwrite(rs[i].id))))
    ensures Kept(m, t0, t2, rs) && GuardKept(m, t0, t2, rs, overwrite)
  {
    hide Assess; hide Decide; hide Undisturbed; hide Done; hide MadeBy; hide Stepped; hide Kept; hide GuardKept; hide CanMake;
    var deed := DeedOf(m, t, rs[i], selected, overwrite(rs[i].id));
    if done {
      DoneSteps(m, t, t2, rs[i], deed);
    } else {
      FailSteps(m, t, t2, rs[i], deed);
    }
    StepKept(m, t0, t, t2, rs, i, deed);
    GuardStep(m, t0, t, t2, rs, i, selected, overwrite);
  }

  /** The per-record loop of `main`; None in a row's place is a step that threw, which ends it.
      On every disk, failing or not, guarded entries hold what they held. */
  method ApplyAll(d: Disk, rs: seq<Record>, selected: Option<Strategy>, overwrite: string -> bool)
    returns (rows: seq<Status>, threw: bool)
    requires d.Valid()
    modifies d
    ensures d.Valid() && d.clock >= old(d.clock) && |rows| <= |rs| && (!threw ==> |rows| == |rs|)
    ensures Kept(d.m, old(d.tree), d.tree, rs) && GuardKept(d.m, old(d.tree), d.tree, rs, overwrite)
    ensures d.Calm(old(d.clock)) && Unhindered(d.m, old(d.tree), rs) ==> !threw
    ensures rows != [] ==> Reports(d.m, old(d.tree), rs[0], selected, overwrite(rs[0].id), rows[0])
    ensures !threw && Layout(d.m, old(d.tree), rs, selected) ==>
      forall i :: 0 <= i < |rs| && rows[i].MANAGED? ==>
        (Managed(d.m, d.tree, rs[i]) <==> !Lost(d.m, old(d.tree), rs, selected, overwrite, i))
    ensures !threw && Layout(d.m, old(d.tree), rs, selected) ==>
      Layout(d.m, d.tree, rs, selected) && StillAll(d.m, d.tree, rs, selected, overwrite)
    ensures !threw && Layout(d.m, old(d.tree), rs, selected) ==>
      StillAll(d.m, old(d.tree), rs, selected, overwrite) ==> SameTree(old(d.tree), d.tree)
    ensures !threw && Layout(d.m, old(d.tree), rs, selected) ==> RowsExact(d.m, old(d.tree), d.tree, rs, selected, overwrite, rows)
  {
    hide Assess; hide Undisturbed; hide Referent; hide ChainClear; hide Done; hide Kept; hide Managed; hide Decide; hide Written; hide Still;
    hide Layout; hide GuardKept; hide Unhindered; hide CanMakeFrom; hide SettledUpTo; hide SameTree; hide Lost; hide Stepped; hide MadeBy; hide Feasible;
    hide Reports; hide AllBound; hide DeedOf; hide Visible; hide AnsweredUpTo; hide RowsExact;
    ghost var t0, from := d.tree, d.clock;
    rows, threw := [], false;
    var i := 0;
    KeptRefl(d.m, t0, rs, selected, overwrite);
    SameRefl(t0);
    MakeStart(d.m, t0, rs);
    while i < |rs|
      invariant 0 <= i <= |rs| && |rows| == i && d.Valid() && d.clock >= from
      invariant Kept(d.m, t0, d.tree, rs) && GuardKept(d.m, t0, d.tree, rs, overwrite) && (i == 0 ==> d.tree == t0)
      invariant i > 0 ==> Reports(d.m, t0, rs[0], selected, overwrite(rs[0].id), rows[0])
      invariant Unhindered(d.m, t0, rs) ==> AllBound(d.m, rs) && CanMakeFrom(d.m, d.tree, rs, i)
      invariant Layout(d.m, t0, rs, selected) ==> AllBound(d.m, rs)
      invariant Layout(d.m, t0, rs, selected) ==> SettledUpTo(d.m, t0, d.tree, rs, selected, overwrite, rows, i)
      invariant Layout(d.m, t0, rs, selected) ==> AnsweredUpTo(d.m, t0, d.tree, rs, selected, overwrite, rows, i)
      invariant Layout(d.m, t0, rs, selected) && StillAll(d.m, t0, rs, selected, overwrite) ==> SameTree(t0, d.tree)
    {
      ghost var mid := d.tree;
      if Unhindered(d.m, t0, rs) {
        StepFeasible(d.m, t0, mid, rs, selected, overwrite, i);
      }
      var status := ApplyRecord(d, rs[i], selected, overwrite(rs[i].id));
      StepTaken(d.m, t0, mid, d.tree, rs, i, selected, overwrite, status.Some?);
      if status.None? {
        return rows, true;
      }
      Reported(d.m, mid, rs[i], selected, overwrite(rs[i].id), status.value);
      if Unhindered(d.m, t0, rs) {
        MakeStep(d.m, t0, mid, d.tree, rs, selected, overwrite, i);
      }
      if Layout(d.m, t0, rs, selected) {
        SettleNext(d.m, t0, mid, d.tree, rs, selected, overwrite, rows, i, status.value);
        AnswerNext(d.m, t0, mid, d.tree, rs, selected, overwrite, rows, i, status.value);
        if StillAll(d.m, t0, rs, selected, overwrite) {
          StillStep(d.m, t0, mid, d.tree, rs, selected, overwrite, i);
        }
      }
      rows := rows + [status.value];
      i := i + 1;
    }
    if Layout(d.m, t0, rs, selected) {
      SettledAll(d.m, t0, d.tree, rs, selected, overwrite, rows);
      AnsweredAll(d.m, t0, d.tree, rs, selected, overwrite, rows);
      LayoutKept(d.m, t0, d.tree, rs, selected);
    }
  }

  lemma Reported(m: Machine, t: Tree, r: Record, selected: Option<Strategy>, overwrite: bool, status: Status)
    requires Visible(m, t, r) && status == Decide(r, Assess(m, t, r), selected, overwrite).status
    ensures Reports(m, t, r, selected, overwrite, status)
  {
  }

  lemma SameRefl(t: Tree)
    ensures SameTree(t, t)
  {
  }

  lemma MakeStart(m: Machine, t: Tree, rs: seq<Record>)
    ensures Unhindered(m, t, rs) ==> AllBound(m, rs) && CanMakeFrom(m, t, rs, 0)
  {
    hide CanMake;
  }

  /** Applying a plan twice: the second time changes nothing. */
  method ApplyTwice(d: Disk, rs: seq<Record>, selected: Option<Strategy>, overwrite: string -> bool)
    returns (ghost between: Tree, threw: bool)
    requires d.Valid()
    modifies d
    ensures !threw && Layout(d.m, old(d.tree), rs, selected) ==> SameTree(between, d.tree)
  {
    var rows, again;
    hide Layout; hide StillAll; hide SameTree; hide Still; hide Managed; hide Lost; hide Kept; hide GuardKept; hide Unhindered;
    rows, threw := ApplyAll(d, rs, selected, overwrite);
    between := d.tree;
    if !threw {
      again, threw := ApplyAll(d, rs, selected, overwrite);
    }
  }

  /** An absent record `/a/b`, nothing there, before a present one at `/a/b/c`. */
  predicate NestedPlan(m: Machine, t: Tree, r: Record, other: Record) {
    && !r.present && other.present && other.available == [ByLink] && other.default == ByLink
    && r.src == other.src == Path("/s", "x") && r.dest == Path("/a", "b") && other.dest == Path("/a/b", "c")
    && m.dirs == map["/s" := "/s", "/a" := "/a", "/a/b" := "/a/b"]
    && m.above(Named("/a/b", "c")) == {Named("/a", "b")} && m.above(Named("/a", "b")) == {}
    && m.lexical(r.dest, TextOf(r.src)) == r.src && m.lexical(other.dest, TextOf(r.src)) == r.src
    && t == map[Named("/s", "x") := File([], 420)]
  }

  lemma NestedNames(m: Machine, t: Tree, r: Record, other: Record)
    requires NestedPlan(m, t, r, other)
    ensures Phys(m, r.src) == Some(Named("/s", "x")) && Phys(m, r.dest) == Some(Named("/a", "b")) && Phys(m, other.dest) == Some(Named("/a/b", "c"))
    ensures Named("/a", "b") != Named("/a/b", "c") && Named("/s", "x") != Named("/a", "b") && Named("/s", "x") != Named("/a/b", "c")
  {
    assert |"/a"| != |"/a/b"|;
    assert "x" != "b" && "x" != "c";
  }

  /** Nothing is wrong with the plan; the first record has nothing to do and the second is due. */
  lemma NestedPlanFacts(m: Machine, t: Tree, r: Record, other: Record, overwrite: string -> bool)
    requires NestedPlan(m, t, r, other) && Rooted(m)
    ensures AllBound(m, [r, other]) && Unhindered(m, t, [r, other]) && Layout(m, t, [r, other], None)
    ensures Decide(r, Assess(m, t, r), None, overwrite(r.id)).status.MANAGED? && Lost(m, t, [r, other], None, overwrite, 0)
  {
    NestedNames(m, t, r, other);
    var rs := [r, other];
    NamedOf(m, DestOf(m, other));
    assert Get(t, Named("/s", "x")) == Some(File([], 420));
    hide Assess; hide Decide; hide DeedOf; hide Phys;
    assert rs[0] == r && rs[1] == other;
    forall i | 0 <= i < |rs| ensures ChainClear(m, t, rs, Phys(m, rs[i].src).value, MAX_LINKS) {
      assert !Written(m, t, rs, Named("/s", "x"));
    }
    assert Due(m, t, rs[1], None, overwrite(rs[1].id)) && DestOf(m, rs[0]) in m.above(DestOf(m, rs[1]));
  }

  /** No step fails, the absent record is reported managed, and a directory stands at its
      destination in the end. */
  method NestedAbsentLost(d: Disk, r: Record, other: Record, overwrite: string -> bool) returns (rows: seq<Status>)
    requires d.Valid() && d.Calm(d.clock) && NestedPlan(d.m, d.tree, r, other)
    modifies d
    ensures |rows| == 2 && rows[0].MANAGED? && Phys(d.m, r.dest).Some? && !Managed(d.m, d.tree, r)
  {
    hide Assess; hide Decide; hide Layout; hide Lost; hide Unhindered; hide Managed; hide GuardKept; hide Kept; hide StillAll; hide SameTree;
    NestedPlanFacts(d.m, d.tree, r, other, overwrite);
    NestedNames(d.m, d.tree, r, other);
    var threw;
    rows, threw := ApplyAll(d, [r, other], None, overwrite);
    assert [r, other][0] == r;
  }

  /** Resolved claims share a destination only as one claim, when no destination is claimed in
      both scopes and different names are different entries. */
  lemma ResolvedSeparate(expand: string -> Option<Path>, rows: seq<Row>, m: Machine)
    requires AllBound(m, Resolve(expand, rows, map[]).records)
    requires var rs := Resolve(expand, rows, map[]).records;
      forall i, j :: 0 <= i < |rs| && 0 <= j < |rs| && DestOf(m, rs[i]) == DestOf(m, rs[j]) ==>
        rs[i].dest == rs[j].dest && rs[i].scope == rs[j].scope
    ensures var rs := Resolve(expand, rows, map[]).records;
      forall i, j :: 0 <= i < |rs| && 0 <= j < |rs| && DestOf(m, rs[i]) == DestOf(m, rs[j]) ==> SameDest(rs[i], rs[j])
  {
    hide Resolve; hide SameClaim;
    ResolvedCompatible(expand, rows, map[]);
  }

  // --------------------------------------------------------------------- the command

  predicate AnyStatus(rows: seq<Status>, a: Status, b: Status) {
    exists i :: 0 <= i < |rows| && (rows[i] == a || rows[i] == b)
  }

  function ExitCode(rows: seq<Status>, invalid: nat): nat {
    if invalid > 0 || AnyStatus(rows, SOURCE_MISSING, SOURCE_UNUSABLE) then 2
    else if AnyStatus(rows, MISSING, CONFLICT) then 1 else 0
  }

  /** A strategy that some record does not declare, or that some source cannot serve. */
  predicate Unavailable(m: Machine, t: Tree, rs: seq<Record>, s: Strategy) {
    exists i :: 0 <= i < |rs| && rs[i].present &&
      (s !in rs[i].available || (s.ByCopy? && SourceExists(m, t, rs[i].src) && !SourceRegular(m, t, rs[i].src)))
  }

  /** The chosen strategy is one that some record to be present does not declare, or a copy of a
      source that is there and leads to no file. */
  predicate BadChoice(m: Machine, t: Tree, rs: seq<Record>, selected: Option<Strategy>) {
    selected.Some? && exists i :: 0 <= i < |rs| && rs[i].present && Refuses(m, t, rs[i], selected.value)
  }

  predicate Refuses(m: Machine, t: Tree, r: Record, s: Strategy) {
    s !in r.available || (s == ByCopy && HasSource(m, t, r) && !Serves(m, t, r, ByCopy))
  }

  lemma BadChoiceIs(m: Machine, t: Tree, rs: seq<Record>, selected: Option<Strategy>)
    ensures BadChoice(m, t, rs, selected) <==> selected.Some? && Unavailable(m, t, rs, selected.value)
  {
    hide Referent;
    if selected.Some? {
      forall i | 0 <= i < |rs|
        ensures SourceExists(m, t, rs[i].src) && !SourceRegular(m, t, rs[i].src) <==> HasSource(m, t, rs[i]) && !Serves(m, t, rs[i], ByCopy)
      {
      }
    }
  }

  /** 2 when a source is missing or of no use, 0 when every record is managed or overridden. */
  predicate CodeSays(code: nat, rows: seq<Status>) {
    && code in {0, 1, 2}
    && (code == 2 <==> exists i :: 0 <= i < |rows| && rows[i] in {SOURCE_MISSING, SOURCE_UNUSABLE})
    && (code == 0 <==> forall i :: 0 <= i < |rows| ==> rows[i] in {MANAGED, OVERRIDE})
  }

  lemma CodeIs(rows: seq<Status>)
    ensures CodeSays(ExitCode(rows, 0), rows)
  {
  }

  /** `main` for `apply`: nothing is written for an unavailable strategy or with invalid rows. */
  method Apply(d: Disk, plan: Resolved, selected: Option<Strategy>, overwrite: string -> bool)
    returns (code: Option<nat>, rows: seq<Status>)
    requires d.Valid()
    modifies d
    ensures BadChoice(d.m, old(d.tree), plan.records, selected) ==> code == None && d.tree == old(d.tree)
    ensures !BadChoice(d.m, old(d.tree), plan.records, selected) && plan.invalid != [] ==> code == Some(2) && rows == [] && d.tree == old(d.tree)
    ensures !BadChoice(d.m, old(d.tree), plan.records, selected) && d.Calm(old(d.clock)) && Unhindered(d.m, old(d.tree), plan.records) ==> code.Some?
    ensures code.Some? && plan.invalid == [] ==> |rows| == |plan.records| && CodeSays(code.value, rows)
    ensures code.Some? && plan.invalid == [] && Layout(d.m, old(d.tree), plan.records, selected) ==>
      RowsExact(d.m, old(d.tree), d.tree, plan.records, selected, overwrite, rows)
    ensures code == Some(0) && Layout(d.m, old(d.tree), plan.records, selected) ==>
      |rows| == |plan.records| && AllBound(d.m, plan.records) && forall i :: 0 <= i < |rows| ==>
        rows[i].OVERRIDE?
        || (rows[i].MANAGED? && (Managed(d.m, d.tree, plan.records[i]) <==> !Lost(d.m, old(d.tree), plan.records, selected, overwrite, i)))
    ensures GuardKept(d.m, old(d.tree), d.tree, plan.records, overwrite)
  {
    hide Assess; hide Referent; hide ChainClear; hide Managed; hide Written; hide Still; hide StillAll; hide SameTree; hide Layout;
    hide Lost; hide Kept; hide GuardKept; hide Unhindered; hide RowsExact; hide BadChoice; hide Unavailable; hide CodeSays;
    rows := [];
    BadChoiceIs(d.m, d.tree, plan.records, selected);
    KeptRefl(d.m, d.tree, plan.records, selected, overwrite);
    if selected.Some? && Unavailable(d.m, d.tree, plan.records, selected.value) {
      return None, rows;
    }
    if plan.invalid != [] {
      return Some(2), rows;
    }
    var threw;
    ghost var t0 := d.tree;
    rows, threw := ApplyAll(d, plan.records, selected, overwrite);
    if threw {
      return None, rows;
    }
    if Layout(d.m, t0, plan.records, selected) {
      LayoutBound(d.m, t0, plan.records, selected);
    }
    CodeIs(rows);
    return Some(ExitCode(rows, 0)), rows;
  }

  lemma LayoutBound(m: Machine, t: Tree, rs: seq<Record>, selected: Option<Strategy>)
    requires Layout(m, t, rs, selected)
    ensures AllBound(m, rs)
  {
  }
}
