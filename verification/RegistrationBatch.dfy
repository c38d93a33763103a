/** `withInputBatch` of files/config/registration.ts on a disk that may fail at any step. */
module RegistrationBatch {
  import opened Wrappers
  import opened Delivery
  import opened Registration
  import opened RegistrationSafety
  import opened RegistrationSlots

  /** What the caller's operation reports; a throw is `Thrown`. */
  datatype Outcome = Accepted | Declined | Thrown

  /** The operation: any change of what is visible under names, and an outcome. */
  type Operation = (Tree, seq<(Path, bool)>) -> (Tree, Outcome)

  function Visible(t: Tree): Tree {
    map e | e in t && e.Named? :: t[e]
  }

  /** A tree with its visible part exchanged: temporaries and backups are private. */
  function Exchange(t: Tree, visible: Tree): Tree {
    map e | e in t.Keys + visible.Keys && (if e.Named? then e in visible else e in t) :: if e.Named? then visible[e] else t[e]
  }

  function Inputs(cs: seq<Chosen>): seq<(Path, bool)> {
    seq(|cs|, i requires 0 <= i < |cs| => (cs[i].path, cs[i].disabled))
  }

  /** How a batch ended: refused before writing; or run, then accepted or restored, perhaps
      with an error thrown in the end. */
  datatype Ending = Refused(why: Why) | Ran(accepted: bool, restored: bool, threw: bool)

  ghost predicate NoBackups(t: Tree) {
    forall n: nat :: Backup(n) !in t
  }

  ghost predicate SeenAll(before: Tree, cs: seq<Chosen>) {
    forall i :: 0 <= i < |cs| ==> Seen0(before, cs[i])
  }

  /** What delivering a record leaves in its slot. */
  function Placed(m: Machine, t: Tree, c: Chosen): Option<Node> {
    match c.record.strategy
    case LinkTo => Some(Link(TextOf(c.record.source)))
    case Copy =>
      match Phys(m, c.record.source)
      case None => None
      case Some(e) => match Referent(m, t, e) case Some(File(bytes, mode)) => Some(File(bytes, Bits(mode))) case _ => None
  }

  lemma UndisturbedWider(a: Tree, b: Tree, ex: set<Entry>, made: set<Entry>, ex2: set<Entry>, made2: set<Entry>)
    requires Undisturbed(a, b, ex, made) && ex <= ex2 && made <= made2
    ensures Undisturbed(a, b, ex2, made2)
  {
  }

  /** One step of writing slots: what was undisturbed stays so. */
  lemma WriteStep(m: Machine, cs: seq<Chosen>, i: nat, a: Tree, b: Tree, c: Tree, except: set<Entry>, one: set<Entry>, made: set<Entry>)
    requires i < |cs| && Undisturbed(a, b, except, AboveAll(m, cs)) && Undisturbed(b, c, one, made) && made <= m.above(cs[i].entry)
    ensures Undisturbed(a, c, except + one, AboveAll(m, cs))
  {
    UndisturbedTrans(a, b, c, except, one, AboveAll(m, cs), made);
    UndisturbedWider(a, c, except + one, AboveAll(m, cs) + made, except + one, AboveAll(m, cs));
  }

  lemma RestoredStays(before: Tree, b: Tree, c: Tree, m: Machine, cs: seq<Chosen>, i: nat, j: nat)
    requires i < |cs| && j < |cs| && i != j && Distinct(cs) && NoNesting(m, cs)
    requires Undisturbed(b, c, {cs[i].entry}, m.above(cs[i].entry)) && Restored(before, b, cs[j])
    ensures Restored(before, c, cs[j])
  {
    assert cs[j].entry != cs[i].entry;
    assert Get(c, cs[j].entry) == Get(b, cs[j].entry);
  }

  lemma BackupsStay(before: Tree, b: Tree, c: Tree, cs: seq<Chosen>, except: set<Entry>, made: set<Entry>)
    requires Undisturbed(b, c, except, made) && Backups(before, b, cs) && forall e :: e in except ==> e.Named?
    ensures Backups(before, c, cs)
  {
    hide Undisturbed;
    forall i | 0 <= i < |cs| ensures BackedUp(before, c, cs[i], i) {
      if cs[i].previous.Regular? {
        assert BackedUp(before, b, cs[i], i);
        BackupStays(b, c, except, made, i);
      }
    }
  }

  lemma BackupStays(b: Tree, c: Tree, except: set<Entry>, made: set<Entry>, i: nat)
    requires Undisturbed(b, c, except, made) && Backup(i) !in except && Backup(i) in b
    ensures Get(c, Backup(i)) == Get(b, Backup(i))
  {
  }

  lemma ReachableStays(d: Disk, b: Tree, c: Tree, cs: seq<Chosen>, i: nat, j: nat)
    requires i < |cs| && j < |cs| && i != j && Distinct(cs) && NoNesting(d.m, cs)
    requires Undisturbed(b, c, {cs[i].entry}, d.m.above(cs[i].entry)) && NamedAbove(d.m, cs[j].entry)
    requires d.Reachable(b, cs[j].entry)
    ensures d.Reachable(c, cs[j].entry)
  {
    var e := cs[j].entry;
    assert e != cs[i].entry && e !in d.m.above(cs[i].entry);
    assert Get(c, e) == Get(b, e);
    forall x | x in d.m.above(e) ensures Get(c, x) == None || Get(c, x) == Some(Directory) {
      assert x.Named? && x != cs[i].entry;
    }
  }

  /** `restore`: the mutated slots in reverse order, stopping at the first failure. */
  method Restore(d: Disk, cs: seq<Chosen>, ghost before: Tree) returns (ok: bool)
    requires d.Valid() && Distinct(cs) && SeenAll(before, cs) && Backups(before, d.tree, cs)
    modifies d
    ensures d.Valid() && d.clock >= old(d.clock)
    ensures Undisturbed(old(d.tree), d.tree, Entries(cs), AboveAll(d.m, cs)) && Backups(before, d.tree, cs)
    ensures ok && NoNesting(d.m, cs) ==> Back(before, d.tree, cs)
    ensures d.Calm(old(d.clock)) && NoNesting(d.m, cs) && AllReachable(d, old(d.tree), cs) ==> ok
  {
    hide Restored; hide Seen0; hide BackedUp; hide NoNesting; hide Undisturbed; hide AboveAll;
    ghost var start, from := d.tree, d.clock;
    var k: nat := |cs|;
    SameTree(start, Entries(cs[k..]), AboveAll(d.m, cs));
    while k > 0
      invariant k <= |cs| && d.Valid() && d.clock >= from && Backups(before, d.tree, cs)
      invariant Undisturbed(start, d.tree, Entries(cs[k..]), AboveAll(d.m, cs))
      invariant NoNesting(d.m, cs) ==> forall i :: k <= i < |cs| ==> Restored(before, d.tree, cs[i])
      invariant NoNesting(d.m, cs) && AllReachable(d, start, cs) ==> forall i :: 0 <= i < k ==> d.Reachable(d.tree, cs[i].entry)
    {
      k := k - 1;
      ghost var mid := d.tree;
      assert BackedUp(before, mid, cs[k], k);
      assert cs[k..] == [cs[k]] + cs[k + 1..];
      EntriesCons(cs[k], cs[k + 1..]);
      var one := RestoreOne(d, cs[k], k, before);
      WriteStep(d.m, cs, k, start, mid, d.tree, Entries(cs[k + 1..]), {cs[k].entry}, d.m.above(cs[k].entry));
      BackupsStay(before, mid, d.tree, cs, {cs[k].entry}, d.m.above(cs[k].entry));
      if !one {
        UndisturbedWider(start, d.tree, Entries(cs[k..]), AboveAll(d.m, cs), Entries(cs), AboveAll(d.m, cs));
        return false;
      }
      if NoNesting(d.m, cs) {
        forall i | k < i < |cs| ensures Restored(before, d.tree, cs[i]) {
          RestoredStays(before, mid, d.tree, d.m, cs, k, i);
        }
        if AllReachable(d, start, cs) {
          forall i | 0 <= i < k ensures d.Reachable(d.tree, cs[i].entry) {
            ReachableStays(d, mid, d.tree, cs, k, i);
          }
        }
      }
    }
    assert cs[0..] == cs;
    return true;
  }

  /** Nothing but files, links or absence in the slots, and only directories above them. */
  ghost predicate AllReachable(d: Disk, t: Tree, cs: seq<Chosen>) {
    forall i :: 0 <= i < |cs| ==> d.Reachable(t, cs[i].entry)
  }

  predicate Back(before: Tree, after: Tree, cs: seq<Chosen>) {
    forall i :: 0 <= i < |cs| ==> Restored(before, after, cs[i])
  }

  lemma SameTree(t: Tree, except: set<Entry>, made: set<Entry>)
    ensures Undisturbed(t, t, except, made)
  {
  }

  lemma EntriesCons(c: Chosen, cs: seq<Chosen>)
    ensures Entries([c] + cs) == Entries(cs) + {c.entry}
  {
    forall x | x in [c] + cs ensures x.entry in Entries(cs) + {c.entry} {
      if x != c {
        assert x in cs;
      }
    }
    forall e | e in Entries(cs) + {c.entry} ensures e in Entries([c] + cs) {
      if e in Entries(cs) {
        var x :| x in cs && x.entry == e;
        assert x in [c] + cs;
      } else {
        assert c in [c] + cs;
      }
    }
  }

  // -------------------------------------------------------------- backups, deliveries

  /** The backup loop; true when every regular slot has its copy. */
  method BackUp(d: Disk, cs: seq<Chosen>) returns (ok: bool)
    requires d.Valid() && Distinct(cs) && SeenAll(d.tree, cs) && NoBackups(d.tree)
    modifies d
    ensures d.Valid() && d.clock >= old(d.clock)
    ensures forall e: Entry :: e.Named? ==> Get(d.tree, e) == Get(old(d.tree), e)
    ensures forall n: nat :: n >= |cs| ==> Backup(n) !in d.tree
    ensures ok ==> Backups(old(d.tree), d.tree, cs)
    ensures d.Calm(old(d.clock)) ==> ok
  {
    hide Seen0; hide Referent; hide Follow;
    ghost var start, from := d.tree, d.clock;
    var i := 0;
    while i < |cs|
      invariant 0 <= i <= |cs| && d.Valid() && d.clock >= from
      invariant forall e: Entry :: e.Named? ==> Get(d.tree, e) == Get(start, e)
      invariant forall n: nat :: n >= i ==> Backup(n) !in d.tree
      invariant forall k :: 0 <= k < i ==> BackedUp(start, d.tree, cs[k], k)
    {
      ghost var mid := d.tree;
      if cs[i].previous.Regular? {
        RegularSlot(d.m, start, mid, cs[i]);
        ok := d.ReplaceWithCopy(cs[i].entry, Backup(i));
        if !ok {
          return;
        }
      }
      i := i + 1;
    }
    return true;
  }

  lemma RegularSlot(m: Machine, start: Tree, t: Tree, c: Chosen)
    requires Seen0(start, c) && c.previous.Regular? && Get(t, c.entry) == Get(start, c.entry)
    ensures Referent(m, t, c.entry) == Get(start, c.entry) && IsFile(Get(start, c.entry))
  {
  }

  /** The donor is a file other than the slot. */
  predicate Sourced(m: Machine, t: Tree, c: Chosen) {
    && Phys(m, c.record.source).Some? && Phys(m, c.record.source) != Some(c.entry)
    && IsFile(Referent(m, t, Phys(m, c.record.source).value))
  }

  /** Nothing but a failing step can keep the first `n` records from being delivered. */
  ghost predicate Smooth(d: Disk, t: Tree, cs: seq<Chosen>, n: nat) {
    && n <= |cs| && NoNesting(d.m, cs[..n]) && DonorsClear(d.m, t, cs)
    && forall k :: 0 <= k < n ==> d.Reachable(t, cs[k].entry) && Sourced(d.m, t, cs[k])
  }

  method DeliverOne(d: Disk, c: Chosen) returns (ok: bool)
    requires d.Valid() && c.entry.Named?
    modifies d
    ensures d.Valid() && d.clock >= old(d.clock)
    ensures Undisturbed(old(d.tree), d.tree, if ok then {c.entry} else {}, Makes(old(d.tree), d.m.above(c.entry)))
    ensures ok ==> Placed(d.m, old(d.tree), c).Some? && Get(d.tree, c.entry) == Placed(d.m, old(d.tree), c)
    ensures ok ==> Replaceable(old(d.tree), c.entry) && Standing(d.tree, d.m.above(c.entry))
    ensures d.Calm(old(d.clock)) && Sourced(d.m, old(d.tree), c) && d.Reachable(old(d.tree), c.entry) ==> ok
  {
    var source := Phys(d.m, c.record.source);
    if source.None? {
      return false;
    }
    match c.record.strategy {
      case LinkTo => ok := d.ReplaceWithLink(TextOf(c.record.source), source.value, c.entry);
      case Copy => ok := d.ReplaceWithCopy(source.value, c.entry);
    }
  }

  /** Slot `i` holds its delivery: the donor's link, or the donor's bytes as they were before
      the delivery of that very record; and its directories stand. */
  ghost predicate Delivered(m: Machine, start: Tree, t: Tree, cs: seq<Chosen>, i: nat)
    requires i < |cs|
  {
    Standing(t, m.above(cs[i].entry)) && exists mid: Tree :: DeliveredFrom(m, start, mid, t, cs, i)
  }

  ghost predicate DeliveredFrom(m: Machine, start: Tree, mid: Tree, t: Tree, cs: seq<Chosen>, i: nat)
    requires i < |cs|
  {
    && Undisturbed(start, mid, Entries(cs[..i]), AboveAll(m, cs[..i]))
    && Placed(m, mid, cs[i]).Some? && Get(t, cs[i].entry) == Placed(m, mid, cs[i])
  }

  ghost predicate DeliveredUpTo(m: Machine, start: Tree, t: Tree, cs: seq<Chosen>, n: nat) {
    n <= |cs| && forall i :: 0 <= i < n ==> Delivered(m, start, t, cs, i)
  }

  /** The slots from `n` on hold what they held. */
  predicate Unmoved(start: Tree, t: Tree, cs: seq<Chosen>, n: nat) {
    forall k :: n <= k < |cs| ==> Get(t, cs[k].entry) == Get(start, cs[k].entry)
  }

  lemma DeliveredHolds(m: Machine, start: Tree, t: Tree, cs: seq<Chosen>, i: nat)
    requires i < |cs| && Delivered(m, start, t, cs, i)
    ensures cs[i].entry in t && (t[cs[i].entry].File? || t[cs[i].entry].Link?)
  {
    hide Undisturbed; hide AboveAll; hide Referent;
  }

  /** What is delivered holds no directory in a slot, so no delivered slot is above another. */
  lemma DeliveredApart(m: Machine, start: Tree, t: Tree, cs: seq<Chosen>, n: nat)
    requires DeliveredUpTo(m, start, t, cs, n)
    ensures NoNesting(m, cs[..n])
  {
    hide Undisturbed; hide AboveAll; hide Placed;
    forall i, j | 0 <= i < n && 0 <= j < n ensures cs[i].entry !in m.above(cs[j].entry) {
      assert Delivered(m, start, t, cs, i) && Delivered(m, start, t, cs, j);
      DeliveredHolds(m, start, t, cs, i);
    }
  }

  lemma DeliveredStays(m: Machine, start: Tree, b: Tree, c: Tree, cs: seq<Chosen>, i: nat, j: nat, ok: bool)
    requires i < j < |cs| && Distinct(cs) && Delivered(m, start, b, cs, i)
    requires Undisturbed(b, c, if ok then {cs[j].entry} else {}, Makes(b, m.above(cs[j].entry)))
    requires NamedAbove(m, cs[i].entry) && (ok ==> Replaceable(b, cs[j].entry))
    ensures Delivered(m, start, c, cs, i)
  {
    hide AboveAll; hide Placed; hide Makes;
    DeliveredHolds(m, start, b, cs, i);
    assert cs[i].entry != cs[j].entry;
    assert Get(c, cs[i].entry) == Get(b, cs[i].entry);
    var mid: Tree :| DeliveredFrom(m, start, mid, b, cs, i);
    assert DeliveredFrom(m, start, mid, c, cs, i);
    forall x | x in m.above(cs[i].entry) ensures Get(c, x) == Some(Directory) {
      assert Get(b, x) == Some(Directory);
      assert ok ==> x != cs[j].entry;
    }
  }

  lemma DeliveredStep(m: Machine, start: Tree, b: Tree, c: Tree, cs: seq<Chosen>, n: nat, ok: bool)
    requires n < |cs| && Distinct(cs) && DeliveredUpTo(m, start, b, cs, n) && forall k :: 0 <= k < |cs| ==> NamedAbove(m, cs[k].entry)
    requires Undisturbed(start, b, Entries(cs[..n]), AboveAll(m, cs[..n]))
    requires Undisturbed(b, c, if ok then {cs[n].entry} else {}, Makes(b, m.above(cs[n].entry)))
    requires ok ==> Placed(m, b, cs[n]).Some? && Get(c, cs[n].entry) == Placed(m, b, cs[n])
    requires ok ==> Replaceable(b, cs[n].entry) && Standing(c, m.above(cs[n].entry))
    ensures DeliveredUpTo(m, start, c, cs, if ok then n + 1 else n)
  {
    hide AboveAll; hide Placed; hide Makes; hide Undisturbed; hide Delivered; hide Replaceable;
    forall i | 0 <= i < n ensures Delivered(m, start, c, cs, i) {
      DeliveredStays(m, start, b, c, cs, i, n, ok);
    }
    if ok {
      DeliveredNow(m, start, b, c, cs, n);
    }
  }

  lemma DeliveredNow(m: Machine, start: Tree, b: Tree, c: Tree, cs: seq<Chosen>, n: nat)
    requires n < |cs| && Undisturbed(start, b, Entries(cs[..n]), AboveAll(m, cs[..n])) && Standing(c, m.above(cs[n].entry))
    requires Placed(m, b, cs[n]).Some? && Get(c, cs[n].entry) == Placed(m, b, cs[n])
    ensures Delivered(m, start, c, cs, n)
  {
    hide AboveAll; hide Placed; hide Undisturbed;
    assert DeliveredFrom(m, start, b, c, cs, n);
  }

  /** A record whose directories can be made, after delivered ones: no nesting among them. */
  lemma NextApart(m: Machine, start: Tree, t: Tree, cs: seq<Chosen>, n: nat)
    requires n < |cs| && DeliveredUpTo(m, start, t, cs, n) && SeenAll(start, cs) && Unmoved(start, t, cs, n)
    requires CanMake(t, m.above(cs[n].entry)) && NamedAbove(m, cs[n].entry)
    ensures NoNesting(m, cs[..n + 1])
  {
    hide Undisturbed; hide AboveAll; hide Placed;
    DeliveredApart(m, start, t, cs, n);
    assert Seen0(start, cs[n]) && Get(t, cs[n].entry) == Get(start, cs[n].entry);
    forall i, j | 0 <= i <= n && 0 <= j <= n ensures cs[i].entry !in m.above(cs[j].entry) {
      if i < n && j < n {
        assert cs[..n][i].entry !in m.above(cs[..n][j].entry);
      } else if i < n {
        assert Delivered(m, start, t, cs, i);
        DeliveredHolds(m, start, t, cs, i);
      } else if j < n {
        assert Delivered(m, start, t, cs, j);
      }
    }
  }

  /** Slots still to come are not turned into directories. */
  lemma UnmovedStep(m: Machine, start: Tree, b: Tree, c: Tree, cs: seq<Chosen>, n: nat, ok: bool)
    requires n < |cs| && Distinct(cs) && DeliveredUpTo(m, start, b, cs, n) && SeenAll(start, cs)
    requires Ordered(m, cs) && Unmoved(start, b, cs, n) && NamedAbove(m, cs[n].entry)
    requires Undisturbed(b, c, if ok then {cs[n].entry} else {}, Makes(b, m.above(cs[n].entry)))
    ensures Unmoved(start, c, cs, if ok then n + 1 else n)
  {
    hide AboveAll; hide Placed; hide Delivered; hide NoNesting;
    if CanMake(b, m.above(cs[n].entry)) {
      NextApart(m, start, b, cs, n);
    }
    forall k | (if ok then n + 1 else n) <= k < |cs| ensures Get(c, cs[k].entry) == Get(start, cs[k].entry) {
      assert Seen0(start, cs[k]) && Get(b, cs[k].entry) == Get(start, cs[k].entry);
      assert k > n ==> cs[k].entry != cs[n].entry;
    }
  }

  lemma SmoothStep(d: Disk, start: Tree, t: Tree, cs: seq<Chosen>, n: nat, k: nat)
    requires Smooth(d, start, cs, n) && k < n && Distinct(cs) && NamedAbove(d.m, cs[k].entry)
    requires Undisturbed(start, t, Entries(cs[..k]), AboveAll(d.m, cs[..k]))
    ensures d.Reachable(t, cs[k].entry) && Sourced(d.m, t, cs[k])
  {
    hide OnChain; hide Follow; hide Entries; hide AboveAll; hide DonorsClear;
    SlotApart(d.m, cs, n, k);
    var e := cs[k].entry;
    assert Get(t, e) == Get(start, e);
    assert d.Reachable(t, e);
    SourceStays(d.m, start, t, cs, k);
  }

  /** The slot is neither written nor made by the deliveries before it, nor is anything above it
      written. */
  lemma SlotApart(m: Machine, cs: seq<Chosen>, n: nat, k: nat)
    requires k < n <= |cs| && NoNesting(m, cs[..n]) && Distinct(cs)
    ensures cs[k].entry !in Entries(cs[..k]) && cs[k].entry !in AboveAll(m, cs[..k])
    ensures forall x :: x in Entries(cs[..k]) ==> x !in m.above(cs[k].entry)
  {
    var e := cs[k].entry;
    forall x | x in Entries(cs[..k]) ensures x != e && x !in m.above(e) {
      var i :| 0 <= i < k && cs[..k][i].entry == x;
      assert cs[..n][i].entry !in m.above(cs[..n][k].entry) && cs[i].entry != cs[k].entry;
    }
    forall x | x in AboveAll(m, cs[..k]) ensures x != e {
      var i :| 0 <= i < k && x in m.above(cs[..k][i].entry);
      assert cs[..n][k].entry !in m.above(cs[..n][i].entry);
    }
  }

  lemma SourceStays(m: Machine, start: Tree, t: Tree, cs: seq<Chosen>, k: nat)
    requires k < |cs| && DonorsClear(m, start, cs) && Sourced(m, start, cs[k])
    requires Undisturbed(start, t, Entries(cs[..k]), AboveAll(m, cs[..k]))
    ensures Sourced(m, t, cs[k])
  {
    hide OnChain; hide Follow; hide Entries; hide AboveAll; hide Undisturbed;
    FrontEntries(cs, k);
    assert DonorClear(m, start, cs, cs[k].record.source);
    ChainKept(m, start, t, Phys(m, cs[k].record.source).value, Entries(cs), Entries(cs[..k]), AboveAll(m, cs[..k]), MAX_LINKS);
  }

  lemma FrontEntries(cs: seq<Chosen>, i: nat)
    requires i <= |cs|
    ensures Entries(cs[..i]) <= Entries(cs)
  {
    assert forall x :: x in cs[..i] ==> x in cs;
  }

  lemma AboveFront(m: Machine, cs: seq<Chosen>, i: nat, n: nat)
    requires i <= n <= |cs|
    ensures AboveAll(m, cs[..i]) <= AboveAll(m, cs[..n])
    ensures i < n ==> m.above(cs[i].entry) <= AboveAll(m, cs[..n])
  {
    assert forall x :: x in cs[..i] ==> x in cs[..n];
    if i < n {
      assert cs[..n][i] in cs[..n];
    }
  }

  /** The delivery loop; how many records were delivered. */
  method Deliver(d: Disk, cs: seq<Chosen>, ghost before: Tree) returns (mutated: nat)
    requires d.Valid() && Distinct(cs) && Backups(before, d.tree, cs) && SeenAll(d.tree, cs)
    modifies d
    ensures d.Valid() && d.clock >= old(d.clock) && mutated <= |cs|
    ensures Undisturbed(old(d.tree), d.tree, Entries(cs[..mutated]), AboveAll(d.m, cs)) && Backups(before, d.tree, cs)
    ensures DeliveredUpTo(d.m, old(d.tree), d.tree, cs, mutated)
    ensures Ordered(d.m, cs) ==> Unmoved(old(d.tree), d.tree, cs, mutated)
    ensures d.Calm(old(d.clock)) ==> forall n: nat :: Smooth(d, old(d.tree), cs, n) ==> mutated >= n
  {
    hide BackedUp; hide NoNesting; hide Undisturbed; hide AboveAll; hide Placed; hide Delivered; hide Makes; hide Ordered; hide Smooth;
    hide SeenAll; hide Unmoved; hide Sourced;
    ghost var start, from := d.tree, d.clock;
    mutated := 0;
    SameTree(start, Entries(cs[..0]), AboveAll(d.m, cs[..0]));
    UnmovedAtStart(start, cs);
    forall k | 0 <= k < |cs| ensures NamedAbove(d.m, cs[k].entry) {
    }
    while mutated < |cs|
      invariant mutated <= |cs| && d.Valid() && d.clock >= from && Backups(before, d.tree, cs)
      invariant Undisturbed(start, d.tree, Entries(cs[..mutated]), AboveAll(d.m, cs[..mutated]))
      invariant DeliveredUpTo(d.m, start, d.tree, cs, mutated)
      invariant Ordered(d.m, cs) ==> Unmoved(start, d.tree, cs, mutated)
    {
      var c := cs[mutated];
      ghost var mid := d.tree;
      var ok := DeliverOne(d, c);
      BackupsStay(before, mid, d.tree, cs, if ok then {c.entry} else {}, Makes(mid, d.m.above(c.entry)));
      DeliveredStep(d.m, start, mid, d.tree, cs, mutated, ok);
      FrameStep(d.m, start, mid, d.tree, cs, mutated, ok);
      if Ordered(d.m, cs) {
        UnmovedStep(d.m, start, mid, d.tree, cs, mutated, ok);
      }
      if !ok {
        if d.Calm(from) {
          forall n: nat | Smooth(d, start, cs, n) ensures mutated >= n {
            if mutated < n {
              SmoothStep(d, start, mid, cs, n, mutated);
            }
          }
        }
        return;
      }
      mutated := mutated + 1;
    }
    assert cs[..mutated] == cs;
    SmoothBound(d, start, cs);
  }

  lemma SmoothBound(d: Disk, t: Tree, cs: seq<Chosen>)
    ensures forall n: nat :: Smooth(d, t, cs, n) ==> n <= |cs|
  {
  }

  lemma UnmovedAtStart(t: Tree, cs: seq<Chosen>)
    ensures Unmoved(t, t, cs, 0)
  {
  }

  lemma FrameStep(m: Machine, a: Tree, b: Tree, c: Tree, cs: seq<Chosen>, n: nat, ok: bool)
    requires n < |cs| && Undisturbed(a, b, Entries(cs[..n]), AboveAll(m, cs[..n]))
    requires Undisturbed(b, c, if ok then {cs[n].entry} else {}, Makes(b, m.above(cs[n].entry)))
    ensures if ok then Undisturbed(a, c, Entries(cs[..n + 1]), AboveAll(m, cs[..n + 1])) else Undisturbed(a, c, Entries(cs[..n]), AboveAll(m, cs))
  {
    hide Undisturbed; hide AboveAll;
    var one := if ok then {cs[n].entry} else {};
    UndisturbedTrans(a, b, c, Entries(cs[..n]), one, AboveAll(m, cs[..n]), Makes(b, m.above(cs[n].entry)));
    AboveFront(m, cs, n, n + 1);
    AboveFront(m, cs, n + 1, |cs|);
    assert cs[..|cs|] == cs;
    assert cs[..n + 1] == cs[..n] + [cs[n]];
    UndisturbedWider(a, c, Entries(cs[..n]) + one, AboveAll(m, cs[..n]) + Makes(b, m.above(cs[n].entry)),
      if ok then Entries(cs[..n + 1]) else Entries(cs[..n]), if ok then AboveAll(m, cs[..n + 1]) else AboveAll(m, cs));
  }

  // ------------------------------------------------------------------- the whole batch

  /** An untouched slot counts as restored. */
  lemma UntouchedIsRestored(before: Tree, t: Tree, c: Chosen)
    requires Seen0(before, c) && Get(t, c.entry) == Get(before, c.entry)
    ensures Restored(before, t, c)
  {
  }

  lemma RestoredNamed(before: Tree, a: Tree, b: Tree, cs: seq<Chosen>)
    requires Distinct(cs) && Back(before, a, cs) && forall e: Entry :: e.Named? ==> Get(b, e) == Get(a, e)
    ensures Back(before, b, cs)
  {
    forall i | 0 <= i < |cs| ensures Restored(before, b, cs[i]) {
      assert Restored(before, a, cs[i]) && Get(b, cs[i].entry) == Get(a, cs[i].entry);
    }
  }

  /** How the tree stands when a batch stopped after `n` deliveries. */
  ghost predicate Stopped(m: Machine, before: Tree, t: Tree, cs: seq<Chosen>, n: nat) {
    && n <= |cs| && NoNesting(m, cs[..n])
    && (forall i :: 0 <= i < n ==> Standing(t, m.above(cs[i].entry)))
    && (Ordered(m, cs) ==> Unmoved(before, t, cs, n))
  }

  /** A slot that was not delivered, after the others were put back. */
  lemma RestKept(m: Machine, before: Tree, broken: Tree, after: Tree, cs: seq<Chosen>, n: nat, k: nat)
    requires n <= k < |cs| && Distinct(cs) && Seen0(before, cs[k]) && Stopped(m, before, broken, cs, n) && Ordered(m, cs)
    requires Undisturbed(broken, after, Entries(cs[..n]), AboveAll(m, cs[..n]))
    ensures Get(after, cs[k].entry) == Get(before, cs[k].entry)
  {
    var e := cs[k].entry;
    assert Get(broken, e) == Get(before, e);
    forall x | x in Entries(cs[..n]) ensures x != e {
      var i :| 0 <= i < n && cs[..n][i].entry == x;
      assert cs[i].entry != cs[k].entry;
    }
    forall x | x in AboveAll(m, cs[..n]) ensures x != e {
      var i :| 0 <= i < n && x in m.above(cs[..n][i].entry);
      assert Standing(broken, m.above(cs[i].entry));
    }
  }

  /** Putting back what was delivered brings every slot back, when no missing slot lies above
      an earlier one. */
  lemma OrderedIsBack(m: Machine, before: Tree, broken: Tree, after: Tree, cs: seq<Chosen>, n: nat)
    requires Distinct(cs) && SeenAll(before, cs) && Stopped(m, before, broken, cs, n) && Ordered(m, cs)
    requires Undisturbed(broken, after, Entries(cs[..n]), AboveAll(m, cs[..n])) && Back(before, after, cs[..n])
    ensures Back(before, after, cs)
  {
    hide Restored; hide Seen0; hide Undisturbed; hide AboveAll; hide NoNesting; hide Ordered; hide Stopped;
    assert n <= |cs| by {
      StoppedBound(m, before, broken, cs, n);
    }
    forall i | 0 <= i < |cs| ensures Restored(before, after, cs[i]) {
      if i < n {
        assert Restored(before, after, cs[..n][i]);
      } else {
        RestKept(m, before, broken, after, cs, n, i);
        UntouchedIsRestored(before, after, cs[i]);
      }
    }
  }

  lemma StoppedBound(m: Machine, before: Tree, t: Tree, cs: seq<Chosen>, n: nat)
    requires Stopped(m, before, t, cs, n)
    ensures n <= |cs|
  {
  }

  /** A missing slot above a delivered one has become a directory, and stays one. */
  lemma NestedNotBack(m: Machine, before: Tree, broken: Tree, after: Tree, cs: seq<Chosen>, n: nat, i: nat, j: nat)
    requires Distinct(cs) && Stopped(m, before, broken, cs, n) && i < n && i < j < |cs|
    requires cs[j].previous.Missing? && cs[j].entry in m.above(cs[i].entry)
    requires Undisturbed(broken, after, Entries(cs[..n]), AboveAll(m, cs[..n]))
    ensures !Back(before, after, cs)
  {
    var e := cs[j].entry;
    assert Standing(broken, m.above(cs[i].entry));
    assert Get(broken, e) == Some(Directory);
    forall x | x in Entries(cs[..n]) ensures x != e {
      var k :| 0 <= k < n && cs[..n][k].entry == x;
      assert cs[k].entry != cs[j].entry;
    }
    assert !Restored(before, after, cs[j]);
  }

  /** The `finally` block: `rm -r` of the private backups. */
  method DropBackups(d: Disk) returns (ok: bool)
    requires d.Valid()
    modifies d
    ensures d.Valid() && d.clock >= old(d.clock)
    ensures forall e: Entry :: e.Named? ==> Get(d.tree, e) == Get(old(d.tree), e)
    ensures d.Calm(old(d.clock)) ==> ok
  {
    ok := d.Try();
    if ok {
      d.tree := map e | e in d.tree && !e.Backup? :: d.tree[e];
    }
  }

  function BackupSet(n: nat): set<Entry> {
    set i | 0 <= i < n :: Backup(i)
  }

  /** What the operation finds: every slot holds its donor's link or its donor's bytes as they
      were before the batch, and nothing else changed. */
  ghost predicate Ready(m: Machine, before: Tree, t: Tree, cs: seq<Chosen>) {
    && Undisturbed(before, t, Entries(cs) + BackupSet(|cs|), AboveAll(m, cs))
    && forall i :: 0 <= i < |cs| ==> Placed(m, before, cs[i]).Some? && Get(t, cs[i].entry) == Placed(m, before, cs[i])
  }

  lemma PlacedBefore(m: Machine, before: Tree, bk: Tree, t: Tree, records: seq<Record>, cs: seq<Chosen>, i: nat)
    requires Admitted(m, before, records, cs) && DonorsClear(m, before, cs) && i < |cs|
    requires Undisturbed(before, bk, BackupSet(|cs|), {}) && Delivered(m, bk, t, cs, i)
    ensures Placed(m, before, cs[i]).Some? && Get(t, cs[i].entry) == Placed(m, before, cs[i])
  {
    hide Admitted; hide AboveAll; hide Referent; hide OnChain;
    AdmittedSeen(m, before, records, cs);
    var mid: Tree :| DeliveredFrom(m, bk, mid, t, cs, i);
    UndisturbedTrans(before, bk, mid, BackupSet(|cs|), Entries(cs[..i]), {}, AboveAll(m, cs[..i]));
    FrontEntries(cs, i);
    assert DonorClear(m, before, cs, cs[i].record.source);
    DonorKept(m, before, mid, records, cs, i, BackupSet(|cs|) + Entries(cs[..i]), {} + AboveAll(m, cs[..i]));
  }

  lemma AdmittedSeen(m: Machine, t: Tree, records: seq<Record>, cs: seq<Chosen>)
    requires Admitted(m, t, records, cs)
    ensures Distinct(cs) && SeenAll(t, cs) && |cs| == |records| && forall i :: 0 <= i < |cs| ==> cs[i].record == records[i]
  {
    hide SelectAll; hide DonorsSafe; hide Seen0; hide Claims; hide Choose;
    AdmittedSlots(m, t, records, cs);
    SelectedIs(m, t, records);
  }

  lemma ReadyTree(m: Machine, before: Tree, bk: Tree, t: Tree, records: seq<Record>, cs: seq<Chosen>)
    requires Admitted(m, before, records, cs) && DonorsClear(m, before, cs)
    requires Undisturbed(before, bk, BackupSet(|cs|), {}) && Undisturbed(bk, t, Entries(cs), AboveAll(m, cs))
    requires DeliveredUpTo(m, bk, t, cs, |cs|)
    ensures Ready(m, before, t, cs)
  {
    hide DonorsClear; hide Admitted; hide AboveAll; hide Placed; hide Delivered;
    UndisturbedTrans(before, bk, t, BackupSet(|cs|), Entries(cs), {}, AboveAll(m, cs));
    UndisturbedWider(before, t, BackupSet(|cs|) + Entries(cs), {} + AboveAll(m, cs), Entries(cs) + BackupSet(|cs|), AboveAll(m, cs));
    hide Undisturbed;
    forall i | 0 <= i < |cs| ensures Placed(m, before, cs[i]).Some? && Get(t, cs[i].entry) == Placed(m, before, cs[i]) {
      PlacedBefore(m, before, bk, t, records, cs, i);
    }
  }

  /** A record ends with both its slots exactly when the unchosen one lies above a chosen one. */
  predicate PairsExact(m: Machine, t: Tree, records: seq<Record>, cs: seq<Chosen>) {
    |records| == |cs| && forall j :: 0 <= j < |cs| ==> (HoldsBoth(m, t, records[j]) <==> !DormantApart(m, cs, cs[j]))
  }

  /** What a complete delivery leaves of the pair of slots of a record. */
  lemma NeverBothExactly(m: Machine, before: Tree, start: Tree, t: Tree, records: seq<Record>, cs: seq<Chosen>, j: nat, except: set<Entry>)
    requires Admitted(m, before, records, cs) && j < |records| && j < |cs|
    requires Undisturbed(before, t, except, AboveAll(m, cs)) && forall e :: e in except && e.Named? ==> e in Entries(cs)
    requires DeliveredUpTo(m, start, t, cs, |cs|)
    ensures HoldsBoth(m, t, records[j]) <==> !DormantApart(m, cs, cs[j])
  {
    hide Admitted; hide Undisturbed; hide Delivered; hide Placed;
    if DormantApart(m, cs, cs[j]) {
      NeverBoth(m, before, t, records, cs, j, except);
    } else {
      ChosenOwn(m, before, records, cs, j);
      DeliveredHolds(m, start, t, cs, j);
      var e := Phys(m, Dormant(cs[j]).value).value;
      var k :| 0 <= k < |cs| && e in m.above(cs[k].entry);
      DeliveredStands(m, start, t, cs, k);
    }
  }

  lemma DeliveredStands(m: Machine, start: Tree, t: Tree, cs: seq<Chosen>, k: nat)
    requires k < |cs| && Delivered(m, start, t, cs, k)
    ensures Standing(t, m.above(cs[k].entry))
  {
    hide DeliveredFrom;
  }

  lemma AllPairsExact(m: Machine, before: Tree, bk: Tree, t: Tree, records: seq<Record>, cs: seq<Chosen>)
    requires Admitted(m, before, records, cs) && |records| == |cs|
    requires Undisturbed(before, bk, BackupSet(|cs|), {}) && Undisturbed(bk, t, Entries(cs), AboveAll(m, cs))
    requires DeliveredUpTo(m, bk, t, cs, |cs|)
    ensures PairsExact(m, t, records, cs)
  {
    hide Admitted; hide AboveAll; hide DeliveredUpTo; hide HoldsBoth; hide DormantApart;
    UndisturbedTrans(before, bk, t, BackupSet(|cs|), Entries(cs), {}, AboveAll(m, cs));
    assert {} + AboveAll(m, cs) == AboveAll(m, cs);
    hide Undisturbed;
    forall j | 0 <= j < |cs| ensures HoldsBoth(m, t, records[j]) <==> !DormantApart(m, cs, cs[j]) {
      NeverBothExactly(m, before, bk, t, records, cs, j, BackupSet(|cs|) + Entries(cs));
    }
  }

  lemma ExchangeKeeps(before: Tree, t: Tree, visible: Tree, cs: seq<Chosen>)
    requires Backups(before, t, cs)
    ensures Backups(before, Exchange(t, visible), cs)
    ensures forall e: Entry :: e.Named? ==> Get(Exchange(t, visible), e) == Get(visible, e)
    ensures forall e: Entry :: !e.Named? ==> Get(Exchange(t, visible), e) == Get(t, e)
  {
    var x := Exchange(t, visible);
    forall e: Entry ensures Get(x, e) == if e.Named? then Get(visible, e) else Get(t, e) {
    }
    forall i | 0 <= i < |cs| ensures BackedUp(before, x, cs[i], i) {
      assert BackedUp(before, t, cs[i], i);
      assert Get(x, Backup(i)) == Get(t, Backup(i));
    }
  }

  lemma BackedTree(before: Tree, bk: Tree, n: nat)
    requires forall e: Entry :: e.Named? ==> Get(bk, e) == Get(before, e)
    requires NoBackups(before) && forall k: nat :: k >= n ==> Backup(k) !in bk
    ensures Undisturbed(before, bk, BackupSet(n), {})
  {
    forall e: Entry | !e.Temp? && e !in BackupSet(n) ensures Get(bk, e) == Get(before, e) {
      if e.Backup? {
        assert e.n >= n;
      }
    }
  }

  /** The operation was given the delivered tree, and its changes and outcome are what stands. */
  ghost predicate Operated(operation: Operation, delivered: Tree, cs: seq<Chosen>, t: Tree, outcome: Outcome) {
    var result := operation(Visible(delivered), Inputs(cs));
    result.1 == outcome && forall e: Entry :: e.Named? ==> Get(t, e) == Get(result.0, e)
  }

  /** The operation ran or something before it failed. */
  datatype Progress = Progress(mutated: nat, outcome: Option<Outcome>)

  lemma SameNamed(before: Tree, bk: Tree, cs: seq<Chosen>)
    requires Distinct(cs) && SeenAll(before, cs) && forall e: Entry :: e.Named? ==> Get(bk, e) == Get(before, e)
    ensures SeenAll(bk, cs) && forall t: Tree, n: nat :: Unmoved(bk, t, cs, n) ==> Unmoved(before, t, cs, n)
  {
    forall i | 0 <= i < |cs| ensures Seen0(bk, cs[i]) {
      assert Seen0(before, cs[i]) && Get(bk, cs[i].entry) == Get(before, cs[i].entry);
    }
    forall t: Tree, n: nat | Unmoved(bk, t, cs, n) ensures Unmoved(before, t, cs, n) {
      forall k | n <= k < |cs| ensures Get(t, cs[k].entry) == Get(before, cs[k].entry) {
        assert cs[k].entry.Named?;
      }
    }
  }

  /** Backups do not get in the way of the deliveries. */
  lemma SmoothBacked(d: Disk, before: Tree, bk: Tree, cs: seq<Chosen>, n: nat)
    requires Smooth(d, before, cs, n) && Distinct(cs) && Undisturbed(before, bk, BackupSet(|cs|), {})
    requires forall k :: 0 <= k < |cs| ==> NamedAbove(d.m, cs[k].entry)
    requires forall e: Entry :: e.Named? ==> Get(bk, e) == Get(before, e)
    ensures Smooth(d, bk, cs, n)
  {
    hide Undisturbed; hide OnChain; hide NoNesting; hide Follow;
    forall k | 0 <= k < |cs| ensures DonorClear(d.m, bk, cs, cs[k].record.source) {
      assert DonorClear(d.m, before, cs, cs[k].record.source);
      if Phys(d.m, cs[k].record.source).Some? {
        ChainSame(d.m, before, bk, Phys(d.m, cs[k].record.source).value, Entries(cs), MAX_LINKS);
      }
    }
    forall k | 0 <= k < n ensures d.Reachable(bk, cs[k].entry) && Sourced(d.m, bk, cs[k]) {
      assert Get(bk, cs[k].entry) == Get(before, cs[k].entry);
      assert DonorClear(d.m, before, cs, cs[k].record.source);
      ChainKept(d.m, before, bk, Phys(d.m, cs[k].record.source).value, Entries(cs), BackupSet(|cs|), {}, MAX_LINKS);
    }
  }

  lemma {:induction false} ChainSame(m: Machine, a: Tree, b: Tree, e: Entry, es: set<Entry>, fuel: nat)
    requires e.Named? && forall x: Entry :: x.Named? ==> Get(b, x) == Get(a, x)
    ensures OnChain(m, b, e, es, fuel) == OnChain(m, a, e, es, fuel)
    decreases fuel
  {
    assert Get(b, e) == Get(a, e);
    match Get(a, e) {
      case Some(Link(target)) =>
        if fuel > 0 && m.kernel(e, target).Some? {
          ChainSame(m, a, b, m.kernel(e, target).value, es, fuel - 1);
        }
      case _ =>
    }
  }

  lemma StoppedAfter(m: Machine, before: Tree, bk: Tree, t: Tree, cs: seq<Chosen>, n: nat)
    requires DeliveredUpTo(m, bk, t, cs, n) && (Ordered(m, cs) ==> Unmoved(before, t, cs, n))
    ensures Stopped(m, before, t, cs, n)
  {
    hide Undisturbed; hide AboveAll; hide Placed; hide DeliveredFrom; hide Ordered; hide NoNesting; hide Unmoved;
    DeliveredApart(m, bk, t, cs, n);
    forall i | 0 <= i < n ensures Standing(t, m.above(cs[i].entry)) {
      assert Delivered(m, bk, t, cs, i);
    }
  }

  lemma NothingWritten(m: Machine, before: Tree, t: Tree, cs: seq<Chosen>)
    requires Distinct(cs) && forall e: Entry :: e.Named? ==> Get(t, e) == Get(before, e)
    ensures Stopped(m, before, t, cs, 0)
  {
  }

  /** The `try` block: backups, deliveries, the operation. */
  method RunBatch(d: Disk, records: seq<Record>, cs: seq<Chosen>, operation: Operation)
    returns (p: Progress, ghost bk: Tree, ghost delivered: Tree)
    requires d.Valid() && NoBackups(d.tree) && Admitted(d.m, d.tree, records, cs)
    modifies d
    ensures d.Valid() && d.clock >= old(d.clock) && p.mutated <= |cs|
    ensures p.mutated > 0 ==> Backups(old(d.tree), d.tree, cs)
    ensures forall e: Entry :: e.Named? ==> Get(bk, e) == Get(old(d.tree), e)
    ensures p.outcome.None? ==> Undisturbed(bk, d.tree, Entries(cs[..p.mutated]), AboveAll(d.m, cs))
    ensures p.outcome.None? ==> Stopped(d.m, old(d.tree), d.tree, cs, p.mutated)
    ensures p.outcome.Some? ==> p.mutated == |cs| && Operated(operation, delivered, cs, d.tree, p.outcome.value) && NoNesting(d.m, cs)
    ensures p.outcome.Some? && DonorsClear(d.m, old(d.tree), cs) ==> Ready(d.m, old(d.tree), delivered, cs)
    ensures p.outcome.Some? ==> PairsExact(d.m, delivered, records, cs)
    ensures d.Calm(old(d.clock)) ==> forall n: nat :: Smooth(d, old(d.tree), cs, n) ==> p.mutated >= n
    ensures d.Calm(old(d.clock)) && p.mutated == |cs| ==> p.outcome.Some?
  {
    hide Admitted; hide Seen0; hide NoNesting; hide AboveAll; hide SeenAll; hide DonorsClear; hide Delivered; hide Ready; hide Backups; hide Undisturbed;
    hide DeliveredUpTo; hide Ordered; hide Smooth; hide Unmoved; hide Stopped; hide Distinct; hide PairsExact;
    ghost var before, from := d.tree, d.clock;
    AdmittedSeen(d.m, before, records, cs);
    var backed := BackUp(d, cs);
    bk, delivered := d.tree, d.tree;
    SameTree(bk, Entries(cs[..0]), AboveAll(d.m, cs));
    if !backed {
      NothingWritten(d.m, before, d.tree, cs);
      return Progress(0, None), bk, delivered;
    }
    BackedTree(before, bk, |cs|);
    SameNamed(before, bk, cs);
    var mutated := Deliver(d, cs, before);
    StoppedAfter(d.m, before, bk, d.tree, cs, mutated);
    SmoothDelivered(d, before, bk, cs, mutated, d.Calm(from));
    if mutated < |cs| {
      return Progress(mutated, None), bk, delivered;
    }
    delivered := d.tree;
    assert cs[..mutated] == cs;
    DeliveredApart(d.m, bk, delivered, cs, mutated);
    AllPairsExact(d.m, before, bk, delivered, records, cs);
    if DonorsClear(d.m, before, cs) {
      ReadyTree(d.m, before, bk, delivered, records, cs);
    }
    var result := operation(Visible(d.tree), Inputs(cs));
    ExchangeKeeps(before, d.tree, result.0, cs);
    assert forall n: nat :: Temp(n) in Exchange(d.tree, result.0) ==> Temp(n) in d.tree;
    d.tree := Exchange(d.tree, result.0);
    return Progress(|cs|, Some(result.1)), bk, delivered;
  }

  lemma SmoothDelivered(d: Disk, before: Tree, bk: Tree, cs: seq<Chosen>, mutated: nat, calm: bool)
    requires Distinct(cs) && Undisturbed(before, bk, BackupSet(|cs|), {})
    requires forall k :: 0 <= k < |cs| ==> NamedAbove(d.m, cs[k].entry)
    requires forall e: Entry :: e.Named? ==> Get(bk, e) == Get(before, e)
    requires calm ==> forall n: nat :: Smooth(d, bk, cs, n) ==> mutated >= n
    ensures calm ==> forall n: nat :: Smooth(d, before, cs, n) ==> mutated >= n
  {
    hide Smooth; hide Undisturbed; hide Distinct;
    forall n: nat | calm && Smooth(d, before, cs, n) ensures mutated >= n {
      SmoothBacked(d, before, bk, cs, n);
    }
  }

  /** In an admitted batch with clear donors, only a failing step or slots above each other keep
      deliveries from going through. */
  lemma AdmittedSmooth(d: Disk, t: Tree, records: seq<Record>, cs: seq<Chosen>, n: nat)
    requires Admitted(d.m, t, records, cs) && DonorsClear(d.m, t, cs) && n <= |cs| && NoNesting(d.m, cs[..n])
    ensures Smooth(d, t, cs, n)
  {
    hide SelectAll; hide DonorsSafe; hide Choose; hide Claims; hide Seen0; hide NoNesting; hide DonorsClear; hide Follow;
    SelectedIs(d.m, t, records);
    forall k | 0 <= k < n ensures d.Reachable(t, cs[k].entry) && Sourced(d.m, t, cs[k]) {
      ChosenFacts(d.m, t, records[k], cs[k]);
    }
  }

  lemma NestedNever(m: Machine, cs: seq<Chosen>)
    requires NoNesting(m, cs)
    ensures Ordered(m, cs)
  {
  }

  lemma PrefixFacts(before: Tree, t: Tree, cs: seq<Chosen>, n: nat)
    requires Distinct(cs) && SeenAll(before, cs) && n <= |cs| && Backups(before, t, cs)
    ensures Distinct(cs[..n]) && SeenAll(before, cs[..n]) && Backups(before, t, cs[..n])
  {
    hide Seen0; hide BackedUp;
    assert forall i :: 0 <= i < n ==> cs[..n][i] == cs[i];
  }

  lemma StoppedApart(m: Machine, before: Tree, t: Tree, cs: seq<Chosen>, n: nat)
    requires Stopped(m, before, t, cs, n)
    ensures n <= |cs| && NoNesting(m, cs[..n])
  {
    hide NoNesting; hide Ordered; hide Unmoved;
  }

  /** What restoring, complete or not, has achieved in the end. */
  lemma Finished(d: Disk, before: Tree, broken: Tree, ended: Tree, after: Tree, records: seq<Record>, cs: seq<Chosen>, p: Progress,
                 restored: bool, calm: bool)
    requires Admitted(d.m, before, records, cs) && Distinct(cs) && SeenAll(before, cs) && p.mutated <= |cs|
    requires p.outcome.None? ==> Stopped(d.m, before, broken, cs, p.mutated)
    requires p.outcome.Some? ==> p.mutated == |cs| && NoNesting(d.m, cs)
    requires Undisturbed(broken, ended, Entries(cs[..p.mutated]), AboveAll(d.m, cs[..p.mutated]))
    requires restored ==> Back(before, ended, cs[..p.mutated])
    requires forall e: Entry :: e.Named? ==> Get(after, e) == Get(ended, e)
    requires calm ==> forall n: nat :: Smooth(d, before, cs, n) ==> p.mutated >= n
    ensures restored && Ordered(d.m, cs) ==> Back(before, after, cs)
    ensures calm && DonorsClear(d.m, before, cs) && !Ordered(d.m, cs) ==> !Back(before, after, cs)
  {
    hide Admitted; hide SeenAll; hide NoNesting; hide AboveAll; hide Undisturbed; hide Stopped; hide Back; hide Ordered; hide Smooth; hide DonorsClear;
    hide Distinct;
    assert cs[..|cs|] == cs;
    if restored && Ordered(d.m, cs) {
      if p.outcome.None? {
        OrderedIsBack(d.m, before, broken, ended, cs, p.mutated);
      }
      RestoredNamed(before, ended, after, cs);
    }
    if calm && DonorsClear(d.m, before, cs) && !Ordered(d.m, cs) {
      if p.outcome.Some? {
        NestedNever(d.m, cs);
      } else {
        FinishedNested(d, before, broken, ended, records, cs, p.mutated);
        if Back(before, after, cs) {
          RestoredNamed(before, after, ended, cs);
        }
      }
    }
  }

  lemma FinishedNested(d: Disk, before: Tree, broken: Tree, ended: Tree, records: seq<Record>, cs: seq<Chosen>, n: nat)
    requires Admitted(d.m, before, records, cs) && Distinct(cs) && n <= |cs| && Stopped(d.m, before, broken, cs, n)
    requires Undisturbed(broken, ended, Entries(cs[..n]), AboveAll(d.m, cs[..n]))
    requires forall k: nat :: Smooth(d, before, cs, k) ==> n >= k
    requires DonorsClear(d.m, before, cs) && !Ordered(d.m, cs)
    ensures !Back(before, ended, cs)
  {
    hide Admitted; hide NoNesting; hide AboveAll; hide Undisturbed; hide Stopped; hide Back; hide Smooth; hide DonorsClear; hide Distinct;
    var i, j :| 0 <= i < j < |cs| && NoNesting(d.m, cs[..i + 1]) && cs[j].previous.Missing? && cs[j].entry in d.m.above(cs[i].entry);
    AdmittedSmooth(d, before, records, cs, i + 1);
    NestedNotBack(d.m, before, broken, ended, cs, n, i, j);
  }

  lemma BackNone(before: Tree, t: Tree, cs: seq<Chosen>)
    ensures Back(before, t, cs[..0])
  {
  }

  lemma Reached(d: Disk, before: Tree, records: seq<Record>, cs: seq<Chosen>, p: Progress)
    requires Admitted(d.m, before, records, cs) && DonorsClear(d.m, before, cs) && NoNesting(d.m, cs) && p.mutated <= |cs|
    requires forall n: nat :: Smooth(d, before, cs, n) ==> p.mutated >= n
    ensures p.mutated == |cs|
  {
    hide Admitted; hide NoNesting; hide Smooth; hide DonorsClear;
    assert cs[..|cs|] == cs;
    AdmittedSmooth(d, before, records, cs, |cs|);
  }

  /** What the operation is told of each record: its slot and whether that is the disabled one. */
  function Announced(m: Machine, t: Tree, records: seq<Record>): seq<(Path, bool)> {
    seq(|records|, i requires 0 <= i < |records| => (SlotPath(m, t, records[i]), StartsDisabled(m, t, records[i])))
  }

  lemma ToldSlots(m: Machine, t: Tree, records: seq<Record>, cs: seq<Chosen>)
    requires SlotsChosen(m, t, records, cs)
    ensures Inputs(cs) == Announced(m, t, records)
  {
    hide StartsDisabled; hide SlotPath;
    assert forall i :: 0 <= i < |cs| ==> Slotted(m, t, records[i], cs[i]);
  }

  /** A link names the donor by its path; a copy has the donor's bytes and the low nine bits of
      its mode. */
  predicate Filled(m: Machine, before: Tree, t: Tree, r: Record) {
    var slot := SlotPath(m, before, r);
    && slot.dir in m.dirs && At(m, slot) in t
    && (match r.strategy
        case LinkTo => t[At(m, slot)] == Link(r.source.dir + "/" + r.source.base)
        case Copy =>
          r.source.dir in m.dirs &&
          var donor := Referent(m, before, At(m, r.source));
          IsFile(donor) && t[At(m, slot)] == File(donor.value.bytes, donor.value.mode % 512))
  }

  ghost predicate Furnished(m: Machine, before: Tree, t: Tree, records: seq<Record>) {
    forall i :: 0 <= i < |records| ==> Filled(m, before, t, records[i])
  }

  lemma SlotFills(m: Machine, before: Tree, t: Tree, r: Record, c: Chosen)
    requires Slotted(m, before, r, c) && Placed(m, before, c).Some? && Get(t, c.entry) == Placed(m, before, c)
    ensures Filled(m, before, t, r)
  {
    hide StartsDisabled; hide SlotPath; hide Referent;
  }

  lemma ReadyFurnishes(m: Machine, before: Tree, t: Tree, records: seq<Record>, cs: seq<Chosen>)
    requires SlotsChosen(m, before, records, cs) && Ready(m, before, t, cs)
    ensures Furnished(m, before, t, records)
  {
    hide StartsDisabled; hide SlotPath; hide Referent; hide Undisturbed;
    forall i | 0 <= i < |records| ensures Filled(m, before, t, records[i]) {
      assert Slotted(m, before, records[i], cs[i]);
      assert Placed(m, before, cs[i]).Some? && Get(t, cs[i].entry) == Placed(m, before, cs[i]);
      SlotFills(m, before, t, records[i], cs[i]);
    }
  }

  /** How the batch ended, from what the operation said of the delivered inputs: accepted exactly
      when it said so, and an operation that threw makes the batch throw. */
  predicate Reported(operation: Operation, delivered: Tree, told: seq<(Path, bool)>, r: Ending)
    requires r.Ran?
  {
    var outcome := operation(Visible(delivered), told).1;
    (r.accepted <==> outcome == Accepted) && (outcome == Thrown ==> r.threw)
  }

  /** The operation's changes of what has a name are what stands. */
  ghost predicate Stands(operation: Operation, delivered: Tree, told: seq<(Path, bool)>, t: Tree) {
    forall e: Entry :: e.Named? ==> Get(t, e) == Get(operation(Visible(delivered), told).0, e)
  }

  lemma AdmittedIs(m: Machine, t: Tree, records: seq<Record>)
    ensures SelectAll(m, t, records).Ok? && DonorsSafe(m, t, records) <==> BatchFits(m, t, records)
    ensures forall cs :: Admitted(m, t, records, cs) ==> BatchFits(m, t, records) && SlotsChosen(m, t, records, cs)
  {
    hide SelectAll; hide DonorsSafe; hide BatchFits; hide SlotsChosen;
    AdmittedExactly(m, t, records);
  }

  /** The batch on a disk that may fail anywhere, around an operation that may do anything to
      named entries. When it ran, `delivered` is the tree the operation saw; `broken`, `since`
      and `mutated` are the tree, the time and the number of slots written when restoring began. */
  method WithInputBatch(d: Disk, records: seq<Record>, operation: Operation)
    returns (r: Ending, cs: seq<Chosen>, ghost ran: bool, ghost delivered: Tree, ghost broken: Tree, ghost since: nat, ghost mutated: nat)
    requires d.Valid() && NoBackups(d.tree)
    modifies d
    ensures d.Valid() && mutated <= |cs|
    ensures r.Refused? ==> d.tree == old(d.tree) && !ran
    ensures r.Ran? ==> Admitted(d.m, old(d.tree), records, cs)
    ensures r.Ran? ==> BatchFits(d.m, old(d.tree), records) && SlotsChosen(d.m, old(d.tree), records, cs)
    ensures d.Calm(old(d.clock)) && BatchFits(d.m, old(d.tree), records) ==> r.Ran?
    ensures ran ==> r.Ran? && NoNesting(d.m, cs)
    ensures ran && DonorsClear(d.m, old(d.tree), cs) ==> Ready(d.m, old(d.tree), delivered, cs) && Furnished(d.m, old(d.tree), delivered, records)
    ensures ran ==> Reported(operation, delivered, Announced(d.m, old(d.tree), records), r)
    ensures r.Ran? && r.accepted ==> Stands(operation, delivered, Announced(d.m, old(d.tree), records), d.tree)
    ensures r.Ran? && !ran ==> !r.accepted && r.threw
    ensures r.Ran? && d.Calm(old(d.clock)) && r.accepted ==> !r.threw
    ensures ran ==> PairsExact(d.m, delivered, records, cs)
    ensures r.Ran? && d.Calm(old(d.clock)) && DonorsClear(d.m, old(d.tree), cs) && NoNesting(d.m, cs) ==> ran
    ensures r.Ran? && r.accepted ==> ran && Operated(operation, delivered, cs, d.tree, Accepted)
    ensures r.Ran? && !r.accepted && d.Calm(since) && AllReachable(d, broken, cs[..mutated]) ==> r.restored
    ensures r.Ran? && !r.accepted && r.restored && Ordered(d.m, cs) ==> Back(old(d.tree), d.tree, cs)
    ensures r.Ran? && d.Calm(old(d.clock)) && DonorsClear(d.m, old(d.tree), cs) && !Ordered(d.m, cs) ==>
      !r.accepted && !Back(old(d.tree), d.tree, cs)
  {
    hide Admitted; hide Restored; hide Seen0; hide Backups; hide NoNesting; hide AboveAll; hide SeenAll; hide Back; hide NoBackups;
    hide DonorsClear; hide Ready; hide Undisturbed; hide Inputs; hide Ordered; hide Smooth; hide Stopped; hide AllReachable; hide Distinct;
    hide PairsExact; hide Furnished; hide BatchFits; hide SlotsChosen; hide Announced; hide DonorsSafe; hide SelectAll;
    AdmittedIs(d.m, d.tree, records);
    cs, ran := [], false;
    ghost var before, from := d.tree, d.clock;
    delivered, broken, since, mutated := d.tree, d.tree, d.clock, 0;
    var admitted := Preflight(d, records);
    if admitted.Err? {
      r := Refused(admitted.error);
      return;
    }
    cs := admitted.value;
    AdmittedSeen(d.m, before, records, cs);
    ToldSlots(d.m, before, records, cs);
    var made := d.Try();
    ghost var bk := d.tree;
    var p := Progress(0, None);
    SameTree(before, Entries(cs[..0]), AboveAll(d.m, cs));
    NothingWritten(d.m, before, d.tree, cs);
    if made {
      p, bk, delivered := RunBatch(d, records, cs, operation);
    }
    ran := p.outcome.Some?;
    if ran && DonorsClear(d.m, before, cs) {
      ReadyFurnishes(d.m, before, delivered, records, cs);
    }
    broken, since, mutated := d.tree, d.clock, p.mutated;
    if ran {
      NestedNever(d.m, cs);
      assert cs[..|cs|] == cs;
    } else {
      StoppedApart(d.m, before, broken, cs, mutated);
      if d.Calm(from) && DonorsClear(d.m, before, cs) && NoNesting(d.m, cs) {
        Reached(d, before, records, cs, p);
      }
    }
    BackNone(before, broken, cs);
    var accepted := p.outcome == Some(Accepted);
    var restored := true;
    SameTree(broken, Entries(cs[..mutated]), AboveAll(d.m, cs[..mutated]));
    if !accepted && p.mutated > 0 {
      PrefixFacts(before, broken, cs, mutated);
      restored := Restore(d, cs[..p.mutated], before);
    }
    var threw := !accepted && (p.outcome != Some(Declined) || !restored);
    if !restored && p.outcome == Some(Declined) {
      ghost var half := d.tree;
      restored := Restore(d, cs[..p.mutated], before);
      UndisturbedTrans(broken, half, d.tree, Entries(cs[..mutated]), Entries(cs[..mutated]), AboveAll(d.m, cs[..mutated]), AboveAll(d.m, cs[..mutated]));
      UndisturbedWider(broken, d.tree, Entries(cs[..mutated]) + Entries(cs[..mutated]), AboveAll(d.m, cs[..mutated]) + AboveAll(d.m, cs[..mutated]),
        Entries(cs[..mutated]), AboveAll(d.m, cs[..mutated]));
    }
    ghost var ended := d.tree;
    var dropped := DropBackups(d);
    r := Ran(accepted, restored, threw || !dropped);
    if !accepted {
      Finished(d, before, broken, ended, d.tree, records, cs, p, restored, d.Calm(from));
    }
  }

  // ------------------------------------------------------- a batch that is not put back

  /** A file `/s/x` to be linked at `/a/b/c` and, after that, at `/a/b`, neither of them there. */
  predicate Nest(m: Machine, t: Tree, lower: Record, upper: Record) {
    && lower.source == upper.source == Path("/s", "x") && lower.destination == Path("/a/b", "c") && upper.destination == Path("/a", "b")
    && lower.strategy == upper.strategy == LinkTo && lower.disabledSuffix.None? && upper.disabledSuffix.None?
    && !lower.initiallyDisabled && !upper.initiallyDisabled
    && m.dirs == map["/s" := "/s", "/a" := "/a", "/a/b" := "/a/b"]
    && m.above(Named("/a/b", "c")) == {Named("/a", "b")} && m.above(Named("/a", "b")) == {} && m.above(Named("/s", "x")) == {}
    && t == map[Named("/s", "x") := File([], 420)]
  }

  function NestChosen(lower: Record, upper: Record): seq<Chosen> {
    [Chosen(lower, lower.destination, Named("/a/b", "c"), false, Missing), Chosen(upper, upper.destination, Named("/a", "b"), false, Missing)]
  }

  lemma NestChosenOne(m: Machine, t: Tree, lower: Record, upper: Record)
    requires Nest(m, t, lower, upper)
    ensures Choose(m, t, lower) == Ok(NestChosen(lower, upper)[0]) && Choose(m, t, upper) == Ok(NestChosen(lower, upper)[1])
  {
    assert Concrete(lower.source) && Concrete(lower.destination) && Concrete(upper.destination);
    assert Phys(m, lower.destination) == Some(Named("/a/b", "c")) && Phys(m, upper.destination) == Some(Named("/a", "b"));
    assert !Share(m, lower.source, lower.destination) && !Share(m, upper.source, upper.destination);
    hide Concrete; hide Usable; hide See; hide Share; hide Phys;
  }

  lemma NestSelected(m: Machine, t: Tree, lower: Record, upper: Record)
    requires Nest(m, t, lower, upper)
    ensures SelectAll(m, t, [lower, upper]) == Ok(NestChosen(lower, upper))
  {
    NestChosenOne(m, t, lower, upper);
    hide Choose; hide Claims; hide Nest;
    var cs := NestChosen(lower, upper);
    assert [lower][..0] == [] && [lower, upper][..1] == [lower];
    assert [] + [cs[0]] == [cs[0]];
    assert SelectAll(m, t, [lower]) == Ok([cs[0]]);
    assert [cs[0]] + [cs[1]] == cs;
  }

  /** The preflight admits the batch, nothing keeps its deliveries from going through but their
      order, and its slots are not ordered. */
  lemma NestAdmitted(d: Disk, t: Tree, lower: Record, upper: Record)
    requires Nest(d.m, t, lower, upper)
    ensures SelectAll(d.m, t, [lower, upper]) == Ok(NestChosen(lower, upper)) && DonorsSafe(d.m, t, [lower, upper])
    ensures DonorsClear(d.m, t, NestChosen(lower, upper)) && !Ordered(d.m, NestChosen(lower, upper))
  {
    NestSelected(d.m, t, lower, upper);
    hide SelectAll; hide Choose; hide Claims; hide Meets; hide Slots;
    var cs := NestChosen(lower, upper);
    assert DonorsSafe(d.m, t, [lower, upper]);
    assert NoNesting(d.m, cs[..1]) by {
      assert cs[..1] == [cs[0]];
    }
    assert cs[..0 + 1] == cs[..1];
    assert Entries(cs) == {Named("/a/b", "c"), Named("/a", "b")};
  }

  /** The preflight admits it, no step fails, and it is not put back: `/a/b` stays a directory. */
  method NestedSlotLost(d: Disk, lower: Record, upper: Record, operation: Operation) returns (r: Ending)
    requires d.Valid() && d.Calm(d.clock) && Nest(d.m, d.tree, lower, upper)
    modifies d
    ensures r.Ran? && !r.accepted && !Back(old(d.tree), d.tree, NestChosen(lower, upper))
  {
    hide SelectAll; hide DonorsSafe; hide DonorsClear; hide Ordered; hide Back; hide Ready; hide NoNesting; hide AllReachable;
    hide BatchFits; hide SlotsChosen; hide Furnished; hide Stands; hide Reported;
    AdmittedIs(d.m, d.tree, [lower, upper]);
    NestAdmitted(d, d.tree, lower, upper);
    var cs;
    ghost var ran, delivered, broken, since, mutated;
    r, cs, ran, delivered, broken, since, mutated := WithInputBatch(d, [lower, upper], operation);
  }

  // ------------------------------------------------- a record that ends with both its slots

  /** A file `/s/x` to be linked, disabled, for `/a/b`, and enabled at `/a/b/c`; none of that is
      there. */
  predicate Crossed(m: Machine, t: Tree, off: Record, on: Record) {
    && off.source == on.source == Path("/s", "x") && off.destination == Path("/a", "b") && on.destination == Path("/a/b", "c")
    && off.strategy == on.strategy == LinkTo && off.disabledSuffix == Some(".off") && on.disabledSuffix.None?
    && off.initiallyDisabled && !on.initiallyDisabled
    && m.dirs == map["/s" := "/s", "/a" := "/a", "/a/b" := "/a/b"]
    && m.above(Named("/a/b", "c")) == {Named("/a", "b")} && m.above(Named("/a", "b")) == {}
    && m.above(Named("/a", "b.off")) == {} && m.above(Named("/s", "x")) == {}
    && t == map[Named("/s", "x") := File([], 420)]
  }

  const DISABLED := Path("/a", "b.off")

  function CrossedChosen(off: Record, on: Record): seq<Chosen> {
    [Chosen(off, DISABLED, Named("/a", "b.off"), true, Missing), Chosen(on, on.destination, Named("/a/b", "c"), false, Missing)]
  }

  lemma CrossedNames(m: Machine, t: Tree, off: Record, on: Record)
    requires Crossed(m, t, off, on)
    ensures "/a" != "/a/b" && "/s" != "/a" && "/s" != "/a/b" && "b" != "b.off" && DisabledPath(off) == Some(DISABLED)
    ensures Slots(off) == [off.destination, DISABLED] && Slots(on) == [on.destination]
  {
    assert "b" + ".off" == "b.off" && |"b"| != |"b.off"|;
  }

  lemma CrossedChosenOne(m: Machine, t: Tree, off: Record, on: Record)
    requires Crossed(m, t, off, on)
    ensures Choose(m, t, off) == Ok(CrossedChosen(off, on)[0]) && Choose(m, t, on) == Ok(CrossedChosen(off, on)[1])
  {
    CrossedNames(m, t, off, on);
    assert SuffixOk(".off") && Concrete(off.source) && Concrete(off.destination) && Concrete(on.destination);
    assert Phys(m, DISABLED) == Some(Named("/a", "b.off")) && Phys(m, on.destination) == Some(Named("/a/b", "c"));
    assert !Share(m, off.source, DISABLED) && !Share(m, on.source, on.destination);
    hide Concrete; hide SuffixOk; hide Usable; hide See; hide Share; hide Phys;
  }

  lemma CrossedSelected(m: Machine, t: Tree, off: Record, on: Record)
    requires Crossed(m, t, off, on)
    ensures SelectAll(m, t, [off, on]) == Ok(CrossedChosen(off, on)) && DonorsSafe(m, t, [off, on])
  {
    CrossedNames(m, t, off, on);
    CrossedChosenOne(m, t, off, on);
    hide Choose; hide Claims; hide Meets; hide Slots;
    var cs := CrossedChosen(off, on);
    assert [off][..0] == [] && [off, on][..1] == [off] && [] + [cs[0]] == [cs[0]];
    assert SelectAll(m, t, [off]) == Ok([cs[0]]);
    assert [cs[0]] + [cs[1]] == cs;
    forall i, k, j | 0 <= i < 2 && 0 <= k < |Slots([off, on][i])| && 0 <= j < 2
      ensures Meets(m, t, Slots([off, on][i])[k], [off, on][j].source, {}) == Some(false)
    {
      assert Slots([off, on][i])[k] in [off.destination, DISABLED, on.destination];
    }
  }

  lemma CrossedFacts(m: Machine, t: Tree, off: Record, on: Record)
    requires Crossed(m, t, off, on)
    ensures var cs := CrossedChosen(off, on); NoNesting(m, cs) && DonorsClear(m, t, cs) && !DormantApart(m, cs, cs[0])
  {
    CrossedNames(m, t, off, on);
    var cs := CrossedChosen(off, on);
    assert Entries(cs) == {Named("/a", "b.off"), Named("/a/b", "c")};
    assert cs[1] in cs && Named("/a", "b") in m.above(cs[1].entry);
  }

  /** The preflight admits it, no step fails, the operation runs, and it finds `/a/b` and
      `/a/b.off`: the record has both its slots, which the next preflight refuses. */
  method BothSlots(d: Disk, off: Record, on: Record, operation: Operation) returns (r: Ending, ghost delivered: Tree)
    requires d.Valid() && d.Calm(d.clock) && Crossed(d.m, d.tree, off, on)
    modifies d
    ensures r.Ran? && HoldsBoth(d.m, delivered, off) && Choose(d.m, delivered, off).Err?
    ensures r.accepted ==> Operated(operation, delivered, CrossedChosen(off, on), d.tree, Accepted)
  {
    hide SelectAll; hide DonorsSafe; hide DonorsClear; hide Ordered; hide Back; hide Ready; hide NoNesting; hide AllReachable; hide DormantApart;
    hide HoldsBoth; hide Choose; hide Operated; hide BatchFits; hide SlotsChosen; hide Furnished; hide Stands; hide Reported;
    AdmittedIs(d.m, d.tree, [off, on]);
    CrossedSelected(d.m, d.tree, off, on);
    CrossedFacts(d.m, d.tree, off, on);
    var cs;
    ghost var ran, broken, since, mutated;
    r, cs, ran, delivered, broken, since, mutated := WithInputBatch(d, [off, on], operation);
    assert [off, on][0] == off;
    BothRefused(d.m, delivered, off);
  }

  /** A record with both its slots is refused. */
  lemma BothRefused(m: Machine, t: Tree, r: Record)
    requires HoldsBoth(m, t, r)
    ensures Choose(m, t, r).Err?
  {
    hide Concrete; hide SuffixOk; hide Usable; hide Share;
  }
}
