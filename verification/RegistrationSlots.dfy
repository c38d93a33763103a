/** Which batches the preflight admits and which slot each record gets, said on the disk as it
    was, record by record. */
module RegistrationSlots {
  import opened Wrappers
  import opened Delivery
  import opened Registration
  import opened RegistrationSafety

  // --------------------------------------------------------------------- the disk

  function At(m: Machine, p: Path): Entry
    requires p.dir in m.dirs
  {
    Named(m.dirs[p.dir], p.base)
  }

  /** The same path, or two names of one entry. */
  predicate SamePlace(m: Machine, a: Path, b: Path) {
    a == b || (a.dir in m.dirs && b.dir in m.dirs && At(m, a) == At(m, b))
  }

  /** A path that can be looked up: nothing but directories above it. */
  predicate Looked(m: Machine, t: Tree, p: Path) {
    p.dir in m.dirs && forall d :: d in m.above(At(m, p)) && d in t ==> t[d] == Directory
  }

  predicate Held(m: Machine, t: Tree, p: Path) {
    p.dir in m.dirs && At(m, p) in t
  }

  // -------------------------------------------------------------------- one record

  predicate AbsolutePath(p: Path) {
    |p.dir| > 0 && p.dir[0] == '/' && forall c :: c in p.dir || c in p.base ==> c !in {'\0', '\r', '\n', '\t'}
  }

  predicate SuffixLetter(c: char) {
    'a' <= c <= 'z' || 'A' <= c <= 'Z' || '0' <= c <= '9' || c in {'_', '.', '-'}
  }

  predicate GoodSuffix(s: string) {
    |s| >= 2 && s[0] == '.' && forall c :: c in s[1..] ==> SuffixLetter(c)
  }

  function Alternate(r: Record): Path
    requires r.disabledSuffix.Some?
  {
    Path(r.destination.dir, r.destination.base + r.disabledSuffix.value)
  }

  /** The paths a record claims, used or not. */
  predicate Claimed(r: Record, p: Path) {
    p == r.destination || (r.disabledSuffix.Some? && p == Alternate(r))
  }

  /** A record is delivered disabled exactly when its alternate was there, or neither of its
      slots was and it says so. */
  predicate StartsDisabled(m: Machine, t: Tree, r: Record) {
    r.disabledSuffix.Some? && (Held(m, t, Alternate(r)) || (r.initiallyDisabled && !Held(m, t, r.destination)))
  }

  function SlotPath(m: Machine, t: Tree, r: Record): Path {
    if StartsDisabled(m, t, r) then Alternate(r) else r.destination
  }

  /** The record as it stands can be registered. */
  predicate Fits(m: Machine, t: Tree, r: Record) {
    && AbsolutePath(r.source) && AbsolutePath(r.destination) && (r.disabledSuffix.Some? ==> GoodSuffix(r.disabledSuffix.value))
    && r.source.dir in m.dirs && IsFile(Referent(m, t, At(m, r.source)))
    && Looked(m, t, r.destination) && (r.disabledSuffix.Some? ==> Looked(m, t, Alternate(r)))
    && !(r.disabledSuffix.Some? && Held(m, t, r.destination) && Held(m, t, Alternate(r)))
    && (r.disabledSuffix.None? && r.initiallyDisabled ==> Held(m, t, r.destination))
    && (var slot := SlotPath(m, t, r);
        !SamePlace(m, r.source, slot) && (Held(m, t, slot) ==> t[At(m, slot)].File? || t[At(m, slot)].Link?))
  }

  /** What is remembered of a slot. */
  predicate Remembered(t: Tree, e: Entry, s: Seen) {
    match s
    case Missing => e !in t
    case Regular => e in t && t[e].File?
    case Symlink(target, _) => e in t && t[e] == Link(target)
    case _ => false
  }

  predicate Slotted(m: Machine, t: Tree, r: Record, c: Chosen) {
    var slot := SlotPath(m, t, r);
    && c.record == r && c.path == slot && c.disabled == StartsDisabled(m, t, r)
    && slot.dir in m.dirs && c.entry == At(m, slot) && Remembered(t, c.entry, c.previous)
  }

  lemma LooksUp(m: Machine, t: Tree, p: Path)
    ensures See(m, t, p).Some? <==> Looked(m, t, p)
    ensures Looked(m, t, p) ==> (See(m, t, p).value.Missing? <==> !Held(m, t, p))
    ensures Looked(m, t, p) && Held(m, t, p) ==>
      ((See(m, t, p).value.Folder? || See(m, t, p).value.Other?) <==> !(t[At(m, p)].File? || t[At(m, p)].Link?))
    ensures Looked(m, t, p) && (Held(m, t, p) ==> t[At(m, p)].File? || t[At(m, p)].Link?) ==> Remembered(t, At(m, p), See(m, t, p).value)
  {
  }

  lemma ShareIs(m: Machine, a: Path, b: Path)
    ensures Share(m, a, b) <==> SamePlace(m, a, b)
  {
  }

  lemma ConcreteIs(p: Path)
    ensures Concrete(p) <==> AbsolutePath(p)
  {
    if AbsolutePath(p) {
      forall i | 0 <= i < |p.dir| ensures p.dir[i] !in {'\0', '\r', '\n', '\t'} { assert p.dir[i] in p.dir; }
      forall i | 0 <= i < |p.base| ensures p.base[i] !in {'\0', '\r', '\n', '\t'} { assert p.base[i] in p.base; }
    }
  }

  lemma SuffixIs(s: string)
    ensures SuffixOk(s) <==> GoodSuffix(s)
  {
    if GoodSuffix(s) {
      forall i | 1 <= i < |s| ensures SuffixChar(s[i]) { assert s[1..][i - 1] in s[1..]; }
    }
  }

  /** One record is accepted exactly when it fits, with exactly that slot. */
  lemma ChooseExact(m: Machine, t: Tree, r: Record)
    ensures Choose(m, t, r).Ok? <==> Fits(m, t, r)
    ensures Choose(m, t, r).Ok? ==> Slotted(m, t, r, Choose(m, t, r).value)
  {
    hide Concrete; hide AbsolutePath; hide SuffixOk; hide GoodSuffix; hide See; hide Looked; hide Share; hide SamePlace; hide Referent;
    hide Remembered;
    ConcreteIs(r.source);
    ConcreteIs(r.destination);
    LooksUp(m, t, r.destination);
    ShareIs(m, r.source, r.destination);
    if r.disabledSuffix.Some? {
      SuffixIs(r.disabledSuffix.value);
      LooksUp(m, t, Alternate(r));
      ShareIs(m, r.source, Alternate(r));
    }
    LookedThere(m, t, r.destination);
    if r.disabledSuffix.Some? {
      LookedThere(m, t, Alternate(r));
    }
  }

  lemma LookedThere(m: Machine, t: Tree, p: Path)
    ensures Looked(m, t, p) ==> p.dir in m.dirs
  {
  }

  // --------------------------------------------------------------------- the batch

  /** Following the links of a donor by their names, one never comes by the slot, and every name
      on the way can be looked up. */
  ghost predicate Avoids(m: Machine, t: Tree, slot: Path, donor: Path) {
    exists names: set<Path> :: donor in names && AllPass(m, t, slot, names)
  }

  ghost predicate AllPass(m: Machine, t: Tree, slot: Path, names: set<Path>) {
    forall p :: p in names ==> Passes(m, t, slot, p, names)
  }

  ghost predicate Passes(m: Machine, t: Tree, slot: Path, p: Path, names: set<Path>) {
    && !SamePlace(m, slot, p) && Looked(m, t, p)
    && (At(m, p) in t && t[At(m, p)].Link? ==> m.lexical(p, t[At(m, p)].target) in names)
  }

  ghost predicate ShareAClaim(m: Machine, a: Record, b: Record) {
    exists p, q :: Claimed(a, p) && Claimed(b, q) && SamePlace(m, p, q)
  }

  ghost predicate NoSharedClaim(m: Machine, records: seq<Record>) {
    forall i, j :: 0 <= i < j < |records| ==> !ShareAClaim(m, records[j], records[i])
  }

  ghost predicate Spares(m: Machine, t: Tree, r: Record, donor: Path) {
    forall p :: Claimed(r, p) ==> Avoids(m, t, p, donor)
  }

  ghost predicate DonorsAvoided(m: Machine, t: Tree, records: seq<Record>) {
    forall i, j :: 0 <= i < |records| && 0 <= j < |records| ==> Spares(m, t, records[i], records[j].source)
  }

  /** Every record fits, no two claim one place, and no donor's links come by a claimed one. */
  ghost predicate BatchFits(m: Machine, t: Tree, records: seq<Record>) {
    && (forall i :: 0 <= i < |records| ==> Fits(m, t, records[i]))
    && NoSharedClaim(m, records) && DonorsAvoided(m, t, records)
  }

  ghost predicate SlotsChosen(m: Machine, t: Tree, records: seq<Record>, cs: seq<Chosen>) {
    |cs| == |records| && forall i :: 0 <= i < |cs| ==> Slotted(m, t, records[i], cs[i])
  }

  lemma SlotsAreClaims(r: Record, p: Path)
    ensures p in Slots(r) <==> Claimed(r, p)
  {
  }

  lemma ClaimsIs(m: Machine, a: Record, b: Record)
    ensures Claims(m, a, b) <==> ShareAClaim(m, a, b)
  {
    hide Slots; hide Claimed; hide Share; hide SamePlace;
    if ShareAClaim(m, a, b) {
      var p, q :| Claimed(a, p) && Claimed(b, q) && SamePlace(m, p, q);
      SlotsAreClaims(a, p);
      SlotsAreClaims(b, q);
      ShareIs(m, p, q);
      var i :| 0 <= i < |Slots(a)| && Slots(a)[i] == p;
      var j :| 0 <= j < |Slots(b)| && Slots(b)[j] == q;
      assert Share(m, Slots(a)[i], Slots(b)[j]);
    } else if Claims(m, a, b) {
      var i, j :| 0 <= i < |Slots(a)| && 0 <= j < |Slots(b)| && Share(m, Slots(a)[i], Slots(b)[j]);
      SlotsAreClaims(a, Slots(a)[i]);
      SlotsAreClaims(b, Slots(b)[j]);
      ShareIs(m, Slots(a)[i], Slots(b)[j]);
    }
  }

  /** Records chosen one by one, none claiming what an earlier one claims. */
  ghost predicate OneByOne(m: Machine, t: Tree, records: seq<Record>) {
    && (forall i :: 0 <= i < |records| ==> Choose(m, t, records[i]).Ok?)
    && forall i, j :: 0 <= i < j < |records| ==> !Claims(m, records[j], records[i])
  }

  lemma {:induction false} SelectExact(m: Machine, t: Tree, records: seq<Record>)
    ensures SelectAll(m, t, records).Ok? <==> OneByOne(m, t, records)
    decreases |records|
  {
    hide Choose; hide Claims;
    if records != [] {
      var front, last := records[..|records| - 1], records[|records| - 1];
      SelectExact(m, t, front);
      OneByOneFront(m, t, records);
      if SelectAll(m, t, front).Ok? {
        SelectedIs(m, t, front);
      }
    }
  }

  lemma OneByOneFront(m: Machine, t: Tree, records: seq<Record>)
    requires records != []
    ensures var n := |records| - 1;
      OneByOne(m, t, records) <==>
        OneByOne(m, t, records[..n]) && Choose(m, t, records[n]).Ok? && forall i :: 0 <= i < n ==> !Claims(m, records[n], records[..n][i])
  {
    hide Choose; hide Claims;
    var n := |records| - 1;
    if OneByOne(m, t, records[..n]) {
      assert forall i :: 0 <= i < n ==> records[i] == records[..n][i];
      forall i, j | 0 <= i < j < n ensures !Claims(m, records[j], records[i]) {
        assert !Claims(m, records[..n][j], records[..n][i]);
      }
    }
  }

  /** A walk inside a closed set of names never meets the slot. */
  lemma {:induction false} ClosedNeverMeets(m: Machine, t: Tree, slot: Path, p: Path, seen: set<Path>, names: set<Path>)
    requires seen <= Names(m, t) && p in names && Closed(m, t, slot, names)
    ensures Meets(m, t, slot, p, seen) == Some(false)
    decreases |Names(m, t) - seen|
  {
    hide Share; hide See; hide Names;
    assert Checked(m, t, slot, p, names);
    if p !in seen && See(m, t, p).value.Symlink? {
      LinkIsNamed(m, t, p);
      Smaller(Names(m, t) - (seen + {p}), Names(m, t) - seen);
      ClosedNeverMeets(m, t, slot, See(m, t, p).value.targetPath, seen + {p}, names);
    }
  }

  lemma PassesIs(m: Machine, t: Tree, slot: Path, p: Path, names: set<Path>)
    ensures Checked(m, t, slot, p, names) <==> Passes(m, t, slot, p, names)
  {
    hide Share; hide SamePlace;
    ShareIs(m, slot, p);
  }

  lemma ClosedIs(m: Machine, t: Tree, slot: Path, names: set<Path>)
    ensures Closed(m, t, slot, names) <==> AllPass(m, t, slot, names)
  {
    hide Checked; hide Passes;
    forall p ensures Checked(m, t, slot, p, names) <==> Passes(m, t, slot, p, names) { PassesIs(m, t, slot, p, names); }
  }

  lemma MeetsNever(m: Machine, t: Tree, slot: Path, donor: Path)
    ensures Meets(m, t, slot, donor, {}) == Some(false) <==> Avoids(m, t, slot, donor)
  {
    hide Closed; hide AllPass; hide Meets;
    if Meets(m, t, slot, donor, {}) == Some(false) {
      ClearOf(m, t, slot, donor);
      var names: set<Path> :| donor in names && Closed(m, t, slot, names);
      ClosedIs(m, t, slot, names);
    } else if Avoids(m, t, slot, donor) {
      var names: set<Path> :| donor in names && AllPass(m, t, slot, names);
      ClosedIs(m, t, slot, names);
      ClosedNeverMeets(m, t, slot, donor, {}, names);
    }
  }

  lemma SparesIs(m: Machine, t: Tree, r: Record, donor: Path)
    ensures Spares(m, t, r, donor) <==> forall k :: 0 <= k < |Slots(r)| ==> Meets(m, t, Slots(r)[k], donor, {}) == Some(false)
  {
    hide Meets; hide Avoids; hide Slots; hide Claimed;
    forall p ensures p in Slots(r) <==> Claimed(r, p) { SlotsAreClaims(r, p); }
    forall p ensures Meets(m, t, p, donor, {}) == Some(false) <==> Avoids(m, t, p, donor) { MeetsNever(m, t, p, donor); }
    if forall k :: 0 <= k < |Slots(r)| ==> Meets(m, t, Slots(r)[k], donor, {}) == Some(false) {
      forall p | Claimed(r, p) ensures Avoids(m, t, p, donor) {
        var k :| 0 <= k < |Slots(r)| && Slots(r)[k] == p;
      }
    }
  }

  lemma SafeIs(m: Machine, t: Tree, records: seq<Record>)
    ensures DonorsSafe(m, t, records) <==> DonorsAvoided(m, t, records)
  {
    hide Meets; hide Spares; hide Slots;
    forall i, j | 0 <= i < |records| && 0 <= j < |records|
      ensures Spares(m, t, records[i], records[j].source) <==>
        forall k :: 0 <= k < |Slots(records[i])| ==> Meets(m, t, Slots(records[i])[k], records[j].source, {}) == Some(false)
    {
      SparesIs(m, t, records[i], records[j].source);
    }
  }

  lemma NoClaimsIs(m: Machine, records: seq<Record>)
    ensures NoSharedClaim(m, records) <==> forall i, j :: 0 <= i < j < |records| ==> !Claims(m, records[j], records[i])
  {
    hide Claims; hide ShareAClaim;
    forall i, j | 0 <= i < j < |records| ensures Claims(m, records[j], records[i]) <==> ShareAClaim(m, records[j], records[i]) {
      ClaimsIs(m, records[j], records[i]);
    }
  }

  /** The preflight accepts exactly the batches that fit, and every record gets its slot. */
  lemma AdmittedExactly(m: Machine, t: Tree, records: seq<Record>)
    ensures SelectAll(m, t, records).Ok? && DonorsSafe(m, t, records) <==> BatchFits(m, t, records)
    ensures SelectAll(m, t, records).Ok? ==> SlotsChosen(m, t, records, SelectAll(m, t, records).value)
  {
    hide Choose; hide Claims; hide DonorsSafe; hide DonorsAvoided; hide NoSharedClaim; hide Fits; hide Slotted;
    SelectExact(m, t, records);
    NoClaimsIs(m, records);
    SafeIs(m, t, records);
    forall i | 0 <= i < |records| ensures Choose(m, t, records[i]).Ok? <==> Fits(m, t, records[i]) {
      ChooseExact(m, t, records[i]);
    }
    if SelectAll(m, t, records).Ok? {
      SelectedIs(m, t, records);
      forall i | 0 <= i < |records| ensures Slotted(m, t, records[i], SelectAll(m, t, records).value[i]) {
        ChooseExact(m, t, records[i]);
      }
    }
  }
}
