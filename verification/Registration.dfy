/** The shared registration batch of files/config/registration.ts: preflight, backups, delivery,
    one operation, and restoring every slot unless the operation was accepted. */
module Registration {
  import opened Wrappers
  import opened Delivery

  datatype Strategy = Copy | LinkTo

  datatype Record = Record(
    source: Path, destination: Path, strategy: Strategy, disabledSuffix: Option<string>, initiallyDisabled: bool)

  /** A record with its chosen slot and what was there. */
  datatype Chosen = Chosen(record: Record, path: Path, entry: Entry, disabled: bool, previous: Seen)

  datatype Why =
    | NotConcrete | BadSuffix | NoSource | Unreadable | BothPresent | NoDisabledSlot
    | NotReplaceable | AliasesDonor | SameSlot | DonorAtRisk | Unlucky

  // ------------------------------------------------------------------- preflight

  predicate Plain(s: string) {
    forall i :: 0 <= i < |s| ==> s[i] != '\0' && s[i] != '\r' && s[i] != '\n' && s[i] != '\t'
  }

  predicate Concrete(p: Path) {
    p.dir != "" && p.dir[0] == '/' && Plain(p.dir) && Plain(p.base)
  }

  predicate SuffixChar(c: char) {
    'A' <= c <= 'Z' || 'a' <= c <= 'z' || '0' <= c <= '9' || c == '_' || c == '.' || c == '-'
  }

  predicate SuffixOk(s: string) {
    |s| > 1 && s[0] == '.' && forall i :: 1 <= i < |s| ==> SuffixChar(s[i])
  }

  function DisabledPath(r: Record): Option<Path> {
    match r.disabledSuffix case None => None case Some(s) => Some(Path(r.destination.dir, r.destination.base + s))
  }

  /** Both slots a record may claim. */
  function Slots(r: Record): seq<Path> {
    [r.destination] + match DisabledPath(r) case None => [] case Some(p) => [p]
  }

  predicate Share(m: Machine, a: Path, b: Path) {
    a == b || (Phys(m, a).Some? && Phys(m, a) == Phys(m, b))
  }

  /** `captureFile(source).bytes` */
  predicate Usable(m: Machine, t: Tree, source: Path) {
    Phys(m, source).Some? && IsFile(Referent(m, t, Phys(m, source).value))
  }

  function SeeDisabled(m: Machine, t: Tree, r: Record): Option<Seen> {
    match DisabledPath(r) case None => Some(Missing) case Some(p) => See(m, t, p)
  }

  /** The checks of one record by itself. */
  function Choose(m: Machine, t: Tree, r: Record): Result<Chosen, Why> {
    if !Concrete(r.source) || !Concrete(r.destination) then Err(NotConcrete)
    else if r.disabledSuffix.Some? && !SuffixOk(r.disabledSuffix.value) then Err(BadSuffix)
    else if !Usable(m, t, r.source) then Err(NoSource)
    else
      match See(m, t, r.destination)
      case None => Err(Unreadable)
      case Some(active) =>
        match SeeDisabled(m, t, r)
        case None => Err(Unreadable)
        case Some(disabled) => ChooseSlot(m, r, active, disabled)
  }

  function ChooseSlot(m: Machine, r: Record, active: Seen, disabled: Seen): Result<Chosen, Why> {
    var useDisabled := !disabled.Missing? || (active.Missing? && r.initiallyDisabled);
    if !active.Missing? && !disabled.Missing? then Err(BothPresent)
    else if useDisabled && DisabledPath(r).None? then Err(NoDisabledSlot)
    else
      var path := if useDisabled then DisabledPath(r).value else r.destination;
      var previous := if useDisabled then disabled else active;
      if previous.Folder? || previous.Other? then Err(NotReplaceable)
      else if Share(m, r.source, path) then Err(AliasesDonor)
      else
        match Phys(m, path)
        case None => Err(Unreadable)
        case Some(e) => Ok(Chosen(r, path, e, useDisabled, previous))
  }

  predicate Claims(m: Machine, a: Record, b: Record) {
    exists i, j :: 0 <= i < |Slots(a)| && 0 <= j < |Slots(b)| && Share(m, Slots(a)[i], Slots(b)[j])
  }

  function SelectAll(m: Machine, t: Tree, records: seq<Record>): Result<seq<Chosen>, Why> {
    if records == [] then Ok([])
    else
      match SelectAll(m, t, records[..|records| - 1])
      case Err(why) => Err(why)
      case Ok(before) =>
        var last := records[|records| - 1];
        match Choose(m, t, last)
        case Err(why) => Err(why)
        case Ok(c) =>
          if exists k :: 0 <= k < |before| && Claims(m, last, before[k].record) then Err(SameSlot) else Ok(before + [c])
  }

  /** Names under which some link can be found: finitely many. */
  function Names(m: Machine, t: Tree): set<Path> {
    set d, e | d in m.dirs.Keys && e in t.Keys && e.Named? :: Path(d, e.base)
  }

  /** The walk along a donor's links: Some(true) when it meets the slot, None when it throws. */
  function Meets(m: Machine, t: Tree, slot: Path, p: Path, seen: set<Path>): Option<bool>
    requires seen <= Names(m, t)
    decreases |Names(m, t) - seen|
  {
    if p in seen then Some(false)
    else if Share(m, slot, p) then Some(true)
    else
      match See(m, t, p)
      case None => None
      case Some(Symlink(_, next)) =>
        LinkIsNamed(m, t, p);
        assert Names(m, t) - (seen + {p}) < Names(m, t) - seen;
        Smaller(Names(m, t) - (seen + {p}), Names(m, t) - seen);
        Meets(m, t, slot, next, seen + {p})
      case Some(_) => Some(false)
  }

  lemma LinkIsNamed(m: Machine, t: Tree, p: Path)
    requires See(m, t, p).Some? && See(m, t, p).value.Symlink?
    ensures p in Names(m, t)
  {
    var e := Phys(m, p).value;
    assert p == Path(p.dir, e.base) && p.dir in m.dirs.Keys && e in t.Keys;
  }

  lemma Smaller<T>(a: set<T>, b: set<T>)
    requires a < b
    ensures |a| < |b|
  {
    assert b == a + (b - a);
    assert |b| == |a| + |b - a|;
  }

  /** No slot of the batch lies on the way of any donor. */
  predicate DonorsSafe(m: Machine, t: Tree, records: seq<Record>) {
    forall i, k, j :: 0 <= i < |records| && 0 <= k < |Slots(records[i])| && 0 <= j < |records| ==>
      Meets(m, t, Slots(records[i])[k], records[j].source, {}) == Some(false)
  }

  /** What `withInputBatch` has established when it starts to write. */
  predicate Admitted(m: Machine, t: Tree, records: seq<Record>, chosen: seq<Chosen>) {
    SelectAll(m, t, records) == Ok(chosen) && DonorsSafe(m, t, records)
  }

  /** The preflight as a method over a disk whose reads may fail. */
  method Preflight(d: Disk, records: seq<Record>) returns (r: Result<seq<Chosen>, Why>)
    requires d.Valid()
    modifies d`clock
    ensures d.Valid() && d.clock >= old(d.clock)
    ensures r.Ok? ==> Admitted(d.m, d.tree, records, r.value)
    ensures d.Calm(old(d.clock)) && SelectAll(d.m, d.tree, records).Ok? && DonorsSafe(d.m, d.tree, records) ==> r.Ok?
  {
    hide Choose; hide Claims; hide Slots; hide Meets;
    var m, t := d.m, d.tree;
    var selected: seq<Chosen> := [];
    var n := 0;
    assert records[..0] == [];
    while n < |records|
      invariant 0 <= n <= |records| && d.Valid() && d.clock >= old(d.clock) && d.tree == t
      invariant SelectAll(m, t, records[..n]) == Ok(selected)
    {
      assert records[..n + 1][..n] == records[..n];
      var ok := d.Try();
      if !ok {
        SelectPrefix(m, t, records, n + 1);
        return Err(Unlucky);
      }
      var c := Choose(m, t, records[n]);
      if c.Err? || exists k :: 0 <= k < |selected| && Claims(m, records[n], selected[k].record) {
        SelectPrefix(m, t, records, n + 1);
        return Err(if c.Err? then c.error else SameSlot);
      }
      selected := selected + [c.value];
      n := n + 1;
    }
    assert records[..n] == records;
    var i := 0;
    while i < |records|
      invariant 0 <= i <= |records| && d.Valid() && d.clock >= old(d.clock) && d.tree == t
      invariant forall a, k, j :: 0 <= a < i && 0 <= k < |Slots(records[a])| && 0 <= j < |records| ==>
        Meets(m, t, Slots(records[a])[k], records[j].source, {}) == Some(false)
    {
      var k := 0;
      while k < |Slots(records[i])|
        invariant 0 <= k <= |Slots(records[i])| && d.Valid() && d.clock >= old(d.clock) && d.tree == t
        invariant forall b, j :: 0 <= b < k && 0 <= j < |records| ==>
          Meets(m, t, Slots(records[i])[b], records[j].source, {}) == Some(false)
      {
        var clear := ClearOfDonors(d, Slots(records[i])[k], records);
        if !clear {
          return Err(DonorAtRisk);
        }
        k := k + 1;
      }
      i := i + 1;
    }
    return Ok(selected);
  }

  lemma {:induction false} SelectPrefix(m: Machine, t: Tree, records: seq<Record>, n: nat)
    requires n <= |records|
    ensures SelectAll(m, t, records).Ok? ==> SelectAll(m, t, records[..n]).Ok?
    decreases |records|
  {
    if n == |records| {
      assert records[..n] == records;
    } else {
      assert records[..|records| - 1][..n] == records[..n];
      SelectPrefix(m, t, records[..|records| - 1], n);
    }
  }

  method ClearOfDonors(d: Disk, slot: Path, records: seq<Record>) returns (clear: bool)
    requires d.Valid()
    modifies d`clock
    ensures d.Valid() && d.clock >= old(d.clock)
    ensures clear ==> forall j :: 0 <= j < |records| ==> Meets(d.m, d.tree, slot, records[j].source, {}) == Some(false)
    ensures d.Calm(old(d.clock)) && (forall j :: 0 <= j < |records| ==> Meets(d.m, d.tree, slot, records[j].source, {}) == Some(false)) ==> clear
  {
    hide Meets;
    var j := 0;
    while j < |records|
      invariant 0 <= j <= |records| && d.Valid() && d.clock >= old(d.clock)
      invariant forall a :: 0 <= a < j ==> Meets(d.m, d.tree, slot, records[a].source, {}) == Some(false)
    {
      var hit := WalkDonor(d, slot, records[j].source);
      if hit != Some(false) {
        return false;
      }
      j := j + 1;
    }
    return true;
  }

  /** The inner `while` loop with its set of visited names. */
  method WalkDonor(d: Disk, slot: Path, donor: Path) returns (hit: Option<bool>)
    requires d.Valid()
    modifies d`clock
    ensures d.Valid() && d.clock >= old(d.clock)
    ensures hit.Some? ==> hit == Meets(d.m, d.tree, slot, donor, {})
    ensures d.Calm(old(d.clock)) ==> hit == Meets(d.m, d.tree, slot, donor, {})
  {
    hide Share; hide See;
    var m, t := d.m, d.tree;
    var source := donor;
    var seen: set<Path> := {};
    while source !in seen
      invariant seen <= Names(m, t) && d.Valid() && d.clock >= old(d.clock) && d.tree == t
      invariant Meets(m, t, slot, donor, {}) == Meets(m, t, slot, source, seen)
      decreases |Names(m, t) - seen|
    {
      if Share(m, slot, source) {
        return Some(true);
      }
      var state := d.Inspect(source);
      if state.None? {
        return None;
      }
      if !state.value.Symlink? {
        return Some(false);
      }
      LinkIsNamed(m, t, source);
      Smaller(Names(m, t) - (seen + {source}), Names(m, t) - seen);
      seen := seen + {source};
      source := state.value.targetPath;
    }
    return Some(false);
  }

  // ------------------------------------------------------------- writing and restoring

  function AboveAll(m: Machine, cs: seq<Chosen>): set<Entry> {
    set c, x | c in cs && x in m.above(c.entry) :: x
  }

  function Entries(cs: seq<Chosen>): (r: set<Entry>)
    ensures forall i :: 0 <= i < |cs| ==> cs[i].entry in r
  {
    set c | c in cs :: c.entry
  }

  /** Slots named by path, pairwise different. */
  predicate Distinct(cs: seq<Chosen>) {
    && (forall i :: 0 <= i < |cs| ==> cs[i].entry.Named?)
    && forall i, j :: 0 <= i < j < |cs| ==> cs[i].entry != cs[j].entry
  }

  /** No slot is a directory above another slot. */
  predicate NoNesting(m: Machine, cs: seq<Chosen>) {
    forall i, j :: 0 <= i < |cs| && 0 <= j < |cs| ==> cs[i].entry !in m.above(cs[j].entry)
  }

  /** No slot that was missing lies above an earlier one that can be delivered: making the
      directories of the earlier one would turn it into a directory for good. */
  predicate Ordered(m: Machine, cs: seq<Chosen>) {
    forall i, j :: 0 <= i < j < |cs| && NoNesting(m, cs[..i + 1]) ==> !(cs[j].previous.Missing? && cs[j].entry in m.above(cs[i].entry))
  }

  /** A slot holds what it held before: nothing, the same bytes and low mode bits, or a link
      with the same literal target. */
  predicate Restored(before: Tree, after: Tree, c: Chosen) {
    match c.previous
    case Missing => Get(after, c.entry) == None
    case Regular =>
      IsFile(Get(before, c.entry)) && IsFile(Get(after, c.entry))
      && before[c.entry].bytes == after[c.entry].bytes && Bits(before[c.entry].mode) == Bits(after[c.entry].mode)
    case _ => Get(after, c.entry) == Get(before, c.entry)
  }

  /** The backup of slot `i`, if it held a regular file. */
  predicate BackedUp(before: Tree, t: Tree, c: Chosen, i: nat) {
    c.previous.Regular? ==>
      IsFile(Get(before, c.entry)) && Get(t, Backup(i)) == Some(File(before[c.entry].bytes, Bits(before[c.entry].mode)))
  }

  predicate Backups(before: Tree, t: Tree, cs: seq<Chosen>) {
    forall i :: 0 <= i < |cs| ==> BackedUp(before, t, cs[i], i)
  }

  /** What was seen at a slot agrees with what is there. */
  predicate Seen0(before: Tree, c: Chosen) {
    match c.previous
    case Missing => Get(before, c.entry) == None
    case Regular => IsFile(Get(before, c.entry))
    case Symlink(target, _) => Get(before, c.entry) == Some(Link(target))
    case _ => false
  }

  /** Putting one slot back. */
  method RestoreOne(d: Disk, c: Chosen, i: nat, ghost before: Tree) returns (ok: bool)
    requires d.Valid() && c.entry.Named? && Seen0(before, c) && BackedUp(before, d.tree, c, i)
    modifies d
    ensures d.Valid() && d.clock >= old(d.clock)
    ensures ok ==> Restored(before, d.tree, c)
    ensures Undisturbed(old(d.tree), d.tree, {c.entry}, d.m.above(c.entry))
    ensures d.Calm(old(d.clock)) && d.Reachable(old(d.tree), c.entry) ==> ok
  {
    match c.previous {
      case Missing => ok := d.Rm(c.entry);
      case Regular =>
        ok := d.ReplaceWithCopy(Backup(i), c.entry);
      case Symlink(target, _) =>
        var temporary := d.NewTemp();
        ok := d.MakeLink(target, temporary);
        if ok {
          ok := d.Rename(temporary, c.entry);
        }
        var removed := d.Rm(temporary);
        ok := ok && removed;
    }
  }
}
