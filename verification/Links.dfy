/** Managed links: resolving claims, assessing a destination and deciding what to do about it, as
    in files/links/manifest.ts, files/links/operations.ts and files/links/runtime.ts. */
module Links {
  import opened Wrappers
  import opened Delivery

  datatype Strategy = ByLink | ByCopy

  datatype Policy = Preserve | Fail | Replace

  datatype Scope = OfSystem | OfUser

  datatype Record = Record(
    id: string, scope: Scope, src: Path, dest: Path, policy: Policy, present: bool,
    available: seq<Strategy>, default: Strategy, compose: bool)

  /** What two records must share to claim the same destination. */
  predicate SameClaim(a: Record, b: Record) {
    a.src == b.src && a.policy == b.policy && a.present == b.present && a.compose == b.compose
    && a.default == b.default && a.available == b.available
  }

  // --------------------------------------------------------------------- claims

  /** A manifest row before its paths are expanded. */
  datatype Row = Row(
    id: string, scope: Scope, src: string, dest: string, policy: Policy, present: bool,
    available: seq<Strategy>, default: Strategy, compose: bool)

  /** The paths of a row, None where expansion throws or both are the same. */
  function Bound(expand: string -> Option<Path>, r: Row): Option<Record> {
    match expand(r.src)
    case None => None
    case Some(src) =>
      match expand(r.dest)
      case None => None
      case Some(dest) =>
        if src == dest then None
        else Some(Record(r.id, r.scope, src, dest, r.policy, r.present, r.available, r.default, r.compose))
  }

  type Claims = map<(Scope, Path), Record>

  datatype Resolved = Resolved(records: seq<Record>, invalid: seq<Row>)

  function AddResolved(records: seq<Record>, invalid: seq<Row>, r: Resolved): (p: Resolved)
    ensures records == [] && invalid == [] ==> p == r
  {
    assert [] + r.records == r.records && [] + r.invalid == r.invalid;
    Resolved(records + r.records, invalid + r.invalid)
  }

  /** The loop of `resolveRecords` over the selected rows. */
  function Resolve(expand: string -> Option<Path>, rows: seq<Row>, claims: Claims): Resolved {
    if rows == [] then Resolved([], [])
    else
      match Bound(expand, rows[0])
      case None => AddResolved([], [rows[0]], Resolve(expand, rows[1..], claims))
      case Some(record) =>
        var key := (record.scope, record.dest);
        if key in claims && !SameClaim(claims[key], record) then AddResolved([], [rows[0]], Resolve(expand, rows[1..], claims))
        else AddResolved([record], [], Resolve(expand, rows[1..], claims[key := record]))
  }

  method ResolveRecords(expand: string -> Option<Path>, rows: seq<Row>) returns (r: Resolved)
    ensures r == Resolve(expand, rows, map[])
  {
    hide Bound; hide SameClaim;
    var claims: Claims := map[];
    var records: seq<Record> := [];
    var invalid: seq<Row> := [];
    var i := 0;
    assert rows[0..] == rows;
    while i < |rows|
      invariant 0 <= i <= |rows|
      invariant Resolve(expand, rows, map[]) == AddResolved(records, invalid, Resolve(expand, rows[i..], claims))
    {
      assert rows[i..][1..] == rows[i + 1..];
      var bound := Bound(expand, rows[i]);
      ghost var before := claims;
      if bound.Some? && ((bound.value.scope, bound.value.dest) !in claims || SameClaim(claims[(bound.value.scope, bound.value.dest)], bound.value)) {
        AddTwice(records, invalid, [bound.value], [], Resolve(expand, rows[i + 1..], claims[(bound.value.scope, bound.value.dest) := bound.value]));
        claims := claims[(bound.value.scope, bound.value.dest) := bound.value];
        records := records + [bound.value];
        assert invalid + [] == invalid;
      } else {
        AddTwice(records, invalid, [], [rows[i]], Resolve(expand, rows[i + 1..], claims));
        invalid := invalid + [rows[i]];
        assert records + [] == records;
      }
      i := i + 1;
    }
    assert records + [] == records && invalid + [] == invalid;
    return Resolved(records, invalid);
  }

  lemma AddTwice(a: seq<Record>, b: seq<Row>, c: seq<Record>, d: seq<Row>, r: Resolved)
    ensures AddResolved(a, b, AddResolved(c, d, r)) == AddResolved(a + c, b + d, r)
  {
    assert a + (c + r.records) == (a + c) + r.records && b + (d + r.invalid) == (b + d) + r.invalid;
  }

  predicate Compatible(rs: seq<Record>) {
    forall i, j :: 0 <= i < |rs| && 0 <= j < |rs| && rs[i].scope == rs[j].scope && rs[i].dest == rs[j].dest ==> SameClaim(rs[i], rs[j])
  }

  /** Accepted records never disagree about a destination within a scope. */
  lemma {:induction false} ResolvedCompatible(expand: string -> Option<Path>, rows: seq<Row>, claims: Claims)
    requires forall k :: k in claims ==> (claims[k].scope, claims[k].dest) == k
    ensures Compatible(Resolve(expand, rows, claims).records)
    ensures forall r :: r in Resolve(expand, rows, claims).records && (r.scope, r.dest) in claims ==> SameClaim(claims[(r.scope, r.dest)], r)
    ensures forall r :: r in Resolve(expand, rows, claims).records ==> r.src != r.dest
    decreases |rows|
  {
    if rows != [] {
      var b := Bound(expand, rows[0]);
      if b.Some? && ((b.value.scope, b.value.dest) !in claims || SameClaim(claims[(b.value.scope, b.value.dest)], b.value)) {
        var r, next := b.value, claims[(b.value.scope, b.value.dest) := b.value];
        ResolvedCompatible(expand, rows[1..], next);
        var rest := Resolve(expand, rows[1..], next).records;
        assert Resolve(expand, rows, claims).records == [r] + rest;
        forall x | x in rest && (x.scope, x.dest) in claims ensures SameClaim(claims[(x.scope, x.dest)], x) {
          assert SameClaim(next[(x.scope, x.dest)], x);
        }
        CompatibleCons(r, rest);
      } else {
        ResolvedCompatible(expand, rows[1..], claims);
        assert Resolve(expand, rows, claims).records == Resolve(expand, rows[1..], claims).records;
      }
    }
  }

  lemma CompatibleCons(r: Record, rest: seq<Record>)
    requires Compatible(rest) && forall x :: x in rest && x.scope == r.scope && x.dest == r.dest ==> SameClaim(r, x)
    ensures Compatible([r] + rest)
  {
    var all := [r] + rest;
    forall i, j | 0 <= i < |all| && 0 <= j < |all| && all[i].scope == all[j].scope && all[i].dest == all[j].dest
      ensures SameClaim(all[i], all[j])
    {
      if i > 0 && j > 0 {
        assert all[i] == rest[i - 1] && all[j] == rest[j - 1];
      } else if i > 0 {
        assert all[i] == rest[i - 1] && rest[i - 1] in rest;
      } else if j > 0 {
        assert all[j] == rest[j - 1] && rest[j - 1] in rest;
      }
    }
  }

  // ----------------------------------------------------------------- assessment

  datatype Kind = Absent | Healthy(strategy: Strategy) | Foreign | Folder | Other

  datatype Assessment = Assessment(kind: Kind, sourceExists: bool, sourceRegular: bool)

  predicate SourceExists(m: Machine, t: Tree, p: Path) {
    Phys(m, p).Some? && Phys(m, p).value in t
  }

  predicate SourceRegular(m: Machine, t: Tree, p: Path) {
    Phys(m, p).Some? && IsFile(Referent(m, t, Phys(m, p).value))
  }

  predicate SameBytes(a: Option<Node>, b: Option<Node>) {
    IsFile(a) && IsFile(b) && a.value.bytes == b.value.bytes
  }

  /** The destination can be inspected: nothing but directories above it. */
  predicate Visible(m: Machine, t: Tree, r: Record) {
    Phys(m, r.dest).Some? && CanMake(t, m.above(Phys(m, r.dest).value))
  }

  /** `inspectRecord`, of a destination that can be inspected */
  function Assess(m: Machine, t: Tree, r: Record): Assessment
    requires Phys(m, r.dest).Some?
  {
    var kind :=
      match SeenAs(m, r.dest, Get(t, Phys(m, r.dest).value))
      case Missing => Absent
      case Folder => Kind.Folder
      case Other => Kind.Other
      case Symlink(_, targetPath) => if ByLink in r.available && targetPath == r.src then Healthy(ByLink) else Foreign
      case Regular =>
        if ByCopy in r.available && SourceRegular(m, t, r.src)
           && SameBytes(Referent(m, t, Phys(m, r.src).value), Get(t, Phys(m, r.dest).value)) then Healthy(ByCopy)
        else Foreign;
    Assessment(kind, SourceExists(m, t, r.src), SourceRegular(m, t, r.src))
  }

  datatype Status = MANAGED | MISSING | OVERRIDE | CONFLICT | SOURCE_MISSING | SOURCE_UNUSABLE

  /** `classifyAssessment` */
  function Classify(r: Record, a: Assessment, selected: Option<Strategy>): Status {
    if !r.present then
      if a.kind.Absent? then MANAGED else if a.kind.Healthy? then CONFLICT else OVERRIDE
    else if !a.sourceExists then SOURCE_MISSING
    else if a.kind.Healthy? && (selected.None? || a.kind.strategy == selected.value) then MANAGED
    else if (if selected.None? then r.default else selected.value).ByCopy? && !a.sourceRegular then SOURCE_UNUSABLE
    else if a.kind.Absent? then MISSING
    else if a.kind.Healthy? then MANAGED
    else if r.policy.Preserve? then OVERRIDE
    else CONFLICT
  }

  datatype Deed = Leaves | Delivers(strategy: Strategy) | Removes

  datatype Verdict = Verdict(deed: Deed, status: Status)

  function Chosen(r: Record, selected: Option<Strategy>): Strategy {
    if selected.None? then r.default else selected.value
  }

  /** What `applyRecord` does about an assessment, and the status it reports. */
  function Decide(r: Record, a: Assessment, selected: Option<Strategy>, overwrite: bool): Verdict {
    if !r.present then
      if a.kind.Healthy? then Verdict(Removes, MANAGED)
      else Verdict(Leaves, if a.kind.Absent? then MANAGED else OVERRIDE)
    else
      var status := Classify(r, a, selected);
      if status.SOURCE_MISSING? || status.SOURCE_UNUSABLE? then Verdict(Leaves, status)
      else if a.kind.Absent? then Verdict(Delivers(Chosen(r, selected)), MANAGED)
      else if a.kind.Healthy? then
        if selected.None? || a.kind.strategy == selected.value then Verdict(Leaves, status)
        else Verdict(Delivers(Chosen(r, selected)), MANAGED)
      else if a.kind.Foreign? && (r.policy.Replace? || (r.policy.Preserve? && overwrite)) then
        Verdict(Delivers(Chosen(r, selected)), MANAGED)
      else Verdict(Leaves, status)
  }

  /** A tree after a deed: the destination alone changed, beside new directories above it. */
  ghost predicate Done(m: Machine, t: Tree, t2: Tree, r: Record, deed: Deed)
    requires Phys(m, r.dest).Some? && Phys(m, r.src).Some?
  {
    var e := Phys(m, r.dest).value;
    match deed
    case Leaves => Undisturbed(t, t2, {}, {})
    case Removes => Undisturbed(t, t2, {e}, {}) && e !in t2
    case Delivers(s) =>
      && Undisturbed(t, t2, {e}, Makes(t, m.above(e))) && CanMake(t, m.above(e)) && Standing(t2, m.above(e))
      && (if s.ByLink? then Get(t2, e) == Some(Link(TextOf(r.src))) else Copied(Referent(m, t, Phys(m, r.src).value), Get(t2, e)))
  }

  /** A regular file with the bytes and low mode bits of another. */
  predicate Copied(f: Option<Node>, g: Option<Node>) {
    IsFile(f) && g == Some(File(f.value.bytes, Bits(f.value.mode)))
  }

  /** The deed a record asks for here; none when its destination cannot be inspected. */
  function DeedOf(m: Machine, t: Tree, r: Record, selected: Option<Strategy>, overwrite: bool): Deed {
    if !Visible(m, t, r) then Leaves else Decide(r, Assess(m, t, r), selected, overwrite).deed
  }

  /** What a step may write besides its destination, thrown or not. */
  function MadeBy(m: Machine, t: Tree, r: Record, deed: Deed): set<Entry> {
    if Phys(m, r.dest).Some? && deed.Delivers? then Makes(t, m.above(Phys(m, r.dest).value)) else {}
  }

  /** Nothing but a failing call stands in the way of a deed. */
  predicate Feasible(m: Machine, t: Tree, r: Record, deed: Deed) {
    && Phys(m, r.src).Some? && Visible(m, t, r)
    && (deed.Delivers? ==> Phys(m, r.src) != Phys(m, r.dest))
  }

  /** `applyRecord`; None when a step of it throws. */
  method ApplyRecord(d: Disk, r: Record, selected: Option<Strategy>, overwrite: bool) returns (status: Option<Status>)
    requires d.Valid()
    modifies d
    ensures d.Valid()
    ensures d.clock >= old(d.clock)
    ensures status.Some? ==> Phys(d.m, r.src).Some? && Visible(d.m, old(d.tree), r)
    ensures status.Some? ==> var v := Decide(r, Assess(d.m, old(d.tree), r), selected, overwrite);
      status.value == v.status && Done(d.m, old(d.tree), d.tree, r, v.deed)
    ensures status.None? ==> Undisturbed(old(d.tree), d.tree, {}, MadeBy(d.m, old(d.tree), r, DeedOf(d.m, old(d.tree), r, selected, overwrite)))
    ensures d.Calm(old(d.clock)) && Feasible(d.m, old(d.tree), r, DeedOf(d.m, old(d.tree), r, selected, overwrite)) ==> status.Some?
  {
    hide Assess; hide Decide; hide Referent;
    var looked := d.Try();
    var source, dest := Phys(d.m, r.src), Phys(d.m, r.dest);
    if !looked || source.None? || dest.None? || !CanMake(d.tree, d.m.above(dest.value)) {
      return None;
    }
    var v := Decide(r, Assess(d.m, d.tree, r), selected, overwrite);
    DeedFits(d.m, d.tree, r, selected, overwrite);
    var ok := true;
    match v.deed {
      case Leaves =>
      case Removes => ok := d.Rm(dest.value);
      case Delivers(ByLink) => ok := d.ReplaceWithLink(TextOf(r.src), source.value, dest.value);
      case Delivers(ByCopy) => ok := d.ReplaceWithCopy(source.value, dest.value);
    }
    return if ok then Some(v.status) else None;
  }

  /** A deed is done to a file, a link or nothing; a copy is made of a regular file. */
  lemma DeedFits(m: Machine, t: Tree, r: Record, selected: Option<Strategy>, overwrite: bool)
    requires Phys(m, r.dest).Some?
    ensures var deed := Decide(r, Assess(m, t, r), selected, overwrite).deed;
      && (deed.Leaves? || Replaceable(t, Phys(m, r.dest).value))
      && (deed == Delivers(ByCopy) ==> SourceRegular(m, t, r.src))
  {
    hide Referent;
  }
}
