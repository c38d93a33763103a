/** What a managed link's record asks for, said on the disk itself: whose destination it is, what
    the source can serve, and what is to be done about it. */
module LinksVerdict {
  import opened Wrappers
  import opened Delivery
  import opened Links

  /** The destination holds what delivering by a strategy puts there: a link read as the source,
      or a file with the bytes of the file behind the source. */
  predicate HoldsBy(m: Machine, t: Tree, r: Record, s: Strategy) {
    Phys(m, r.dest).Some? && Phys(m, r.dest).value in t &&
    var node := t[Phys(m, r.dest).value];
    match s
    case ByLink => node.Link? && m.lexical(r.dest, node.target) == r.src
    case ByCopy =>
      Phys(m, r.src).Some? && node.File? &&
      var source := Referent(m, t, Phys(m, r.src).value);
      source.Some? && source.value.File? && source.value.bytes == node.bytes
  }

  /** ... by a strategy the record declares. */
  predicate Manages(m: Machine, t: Tree, r: Record, s: Strategy) {
    s in r.available && HoldsBy(m, t, r, s)
  }

  /** A file or link that the record does not manage. */
  predicate Strange(m: Machine, t: Tree, r: Record) {
    && Phys(m, r.dest).Some? && Phys(m, r.dest).value in t
    && (t[Phys(m, r.dest).value].File? || t[Phys(m, r.dest).value].Link?)
    && !Manages(m, t, r, ByLink) && !Manages(m, t, r, ByCopy)
  }

  predicate Vacant(m: Machine, t: Tree, r: Record) {
    Phys(m, r.dest).Some? && Phys(m, r.dest).value !in t
  }

  predicate HasSource(m: Machine, t: Tree, r: Record) {
    Phys(m, r.src).Some? && Phys(m, r.src).value in t
  }

  /** A link can be made of anything that is there, a copy only of what leads to a file. */
  predicate Serves(m: Machine, t: Tree, r: Record, s: Strategy) {
    HasSource(m, t, r) &&
    (s == ByCopy ==>
       var source := Referent(m, t, Phys(m, r.src).value);
       source.Some? && source.value.File?)
  }

  function Wanted(r: Record, selected: Option<Strategy>): Strategy {
    match selected case Some(s) => s case None => r.default
  }

  predicate ManagedOtherwise(m: Machine, t: Tree, r: Record, selected: Option<Strategy>) {
    && selected.Some? && !Manages(m, t, r, selected.value)
    && Manages(m, t, r, if selected.value == ByLink then ByCopy else ByLink)
  }

  /** The record is owed a delivery: nothing is there, or the other strategy's delivery is, or
      something strange that it may replace. */
  predicate Owed(m: Machine, t: Tree, r: Record, selected: Option<Strategy>, overwrite: bool) {
    && r.present && Serves(m, t, r, Wanted(r, selected))
    && (|| Vacant(m, t, r)
        || ManagedOtherwise(m, t, r, selected)
        || (Strange(m, t, r) && (r.policy == Replace || (r.policy == Preserve && overwrite))))
  }

  /** What a record that is to be absent finds to remove. */
  predicate ToRemove(m: Machine, t: Tree, r: Record) {
    !r.present && (Manages(m, t, r, ByLink) || Manages(m, t, r, ByCopy))
  }

  predicate Satisfied(m: Machine, t: Tree, r: Record, selected: Option<Strategy>) {
    match selected
    case Some(s) => Manages(m, t, r, s)
    case None => Manages(m, t, r, ByLink) || Manages(m, t, r, ByCopy)
  }

  lemma HealthyIs(m: Machine, t: Tree, r: Record, s: Strategy)
    requires Phys(m, r.dest).Some?
    ensures Assess(m, t, r).kind == Healthy(s) <==> Manages(m, t, r, s)
  {
    hide Referent;
  }

  lemma KindIs(m: Machine, t: Tree, r: Record)
    requires Phys(m, r.dest).Some?
    ensures Assess(m, t, r).kind.Absent? <==> Vacant(m, t, r)
    ensures Assess(m, t, r).kind.Foreign? <==> Strange(m, t, r)
    ensures Assess(m, t, r).sourceExists <==> HasSource(m, t, r)
    ensures forall s :: Serves(m, t, r, s) <==> Assess(m, t, r).sourceExists && (s.ByCopy? ==> Assess(m, t, r).sourceRegular)
  {
    hide Referent;
  }

  /** What is done about a record and what it reports, for every disk. */
  lemma VerdictExact(m: Machine, t: Tree, r: Record, selected: Option<Strategy>, overwrite: bool)
    requires Phys(m, r.dest).Some?
    ensures Decide(r, Assess(m, t, r), selected, overwrite) ==
      if !r.present then
        if ToRemove(m, t, r) then Verdict(Removes, MANAGED)
        else Verdict(Leaves, if Vacant(m, t, r) then MANAGED else OVERRIDE)
      else if !HasSource(m, t, r) then Verdict(Leaves, SOURCE_MISSING)
      else if Owed(m, t, r, selected, overwrite) then Verdict(Delivers(Wanted(r, selected)), MANAGED)
      else if Satisfied(m, t, r, selected) then Verdict(Leaves, MANAGED)
      else if !Serves(m, t, r, Wanted(r, selected)) then Verdict(Leaves, SOURCE_UNUSABLE)
      else Verdict(Leaves, if r.policy == Preserve then OVERRIDE else CONFLICT)
  {
    hide Assess; hide Manages; hide Vacant; hide Strange; hide HasSource; hide Serves;
    HealthyIs(m, t, r, ByLink);
    HealthyIs(m, t, r, ByCopy);
    KindIs(m, t, r);
    var kind := Assess(m, t, r).kind;
    if kind.Healthy? {
      HealthyIs(m, t, r, kind.strategy);
      assert kind.strategy == ByLink || kind.strategy == ByCopy;
    }
  }

  // ------------------------------------------------------------------ claims of a plan

  /** The record of a manifest row: its paths expanded, and not the same. */
  predicate Binds(expand: string -> Option<Path>, row: Row, r: Record) {
    && expand(row.src) == Some(r.src) && expand(row.dest) == Some(r.dest) && r.src != r.dest
    && r.id == row.id && r.scope == row.scope && r.policy == row.policy && r.present == row.present
    && r.available == row.available && r.default == row.default && r.compose == row.compose
  }

  lemma BoundIs(expand: string -> Option<Path>, row: Row)
    ensures forall r :: Bound(expand, row) == Some(r) <==> Binds(expand, row, r)
  {
  }

  /** Two claims of one destination in one scope that differ in more than their names. */
  predicate Clash(a: Record, b: Record) {
    a.scope == b.scope && a.dest == b.dest && a.(id := b.id) != b
  }

  lemma ClaimIs(a: Record, b: Record)
    requires a.scope == b.scope && a.dest == b.dest
    ensures SameClaim(a, b) <==> !Clash(a, b)
  {
  }

  /** A row is accepted when it has a record that clashes with none accepted before it. */
  ghost predicate Accepts(expand: string -> Option<Path>, rows: seq<Row>, i: nat)
    requires i < |rows|
    decreases i
  {
    exists r :: Binds(expand, rows[i], r) && NoClash(expand, rows, i, r)
  }

  ghost predicate NoClash(expand: string -> Option<Path>, rows: seq<Row>, i: nat, r: Record)
    requires i < |rows|
    decreases i, 0
  {
    forall j, other :: 0 <= j < i && Accepts(expand, rows, j) && Binds(expand, rows[j], other) ==> !Clash(other, r)
  }

  /** The accepted rows from `n` on, by position, and the others. */
  ghost function Accepted(expand: string -> Option<Path>, rows: seq<Row>, n: nat): seq<nat>
    requires n <= |rows|
    decreases |rows| - n
  {
    if n == |rows| then []
    else if Accepts(expand, rows, n) then [n] + Accepted(expand, rows, n + 1)
    else Accepted(expand, rows, n + 1)
  }

  ghost function Rejected(expand: string -> Option<Path>, rows: seq<Row>, n: nat): seq<Row>
    requires n <= |rows|
    decreases |rows| - n
  {
    if n == |rows| then []
    else if Accepts(expand, rows, n) then Rejected(expand, rows, n + 1)
    else [rows[n]] + Rejected(expand, rows, n + 1)
  }

  ghost predicate RecordsOf(expand: string -> Option<Path>, rows: seq<Row>, at: seq<nat>, records: seq<Record>) {
    |records| == |at| && forall k :: 0 <= k < |at| ==> at[k] < |rows| && Binds(expand, rows[at[k]], records[k])
  }

  /** The claims after `n` rows: one for every destination accepted so far. */
  ghost predicate ClaimsAt(expand: string -> Option<Path>, rows: seq<Row>, n: nat, claims: Claims)
    requires n <= |rows|
  {
    && (forall k :: k in claims ==> (claims[k].scope, claims[k].dest) == k && Claimed(expand, rows, n, claims[k]))
    && (forall j, r :: 0 <= j < n && Accepts(expand, rows, j) && Binds(expand, rows[j], r) ==>
          (r.scope, r.dest) in claims && !Clash(r, claims[(r.scope, r.dest)]))
  }

  ghost predicate Claimed(expand: string -> Option<Path>, rows: seq<Row>, n: nat, r: Record)
    requires n <= |rows|
  {
    exists j :: 0 <= j < n && Accepts(expand, rows, j) && Binds(expand, rows[j], r)
  }

  lemma AcceptedByClaims(expand: string -> Option<Path>, rows: seq<Row>, n: nat, claims: Claims)
    requires n < |rows| && ClaimsAt(expand, rows, n, claims)
    ensures var b := Bound(expand, rows[n]);
      Accepts(expand, rows, n) <==> b.Some? && ((b.value.scope, b.value.dest) in claims ==> SameClaim(claims[(b.value.scope, b.value.dest)], b.value))
  {
    hide Bound; hide Binds; hide SameClaim;
    BoundIs(expand, rows[n]);
    var b := Bound(expand, rows[n]);
    if b.Some? {
      var key := (b.value.scope, b.value.dest);
      if key in claims {
        ClaimIs(claims[key], b.value);
      }
    }
  }

  lemma {:induction false} ResolveFrom(expand: string -> Option<Path>, rows: seq<Row>, n: nat, claims: Claims)
    requires n <= |rows| && ClaimsAt(expand, rows, n, claims)
    ensures var r := Resolve(expand, rows[n..], claims);
      RecordsOf(expand, rows, Accepted(expand, rows, n), r.records) && r.invalid == Rejected(expand, rows, n)
    decreases |rows| - n
  {
    hide Bound; hide Binds; hide SameClaim; hide Accepts; hide ClaimsAt; hide Resolve; hide RecordsOf;
    ResolveOne(expand, rows, n, claims);
    if n < |rows| {
      AcceptedByClaims(expand, rows, n, claims);
      BoundIs(expand, rows[n]);
      if Accepts(expand, rows, n) {
        var b := Bound(expand, rows[n]).value;
        var next := claims[(b.scope, b.dest) := b];
        ClaimsNext(expand, rows, n, claims, b);
        ResolveFrom(expand, rows, n + 1, next);
        RecordsCons(expand, rows, n, Accepted(expand, rows, n + 1), b, Resolve(expand, rows[n + 1..], next).records);
      } else {
        ClaimsSkip(expand, rows, n, claims);
        ResolveFrom(expand, rows, n + 1, claims);
      }
    }
  }

  lemma ResolveOne(expand: string -> Option<Path>, rows: seq<Row>, n: nat, claims: Claims)
    requires n <= |rows|
    ensures n == |rows| ==> Resolve(expand, rows[n..], claims) == Resolved([], []) && RecordsOf(expand, rows, [], [])
    ensures n < |rows| ==>
      var b, r := Bound(expand, rows[n]), Resolve(expand, rows[n..], claims);
      if b.Some? && ((b.value.scope, b.value.dest) in claims ==> SameClaim(claims[(b.value.scope, b.value.dest)], b.value)) then
        var rest := Resolve(expand, rows[n + 1..], claims[(b.value.scope, b.value.dest) := b.value]);
        r.records == [b.value] + rest.records && r.invalid == rest.invalid
      else
        var rest := Resolve(expand, rows[n + 1..], claims);
        r.records == rest.records && r.invalid == [rows[n]] + rest.invalid
  {
    hide Bound; hide SameClaim;
    if n < |rows| {
      assert rows[n..][0] == rows[n] && rows[n..][1..] == rows[n + 1..];
      assert forall x: seq<Record> :: [] + x == x;
      assert forall x: seq<Row> :: [] + x == x;
    }
  }

  lemma RecordsCons(expand: string -> Option<Path>, rows: seq<Row>, n: nat, at: seq<nat>, r: Record, records: seq<Record>)
    requires n < |rows| && Binds(expand, rows[n], r) && RecordsOf(expand, rows, at, records)
    ensures RecordsOf(expand, rows, [n] + at, [r] + records)
  {
    hide Binds;
  }

  lemma ClaimsNext(expand: string -> Option<Path>, rows: seq<Row>, n: nat, claims: Claims, r: Record)
    requires n < |rows| && ClaimsAt(expand, rows, n, claims) && Accepts(expand, rows, n) && Binds(expand, rows[n], r)
    ensures ClaimsAt(expand, rows, n + 1, claims[(r.scope, r.dest) := r])
  {
    BoundIs(expand, rows[n]);
    assert forall x :: Binds(expand, rows[n], x) ==> x == r;
    assert NoClash(expand, rows, n, r);
    hide Binds; hide Accepts; hide Clash;
    var key := (r.scope, r.dest);
    var next := claims[key := r];
    forall k | k in next ensures (next[k].scope, next[k].dest) == k && Claimed(expand, rows, n + 1, next[k]) {
      if k == key {
        assert Accepts(expand, rows, n) && Binds(expand, rows[n], r);
      } else {
        assert Claimed(expand, rows, n, claims[k]);
      }
    }
    forall j, x | 0 <= j < n + 1 && Accepts(expand, rows, j) && Binds(expand, rows[j], x)
      ensures (x.scope, x.dest) in next && !Clash(x, next[(x.scope, x.dest)])
    {
      if j == n {
        NeverItself(r);
      }
    }
  }

  lemma NeverItself(r: Record)
    ensures !Clash(r, r)
  {
  }

  lemma ClaimsSkip(expand: string -> Option<Path>, rows: seq<Row>, n: nat, claims: Claims)
    requires n < |rows| && ClaimsAt(expand, rows, n, claims) && !Accepts(expand, rows, n)
    ensures ClaimsAt(expand, rows, n + 1, claims)
  {
    hide Binds; hide Accepts; hide Clash;
  }

  /** The accepted records are those of the accepted rows, in their order, and the invalid rows
      are the others. */
  lemma ResolvedExactly(expand: string -> Option<Path>, rows: seq<Row>)
    ensures var r := Resolve(expand, rows, map[]);
      RecordsOf(expand, rows, Accepted(expand, rows, 0), r.records) && r.invalid == Rejected(expand, rows, 0)
  {
    assert rows[0..] == rows;
    ResolveFrom(expand, rows, 0, map[]);
  }
}
