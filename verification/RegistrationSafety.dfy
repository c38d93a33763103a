/** What the preflight of a registration batch buys: slots are different entries, donors keep
    their bytes through every delivery, and no record ends with both of its slots present. */
module RegistrationSafety {
  import opened Wrappers
  import opened Delivery
  import opened Registration

  // ------------------------------------------------------------- selected slots

  lemma {:induction false} SelectedIs(m: Machine, t: Tree, records: seq<Record>)
    requires SelectAll(m, t, records).Ok?
    ensures var cs := SelectAll(m, t, records).value;
      |cs| == |records| && forall i :: 0 <= i < |cs| ==> Choose(m, t, records[i]) == Ok(cs[i]) && cs[i].record == records[i]
    ensures var cs := SelectAll(m, t, records).value;
      forall i, j :: 0 <= i < j < |cs| ==> !Claims(m, records[j], records[i])
    decreases |records|
  {
    hide Claims; hide Choose;
    if records != [] {
      var front, last := records[..|records| - 1], records[|records| - 1];
      SelectedIs(m, t, front);
      ChosenRecord(m, t, last);
      var cs := SelectAll(m, t, records).value;
      assert forall i :: 0 <= i < |front| ==> records[i] == front[i];
      assert cs[..|front|] == SelectAll(m, t, front).value;
      forall i, j | 0 <= i < j < |cs| ensures !Claims(m, records[j], records[i]) {
        if j < |front| {
          assert !Claims(m, front[j], front[i]);
        }
      }
    }
  }

  lemma ChosenRecord(m: Machine, t: Tree, r: Record)
    ensures Choose(m, t, r).Ok? ==> Choose(m, t, r).value.record == r
  {
    hide See; hide SeeDisabled; hide Concrete; hide SuffixOk; hide Usable; hide Share;
  }

  /** The facts of one admitted record. */
  lemma ChosenFacts(m: Machine, t: Tree, r: Record, c: Chosen)
    requires Choose(m, t, r) == Ok(c)
    ensures Usable(m, t, r.source) && c.path in Slots(r) && Phys(m, c.path) == Some(c.entry) && c.entry.Named?
    ensures Seen0(t, c) && Replaceable(t, c.entry) && CanMake(t, m.above(c.entry))
    ensures Phys(m, r.source) != Some(c.entry)
  {
    hide Concrete; hide SuffixOk; hide Usable; hide Referent;
  }

  lemma AdmittedSlots(m: Machine, t: Tree, records: seq<Record>, cs: seq<Chosen>)
    requires Admitted(m, t, records, cs)
    ensures Distinct(cs) && |cs| == |records| && forall i :: 0 <= i < |cs| ==> Seen0(t, cs[i]) && Replaceable(t, cs[i].entry)
  {
    hide Claims; hide Choose; hide DonorsSafe; hide Seen0; hide Slots; hide Share; hide Usable; hide SelectAll; hide Replaceable;
    SelectedIs(m, t, records);
    forall i | 0 <= i < |cs| ensures cs[i].entry.Named? && Seen0(t, cs[i]) && Replaceable(t, cs[i].entry) {
      ChosenFacts(m, t, records[i], cs[i]);
    }
    forall i, j | 0 <= i < j < |cs| ensures cs[i].entry != cs[j].entry {
      ChosenFacts(m, t, records[i], cs[i]);
      ChosenFacts(m, t, records[j], cs[j]);
      if cs[i].entry == cs[j].entry {
        ClaimsIfSame(m, records[j], records[i], cs[j].path, cs[i].path);
      }
    }
  }

  lemma ClaimsIfSame(m: Machine, a: Record, b: Record, p: Path, q: Path)
    requires p in Slots(a) && q in Slots(b) && Phys(m, p).Some? && Phys(m, p) == Phys(m, q)
    ensures Claims(m, a, b)
  {
    hide Slots;
    var i :| 0 <= i < |Slots(a)| && Slots(a)[i] == p;
    var j :| 0 <= j < |Slots(b)| && Slots(b)[j] == q;
    assert Share(m, Slots(a)[i], Slots(b)[j]);
  }

  // ------------------------------------------------------------------- donor chains

  /** A name that is not the slot, whose link target is among some names. */
  predicate Checked(m: Machine, t: Tree, slot: Path, p: Path, names: set<Path>) {
    && !Share(m, slot, p) && See(m, t, p).Some?
    && (See(m, t, p).value.Symlink? ==> See(m, t, p).value.targetPath in names)
  }

  /** A set of names holding the targets of its links, none of them the slot. */
  predicate Closed(m: Machine, t: Tree, slot: Path, names: set<Path>) {
    forall p :: p in names ==> Checked(m, t, slot, p, names)
  }

  ghost predicate Clear(m: Machine, t: Tree, slot: Path, p: Path) {
    exists names: set<Path> :: p in names && Closed(m, t, slot, names)
  }

  /** The visited names, all checked, with every link's target among them or next. */
  predicate Walked(m: Machine, t: Tree, slot: Path, p: Path, seen: set<Path>) {
    forall q :: q in seen ==> Checked(m, t, slot, q, seen + {p})
  }

  /** A walk that ends without meeting the slot, even by coming back to a name it knows, has
      checked everything a link chain from the donor can name. */
  lemma {:induction false} MeetsIsExact(m: Machine, t: Tree, slot: Path, p: Path, seen: set<Path>)
    requires seen <= Names(m, t) && Walked(m, t, slot, p, seen)
    requires Meets(m, t, slot, p, seen) == Some(false)
    ensures exists names: set<Path> :: p in names && seen <= names && Closed(m, t, slot, names)
    decreases |Names(m, t) - seen|
  {
    hide Share; hide See; hide Names; hide Meets; hide Walked; hide Closed;
    if p in seen {
      KnownName(m, t, slot, p, seen);
    } else {
      MeetsStep(m, t, slot, p, seen);
      var state := See(m, t, p).value;
      if state.Symlink? {
        WalkedOn(m, t, slot, p, state.targetPath, seen);
        MeetsIsExact(m, t, slot, state.targetPath, seen + {p});
        var names: set<Path> :| state.targetPath in names && seen + {p} <= names && Closed(m, t, slot, names);
        assert p in names;
      } else {
        LastName(m, t, slot, p, seen);
      }
    }
  }

  lemma MeetsStep(m: Machine, t: Tree, slot: Path, p: Path, seen: set<Path>)
    requires seen <= Names(m, t) && p !in seen && Meets(m, t, slot, p, seen) == Some(false)
    ensures !Share(m, slot, p) && See(m, t, p).Some?
    ensures See(m, t, p).value.Symlink? ==>
      seen + {p} <= Names(m, t) && |Names(m, t) - (seen + {p})| < |Names(m, t) - seen| &&
      Meets(m, t, slot, See(m, t, p).value.targetPath, seen + {p}) == Some(false)
  {
    hide Share; hide See; hide Names;
    if See(m, t, p).Some? && See(m, t, p).value.Symlink? {
      LinkIsNamed(m, t, p);
      Smaller(Names(m, t) - (seen + {p}), Names(m, t) - seen);
    }
  }

  lemma KnownName(m: Machine, t: Tree, slot: Path, p: Path, seen: set<Path>)
    requires Walked(m, t, slot, p, seen) && p in seen
    ensures Closed(m, t, slot, seen)
  {
    hide Checked;
    assert seen + {p} == seen;
  }

  lemma LastName(m: Machine, t: Tree, slot: Path, p: Path, seen: set<Path>)
    requires Walked(m, t, slot, p, seen) && !Share(m, slot, p) && See(m, t, p).Some? && !See(m, t, p).value.Symlink?
    ensures Closed(m, t, slot, seen + {p})
  {
    hide Share; hide See;
  }

  lemma WalkedOn(m: Machine, t: Tree, slot: Path, p: Path, next: Path, seen: set<Path>)
    requires Walked(m, t, slot, p, seen) && !Share(m, slot, p)
    requires See(m, t, p).Some? && See(m, t, p).value.Symlink? && See(m, t, p).value.targetPath == next
    ensures Walked(m, t, slot, next, seen + {p})
  {
    hide Share; hide See;
  }

  lemma ClearOf(m: Machine, t: Tree, slot: Path, p: Path)
    requires Meets(m, t, slot, p, {}) == Some(false)
    ensures Clear(m, t, slot, p)
  {
    MeetsIsExact(m, t, slot, p, {});
  }

  lemma ClearNext(m: Machine, t: Tree, slot: Path, p: Path)
    requires Clear(m, t, slot, p)
    ensures !Share(m, slot, p) && See(m, t, p).Some?
    ensures See(m, t, p).value.Symlink? ==> Clear(m, t, slot, See(m, t, p).value.targetPath)
  {
    hide Share; hide See;
    var names: set<Path> :| p in names && Closed(m, t, slot, names);
    if See(m, t, p).value.Symlink? {
      assert See(m, t, p).value.targetPath in names;
    }
  }

  /** The lexical reading of a link found under a name is where the kernel goes. */
  predicate LinkAgrees(m: Machine, t: Tree, p: Path) {
    See(m, t, p).Some? && See(m, t, p).value.Symlink? ==>
      m.kernel(Phys(m, p).value, See(m, t, p).value.target) == Phys(m, See(m, t, p).value.targetPath)
  }

  /** So do all the links the walk goes through from a name. */
  predicate Agrees(m: Machine, t: Tree, p: Path, fuel: nat)
    decreases fuel
  {
    && LinkAgrees(m, t, p)
    && (fuel > 0 && See(m, t, p).Some? && See(m, t, p).value.Symlink? ==> Agrees(m, t, See(m, t, p).value.targetPath, fuel - 1))
  }

  /** The kernel, following links from an entry, comes by one of some entries. */
  predicate OnChain(m: Machine, t: Tree, e: Entry, es: set<Entry>, fuel: nat)
    decreases fuel
  {
    e in es ||
    match Get(t, e)
    case Some(Link(target)) => fuel > 0 && m.kernel(e, target).Some? && OnChain(m, t, m.kernel(e, target).value, es, fuel - 1)
    case _ => false
  }

  /** Writes off the chain leave what it reaches. */
  lemma {:induction false} ChainKept(m: Machine, a: Tree, b: Tree, e: Entry, es: set<Entry>, except: set<Entry>, made: set<Entry>, fuel: nat)
    requires Undisturbed(a, b, except, made) && forall x :: x in except && x.Named? ==> x in es
    requires e.Named? && !OnChain(m, a, e, es, fuel) && Follow(m, a, e, fuel).Some?
    ensures Follow(m, b, e, fuel) == Follow(m, a, e, fuel)
    ensures var x := Follow(m, a, e, fuel).value; Get(b, x) == Get(a, x) && x in a
    decreases fuel
  {
    assert e in a && Get(b, e) == Get(a, e);
    if a[e].Link? {
      hide Undisturbed;
      ChainKept(m, a, b, m.kernel(e, a[e].target).value, es, except, made, fuel - 1);
    }
  }

  /** Removing the entries the chain comes by leaves nothing to reach. */
  lemma {:induction false} ChainBroken(m: Machine, a: Tree, e: Entry, es: set<Entry>, fuel: nat)
    requires OnChain(m, a, e, es, fuel)
    ensures Follow(m, a - es, e, fuel).None?
    decreases fuel
  {
    if e !in es {
      assert Get(a - es, e) == Get(a, e);
      ChainBroken(m, a, m.kernel(e, a[e].target).value, es, fuel - 1);
    }
  }

  /** Whatever is written to some entries, the same file is reached. */
  ghost predicate Survives(m: Machine, a: Tree, e: Entry, es: set<Entry>) {
    forall b: Tree, made: set<Entry> :: Undisturbed(a, b, es, made) ==> Referent(m, b, e) == Referent(m, a, e)
  }

  /** A file survives every write to some entries exactly when its chain comes by none of them. */
  lemma DonorExact(m: Machine, a: Tree, e: Entry, es: set<Entry>)
    requires e.Named? && Referent(m, a, e).Some?
    ensures Survives(m, a, e, es) <==> !OnChain(m, a, e, es, MAX_LINKS)
  {
    hide Follow; hide OnChain;
    if OnChain(m, a, e, es, MAX_LINKS) {
      ChainBroken(m, a, e, es, MAX_LINKS);
      assert Undisturbed(a, a - es, es, {});
    } else {
      forall b: Tree, made: set<Entry> | Undisturbed(a, b, es, made) ensures Referent(m, b, e) == Referent(m, a, e) {
        ChainKept(m, a, b, e, es, es, made, MAX_LINKS);
      }
    }
  }

  /** The donor's own chain comes by no chosen slot. */
  predicate DonorClear(m: Machine, t: Tree, cs: seq<Chosen>, donor: Path) {
    Phys(m, donor).Some? ==> !OnChain(m, t, Phys(m, donor).value, Entries(cs), MAX_LINKS)
  }

  predicate DonorsClear(m: Machine, t: Tree, cs: seq<Chosen>) {
    forall i :: 0 <= i < |cs| ==> DonorClear(m, t, cs, cs[i].record.source)
  }

  /** A donor of an admitted batch whose chain is clear keeps its bytes and mode while slots
      are written. */
  lemma DonorKept(m: Machine, a: Tree, b: Tree, records: seq<Record>, cs: seq<Chosen>, j: nat, except: set<Entry>, made: set<Entry>)
    requires Admitted(m, a, records, cs) && Undisturbed(a, b, except, made) && j < |records|
    requires DonorClear(m, a, cs, records[j].source)
    requires forall e :: e in except && e.Named? ==> e in Entries(cs)
    ensures Phys(m, records[j].source).Some? && IsFile(Referent(m, a, Phys(m, records[j].source).value))
    ensures Referent(m, b, Phys(m, records[j].source).value) == Referent(m, a, Phys(m, records[j].source).value)
  {
    hide Undisturbed; hide Claims; hide Choose; hide SelectAll; hide Meets; hide Slots; hide Share; hide Follow; hide OnChain;
    SelectedIs(m, a, records);
    ChosenFacts(m, a, records[j], cs[j]);
    ChainKept(m, a, b, Phys(m, records[j].source).value, Entries(cs), except, made, MAX_LINKS);
  }

  /** Where names read as the kernel goes, a walk clear of some slots is a chain clear of them. */
  lemma {:induction false} WalkIsChain(m: Machine, t: Tree, slots: seq<Path>, p: Path, es: set<Entry>, fuel: nat)
    requires Agrees(m, t, p, fuel) && Phys(m, p).Some? && slots != []
    requires forall k :: 0 <= k < |slots| ==> Clear(m, t, slots[k], p)
    requires forall e :: e in es ==> exists k :: 0 <= k < |slots| && Phys(m, slots[k]) == Some(e)
    ensures !OnChain(m, t, Phys(m, p).value, es, fuel)
    decreases fuel
  {
    hide Clear;
    var e := Phys(m, p).value;
    ClearNext(m, t, slots[0], p);
    forall k | 0 <= k < |slots| ensures !Share(m, slots[k], p) {
      ClearNext(m, t, slots[k], p);
    }
    assert e !in es;
    if e in t && t[e].Link? && fuel > 0 && m.kernel(e, t[e].target).Some? {
      var next := See(m, t, p).value.targetPath;
      forall k | 0 <= k < |slots| ensures Clear(m, t, slots[k], next) {
        ClearNext(m, t, slots[k], p);
      }
      WalkIsChain(m, t, slots, next, es, fuel - 1);
    }
  }

  /** So the walk by names of the preflight clears a donor whose own links read alike. */
  lemma WalkClears(m: Machine, t: Tree, records: seq<Record>, cs: seq<Chosen>, j: nat)
    requires Admitted(m, t, records, cs) && j < |records| && Agrees(m, t, records[j].source, MAX_LINKS)
    ensures DonorClear(m, t, cs, records[j].source)
  {
    hide Claims; hide Choose; hide SelectAll; hide Meets; hide Clear; hide Slots; hide Share; hide Follow; hide OnChain; hide Agrees;
    SelectedIs(m, t, records);
    ChosenFacts(m, t, records[j], cs[j]);
    var slots := seq(|cs|, i requires 0 <= i < |cs| => cs[i].path);
    var p := records[j].source;
    forall k | 0 <= k < |slots| ensures Clear(m, t, slots[k], p) && Phys(m, slots[k]) == Some(cs[k].entry) {
      ChosenFacts(m, t, records[k], cs[k]);
      var s :| 0 <= s < |Slots(records[k])| && Slots(records[k])[s] == cs[k].path;
      ClearOf(m, t, slots[k], p);
    }
    forall e | e in Entries(cs) ensures exists k :: 0 <= k < |slots| && Phys(m, slots[k]) == Some(e) {
      var k :| 0 <= k < |cs| && cs[k].entry == e;
      assert Phys(m, slots[k]) == Some(e);
    }
    WalkIsChain(m, t, slots, p, Entries(cs), MAX_LINKS);
  }

  // ---------------------------------------------------------- enabled and disabled

  predicate Present(m: Machine, t: Tree, p: Path) {
    Phys(m, p).Some? && Phys(m, p).value in t
  }

  /** The slot a record did not choose, absent when the batch was admitted. */
  function Dormant(c: Chosen): Option<Path> {
    if c.disabled then Some(c.record.destination) else DisabledPath(c.record)
  }

  lemma DormantFacts(m: Machine, t: Tree, r: Record, c: Chosen)
    requires Choose(m, t, r) == Ok(c) && Dormant(c).Some?
    ensures Dormant(c).value in Slots(r) && Phys(m, Dormant(c).value).Some? && !Present(m, t, Dormant(c).value)
    ensures Phys(m, Dormant(c).value) != Some(c.entry)
  {
    hide Concrete; hide Usable; hide Share;
  }

  predicate HoldsBoth(m: Machine, t: Tree, r: Record) {
    DisabledPath(r).Some? && Present(m, t, r.destination) && Present(m, t, DisabledPath(r).value)
  }

  /** The slot a record did not choose lies above no chosen one. */
  predicate DormantApart(m: Machine, cs: seq<Chosen>, c: Chosen) {
    Dormant(c).Some? && Phys(m, Dormant(c).value).Some? ==> Phys(m, Dormant(c).value).value !in AboveAll(m, cs)
  }

  /** The unchosen slot of a record is no record's chosen one. */
  lemma DormantIsNoSlot(m: Machine, t: Tree, records: seq<Record>, cs: seq<Chosen>, j: nat)
    requires Admitted(m, t, records, cs) && j < |records| && j < |cs| && Dormant(cs[j]).Some?
    ensures var e := Phys(m, Dormant(cs[j]).value); e.Some? && e.value.Named? && e.value !in t && e.value !in Entries(cs)
  {
    hide Claims; hide Choose; hide SelectAll; hide Slots; hide Share; hide DonorsSafe; hide SuffixOk; hide Dormant;
    SelectedIs(m, t, records);
    DormantFacts(m, t, records[j], cs[j]);
    var p := Dormant(cs[j]).value;
    forall i | 0 <= i < |cs| ensures Some(cs[i].entry) != Phys(m, p) {
      ChosenFacts(m, t, records[i], cs[i]);
      if Some(cs[i].entry) == Phys(m, p) && i < j {
        ClaimsIfSame(m, records[j], records[i], p, cs[i].path);
      } else if Some(cs[i].entry) == Phys(m, p) && j < i {
        ClaimsIfSame(m, records[i], records[j], cs[i].path, p);
      }
    }
  }

  /** Once delivered, no record has both its enabled and its disabled slot, unless the unchosen
      one is a directory made for a chosen one. */
  lemma NeverBoth(m: Machine, a: Tree, b: Tree, records: seq<Record>, cs: seq<Chosen>, j: nat, except: set<Entry>)
    requires Admitted(m, a, records, cs) && j < |records| && j < |cs| && DormantApart(m, cs, cs[j])
    requires Undisturbed(a, b, except, AboveAll(m, cs)) && forall e :: e in except && e.Named? ==> e in Entries(cs)
    ensures !HoldsBoth(m, b, records[j])
  {
    hide Claims; hide Choose; hide SelectAll; hide Slots; hide Share; hide DonorsSafe; hide Undisturbed; hide AboveAll; hide Admitted;
    ChosenOwn(m, a, records, cs, j);
    if Dormant(cs[j]).Some? {
      DormantIsNoSlot(m, a, records, cs, j);
      StaysAbsent(a, b, except, AboveAll(m, cs), Phys(m, Dormant(cs[j]).value).value);
    }
  }

  lemma ChosenOwn(m: Machine, t: Tree, records: seq<Record>, cs: seq<Chosen>, j: nat)
    requires Admitted(m, t, records, cs) && j < |records| && j < |cs|
    ensures cs[j].record == records[j] && Phys(m, cs[j].path) == Some(cs[j].entry) && cs[j].entry.Named?
    ensures cs[j].path == if cs[j].disabled && DisabledPath(records[j]).Some? then DisabledPath(records[j]).value else records[j].destination
    ensures cs[j].disabled ==> DisabledPath(records[j]).Some?
  {
    hide Claims; hide SelectAll; hide Slots; hide Share; hide DonorsSafe; hide See; hide SeeDisabled; hide Usable; hide Concrete;
    SelectedIs(m, t, records);
    assert Choose(m, t, records[j]) == Ok(cs[j]);
  }

  lemma StaysAbsent(a: Tree, b: Tree, except: set<Entry>, made: set<Entry>, e: Entry)
    requires Undisturbed(a, b, except, made) && e !in except && e !in made && !e.Temp? && e !in a
    ensures e !in b
  {
    assert Get(b, e) == Get(a, e);
  }

  // ------------------------------------------------- where names and links part ways

  /** A donor `/l/x` whose directory is really `/d/e`, linking to `../y`: by name that is `/y`,
      for the kernel `/d/y`. */
  predicate Detour(m: Machine, t: Tree, donor: Path, slot: Path) {
    && donor == Path("/l", "x") && slot == Path("/d", "y")
    && m.dirs == map["/l" := "/d/e", "/d" := "/d", "" := ""]
    && t.Keys == {Named("/d/e", "x"), Named("/d", "y")}
    && t[Named("/d/e", "x")] == Link("../y") && t[Named("/d", "y")].File?
    && m.lexical(donor, "../y") == Path("", "y")
    && m.kernel(Named("/d/e", "x"), "../y") == Some(Named("/d", "y"))
    && m.kernel(Named("/d", "y"), TextOf(donor)) == Some(Named("/d/e", "x"))
    && m.above(Named("/d/e", "x")) == {} && m.above(Named("/d", "y")) == {} && m.above(Named("", "y")) == {}
  }

  lemma DetourNames(m: Machine, t: Tree, donor: Path, slot: Path)
    requires Detour(m, t, donor, slot)
    ensures Phys(m, donor) == Some(Named("/d/e", "x")) && Phys(m, slot) == Some(Named("/d", "y"))
    ensures !Share(m, slot, donor) && !Share(m, slot, Path("", "y"))
    ensures See(m, t, Path("", "y")) == Some(Missing)
    ensures See(m, t, donor) == Some(Symlink("../y", Path("", "y"))) && See(m, t, slot) == Some(Regular)
  {
    assert "/l" != "/d" && "/l" != "" && "/d" != "";
    assert |"/d/e"| != |"/d"|;
  }

  /** The walk by names misses the slot, so the batch is admitted; delivering a link there
      makes the donor a loop. */
  lemma DetourLosesDonor(m: Machine, t: Tree, r: Record)
    requires Detour(m, t, r.source, r.destination) && r.strategy == LinkTo && r.disabledSuffix.None?
    ensures SelectAll(m, t, [r]).Ok? && DonorsSafe(m, t, [r])
    ensures Referent(m, t, Named("/d/e", "x")).Some?
    ensures Follow(m, t[Named("/d", "y") := Link(TextOf(r.source))], Named("/d/e", "x"), MAX_LINKS).None?
  {
    DetourNames(m, t, r.source, r.destination);
    DetourLoops(m, t[Named("/d", "y") := Link(TextOf(r.source))], TextOf(r.source), MAX_LINKS);
  }

  lemma {:induction false} DetourLoops(m: Machine, t: Tree, back: string, fuel: nat)
    requires Get(t, Named("/d/e", "x")) == Some(Link("../y")) && Get(t, Named("/d", "y")) == Some(Link(back))
    requires m.kernel(Named("/d/e", "x"), "../y") == Some(Named("/d", "y"))
    requires m.kernel(Named("/d", "y"), back) == Some(Named("/d/e", "x"))
    ensures Follow(m, t, Named("/d/e", "x"), fuel).None?
    decreases fuel
  {
    if fuel > 1 {
      DetourLoops(m, t, back, fuel - 2);
    }
  }
}
