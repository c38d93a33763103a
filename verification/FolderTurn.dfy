/** One turn of the directory converter and the exit code of its loop, said outright
    (files/apt-srctools/apt-src-convert-dir.ts): file names, destinations, and what becomes of
    both files. */
module FolderTurn {
  import opened Wrappers
  import opened AptModel
  import opened FolderRun
  import opened AptFolder

  // ------------------------------------------------------------------ links

  /** From `p` it takes `n` links to `q`, which is no link. */
  predicate Leads(tree: Tree, p: string, n: nat, q: string)
    decreases n
  {
    if p in tree && tree[p].Link? then n > 0 && Leads(tree, tree[p].to, n - 1, q) else n == 0 && p == q
  }

  /** A path opens where its links lead. */
  ghost predicate Opens(tree: Tree, p: string, q: string) {
    exists n: nat :: Leads(tree, p, n, q)
  }

  lemma {:induction false} OneWay(tree: Tree, p: string, n: nat, q: string, m: nat, r: string)
    requires Leads(tree, p, n, q) && Leads(tree, p, m, r)
    ensures n == m && q == r
    decreases n
  {
    if n > 0 {
      OneWay(tree, tree[p].to, n - 1, q, m - 1, r);
    }
  }

  /** None of the paths leads anywhere within n links. */
  ghost predicate Farther(tree: Tree, seen: set<string>, n: nat) {
    forall x, m: nat, y :: x in seen && m <= n ==> !Leads(tree, x, m, y)
  }

  lemma {:induction false} FinalFinds(tree: Tree, p: string, seen: set<string>, n: nat, q: string)
    requires Leads(tree, p, n, q) && Farther(tree, seen, n)
    ensures Final(tree, p, seen) == Some(q)
    decreases n
  {
    hide Farther;
    assert p !in seen by {
      if p in seen {
        NotFarther(tree, seen, p, n, q);
        assert false;
      }
    }
    if n > 0 {
      FartherOn(tree, p, seen, n, q);
      FinalFinds(tree, tree[p].to, seen + {p}, n - 1, q);
    }
  }

  lemma NotFarther(tree: Tree, seen: set<string>, p: string, n: nat, q: string)
    requires p in seen && Leads(tree, p, n, q)
    ensures !Farther(tree, seen, n)
  {
  }

  lemma FartherOn(tree: Tree, p: string, seen: set<string>, n: nat, q: string)
    requires 0 < n && Leads(tree, p, n, q) && Farther(tree, seen, n)
    ensures Farther(tree, seen + {p}, n - 1)
  {
    forall x, m: nat, y | x in seen + {p} && m <= n - 1 ensures !Leads(tree, x, m, y) {
      hide Leads;
      if x == p && Leads(tree, x, m, y) {
        OneWay(tree, p, n, q, m, y);
      }
    }
  }

  lemma {:induction false} FinalLeads(tree: Tree, p: string, seen: set<string>) returns (n: nat)
    requires Final(tree, p, seen).Some?
    ensures Leads(tree, p, n, Final(tree, p, seen).value)
    decreases |tree.Keys - seen|
  {
    if p in tree && tree[p].Link? {
      SmallerSet(tree.Keys - (seen + {p}), tree.Keys - seen);
      n := FinalLeads(tree, tree[p].to, seen + {p});
      n := n + 1;
    } else {
      n := 0;
    }
  }

  /** An open call ends where the links lead, and fails exactly on a cycle. */
  lemma FinalExact(tree: Tree, p: string, q: string)
    ensures Final(tree, p, {}) == Some(q) <==> Opens(tree, p, q)
  {
    hide Final; hide Leads;
    if Final(tree, p, {}) == Some(q) {
      var n := FinalLeads(tree, p, {});
    }
    if Opens(tree, p, q) {
      var n: nat :| Leads(tree, p, n, q);
      FinalFinds(tree, p, {}, n, q);
    }
  }

  /** The text a path reads as. */
  ghost predicate Reads(tree: Tree, p: string, text: string) {
    exists q :: Opens(tree, p, q) && q in tree && tree[q] == Plain(text)
  }

  lemma ReadsExact(tree: Tree, p: string, text: string)
    ensures ReadFile(tree, p) == Some(text) <==> Reads(tree, p, text)
  {
    hide Final; hide Opens;
    if ReadFile(tree, p) == Some(text) {
      FinalExact(tree, p, Final(tree, p, {}).value);
    }
    if Reads(tree, p, text) {
      var q :| Opens(tree, p, q) && q in tree && tree[q] == Plain(text);
      FinalExact(tree, p, q);
    }
  }

  // ------------------------------------------------------------------ names

  function FileName(t: Target, stem: string): string {
    match t
    case Deb822 => stem + ".list"
    case Classic => stem + ".sources"
  }

  /** The file the converter reads for a stem. */
  function From(o: Options, stem: string): string {
    o.dir + "/" + FileName(o.target, stem)
  }

  /** No other directory was asked for. */
  predicate InPlace(o: Options) {
    o.out.None? || o.out == Some("")
  }

  /** The file it writes: beside the source, or in the directory of `--out`. */
  function Into(o: Options, stem: string): string {
    (if InPlace(o) then o.dir else o.out.value) + "/" +
    match o.target
    case Deb822 => stem + ".sources"
    case Classic => stem + ".list"
  }

  lemma NamesMeet(o: Options, stem: string)
    ensures var name := FileName(o.target, stem);
      && EndsWith(name, SourceExt(o.target))
      && Path(JobOf(o), name) == From(o, stem)
      && Dest(JobOf(o), name) == Into(o, stem)
  {
    hide Convert; hide Equivalent;
    var name := FileName(o.target, stem);
    assert name == stem + SourceExt(o.target);
    assert name[|name| - |SourceExt(o.target)|..] == SourceExt(o.target);
    assert Front(name, |SourceExt(o.target)|) == stem;
  }

  // ------------------------------------------------------------------ a turn

  /** A name with another extension is passed over. */
  lemma OthersPassed(tree: Tree, o: Options, name: string, calls: Calls)
    requires forall stem :: name != FileName(o.target, stem)
    ensures Visit(tree, JobOf(o), name, calls) == Outcome(tree, false, false)
  {
    hide Convert; hide Equivalent; hide Settle; hide EndsWith; hide FileName;
    NoStem(o.target, name);
  }

  lemma NoStem(t: Target, name: string)
    requires forall stem :: name != FileName(t, stem)
    ensures !EndsWith(name, SourceExt(t))
  {
    var ext := SourceExt(t);
    if |ext| <= |name| {
      var stem := name[..|name| - |ext|];
      assert name != FileName(t, stem);
      assert name == stem + name[|name| - |ext|..];
    }
  }

  /** Nothing on the disk changes. */
  predicate Fails(r: Outcome, tree: Tree) { r == Outcome(tree, true, false) }

  predicate Passes(r: Outcome, tree: Tree) { r == Outcome(tree, false, false) }

  /** The source is converted to `text`, from here on. */
  predicate Turned(tree: Tree, o: Options, stem: string, calls: Calls, text: string) {
    && calls.lstat && calls.read && From(o, stem) in tree && tree[From(o, stem)].Plain?
    && Convert(o.target, tree[From(o, stem)].text) == Some(text)
  }

  predicate Unconverted(o: Options, n: Node) {
    n.Plain? && Convert(o.target, n.text).None?
  }

  /** A source that is missing, unreadable or cannot be converted fails; a link is left alone. */
  lemma TurnStarts(tree: Tree, o: Options, stem: string, calls: Calls)
    ensures var r := Visit(tree, JobOf(o), FileName(o.target, stem), calls);
      && (!calls.lstat || From(o, stem) !in tree ==> Fails(r, tree))
      && (calls.lstat && From(o, stem) in tree && tree[From(o, stem)].Link? ==> Passes(r, tree))
      && (calls.lstat && From(o, stem) in tree && tree[From(o, stem)].Unreadable? ==> Fails(r, tree))
      && (calls.lstat && From(o, stem) in tree && tree[From(o, stem)].Plain? && !calls.read ==> Fails(r, tree))
      && (calls.lstat && From(o, stem) in tree && Unconverted(o, tree[From(o, stem)]) ==> Fails(r, tree))
  {
    hide Convert; hide Equivalent; hide Settle; hide EndsWith; hide Path; hide From; hide Dest; hide Into; hide FileName;
    NamesMeet(o, stem);
  }

  /** The destination holds the text already, or something else, as far as it can be read. */
  ghost predicate Holds(tree: Tree, o: Options, stem: string, calls: Calls, text: string) {
    calls.readDest && Reads(tree, Into(o, stem), text)
  }

  /** The turn of a source that converts: what is at the destination stays without `--force`; the
      same text there only has the source removed, in place; a dry run changes nothing; otherwise
      the converted text is written where the destination leads, and the source removed in
      place. */
  lemma TurnEnds(tree: Tree, o: Options, stem: string, calls: Calls, text: string, other: string, q: string)
    requires Turned(tree, o, stem, calls, text)
    ensures var r := Visit(tree, JobOf(o), FileName(o.target, stem), calls);
      var from := From(o, stem);
      && (Holds(tree, o, stem, calls, other) && other != text && !o.force ==> Fails(r, tree))
      && (Holds(tree, o, stem, calls, text) && InPlace(o) && !o.dryRun ==>
          r == if calls.rm then Outcome(tree - {from}, false, false) else Outcome(tree, true, true))
      && (o.dryRun && (o.force || !exists x :: x != text && Holds(tree, o, stem, calls, x)) ==> Passes(r, tree))
      && (Writes(tree, o, stem, calls, text) && !InPlace(o) && !calls.mkdir ==> Fails(r, tree))
      && (Writes(tree, o, stem, calls, text) && (!InPlace(o) ==> calls.mkdir) && Opens(tree, Into(o, stem), q) ==>
          r == Written(tree, o, from, q, text, calls))
      && (Writes(tree, o, stem, calls, text) && (forall z :: !Opens(tree, Into(o, stem), z)) ==> Fails(r, tree))
  {
    hide Convert; hide Equivalent; hide Settle; hide EndsWith; hide Path; hide From; hide Dest; hide Into; hide FileName; hide Holds;
    hide Writes; hide Opens; hide Written;
    NamesMeet(o, stem);
    assert Visit(tree, JobOf(o), FileName(o.target, stem), calls) == Settle(tree, JobOf(o), FileName(o.target, stem), text, calls);
    SettlesHeld(tree, o, stem, calls, text, other);
    SettlesDry(tree, o, stem, calls, text);
    SettlesWrite(tree, o, stem, calls, text, q);
  }

  /** The turn goes on to write: no dry run, and at the destination nothing readable, or with
      `--force` another text, or in another directory the same text. */
  ghost predicate Writes(tree: Tree, o: Options, stem: string, calls: Calls, text: string) {
    && !o.dryRun
    && (forall x :: Holds(tree, o, stem, calls, x) && x != text ==> o.force)
    && (Holds(tree, o, stem, calls, text) ==> !InPlace(o))
  }

  /** The write on the file at `q`, and the removal of the source in place. */
  function Written(tree: Tree, o: Options, from: string, q: string, text: string, calls: Calls): Outcome {
    if q in tree && tree[q].Unreadable? then Outcome(tree, true, false)
    else
      match calls.write
      case Failed(None) => Outcome(tree, true, false)
      case Failed(Some(part)) => Outcome(tree[q := Plain(part)], true, false)
      case Done =>
        if !InPlace(o) then Outcome(tree[q := Plain(text)], false, false)
        else if calls.rm then Outcome(tree[q := Plain(text)] - {from}, false, false)
        else Outcome(tree[q := Plain(text)], true, false)
  }

  lemma HoldsExact(tree: Tree, o: Options, stem: string, calls: Calls, x: string)
    ensures Holds(tree, o, stem, calls, x) <==>
      (if calls.readDest then ReadFile(tree, Into(o, stem)) else None) == Some(x)
  {
    hide Reads; hide ReadFile; hide Into;
    ReadsExact(tree, Into(o, stem), x);
  }

  lemma SettlesHeld(tree: Tree, o: Options, stem: string, calls: Calls, text: string, other: string)
    requires From(o, stem) in tree
    ensures var r := Settle(tree, JobOf(o), FileName(o.target, stem), text, calls);
      && (Holds(tree, o, stem, calls, other) && other != text && !o.force ==> Fails(r, tree))
      && (Holds(tree, o, stem, calls, text) && InPlace(o) && !o.dryRun ==>
          r == if calls.rm then Outcome(tree - {From(o, stem)}, false, false) else Outcome(tree, true, true))
  {
    hide Convert; hide Equivalent; hide EndsWith; hide Path; hide From; hide Dest; hide Into; hide FileName; hide Holds; hide ReadFile;
    NamesMeet(o, stem);
    HoldsExact(tree, o, stem, calls, text);
    HoldsExact(tree, o, stem, calls, other);
  }

  lemma SettlesDry(tree: Tree, o: Options, stem: string, calls: Calls, text: string)
    ensures o.dryRun && (o.force || !exists x :: x != text && Holds(tree, o, stem, calls, x)) ==>
      Passes(Settle(tree, JobOf(o), FileName(o.target, stem), text, calls), tree)
  {
    hide Convert; hide Equivalent; hide EndsWith; hide Path; hide From; hide Dest; hide Into; hide FileName; hide Holds; hide ReadFile;
    NamesMeet(o, stem);
    forall x ensures Holds(tree, o, stem, calls, x) <==> (if calls.readDest then ReadFile(tree, Into(o, stem)) else None) == Some(x) {
      HoldsExact(tree, o, stem, calls, x);
    }
  }

  lemma SettlesWrite(tree: Tree, o: Options, stem: string, calls: Calls, text: string, q: string)
    requires From(o, stem) in tree
    requires tree[From(o, stem)].Plain?
    ensures var r := Settle(tree, JobOf(o), FileName(o.target, stem), text, calls);
      && (Writes(tree, o, stem, calls, text) && !InPlace(o) && !calls.mkdir ==> Fails(r, tree))
      && (Writes(tree, o, stem, calls, text) && (!InPlace(o) ==> calls.mkdir) && Opens(tree, Into(o, stem), q) ==>
          r == Written(tree, o, From(o, stem), q, text, calls))
      && (Writes(tree, o, stem, calls, text) && (forall z :: !Opens(tree, Into(o, stem), z)) ==> Fails(r, tree))
  {
    hide Convert; hide Equivalent; hide EndsWith; hide Path; hide From; hide Dest; hide Into; hide FileName; hide Holds; hide ReadFile;
    hide Replace; hide Opens; hide Written;
    NamesMeet(o, stem);
    forall x ensures Holds(tree, o, stem, calls, x) <==> (if calls.readDest then ReadFile(tree, Into(o, stem)) else None) == Some(x) {
      HoldsExact(tree, o, stem, calls, x);
    }
    ReplaceExact(tree, o, stem, text, calls, q);
  }

  lemma ReplaceExact(tree: Tree, o: Options, stem: string, text: string, calls: Calls, q: string)
    requires From(o, stem) in tree
    ensures var r := Replace(tree, JobOf(o), FileName(o.target, stem), text, calls);
      && (!InPlace(o) && !calls.mkdir ==> Fails(r, tree))
      && ((!InPlace(o) ==> calls.mkdir) && Opens(tree, Into(o, stem), q) ==> r == Written(tree, o, From(o, stem), q, text, calls))
      && ((forall z :: !Opens(tree, Into(o, stem), z)) ==> Fails(r, tree))
  {
    hide Convert; hide Equivalent; hide EndsWith; hide Path; hide From; hide Dest; hide Into; hide FileName; hide Final; hide Opens;
    NamesMeet(o, stem);
    FinalExact(tree, Into(o, stem), q);
    if Final(tree, Into(o, stem), {}).Some? {
      FinalExact(tree, Into(o, stem), Final(tree, Into(o, stem), {}).value);
    }
  }

  // ------------------------------------------------------------------ the loop

  /** The disk before the k-th entry. */
  function Before(tree: Tree, o: Job, names: seq<string>, calls: seq<Calls>, k: nat): Tree
    requires k <= |names| == |calls|
  {
    if k == 0 then tree else Visit(Before(tree, o, names, calls, k - 1), o, names[k - 1], calls[k - 1]).tree
  }

  /** The turn of the k-th entry fails. */
  predicate FailsAt(tree: Tree, o: Job, names: seq<string>, calls: seq<Calls>, k: nat)
    requires k < |names| == |calls|
  {
    Visit(Before(tree, o, names, calls, k), o, names[k], calls[k]).failed
  }

  /** The loop ends at an entry: the removal that no handler guards. */
  predicate StopsAt(tree: Tree, o: Job, names: seq<string>, calls: seq<Calls>, k: nat)
    requires k < |names| == |calls|
  {
    Visit(Before(tree, o, names, calls, k), o, names[k], calls[k]).stopped
  }

  lemma StopFails(tree: Tree, o: Job, name: string, calls: Calls)
    ensures Visit(tree, o, name, calls).stopped ==> Visit(tree, o, name, calls).failed
  {
    hide EndsWith; hide Path; hide Dest; hide ReadFile; hide WriteFile; hide SourceExt;
  }

  lemma {:induction false} LoopFrom(tree: Tree, o: Job, names: seq<string>, calls: seq<Calls>, k: nat, last: nat)
    requires k <= last <= |names| == |calls| && forall j :: k <= j < last ==> !StopsAt(tree, o, names, calls, j)
    requires last < |names| ==> StopsAt(tree, o, names, calls, last)
    ensures var r := VisitAll(Before(tree, o, names, calls, k), o, names[k..], calls[k..]);
      && r.0 == Before(tree, o, names, calls, if last < |names| then last + 1 else last)
      && (r.1 == 0 <==> last == |names| && forall j :: k <= j < |names| ==> !FailsAt(tree, o, names, calls, j))
    decreases last - k
  {
    hide Visit;
    if k < |names| {
      assert names[k..][1..] == names[k + 1..] && calls[k..][1..] == calls[k + 1..];
      assert Before(tree, o, names, calls, k + 1) == Visit(Before(tree, o, names, calls, k), o, names[k], calls[k]).tree;
      if k < last {
        LoopFrom(tree, o, names, calls, k + 1, last);
        assert !StopsAt(tree, o, names, calls, k);
        assert FailsAt(tree, o, names, calls, k) <==> Visit(Before(tree, o, names, calls, k), o, names[k], calls[k]).failed;
      } else {
        assert StopsAt(tree, o, names, calls, k);
        assert VisitAll(Before(tree, o, names, calls, k), o, names[k..], calls[k..]).1 == 1;
      }
    }
  }

  /** The entries are taken in order up to the first that ends the loop, and the exit code is 0
      exactly when the loop gets through and no entry fails. */
  lemma LoopExact(tree: Tree, o: Job, names: seq<string>, calls: seq<Calls>, last: nat)
    requires last <= |names| == |calls| && forall j :: 0 <= j < last ==> !StopsAt(tree, o, names, calls, j)
    requires last < |names| ==> StopsAt(tree, o, names, calls, last)
    ensures var r := VisitAll(tree, o, names, calls);
      && r.0 == Before(tree, o, names, calls, if last < |names| then last + 1 else last)
      && (r.1 == 0 <==> forall j :: 0 <= j < |names| ==> !FailsAt(tree, o, names, calls, j))
  {
    hide Visit; hide Before; hide VisitAll;
    assert names[0..] == names && calls[0..] == calls;
    Start(tree, o, names, calls);
    LoopFrom(tree, o, names, calls, 0, last);
    if last < |names| {
      StopFails(Before(tree, o, names, calls, last), o, names[last], calls[last]);
      assert FailsAt(tree, o, names, calls, last);
    }
  }

  lemma Start(tree: Tree, o: Job, names: seq<string>, calls: seq<Calls>)
    requires |names| == |calls|
    ensures Before(tree, o, names, calls, 0) == tree
  {
  }

  // ------------------------------------------------------------------ copies

  /** The source stands and its destination reads as the converted text. */
  predicate Copied(was: Tree, tree: Tree, o: Job, name: string) {
    && Converts(was, o, name) && Path(o, name) in tree && tree[Path(o, name)] == was[Path(o, name)]
    && ReadFile(tree, Dest(o, name)) == o.convert(was[Path(o, name)].text)
  }

  /** No two of the listed destinations land on one path. */
  predicate Spread(tree: Tree, o: Job, names: seq<string>) {
    forall a, b :: a in names && b in names ==> !Clashes(tree, o, a, b)
  }

  lemma SettleCopies(tree: Tree, o: Job, name: string, text: string, calls: Calls)
    requires Source(tree, o, name) && o.out.Some? && !o.dryRun && !Settle(tree, o, name, text, calls).failed
    ensures ReadFile(Settle(tree, o, name, text, calls).tree, Dest(o, name)) == Some(text)
  {
    hide EndsWith; hide Dest; hide Path; hide ReadFile; hide WriteFile; hide SourceExt; hide Lands; hide SameOff; hide Touched;
    var next := Settle(tree, o, name, text, calls).tree;
    SettleFrame(tree, o, name, text, calls);
    LandsSame(tree, next, o, name);
    LandsOnPlain(tree, o, name);
    LandingFile(tree, o, name, text, calls.write);
    LandingFile(next, o, name, text, calls.write);
  }

  lemma VisitCopies(tree: Tree, o: Job, name: string, calls: Calls)
    requires Source(tree, o, name) && o.out.Some? && !o.dryRun && !Visit(tree, o, name, calls).failed
    ensures Converts(tree, o, name)
    ensures ReadFile(Visit(tree, o, name, calls).tree, Dest(o, name)) == o.convert(tree[Path(o, name)].text)
  {
    hide EndsWith; hide Dest; hide Path; hide ReadFile; hide SourceExt; hide Settle;
    if Converts(tree, o, name) {
      SettleCopies(tree, o, name, o.convert(tree[Path(o, name)].text).value, calls);
    }
  }

  /** A turn for another entry, or for one already copied that does not fail, keeps a copy. */
  lemma CopyKept(was: Tree, tree: Tree, o: Job, names: seq<string>, visited: string, calls: Calls, name: string)
    requires Sound(o) && o.out.Some? && visited in names && name in names && visited != name
    requires Steady(was, tree, o, names) && Clear(was, o, names) && Spread(was, o, names) && Copied(was, tree, o, name)
    ensures Copied(was, Visit(tree, o, visited, calls).tree, o, name)
  {
    hide EndsWith; hide SourceExt; hide Lands; hide Clear; hide Path; hide ReadFile; hide Dest; hide Visit; hide Touched;
    hide SameLinks; hide Clashes; hide Steady; hide Sound;
    VisitFrame(tree, o, visited, calls);
    var next := Visit(tree, o, visited, calls).tree;
    if Converts(tree, o, visited) {
      StaysStanding(was, tree, o, names, visited, calls, name);
      assert !Clashes(was, o, name, visited);
      ReadKept(was, tree, next, o, names, visited, name);
    }
  }

  /** Into another directory every listed source stays as it was. */
  lemma StaysStanding(was: Tree, tree: Tree, o: Job, names: seq<string>, visited: string, calls: Calls, name: string)
    requires Sound(o) && o.out.Some? && visited in names && name in names
    requires Steady(was, tree, o, names) && Clear(was, o, names) && Source(tree, o, name) && tree[Path(o, name)] == was[Path(o, name)]
    ensures var next := Visit(tree, o, visited, calls).tree; Source(next, o, name) && next[Path(o, name)] == was[Path(o, name)]
    ensures Steady(was, Visit(tree, o, visited, calls).tree, o, names)
  {
    hide EndsWith; hide SourceExt; hide Lands; hide Clear; hide Path; hide Visit; hide Sound;
    VisitAdds(tree, o, visited, calls);
    VisitSteady(was, tree, o, names, visited, calls);
  }

  lemma {:induction false} RunKeepsCopy(was: Tree, tree: Tree, o: Job, names: seq<string>, k: nat, calls: seq<Calls>, name: string)
    requires Sound(o) && o.out.Some? && k <= |names| && |calls| == |names| - k && name in names && name !in names[k..]
    requires Steady(was, tree, o, names) && Clear(was, o, names) && Spread(was, o, names) && Copied(was, tree, o, name)
    ensures Copied(was, VisitAll(tree, o, names[k..], calls).0, o, name)
    decreases |names| - k
  {
    hide Steady; hide Clear; hide Spread; hide Copied; hide Visit; hide Sound; hide Source; hide Path;
    if k < |names| {
      var next := Visit(tree, o, names[k], calls[0]).tree;
      assert names[k..][1..] == names[k + 1..] && names[k..][0] == names[k];
      VisitSteady(was, tree, o, names, names[k], calls[0]);
      CopyKept(was, tree, o, names, names[k], calls[0], name);
      RunKeepsCopy(was, next, o, names, k + 1, calls[1..], name);
    }
  }

  lemma {:induction false} RunCopies(was: Tree, tree: Tree, o: Job, names: seq<string>, k: nat, calls: seq<Calls>, name: string)
    requires Sound(o) && o.out.Some? && !o.dryRun && k <= |names| && |calls| == |names| - k && Distinct(names) && name in names[k..]
    requires Steady(was, tree, o, names) && Clear(was, o, names) && Spread(was, o, names)
    requires Source(tree, o, name) && tree[Path(o, name)] == was[Path(o, name)]
    requires VisitAll(tree, o, names[k..], calls).1 == 0
    ensures Copied(was, VisitAll(tree, o, names[k..], calls).0, o, name)
    decreases |names| - k
  {
    hide Clear; hide Spread; hide Visit; hide Sound; hide Path; hide EndsWith; hide SourceExt; hide ReadFile; hide Dest; hide SameLinks;
    var next := Visit(tree, o, names[k], calls[0]).tree;
    assert names[k..][1..] == names[k + 1..] && names[k..][0] == names[k] && names[k] in names;
    assert name in names;
    StaysStanding(was, tree, o, names, names[k], calls[0], name);
    if name == names[k] {
      VisitCopies(tree, o, name, calls[0]);
      assert name !in names[k + 1..];
      RunKeepsCopy(was, next, o, names, k + 1, calls[1..], name);
    } else {
      RunCopies(was, next, o, names, k + 1, calls[1..], name);
    }
  }

  /** A run with `--out` that exits with 0: every listed source stands as it was, and its copy
      reads as the converted text. */
  lemma ExitZeroCopies(tree: Tree, o: Options, names: seq<string>, calls: seq<Calls>, stem: string)
    requires |calls| == |names| && Clear(tree, JobOf(o), names) && Spread(tree, JobOf(o), names) && Distinct(names)
    requires !InPlace(o) && !o.dryRun && FileName(o.target, stem) in names && VisitAll(tree, JobOf(o), names, calls).1 == 0
    requires From(o, stem) in tree && tree[From(o, stem)].Plain?
    ensures var last := VisitAll(tree, JobOf(o), names, calls).0;
      && From(o, stem) in last && last[From(o, stem)] == tree[From(o, stem)]
      && Convert(o.target, tree[From(o, stem)].text).Some?
      && Reads(last, Into(o, stem), Convert(o.target, tree[From(o, stem)].text).value)
  {
    hide Clear; hide Spread; hide VisitAll; hide Sound; hide Path; hide EndsWith; hide Convert; hide ReadFile; hide Dest; hide Steady;
    hide Distinct; hide FileName; hide From; hide Into; hide Equivalent; hide Reads;
    NamesMeet(o, stem);
    JobSound(o);
    SteadyStart(tree, JobOf(o), names);
    assert names[0..] == names;
    RunCopies(tree, tree, JobOf(o), names, 0, calls, FileName(o.target, stem));
    ReadsExact(VisitAll(tree, JobOf(o), names, calls).0, Into(o, stem), Convert(o.target, tree[From(o, stem)].text).value);
  }

  /** A dry run leaves the disk alone. */
  lemma DryRunKeeps(tree: Tree, o: Options, names: seq<string>, calls: seq<Calls>)
    requires o.dryRun && |calls| == |names|
    ensures VisitAll(tree, JobOf(o), names, calls).0 == tree
  {
    hide VisitAll; hide Convert; hide Equivalent;
    RunDry(tree, JobOf(o), names, calls);
  }
}
