/** The loop of the directory converter, files/apt-srctools/apt-src-convert-dir.ts, over a disk that
    fails: what it keeps, whatever it converts the texts to. */
module FolderRun {
  import opened Wrappers

  // ------------------------------------------------------------------ the disk

  /** What a path holds: text, a symbolic link to another path, or something unreadable. */
  datatype Node = Plain(text: string) | Link(to: string) | Unreadable

  type Tree = map<string, Node>

  /** The path an open call ends at; None for a cycle of links. */
  function Final(tree: Tree, p: string, seen: set<string>): Option<string>
    decreases |tree.Keys - seen|
  {
    if p in seen then None
    else if p in tree && tree[p].Link? then
      assert tree.Keys - (seen + {p}) < tree.Keys - seen;
      SmallerSet(tree.Keys - (seen + {p}), tree.Keys - seen);
      Final(tree, tree[p].to, seen + {p})
    else Some(p)
  }

  lemma {:induction false} SmallerSet(a: set<string>, b: set<string>)
    requires a < b
    ensures |a| < |b|
  {
    var x :| x in b && x !in a;
    SubsetSize(a, b - {x});
  }

  lemma {:induction false} SubsetSize(a: set<string>, b: set<string>)
    requires a <= b
    ensures |a| <= |b|
    decreases |a|
  {
    if a != {} {
      var x :| x in a;
      SubsetSize(a - {x}, b - {x});
    }
  }

  /** `readFile`, which follows links. */
  function ReadFile(tree: Tree, p: string): Option<string> {
    match Final(tree, p, {})
    case None => None
    case Some(q) => if q in tree && tree[q].Plain? then Some(tree[q].text) else None
  }

  /** How a write goes: done, or failed leaving some text, or nothing, behind. */
  datatype Write = Done | Failed(left: Option<string>)

  /** `writeFile`, which follows links; false when it throws. */
  function WriteFile(tree: Tree, p: string, text: string, how: Write): (Tree, bool) {
    match Final(tree, p, {})
    case None => (tree, false)
    case Some(q) =>
      if q in tree && tree[q].Unreadable? then (tree, false)
      else
        match how
        case Done => (tree[q := Plain(text)], true)
        case Failed(left) => (if left.None? then tree else tree[q := Plain(left.value)], false)
  }

  /** What the system calls made for one directory entry do: `true` where a call is let
      through. */
  datatype Calls = Calls(lstat: bool, read: bool, readDest: bool, mkdir: bool, write: Write, rm: bool)

  // ---------------------------------------------------------------------- one run

  datatype Target = Deb822 | Classic

  /** A run: its options, how a text is converted, and which texts mean the same. */
  datatype Job = Job(target: Target, dir: string, out: Option<string>, dryRun: bool, force: bool,
                     convert: string -> Option<string>, alike: (string, string) -> bool)

  /** What comes out means the same as what went in. */
  ghost predicate Sound(o: Job) {
    forall text :: o.convert(text).Some? ==> o.alike(text, o.convert(text).value)
  }

  function SourceExt(t: Target): string { if t.Deb822? then ".list" else ".sources" }

  function TargetExt(t: Target): string { if t.Deb822? then ".sources" else ".list" }

  predicate EndsWith(s: string, t: string) {
    |t| <= |s| && s[|s| - |t|..] == t
  }

  /** `join(dir, name)`, for a normal `dir` and a plain name. */
  function Join2(dir: string, name: string): string {
    dir + "/" + name
  }

  function Path(o: Job, name: string): string { Join2(o.dir, name) }

  /** `name.slice(0, -n)` */
  function Front(name: string, n: nat): string {
    if n <= |name| then name[..|name| - n] else ""
  }

  function Dest(o: Job, name: string): string {
    Join2(if o.out.Some? then o.out.value else o.dir, Front(name, |SourceExt(o.target)|) + TargetExt(o.target))
  }

  /** Stopped: an error that the loop does not catch ends the program. */
  datatype Outcome = Outcome(tree: Tree, failed: bool, stopped: bool)

  function Kept(tree: Tree): Outcome { Outcome(tree, false, false) }

  function Failing(tree: Tree): Outcome { Outcome(tree, true, false) }

  /** Writing the converted text, and removing the source of an in-place conversion. */
  function Replace(tree: Tree, o: Job, name: string, text: string, calls: Calls): Outcome {
    if o.out.Some? && !calls.mkdir then Failing(tree)
    else
      var (next, done) := WriteFile(tree, Dest(o, name), text, calls.write);
      if !done then Failing(next)
      else if o.out.Some? then Kept(next)
      else if calls.rm && Path(o, name) in next then Kept(next - {Path(o, name)})
      else Failing(next)
  }

  /** The destination checks. A destination that cannot be read counts as absent; removing the
      source of a complete conversion is not guarded. */
  function Settle(tree: Tree, o: Job, name: string, text: string, calls: Calls): Outcome {
    var existing := if calls.readDest then ReadFile(tree, Dest(o, name)) else None;
    if existing.Some? && existing.value != text && !o.force then Failing(tree)
    else if existing.Some? && existing.value == text && o.out.None? then
      if o.dryRun then Kept(tree)
      else if calls.rm && Path(o, name) in tree then Kept(tree - {Path(o, name)})
      else Outcome(tree, true, true)
    else if o.dryRun then Kept(tree)
    else Replace(tree, o, name, text, calls)
  }

  /** One turn of the loop over the directory entries. */
  function Visit(tree: Tree, o: Job, name: string, calls: Calls): Outcome {
    if !EndsWith(name, SourceExt(o.target)) then Kept(tree)
    else if !calls.lstat || Path(o, name) !in tree then Failing(tree)
    else if tree[Path(o, name)].Link? then Kept(tree)
    else if !calls.read || !tree[Path(o, name)].Plain? then Failing(tree)
    else
      match o.convert(tree[Path(o, name)].text)
      case None => Failing(tree)
      case Some(text) => Settle(tree, o, name, text, calls)
  }

  /** The disk after the entries, and how many failed. */
  function VisitAll(tree: Tree, o: Job, names: seq<string>, calls: seq<Calls>): (Tree, nat)
    requires |calls| == |names|
    decreases |names|
  {
    if names == [] then (tree, 0)
    else
      var first := Visit(tree, o, names[0], calls[0]);
      if first.stopped then (first.tree, 1) else
      var (last, failures) := VisitAll(first.tree, o, names[1..], calls[1..]);
      (last, failures + if first.failed then 1 else 0)
  }

  // ----------------------------------------------------------- nothing gets lost

  /** The source is gone and its destination reads as an equivalent text. */
  predicate Converted(was: Tree, tree: Tree, o: Job, name: string) {
    && Converts(was, o, name) && Path(o, name) !in tree
    && ReadFile(tree, Dest(o, name)).Some?
    && o.alike(was[Path(o, name)].text, ReadFile(tree, Dest(o, name)).value)
  }

  /** A file the converter reads. */
  predicate Source(tree: Tree, o: Job, name: string) {
    EndsWith(name, SourceExt(o.target)) && Path(o, name) in tree && tree[Path(o, name)].Plain?
  }

  /** The source is one the converter can print and read back. */
  predicate Converts(tree: Tree, o: Job, name: string) {
    Source(tree, o, name) && o.convert(tree[Path(o, name)].text).Some?
  }

  lemma EndsAlike(s: string, t: string)
    requires EndsWith(s, t) && t != ""
    ensures s != "" && s[|s| - 1] == t[|t| - 1]
  {
    assert s[|s| - |t|..][|t| - 1] == s[|s| - 1];
  }

  lemma NotSame(a: string, b: string)
    requires EndsWith(a, ".list") && EndsWith(b, ".sources")
    ensures a != b
  {
    EndsAlike(a, ".list");
    EndsAlike(b, ".sources");
  }

  lemma JoinEnds(dir: string, name: string, t: string)
    requires EndsWith(name, t)
    ensures EndsWith(Join2(dir, name), t)
  {
  }

  /** Destinations and sources are different paths. */
  lemma DestIsNoSource(o: Job, name: string, other: string)
    requires EndsWith(name, SourceExt(o.target)) && EndsWith(other, SourceExt(o.target))
    ensures Dest(o, name) != Path(o, other)
  {
    var stem := name[..|name| - |SourceExt(o.target)|];
    JoinEnds(if o.out.Some? then o.out.value else o.dir, stem + TargetExt(o.target), TargetExt(o.target));
    JoinEnds(o.dir, other, SourceExt(o.target));
    hide EndsWith;
    if o.target.Deb822? {
      NotSame(Path(o, other), Dest(o, name));
    } else {
      NotSame(Dest(o, name), Path(o, other));
    }
  }

  lemma Join2Injective(dir: string, a: string, b: string)
    requires Join2(dir, a) == Join2(dir, b)
    ensures a == b
  {
    assert Join2(dir, a)[|dir| + 1..] == a && Join2(dir, b)[|dir| + 1..] == b;
  }

  /** Different sources have different destinations. */
  lemma DestInjective(o: Job, a: string, b: string)
    requires EndsWith(a, SourceExt(o.target)) && EndsWith(b, SourceExt(o.target)) && Dest(o, a) == Dest(o, b)
    ensures a == b
  {
    var ext := SourceExt(o.target);
    var x, y := a[..|a| - |ext|], b[..|b| - |ext|];
    Join2Injective(if o.out.Some? then o.out.value else o.dir, x + TargetExt(o.target), y + TargetExt(o.target));
    assert (x + TargetExt(o.target))[..|x|] == x && (y + TargetExt(o.target))[..|y|] == y;
    assert a == x + ext && b == y + ext;
  }

  lemma PathsDiffer(o: Job, a: string, b: string)
    requires a != b
    ensures Path(o, a) != Path(o, b)
  {
    hide Join2;
    if Path(o, a) == Path(o, b) {
      Join2Injective(o.dir, a, b);
    }
  }

  // ------------------------------------------------------- where a write ends

  /** The path a write to a destination changes, None when it cannot. */
  function Lands(tree: Tree, o: Job, name: string): Option<string> {
    match Final(tree, Dest(o, name), {})
    case None => None
    case Some(q) => if q in tree && tree[q].Unreadable? then None else Some(q)
  }

  /** The same links and unreadable paths. */
  ghost predicate SameLinks(a: Tree, b: Tree) {
    && (forall p :: p in a && !a[p].Plain? ==> p in b && b[p] == a[p])
    && (forall p :: p in b && !b[p].Plain? ==> p in a && a[p] == b[p])
  }

  /** Only links decide where a path ends. */
  lemma {:induction false} FinalSame(a: Tree, b: Tree, p: string, seen: set<string>)
    requires SameLinks(a, b)
    ensures Final(a, p, seen) == Final(b, p, seen)
    decreases |a.Keys - seen|
  {
    if p !in seen && p in a && a[p].Link? {
      SmallerSet(a.Keys - (seen + {p}), a.Keys - seen);
      FinalSame(a, b, a[p].to, seen + {p});
    }
  }

  lemma LandsSame(a: Tree, b: Tree, o: Job, name: string)
    requires SameLinks(a, b) && EndsWith(name, SourceExt(o.target))
    ensures Lands(a, o, name) == Lands(b, o, name)
  {
    hide EndsWith; hide Dest; hide SourceExt; hide Final;
    FinalSame(a, b, Dest(o, name), {});
  }

  lemma {:induction false} FinalNoLink(tree: Tree, p: string, seen: set<string>)
    ensures var q := Final(tree, p, seen); q.Some? && q.value in tree ==> !tree[q.value].Link?
    decreases |tree.Keys - seen|
  {
    if p !in seen && p in tree && tree[p].Link? {
      SmallerSet(tree.Keys - (seen + {p}), tree.Keys - seen);
      FinalNoLink(tree, tree[p].to, seen + {p});
    }
  }

  lemma LandsOnPlain(tree: Tree, o: Job, name: string)
    requires EndsWith(name, SourceExt(o.target))
    ensures var q := Lands(tree, o, name); q.Some? && q.value in tree ==> tree[q.value].Plain?
  {
    hide EndsWith; hide Dest; hide SourceExt; hide Final;
    FinalNoLink(tree, Dest(o, name), {});
  }

  /** Both file calls on a destination in terms of where it lands. */
  lemma LandingFile(tree: Tree, o: Job, name: string, text: string, how: Write)
    requires EndsWith(name, SourceExt(o.target))
    ensures var q := Lands(tree, o, name);
      && ReadFile(tree, Dest(o, name)) == (if q.Some? && q.value in tree && tree[q.value].Plain? then Some(tree[q.value].text) else None)
      && WriteFile(tree, Dest(o, name), text, how) ==
        (if q.None? then (tree, false)
         else if how.Done? then (tree[q.value := Plain(text)], true)
         else (if how.left.None? then tree else tree[q.value := Plain(how.left.value)], false))
  {
    hide EndsWith; hide Dest; hide SourceExt; hide Final;
    LandsOnPlain(tree, o, name);
  }

  // ---------------------------------------------------------------- one visit

  ghost predicate SameOff(a: Tree, b: Tree, ps: set<string>) {
    forall x :: x !in ps ==> (x in a <==> x in b) && (x in a ==> a[x] == b[x])
  }

  /** What a visit can change: its own source, and where its destination lands. */
  function Touched(tree: Tree, o: Job, name: string): set<string> {
    if !EndsWith(name, SourceExt(o.target)) then {}
    else {Path(o, name)} + match Lands(tree, o, name) case None => {} case Some(q) => {q}
  }

  lemma SettleFrame(tree: Tree, o: Job, name: string, text: string, calls: Calls)
    requires Source(tree, o, name)
    ensures var next := Settle(tree, o, name, text, calls).tree;
      SameOff(tree, next, Touched(tree, o, name)) && SameLinks(tree, next)
  {
    hide EndsWith; hide Dest; hide Path; hide WriteFile; hide ReadFile; hide SourceExt; hide Lands;
    LandsOnPlain(tree, o, name);
    LandingFile(tree, o, name, text, calls.write);
  }

  lemma VisitFrame(tree: Tree, o: Job, name: string, calls: Calls)
    ensures var next := Visit(tree, o, name, calls).tree;
      SameOff(tree, next, Touched(tree, o, name)) && SameLinks(tree, next)
    ensures !Converts(tree, o, name) ==> Visit(tree, o, name, calls).tree == tree
  {
    hide EndsWith; hide Dest; hide Path; hide SourceExt; hide Touched;
    if Converts(tree, o, name) {
      SettleFrame(tree, o, name, o.convert(tree[Path(o, name)].text).value, calls);
    }
    hide Settle;
  }

  /** A visited source stays, or goes once its destination reads the same; it goes whenever an
      in-place conversion reports no failure. */
  lemma VisitSafe(tree: Tree, o: Job, name: string, calls: Calls)
    requires Sound(o)
    requires Source(tree, o, name) && (Converts(tree, o, name) ==> Lands(tree, o, name) != Some(Path(o, name)))
    ensures var next := Visit(tree, o, name, calls).tree;
      (Path(o, name) in next && next[Path(o, name)] == tree[Path(o, name)]) || Converted(tree, next, o, name)
    ensures !Visit(tree, o, name, calls).failed && !o.dryRun && o.out.None? ==> Converted(tree, Visit(tree, o, name, calls).tree, o, name)
  {
    hide EndsWith; hide Dest; hide Path; hide SourceExt;
    if Converts(tree, o, name) {
      SettleSafe(tree, o, name, o.convert(tree[Path(o, name)].text).value, calls);
    }
    hide Settle; hide Converted;
  }

  lemma SettleSafe(tree: Tree, o: Job, name: string, text: string, calls: Calls)
    requires Converts(tree, o, name) && Lands(tree, o, name) != Some(Path(o, name)) && o.alike(tree[Path(o, name)].text, text)
    ensures var next := Settle(tree, o, name, text, calls).tree;
      (Path(o, name) in next && next[Path(o, name)] == tree[Path(o, name)]) || Converted(tree, next, o, name)
    ensures var r := Settle(tree, o, name, text, calls);
      !r.failed && !o.dryRun && o.out.None? ==> Converted(tree, r.tree, o, name)
  {
    hide EndsWith; hide Dest; hide Path; hide ReadFile; hide SourceExt; hide Lands; hide Settle; hide Touched;
    hide SameOff; hide SameLinks;
    SettleFrame(tree, o, name, text, calls);
    SettleGone(tree, o, name, text, calls);
    var next := Settle(tree, o, name, text, calls).tree;
    LandsSame(tree, next, o, name);
    LandingFile(next, o, name, text, calls.write);
  }

  /** The source stays as it is, or goes when its destination holds the text. */
  lemma SettleGone(tree: Tree, o: Job, name: string, text: string, calls: Calls)
    requires Source(tree, o, name) && Lands(tree, o, name) != Some(Path(o, name))
    ensures var next := Settle(tree, o, name, text, calls).tree;
      if Path(o, name) in next then next[Path(o, name)] == tree[Path(o, name)]
      else var q := Lands(tree, o, name); q.Some? && q.value in next && next[q.value] == Plain(text)
    ensures var r := Settle(tree, o, name, text, calls);
      !r.failed && !o.dryRun && o.out.None? ==> Path(o, name) !in r.tree
  {
    hide EndsWith; hide Dest; hide Path; hide ReadFile; hide WriteFile; hide SourceExt; hide Lands;
    LandsOnPlain(tree, o, name);
    LandingFile(tree, o, name, text, calls.write);
  }

  // ---------------------------------------------------------------- a whole run

  /** The destination of a file that converts lands on the path of a listed source. */
  predicate Hits(tree: Tree, o: Job, a: string, b: string) {
    Converts(tree, o, a) && EndsWith(b, SourceExt(o.target)) && Lands(tree, o, a) == Some(Path(o, b))
  }

  /** The destinations of two files that convert land on one path. */
  predicate Clashes(tree: Tree, o: Job, a: string, b: string) {
    a != b && Converts(tree, o, a) && Converts(tree, o, b) && Lands(tree, o, a).Some? && Lands(tree, o, a) == Lands(tree, o, b)
  }

  /** Known before a run. A run into another directory removes nothing, so there two destinations
      may land on one path. */
  predicate Clear(tree: Tree, o: Job, names: seq<string>) {
    forall a, b :: a in names && b in names ==> !Hits(tree, o, a, b) && (o.out.None? ==> !Clashes(tree, o, a, b))
  }

  predicate Apart(tree: Tree, o: Job, names: seq<string>) { o.dryRun || Clear(tree, o, names) }

  /** What a run keeps: the links, and the listed sources not yet visited. */
  ghost predicate Steady(was: Tree, tree: Tree, o: Job, names: seq<string>) {
    && SameLinks(was, tree)
    && forall n :: n in names && Source(tree, o, n) ==> Source(was, o, n) && tree[Path(o, n)] == was[Path(o, n)]
  }

  lemma SteadyWrites(was: Tree, tree: Tree, o: Job, names: seq<string>, n: string)
    requires Steady(was, tree, o, names) && n in names && Converts(tree, o, n)
    ensures Converts(was, o, n) && Lands(tree, o, n) == Lands(was, o, n)
  {
    hide EndsWith; hide Path; hide SourceExt; hide Lands;
    LandsSame(was, tree, o, n);
  }

  lemma ClearAt(tree: Tree, o: Job, names: seq<string>, a: string, b: string)
    requires Clear(tree, o, names) && a in names && b in names && Converts(tree, o, a) && EndsWith(b, SourceExt(o.target))
    ensures Lands(tree, o, a) != Some(Path(o, b))
    ensures o.out.None? && a != b && Converts(tree, o, b) ==> Lands(tree, o, a).None? || Lands(tree, o, a) != Lands(tree, o, b)
  {
    hide EndsWith; hide Path; hide SourceExt; hide Lands; hide Converts;
    assert !Hits(tree, o, a, b) && (o.out.None? ==> !Clashes(tree, o, a, b));
  }

  /** A visit of one listed entry leaves the other listed sources as they are. */
  lemma VisitSteady(was: Tree, tree: Tree, o: Job, names: seq<string>, visited: string, calls: Calls)
    requires Sound(o)
    requires Steady(was, tree, o, names) && Clear(was, o, names) && visited in names
    ensures Steady(was, Visit(tree, o, visited, calls).tree, o, names)
    ensures forall n :: n in names && n != visited && EndsWith(n, SourceExt(o.target)) ==> Path(o, n) !in Touched(tree, o, visited) || !Converts(tree, o, visited)
  {
    hide EndsWith; hide SourceExt; hide Lands; hide Visit; hide Clear; hide Path; hide SameLinks;
    VisitFrame(tree, o, visited, calls);
    var next := Visit(tree, o, visited, calls).tree;
    LinksTwice(was, tree, next);
    if Converts(tree, o, visited) {
      SteadyWrites(was, tree, o, names, visited);
      forall n | n in names && EndsWith(n, SourceExt(o.target))
        ensures n != visited ==> Path(o, n) !in Touched(tree, o, visited)
        ensures Lands(tree, o, visited) != Some(Path(o, n))
      {
        ClearAt(was, o, names, visited, n);
        if n != visited {
          PathsDiffer(o, visited, n);
        }
      }
      SourceAfter(tree, o, visited, calls);
    }
  }

  lemma LinksTwice(a: Tree, b: Tree, c: Tree)
    requires SameLinks(a, b) && SameLinks(b, c)
    ensures SameLinks(a, c)
  {
  }

  /** A visited source is not changed in place, only removed. */
  lemma SourceAfter(tree: Tree, o: Job, name: string, calls: Calls)
    requires Sound(o)
    requires Converts(tree, o, name) && Lands(tree, o, name) != Some(Path(o, name))
    ensures var next := Visit(tree, o, name, calls).tree; Path(o, name) in next ==> next[Path(o, name)] == tree[Path(o, name)]
  {
    hide EndsWith; hide Dest; hide Path; hide SourceExt; hide Visit; hide Lands;
    VisitSafe(tree, o, name, calls);
  }

  /** What is known of a source during the run: it stands as at the start, or was converted. */
  predicate Secure(was: Tree, tree: Tree, o: Job, name: string) {
    || (Path(o, name) in was && Path(o, name) in tree && tree[Path(o, name)] == was[Path(o, name)])
    || Converted(was, tree, o, name)
  }

  lemma VisitSecure(was: Tree, tree: Tree, o: Job, names: seq<string>, visited: string, calls: Calls, name: string)
    requires Sound(o)
    requires o.out.None?
    requires Steady(was, tree, o, names) && Clear(was, o, names) && visited in names && name in names
    requires Source(was, o, name) && Secure(was, tree, o, name)
    ensures Secure(was, Visit(tree, o, visited, calls).tree, o, name)
    ensures visited != name && Converted(was, tree, o, name) ==> Converted(was, Visit(tree, o, visited, calls).tree, o, name)
    ensures visited == name && !Visit(tree, o, visited, calls).failed && !o.dryRun && o.out.None? ==>
      Converted(was, Visit(tree, o, visited, calls).tree, o, name)
  {
    hide EndsWith; hide SourceExt; hide Lands; hide Visit; hide Clear; hide Path; hide SameLinks; hide Steady; hide Converted;
    if visited == name {
      OwnVisit(was, tree, o, names, calls, name);
    } else {
      OtherVisit(was, tree, o, names, visited, calls, name);
    }
  }

  lemma OwnVisit(was: Tree, tree: Tree, o: Job, names: seq<string>, calls: Calls, name: string)
    requires Sound(o)
    requires Steady(was, tree, o, names) && Clear(was, o, names) && name in names
    requires Source(was, o, name) && Secure(was, tree, o, name)
    ensures Secure(was, Visit(tree, o, name, calls).tree, o, name)
    ensures !Visit(tree, o, name, calls).failed && !o.dryRun && o.out.None? ==> Converted(was, Visit(tree, o, name, calls).tree, o, name)
  {
    hide EndsWith; hide SourceExt; hide Lands; hide Clear; hide Path; hide Steady; hide ReadFile; hide Dest; hide Visit;
    if Path(o, name) in tree {
      if Converts(tree, o, name) {
        SteadyWrites(was, tree, o, names, name);
        ClearAt(was, o, names, name, name);
      }
      VisitSafe(tree, o, name, calls);
    } else {
      VisitFrame(tree, o, name, calls);
    }
  }

  lemma OtherVisit(was: Tree, tree: Tree, o: Job, names: seq<string>, visited: string, calls: Calls, name: string)
    requires Sound(o)
    requires o.out.None?
    requires Steady(was, tree, o, names) && Clear(was, o, names) && visited in names && name in names && visited != name
    requires Source(was, o, name) && Secure(was, tree, o, name)
    ensures Secure(was, Visit(tree, o, visited, calls).tree, o, name)
    ensures Converted(was, tree, o, name) ==> Converted(was, Visit(tree, o, visited, calls).tree, o, name)
  {
    hide EndsWith; hide SourceExt; hide Lands; hide Clear; hide Path; hide ReadFile; hide Dest; hide Visit; hide Touched;
    hide SameLinks; hide Converts;
    VisitFrame(tree, o, visited, calls);
    if Converts(tree, o, visited) {
      var next := Visit(tree, o, visited, calls).tree;
      VisitSteady(was, tree, o, names, visited, calls);
      if Converted(was, tree, o, name) {
        assert !Clashes(was, o, name, visited) by {
          NoClash(was, o, names, name, visited);
        }
        ReadKept(was, tree, next, o, names, visited, name);
      }
    }
  }

  lemma NoClash(tree: Tree, o: Job, names: seq<string>, a: string, b: string)
    requires Clear(tree, o, names) && o.out.None? && a in names && b in names
    ensures !Clashes(tree, o, a, b)
  {
    hide Clashes; hide Hits;
  }

  /** What a converted file reads as is not touched by a visit of another entry. */
  lemma ReadKept(was: Tree, tree: Tree, next: Tree, o: Job, names: seq<string>, visited: string, name: string)
    requires !Clashes(was, o, name, visited)
    requires Steady(was, tree, o, names) && Clear(was, o, names) && visited in names && name in names && visited != name
    requires Converts(was, o, name) && Converts(tree, o, visited) && ReadFile(tree, Dest(o, name)).Some?
    requires SameLinks(tree, next) && SameOff(tree, next, Touched(tree, o, visited))
    ensures ReadFile(next, Dest(o, name)) == ReadFile(tree, Dest(o, name))
  {
    hide EndsWith; hide SourceExt; hide Lands; hide Clear; hide Path; hide ReadFile; hide Dest;
    SteadyWrites(was, tree, o, names, visited);
    LandsSame(was, tree, o, name);
    LandsSame(tree, next, o, name);
    LandingFile(tree, o, name, "", Done);
    LandingFile(next, o, name, "", Done);
    ClearAt(was, o, names, name, visited);
    ClearAt(was, o, names, visited, name);
  }

  lemma {:induction false} RunSecure(was: Tree, tree: Tree, o: Job, names: seq<string>, k: nat, calls: seq<Calls>, name: string)
    requires Sound(o)
    requires o.out.None?
    requires k <= |names| && |calls| == |names| - k && Clear(was, o, names) && Steady(was, tree, o, names)
    requires Source(was, o, name) && name in names && Secure(was, tree, o, name)
    ensures Secure(was, VisitAll(tree, o, names[k..], calls).0, o, name)
    ensures name !in names[k..] && Converted(was, tree, o, name) ==> Converted(was, VisitAll(tree, o, names[k..], calls).0, o, name)
    decreases |names| - k
  {
    hide EndsWith; hide Visit; hide Secure; hide Converted; hide SourceExt; hide Path; hide Clear; hide Steady; hide Source;
    if k < |names| {
      var next := Visit(tree, o, names[k], calls[0]).tree;
      assert names[k..][1..] == names[k + 1..] && names[k..][0] == names[k];
      VisitSecure(was, tree, o, names, names[k], calls[0], name);
      VisitSteady(was, tree, o, names, names[k], calls[0]);
      RunSecure(was, next, o, names, k + 1, calls[1..], name);
    }
  }

  lemma SteadyStart(tree: Tree, o: Job, names: seq<string>)
    ensures Steady(tree, tree, o, names)
  {
  }

  /** Into another directory nothing is removed. */
  lemma SettleAdds(tree: Tree, o: Job, name: string, text: string, calls: Calls)
    requires o.out.Some? && EndsWith(name, SourceExt(o.target))
    ensures tree.Keys <= Settle(tree, o, name, text, calls).tree.Keys
  {
    hide EndsWith; hide Dest; hide Path; hide SourceExt; hide ReadFile; hide WriteFile; hide Lands;
    LandingFile(tree, o, name, text, calls.write);
  }

  lemma VisitAdds(tree: Tree, o: Job, name: string, calls: Calls)
    requires o.out.Some?
    ensures tree.Keys <= Visit(tree, o, name, calls).tree.Keys
  {
    hide EndsWith; hide Path; hide SourceExt; hide Settle;
    if EndsWith(name, SourceExt(o.target)) && Path(o, name) in tree && tree[Path(o, name)].Plain? {
      var out := o.convert(tree[Path(o, name)].text);
      if out.Some? {
        SettleAdds(tree, o, name, out.value, calls);
      }
    }
  }

  lemma VisitDry(tree: Tree, o: Job, name: string, calls: Calls)
    requires o.dryRun
    ensures Visit(tree, o, name, calls).tree == tree && !Visit(tree, o, name, calls).stopped
  {
    hide EndsWith; hide Path; hide SourceExt; hide ReadFile; hide Replace; hide Dest;
  }

  lemma {:induction false} RunStands(was: Tree, tree: Tree, o: Job, names: seq<string>, k: nat, calls: seq<Calls>, name: string)
    requires Sound(o)
    requires o.out.Some?
    requires k <= |names| && |calls| == |names| - k && Clear(was, o, names) && Steady(was, tree, o, names)
    requires Source(tree, o, name) && name in names
    ensures var last := VisitAll(tree, o, names[k..], calls).0; Source(last, o, name) && Steady(was, last, o, names)
    decreases |names| - k
  {
    hide EndsWith; hide Visit; hide SourceExt; hide Path; hide Clear;
    if k < |names| {
      var next := Visit(tree, o, names[k], calls[0]).tree;
      assert names[k..][1..] == names[k + 1..] && names[k..][0] == names[k];
      VisitAdds(tree, o, names[k], calls[0]);
      VisitSteady(was, tree, o, names, names[k], calls[0]);
      RunStands(was, next, o, names, k + 1, calls[1..], name);
    }
  }

  lemma {:induction false} RunDry(tree: Tree, o: Job, names: seq<string>, calls: seq<Calls>)
    requires o.dryRun && |calls| == |names|
    ensures VisitAll(tree, o, names, calls).0 == tree
    decreases |names|
  {
    hide Visit;
    if names != [] {
      VisitDry(tree, o, names[0], calls[0]);
      RunDry(tree, o, names[1..], calls[1..]);
    }
  }

  /** Whatever fails, forced or not, in place or not: in a directory whose destinations are apart,
      every listed source file stands unchanged at the end, or its destination reads as a text
      apt takes alike. */
  lemma NothingLost(tree: Tree, o: Job, names: seq<string>, calls: seq<Calls>, name: string)
    requires Sound(o)
    requires |calls| == |names| && Apart(tree, o, names) && Source(tree, o, name) && name in names
    ensures Secure(tree, VisitAll(tree, o, names, calls).0, o, name)
  {
    hide VisitAll; hide Clear; hide SameLinks; hide Converted; hide EndsWith; hide SourceExt; hide Path;
    SteadyStart(tree, o, names);
    StandsAtStart(tree, o, name);
    assert names[0..] == names;
    if o.dryRun {
      RunDry(tree, o, names, calls);
    } else if o.out.Some? {
      RunStands(tree, tree, o, names, 0, calls, name);
    } else {
      RunSecure(tree, tree, o, names, 0, calls, name);
    }
  }

  lemma StandsAtStart(tree: Tree, o: Job, name: string)
    requires Source(tree, o, name)
    ensures Secure(tree, tree, o, name)
  {
  }

  predicate Distinct(names: seq<string>) {
    forall i, j :: 0 <= i < j < |names| ==> names[i] != names[j]
  }

  lemma {:induction false} RunConverts(was: Tree, tree: Tree, o: Job, names: seq<string>, k: nat, calls: seq<Calls>, name: string)
    requires Sound(o)
    requires k <= |names| && |calls| == |names| - k && Clear(was, o, names) && Steady(was, tree, o, names)
    requires Distinct(names) && !o.dryRun && o.out.None?
    requires Source(was, o, name) && name in names[k..] && Secure(was, tree, o, name)
    requires VisitAll(tree, o, names[k..], calls).1 == 0
    ensures Converted(was, VisitAll(tree, o, names[k..], calls).0, o, name)
    decreases |names| - k
  {
    hide EndsWith; hide Visit; hide Secure; hide Converted; hide SourceExt; hide Path; hide Clear; hide Steady; hide Source;
    var next := Visit(tree, o, names[k], calls[0]).tree;
    assert names[k..][1..] == names[k + 1..] && names[k..][0] == names[k] && names[k] in names;
    assert name in names;
    VisitSecure(was, tree, o, names, names[k], calls[0], name);
    VisitSteady(was, tree, o, names, names[k], calls[0]);
    if name == names[k] {
      assert names[k] !in names[k + 1..];
      RunSecure(was, next, o, names, k + 1, calls[1..], name);
    } else {
      RunConverts(was, next, o, names, k + 1, calls[1..], name);
    }
  }

  /** The converter is done with the directory when it exits with 0: every listed source that is
      a plain file is gone, and its destination reads as a text apt takes alike. */
  lemma ExitZeroConverts(tree: Tree, o: Job, names: seq<string>, calls: seq<Calls>, name: string)
    requires Sound(o)
    requires |calls| == |names| && Apart(tree, o, names) && Distinct(names) && !o.dryRun && o.out.None?
    requires Source(tree, o, name) && name in names && VisitAll(tree, o, names, calls).1 == 0
    ensures Converted(tree, VisitAll(tree, o, names, calls).0, o, name)
  {
    hide VisitAll; hide Clear; hide Steady; hide Converted; hide Source; hide Distinct;
    SteadyStart(tree, o, names);
    StandsAtStart(tree, o, name);
    assert names[0..] == names;
    RunConverts(tree, tree, o, names, 0, calls, name);
  }

  /** Where no destination is a link the destinations are apart. */
  lemma NoLinksApart(tree: Tree, o: Job, names: seq<string>)
    requires forall n :: n in names && EndsWith(n, SourceExt(o.target)) && Dest(o, n) in tree ==> !tree[Dest(o, n)].Link?
    ensures Apart(tree, o, names)
  {
    forall a, b | a in names && b in names ensures !Hits(tree, o, a, b) && !Clashes(tree, o, a, b) {
      hide EndsWith; hide Path; hide SourceExt; hide Lands; hide Dest;
      if EndsWith(a, SourceExt(o.target)) && EndsWith(b, SourceExt(o.target)) {
        DestIsNoSource(o, a, b);
        if Dest(o, a) == Dest(o, b) {
          DestInjective(o, a, b);
        }
      }
    }
  }

  // ------------------------------------------------------------- when it is exact

  /** The names are entries of the directory. */
  predicate Listing(tree: Tree, o: Job, names: seq<string>) {
    forall n :: n in names && EndsWith(n, SourceExt(o.target)) ==> Path(o, n) in tree
  }

  /** A failing write leaves nothing behind, or has emptied the file. */
  predicate Cut(calls: Calls) {
    calls.write.Done? || calls.write.left.None? || calls.write.left == Some("")
  }

  predicate AllCut(calls: seq<Calls>) {
    forall k :: 0 <= k < |calls| ==> Cut(calls[k])
  }

  /** No failing or partial call of any run loses a listed source; with `cut`, only the runs count
      whose failing writes do no more than empty a file. */
  ghost predicate AlwaysSafe(tree: Tree, o: Job, names: seq<string>, cut: bool) {
    forall calls: seq<Calls>, n: string :: |calls| == |names| && (cut ==> AllCut(calls)) && n in names && Source(tree, o, n) ==>
      Secure(tree, VisitAll(tree, o, names, calls).0, o, n)
  }

  /** No listed file means what an empty one does. */
  predicate Telling(tree: Tree, o: Job, names: seq<string>) {
    forall n :: n in names && Source(tree, o, n) ==> tree[Path(o, n)].text != "" && !o.alike(tree[Path(o, n)].text, "")
  }

  /** A text that means the same as none. */
  ghost predicate Meaningless(o: Job, junk: string) {
    forall text :: !o.alike(text, junk)
  }

  predicate InPlace(o: Job) { o.out.None? && !o.dryRun }

  const DENIED := Calls(false, false, false, false, Failed(None), false)

  /** The destination is not read, and the write leaves `left` behind. */
  function Broken(left: string): Calls { Calls(true, true, false, true, Failed(Some(left)), true) }

  const UNREAD := Calls(true, true, false, true, Done, true)

  lemma BrokenVisit(tree: Tree, o: Job, name: string, left: string)
    requires Converts(tree, o, name) && !o.dryRun && Lands(tree, o, name).Some?
    ensures Visit(tree, o, name, Broken(left)) == Failing(tree[Lands(tree, o, name).value := Plain(left)])
  {
    hide EndsWith; hide Dest; hide Path; hide WriteFile; hide SourceExt; hide ReadFile; hide Lands;
    LandingFile(tree, o, name, o.convert(tree[Path(o, name)].text).value, Failed(Some(left)));
  }

  lemma UnreadVisit(tree: Tree, o: Job, name: string)
    requires Converts(tree, o, name) && InPlace(o) && Lands(tree, o, name).Some? && Lands(tree, o, name) != Some(Path(o, name))
    ensures exists out :: Visit(tree, o, name, UNREAD) == Kept(tree[Lands(tree, o, name).value := Plain(out)] - {Path(o, name)})
  {
    hide EndsWith; hide Dest; hide Path; hide WriteFile; hide SourceExt; hide ReadFile; hide Lands;
    var out := o.convert(tree[Path(o, name)].text).value;
    LandingFile(tree, o, name, out, Done);
    assert Visit(tree, o, name, UNREAD) == Kept(tree[Lands(tree, o, name).value := Plain(out)] - {Path(o, name)});
  }

  /** Entries whose calls are all denied change nothing. */
  lemma {:induction false} Quiet(tree: Tree, o: Job, names: seq<string>, calls: seq<Calls>, i: nat, k: nat)
    requires i <= k <= |names| == |calls| && forall m :: i <= m < k ==> calls[m] == DENIED
    ensures VisitAll(tree, o, names[i..], calls[i..]).0 == VisitAll(tree, o, names[k..], calls[k..]).0
    decreases k - i
  {
    hide EndsWith; hide Path; hide SourceExt; hide VisitAll; hide Settle;
    if i < k {
      Turn(tree, o, names, calls, i);
      Quiet(tree, o, names, calls, i + 1, k);
    }
  }

  lemma Turn(tree: Tree, o: Job, names: seq<string>, calls: seq<Calls>, i: nat)
    requires i < |names| == |calls|
    ensures var first := Visit(tree, o, names[i], calls[i]);
      !first.stopped ==> VisitAll(tree, o, names[i..], calls[i..]).0 == VisitAll(first.tree, o, names[i + 1..], calls[i + 1..]).0
  {
    hide Visit;
    assert names[i..][1..] == names[i + 1..] && calls[i..][1..] == calls[i + 1..];
  }

  lemma NoTurn(tree: Tree, o: Job, names: seq<string>, calls: seq<Calls>)
    requires |names| == |calls|
    ensures VisitAll(tree, o, names[|names|..], calls[|names|..]).0 == tree
  {
    hide Visit;
  }

  function CallsAt(n: nat, i: nat, at: Calls): (calls: seq<Calls>)
    ensures |calls| == n && forall k :: 0 <= k < n ==> calls[k] == if k == i then at else DENIED
  {
    seq(n, k requires 0 <= k < n => if k == i then at else DENIED)
  }

  lemma OneTurn(tree: Tree, o: Job, names: seq<string>, i: nat, at: Calls)
    requires i < |names| && !Visit(tree, o, names[i], at).stopped
    ensures VisitAll(tree, o, names, CallsAt(|names|, i, at)).0 == Visit(tree, o, names[i], at).tree
  {
    hide VisitAll; hide Visit; hide CallsAt;
    var calls := CallsAt(|names|, i, at);
    var last := Visit(tree, o, names[i], at).tree;
    assert names[0..] == names && calls[0..] == calls;
    Quiet(tree, o, names, calls, 0, i);
    Turn(tree, o, names, calls, i);
    Quiet(last, o, names, calls, i + 1, |names|);
    NoTurn(last, o, names, calls);
  }

  lemma Loses(tree: Tree, o: Job, names: seq<string>, calls: seq<Calls>, n: string, cut: bool)
    requires |calls| == |names| && (cut ==> AllCut(calls))
    requires n in names && Source(tree, o, n) && !Secure(tree, VisitAll(tree, o, names, calls).0, o, n)
    ensures !AlwaysSafe(tree, o, names, cut)
  {
    hide VisitAll; hide Secure; hide Source;
  }

  /** A destination that lands on a listed source: one broken write leaves that source changed. */
  lemma HitLoses(tree: Tree, o: Job, names: seq<string>, a: string, b: string, left: string, cut: bool)
    requires a in names && b in names && !o.dryRun && Listing(tree, o, names) && Hits(tree, o, a, b)
    requires Source(tree, o, b) && tree[Path(o, b)].text != left && (cut ==> left == "")
    ensures !AlwaysSafe(tree, o, names, cut)
  {
    hide EndsWith; hide Path; hide SourceExt; hide Lands; hide VisitAll; hide Visit; hide Converted; hide CallsAt; hide AlwaysSafe;
    var i := IndexOf(names, a);
    BrokenVisit(tree, o, a, left);
    OneTurn(tree, o, names, i, Broken(left));
    NotConverted(tree, tree[Path(o, b) := Plain(left)], o, b);
    Loses(tree, o, names, CallsAt(|names|, i, Broken(left)), b, cut);
  }

  lemma HitSource(tree: Tree, o: Job, names: seq<string>, a: string, b: string)
    requires b in names && Listing(tree, o, names) && Hits(tree, o, a, b)
    ensures Source(tree, o, b)
  {
    hide EndsWith; hide Path; hide SourceExt; hide Lands;
    LandsOnPlain(tree, o, a);
  }

  lemma NotConverted(was: Tree, tree: Tree, o: Job, name: string)
    requires Path(o, name) in tree
    ensures !Converted(was, tree, o, name)
  {
  }

  function CallsTwice(n: nat, i: nat, first: Calls, j: nat, second: Calls): (calls: seq<Calls>)
    ensures |calls| == n && forall k :: 0 <= k < n ==> calls[k] == if k == i then first else if k == j then second else DENIED
  {
    seq(n, k requires 0 <= k < n => if k == i then first else if k == j then second else DENIED)
  }

  /** The first of two sources whose destinations land on one path is converted, the write of
      the second breaks: what the first was converted to is gone. */
  lemma PairVisits(tree: Tree, o: Job, a: string, b: string, q: string, left: string) returns (mid: Tree)
    requires InPlace(o) && a != b && Converts(tree, o, a) && Converts(tree, o, b)
    requires Lands(tree, o, a) == Some(q) && Lands(tree, o, b) == Some(q) && q != Path(o, a) && q != Path(o, b)
    requires !o.alike(tree[Path(o, a)].text, left)
    ensures Visit(tree, o, a, UNREAD) == Kept(mid)
    ensures Visit(mid, o, b, Broken(left)) == Failing(mid[q := Plain(left)])
    ensures !Secure(tree, mid[q := Plain(left)], o, a)
  {
    hide EndsWith; hide Dest; hide Path; hide SourceExt; hide Lands; hide Visit; hide Secure; hide SameLinks; hide Converts;
    mid := FirstConverted(tree, o, a, b, q);
    BrokenVisit(mid, o, b, left);
    LastLost(tree, mid, o, a, q, left);
  }

  lemma FirstConverted(tree: Tree, o: Job, a: string, b: string, q: string) returns (mid: Tree)
    requires InPlace(o) && a != b && Converts(tree, o, a) && Converts(tree, o, b)
    requires Lands(tree, o, a) == Some(q) && Lands(tree, o, b) == Some(q) && q != Path(o, a) && q != Path(o, b)
    ensures Visit(tree, o, a, UNREAD) == Kept(mid) && SameLinks(tree, mid) && Path(o, a) !in mid && q in mid && mid[q].Plain?
    ensures Converts(mid, o, b) && Lands(mid, o, b) == Some(q)
  {
    hide EndsWith; hide Path; hide SourceExt; hide Lands; hide Visit; hide InPlace; hide SameLinks;
    UnreadVisit(tree, o, a);
    var out :| Visit(tree, o, a, UNREAD) == Kept(tree[q := Plain(out)] - {Path(o, a)});
    mid := tree[q := Plain(out)] - {Path(o, a)};
    PathsDiffer(o, a, b);
    VisitFrame(tree, o, a, UNREAD);
    LandsSame(tree, mid, o, b);
  }

  lemma LastLost(tree: Tree, mid: Tree, o: Job, a: string, q: string, left: string)
    requires Converts(tree, o, a) && Lands(tree, o, a) == Some(q) && q != Path(o, a)
    requires SameLinks(tree, mid) && Path(o, a) !in mid && q in mid && mid[q].Plain?
    requires !o.alike(tree[Path(o, a)].text, left)
    ensures !Secure(tree, mid[q := Plain(left)], o, a)
  {
    hide EndsWith; hide Dest; hide Path; hide SourceExt; hide Lands; hide ReadFile; hide WriteFile;
    var last := mid[q := Plain(left)];
    assert SameLinks(tree, last);
    LandsSame(tree, last, o, a);
    LandingFile(last, o, a, "", Done);
  }

  lemma TwoTurns(tree: Tree, mid: Tree, last: Tree, o: Job, names: seq<string>, i: nat, j: nat, left: string)
    requires i < j < |names| && Visit(tree, o, names[i], UNREAD) == Kept(mid) && Visit(mid, o, names[j], Broken(left)) == Failing(last)
    ensures VisitAll(tree, o, names, CallsTwice(|names|, i, UNREAD, j, Broken(left))).0 == last
  {
    hide VisitAll; hide Visit; hide CallsTwice;
    var calls := CallsTwice(|names|, i, UNREAD, j, Broken(left));
    assert names[0..] == names && calls[0..] == calls;
    Quiet(tree, o, names, calls, 0, i);
    Turn(tree, o, names, calls, i);
    Quiet(mid, o, names, calls, i + 1, j);
    Turn(mid, o, names, calls, j);
    Quiet(last, o, names, calls, j + 1, |names|);
    NoTurn(last, o, names, calls);
  }

  lemma PairLoses(tree: Tree, o: Job, names: seq<string>, i: nat, j: nat, left: string, cut: bool)
    requires i < j < |names| && InPlace(o) && Clashes(tree, o, names[i], names[j]) && (cut ==> left == "")
    requires !o.alike(tree[Path(o, names[i])].text, left)
    requires !Hits(tree, o, names[i], names[i]) && !Hits(tree, o, names[i], names[j])
    ensures !AlwaysSafe(tree, o, names, cut)
  {
    hide EndsWith; hide Path; hide SourceExt; hide Lands; hide VisitAll; hide Visit; hide Secure; hide CallsTwice; hide AlwaysSafe;
    hide InPlace;
    var q := Lands(tree, o, names[i]).value;
    var mid := PairVisits(tree, o, names[i], names[j], q, left);
    TwoTurns(tree, mid, mid[q := Plain(left)], o, names, i, j, left);
    Loses(tree, o, names, CallsTwice(|names|, i, UNREAD, j, Broken(left)), names[i], cut);
  }

  /** What a broken write leaves so that the text is lost: nothing, when that is enough. */
  lemma Blank(tree: Tree, o: Job, names: seq<string>, a: string, junk: string, cut: bool) returns (left: string)
    requires a in names && Converts(tree, o, a) && (cut ==> Telling(tree, o, names)) && Meaningless(o, junk)
    ensures !o.alike(tree[Path(o, a)].text, left) && (cut ==> left == "")
  {
    left := if cut then "" else junk;
  }

  lemma ClashLoses(tree: Tree, o: Job, names: seq<string>, a: string, b: string, junk: string, cut: bool)
    requires a in names && b in names && InPlace(o) && Clashes(tree, o, a, b) && (cut ==> Telling(tree, o, names)) && Meaningless(o, junk)
    requires !Hits(tree, o, a, a) && !Hits(tree, o, a, b) && !Hits(tree, o, b, a) && !Hits(tree, o, b, b)
    ensures !AlwaysSafe(tree, o, names, cut)
  {
    hide Hits; hide AlwaysSafe; hide Converts; hide Lands; hide Telling; hide Meaningless; hide InPlace;
    var i := IndexOf(names, a);
    var j := IndexOf(names, b);
    if i < j {
      var left := Blank(tree, o, names, a, junk, cut);
      PairLoses(tree, o, names, i, j, left, cut);
    } else {
      var left := Blank(tree, o, names, b, junk, cut);
      PairLoses(tree, o, names, j, i, left, cut);
    }
  }

  lemma IndexOf(names: seq<string>, n: string) returns (i: nat)
    requires n in names
    ensures i < |names| && names[i] == n
  {
    i :| 0 <= i < |names| && names[i] == n;
  }

  /** A run can lose nothing, whatever fails, exactly when the destinations are apart; and where no
      file means what an empty one does, writes that only empty a file are enough to lose one. */
  lemma LossExactly(tree: Tree, o: Job, names: seq<string>, junk: string)
    requires Sound(o) && Meaningless(o, junk) && Listing(tree, o, names)
    ensures Apart(tree, o, names) <==> AlwaysSafe(tree, o, names, false)
    ensures Telling(tree, o, names) ==> (Apart(tree, o, names) <==> AlwaysSafe(tree, o, names, true))
  {
    hide EndsWith; hide SourceExt; hide Lands; hide VisitAll; hide Converts; hide Secure; hide Listing; hide Path; hide Source; hide Telling;
    hide Clear; hide Cut; hide Meaningless;
    if Apart(tree, o, names) {
      forall calls: seq<Calls>, n: string | |calls| == |names| && n in names && Source(tree, o, n)
        ensures Secure(tree, VisitAll(tree, o, names, calls).0, o, n)
      {
        NothingLost(tree, o, names, calls, n);
      }
    } else {
      NotClear(tree, o, names, junk, false);
      if Telling(tree, o, names) {
        NotClear(tree, o, names, junk, true);
      }
    }
  }

  lemma NotClear(tree: Tree, o: Job, names: seq<string>, junk: string, cut: bool)
    requires Listing(tree, o, names) && !o.dryRun && !Clear(tree, o, names) && (cut ==> Telling(tree, o, names)) && Meaningless(o, junk)
    ensures !AlwaysSafe(tree, o, names, cut)
  {
    hide Clashes; hide Hits; hide AlwaysSafe; hide Listing; hide Telling; hide Meaningless;
    var a, b :| a in names && b in names && (Hits(tree, o, a, b) || (o.out.None? && Clashes(tree, o, a, b)));
    if Hits(tree, o, a, b) {
      AnyHitLoses(tree, o, names, a, b, cut);
    } else if Hits(tree, o, a, a) {
      AnyHitLoses(tree, o, names, a, a, cut);
    } else {
      HitsAlike(tree, o, a, b);
      ClashLoses(tree, o, names, a, b, junk, cut);
    }
  }

  lemma AnyHitLoses(tree: Tree, o: Job, names: seq<string>, a: string, b: string, cut: bool)
    requires a in names && b in names && !o.dryRun && Listing(tree, o, names) && Hits(tree, o, a, b)
    requires cut ==> Telling(tree, o, names)
    ensures !AlwaysSafe(tree, o, names, cut)
  {
    hide AlwaysSafe; hide Listing; hide Hits; hide EndsWith; hide SourceExt; hide Path;
    HitSource(tree, o, names, a, b);
    var text := tree[Path(o, b)].text;
    HitLoses(tree, o, names, a, b, if text == "" then "x" else "", cut);
  }

  lemma HitsAlike(tree: Tree, o: Job, a: string, b: string)
    requires Clashes(tree, o, a, b)
    ensures Hits(tree, o, b, a) <==> Hits(tree, o, a, a)
    ensures Hits(tree, o, b, b) <==> Hits(tree, o, a, b)
  {
    hide Converts; hide Lands; hide EndsWith; hide SourceExt;
  }

  /** Paths that are neither a listed source nor where a destination lands are never touched. */
  lemma {:induction false} OthersUntouched(tree: Tree, o: Job, names: seq<string>, calls: seq<Calls>, p: string)
    requires |calls| == |names|
    requires forall n :: n in names ==> p !in Touched(tree, o, n)
    ensures var last := VisitAll(tree, o, names, calls).0; (p in last <==> p in tree) && (p in tree ==> last[p] == tree[p])
    decreases |names|
  {
    hide EndsWith; hide Visit; hide SourceExt; hide Path; hide Lands; hide SameLinks;
    if names != [] {
      VisitFrame(tree, o, names[0], calls[0]);
      var next := Visit(tree, o, names[0], calls[0]).tree;
      forall n | n in names[1..] ensures p !in Touched(next, o, n) {
        assert n in names;
        if EndsWith(n, SourceExt(o.target)) {
          LandsSame(tree, next, o, n);
        }
      }
      OthersUntouched(next, o, names[1..], calls[1..], p);
    }
  }

  /** Without force nothing but the source changes when the destination reads as another text
      than the converted one, or as any for an in-place conversion. */
  lemma UnforcedKept(tree: Tree, o: Job, name: string, calls: Calls)
    requires Source(tree, o, name) && !o.force && calls.readDest && ReadFile(tree, Dest(o, name)).Some?
    requires o.out.None? || o.convert(tree[Path(o, name)].text) != ReadFile(tree, Dest(o, name))
    ensures SameOff(tree, Visit(tree, o, name, calls).tree, {Path(o, name)})
  {
    hide EndsWith; hide Dest; hide Path; hide WriteFile; hide SourceExt; hide ReadFile;
  }

  const ALL := Calls(true, true, true, true, Done, true)

  /** A destination that links to its own source: forced, or when reading the destination fails,
      the text is written through the link and then removed with the source, and no path holds it
      any more. */
  lemma LinkedDestLost(o: Job, name: string, text: string, calls: Calls)
    requires EndsWith(name, SourceExt(o.target)) && InPlace(o) && o.convert(text).Some?
    requires (o.force && calls == ALL) || calls == UNREAD
    ensures var tree := map[Path(o, name) := Plain(text), Dest(o, name) := Link(Path(o, name))];
      !Visit(tree, o, name, calls).failed && Visit(tree, o, name, calls).tree == map[Dest(o, name) := Link(Path(o, name))]
  {
    hide EndsWith; hide Dest; hide Path; hide SourceExt;
    DestIsNoSource(o, name, name);
    var tree: Tree := map[Path(o, name) := Plain(text), Dest(o, name) := Link(Path(o, name))];
    LinkReaches(tree, Dest(o, name), Path(o, name));
    hide Final;
    var out := o.convert(text).value;
    var next := tree[Path(o, name) := Plain(out)];
    assert tree - {Path(o, name)} == map[Dest(o, name) := Link(Path(o, name))];
    assert next - {Path(o, name)} == map[Dest(o, name) := Link(Path(o, name))];
  }

  lemma LinkReaches(tree: Tree, p: string, q: string)
    requires p in tree && tree[p] == Link(q) && q in tree && tree[q].Plain? && p != q
    ensures Final(tree, p, {}) == Some(q)
  {
    assert Final(tree, q, {} + {p}) == Some(q);
  }
}
