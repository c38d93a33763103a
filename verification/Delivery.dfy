/** The delivery primitives of files/links/delivery.ts over a disk whose every operation may
    fail: inspect, replace by a link, replace by a copy. */
module Delivery {
  import opened Wrappers

  type Bytes = seq<bv8>

  /** A normalized absolute path as its directory part and its last name. */
  datatype Path = Path(dir: string, base: string)

  function TextOf(p: Path): string { p.dir + "/" + p.base }

  /** A physical directory entry: a name in a real directory, a temporary, or a private backup. */
  datatype Entry = Named(dir: string, base: string) | Temp(n: nat) | Backup(n: nat)

  datatype Node = File(bytes: Bytes, mode: nat) | Link(target: string) | Directory | Special

  type Tree = map<Entry, Node>

  /** Link targets lead to names; temporaries and backups are private. */
  type NamedEntry = e: Entry | e.Named? witness Named("", "")

  /** What does not change during a batch: the real directory behind each directory part that
      can be looked up, the lexical and the kernel's reading of link targets, and the
      directories above an entry. */
  datatype Machine = Machine(
    dirs: map<string, string>,
    lexical: (Path, string) -> Path,
    kernel: (Entry, string) -> Option<NamedEntry>,
    above: Entry -> set<Entry>)

  /** The directories above an entry have names, are not the entry itself, and come with those
      above them. */
  predicate NamedAbove(m: Machine, e: Entry) {
    e !in m.above(e) && forall x :: x in m.above(e) ==> x.Named? && m.above(x) <= m.above(e)
  }

  function Phys(m: Machine, p: Path): Option<Entry> {
    if p.dir in m.dirs then Some(Named(m.dirs[p.dir], p.base)) else None
  }

  function Get(t: Tree, e: Entry): Option<Node> {
    if e in t then Some(t[e]) else None
  }

  /** `inspectDeliveryEntry`, with the lexical target of a link. */
  datatype Seen = Missing | Regular | Symlink(target: string, targetPath: Path) | Folder | Other

  /** What an entry holds, seen under a name of it. */
  function SeenAs(m: Machine, p: Path, n: Option<Node>): Seen {
    match n
    case None => Missing
    case Some(File(_, _)) => Regular
    case Some(Link(target)) => Symlink(target, m.lexical(p, target))
    case Some(Directory) => Folder
    case Some(Special) => Other
  }

  /** None where `lstat` throws: beneath a directory that cannot be looked up, or beneath
      something that is no directory. */
  function See(m: Machine, t: Tree, p: Path): Option<Seen> {
    match Phys(m, p)
    case None => None
    case Some(e) => if CanMake(t, m.above(e)) then Some(SeenAs(m, p, Get(t, e))) else None
  }

  const MAX_LINKS: nat := 40

  /** The entry the kernel reaches by following links. */
  function Follow(m: Machine, t: Tree, e: Entry, fuel: nat): Option<Entry>
    decreases fuel
  {
    match Get(t, e)
    case None => None
    case Some(Link(target)) =>
      if fuel == 0 then None
      else (match m.kernel(e, target) case None => None case Some(next) => Follow(m, t, next, fuel - 1))
    case Some(_) => Some(e)
  }

  /** `stat` and `readFile`: the file behind an entry. */
  function Referent(m: Machine, t: Tree, e: Entry): Option<Node> {
    match Follow(m, t, e, MAX_LINKS) case None => None case Some(x) => Get(t, x)
  }

  predicate IsFile(n: Option<Node>) { n.Some? && n.value.File? }

  /** The low nine mode bits, `mode & 0o777`. */
  function Bits(mode: nat): nat { mode % 512 }

  predicate Replaceable(t: Tree, e: Entry) {
    e in t ==> !t[e].Directory? && !t[e].Special?
  }

  /** Entries outside `except` keep what they hold; only directories above may be new.
      Temporaries do not count. */
  ghost predicate Undisturbed(a: Tree, b: Tree, except: set<Entry>, made: set<Entry>) {
    forall e: Entry :: !e.Temp? && e !in except ==>
      Get(b, e) == Get(a, e) || (e !in a && e in made && Get(b, e) == Some(Directory))
  }

  lemma UndisturbedTrans(a: Tree, b: Tree, c: Tree, ex1: set<Entry>, ex2: set<Entry>, made1: set<Entry>, made2: set<Entry>)
    requires Undisturbed(a, b, ex1, made1) && Undisturbed(b, c, ex2, made2)
    ensures Undisturbed(a, c, ex1 + ex2, made1 + made2)
  {
  }

  /** `mkdir -p` of the directories above an entry. */
  predicate CanMake(t: Tree, dirs: set<Entry>) {
    forall d :: d in dirs ==> Get(t, d) == None || Get(t, d) == Some(Directory)
  }

  function Made(t: Tree, dirs: set<Entry>): Tree {
    map e | e in t.Keys + dirs :: if e in t then t[e] else Directory
  }

  /** Every directory above an entry stands. */
  predicate Standing(t: Tree, dirs: set<Entry>) {
    forall d :: d in dirs ==> Get(t, d) == Some(Directory)
  }

  /** The directories a delivery makes: none when one of them is in the way as something else. */
  function Makes(t: Tree, dirs: set<Entry>): set<Entry> {
    if CanMake(t, dirs) then dirs else {}
  }

  class Disk {
    const m: Machine
    /** Which operations fail, by the time they are tried. */
    const fails: nat -> bool
    var tree: Tree
    var clock: nat

    ghost predicate Valid()
      reads this
    {
      && (forall n: nat :: Temp(n) in tree ==> n < clock)
      && (forall e :: NamedAbove(m, e))
      && forall n: nat :: m.above(Backup(n)) == {}
    }

    /** A slot a delivery can replace: no directory or special file there, none but directories
        above it. */
    ghost predicate Reachable(t: Tree, d: Entry) {
      Replaceable(t, d) && CanMake(t, m.above(d))
    }

    /** No operation fails from some time on. */
    ghost predicate Calm(from: nat) {
      forall t: nat :: t >= from ==> !fails(t)
    }

    method Try() returns (ok: bool)
      requires Valid()
      modifies this`clock
      ensures Valid() && clock > old(clock) && (Calm(old(clock)) ==> ok)
    {
      ok := !fails(clock);
      clock := clock + 1;
    }

    method Inspect(p: Path) returns (r: Option<Seen>)
      requires Valid()
      modifies this`clock
      ensures Valid() && clock > old(clock)
      ensures r.Some? ==> r == See(m, tree, p)
      ensures Calm(old(clock)) ==> r == See(m, tree, p)
    {
      var ok := Try();
      return if ok then See(m, tree, p) else None;
    }

    method MkdirAbove(e: Entry) returns (ok: bool)
      requires Valid()
      modifies this
      ensures Valid() && clock > old(clock)
      ensures tree == if ok then Made(old(tree), m.above(e)) else old(tree)
      ensures ok ==> CanMake(old(tree), m.above(e))
      ensures Calm(old(clock)) && CanMake(old(tree), m.above(e)) ==> ok
    {
      ok := Try();
      ok := ok && CanMake(tree, m.above(e));
      if ok {
        forall n: nat | Temp(n) in Made(tree, m.above(e)) ensures n < clock {
          assert NamedAbove(m, e);
        }
        tree := Made(tree, m.above(e));
      }
    }

    method MakeLink(target: string, e: Entry) returns (ok: bool)
      requires Valid() && e.Temp? && e.n < clock
      modifies this
      ensures Valid() && clock > old(clock)
      ensures tree == if ok then old(tree)[e := Link(target)] else old(tree)
      ensures Calm(old(clock)) && e !in old(tree) ==> ok
    {
      ok := Try();
      ok := ok && e !in tree;
      if ok {
        tree := tree[e := Link(target)];
      }
    }

    /** `copyFile` into a new entry; the mode follows in a `chmod` of its own. */
    method CopyInto(source: Entry, e: Entry) returns (ok: bool)
      requires Valid() && e.Temp? && e.n < clock
      modifies this
      ensures Valid() && clock > old(clock)
      ensures ok ==> IsFile(Referent(m, old(tree), source))
      ensures tree == if ok then old(tree)[e := Referent(m, old(tree), source).value] else old(tree)
      ensures Calm(old(clock)) && IsFile(Referent(m, old(tree), source)) ==> ok
    {
      ok := Try();
      var f := Referent(m, tree, source);
      ok := ok && IsFile(f);
      if ok {
        tree := tree[e := f.value];
      }
    }

    method Chmod(e: Entry, mode: nat) returns (ok: bool)
      requires Valid() && e in tree && tree[e].File?
      modifies this
      ensures Valid() && clock > old(clock)
      ensures tree == if ok then old(tree)[e := File(old(tree)[e].bytes, mode)] else old(tree)
      ensures Calm(old(clock)) ==> ok
    {
      ok := Try();
      if ok {
        tree := tree[e := File(tree[e].bytes, mode)];
      }
    }

    /** `rename` of a file or link over an entry. */
    method Rename(a: Entry, b: Entry) returns (ok: bool)
      requires Valid() && a in tree && a.Temp? && !b.Temp?
      modifies this
      ensures Valid() && clock > old(clock)
      ensures ok ==> Get(old(tree), b) != Some(Directory)
      ensures tree == if ok then old(tree)[b := old(tree)[a]] - {a} else old(tree)
      ensures Calm(old(clock)) && Get(old(tree), b) != Some(Directory) ==> ok
    {
      ok := Try();
      ok := ok && Get(tree, b) != Some(Directory);
      if ok {
        tree := tree[b := tree[a]] - {a};
      }
    }

    /** `rm` with force and without recursion. */
    method Rm(e: Entry) returns (ok: bool)
      requires Valid()
      modifies this
      ensures Valid() && clock > old(clock)
      ensures tree == if ok then old(tree) - {e} else old(tree)
      ensures ok ==> Get(old(tree), e) != Some(Directory)
      ensures Calm(old(clock)) && Get(old(tree), e) != Some(Directory) ==> ok
    {
      ok := Try();
      ok := ok && Get(tree, e) != Some(Directory);
      if ok {
        tree := tree - {e};
      }
    }

    /** A new temporary name. */
    method NewTemp() returns (e: Entry)
      requires Valid()
      modifies this`clock
      ensures Valid() && clock > old(clock) && e.Temp? && e.n < clock && e !in tree
    {
      e := Temp(clock);
      clock := clock + 1;
    }

    /** The temporary and the rename of `replaceWithLink`. */
    method PutLink(target: string, d: Entry) returns (ok: bool)
      requires Valid() && !d.Temp?
      modifies this
      ensures Valid() && clock >= old(clock)
      ensures ok ==> Get(tree, d) == Some(Link(target))
      ensures forall e: Entry :: !e.Temp? && (e != d || !ok) ==> Get(tree, e) == Get(old(tree), e)
      ensures Calm(old(clock)) && Get(old(tree), d) != Some(Directory) ==> ok
    {
      var temporary := NewTemp();
      ok := MakeLink(target, temporary);
      if ok {
        ok := Rename(temporary, d);
      }
      if !ok {
        var _ := Rm(temporary);
      }
    }

    /** `replaceWithLink` onto an entry whose path was resolved. */
    method ReplaceWithLink(target: string, source: Entry, d: Entry) returns (ok: bool)
      requires Valid() && !d.Temp?
      modifies this
      ensures Valid() && clock >= old(clock)
      ensures ok ==> source != d && Replaceable(old(tree), d) && Get(tree, d) == Some(Link(target))
      ensures ok ==> CanMake(old(tree), m.above(d)) && Standing(tree, m.above(d))
      ensures Undisturbed(old(tree), tree, if ok then {d} else {}, Makes(old(tree), m.above(d)))
      ensures Calm(old(clock)) && source != d && Reachable(old(tree), d) ==> ok
    {
      assert NamedAbove(m, d);
      ok := Try();
      if !ok || source == d || !Replaceable(tree, d) {
        return false;
      }
      ok := MkdirAbove(d);
      if !ok {
        return;
      }
      ok := PutLink(target, d);
    }

    /** The temporary, its mode and the rename of `replaceWithCopy`. */
    method PutCopy(source: Entry, d: Entry, mode: nat) returns (ok: bool)
      requires Valid() && !d.Temp? && IsFile(Referent(m, tree, source))
      modifies this
      ensures Valid() && clock >= old(clock)
      ensures ok ==> Get(tree, d) == Some(File(Referent(m, old(tree), source).value.bytes, mode))
      ensures forall e: Entry :: !e.Temp? && (e != d || !ok) ==> Get(tree, e) == Get(old(tree), e)
      ensures Calm(old(clock)) && Get(old(tree), d) != Some(Directory) ==> ok
    {
      hide Referent;
      var temporary := NewTemp();
      ok := CopyInto(source, temporary);
      if ok {
        ok := Chmod(temporary, mode);
      }
      if ok {
        ok := Rename(temporary, d);
      }
      if !ok {
        var _ := Rm(temporary);
      }
    }

    /** `replaceWithCopy` onto an entry whose path was resolved. */
    method ReplaceWithCopy(source: Entry, d: Entry) returns (ok: bool)
      requires Valid() && !d.Temp? && !source.Temp?
      modifies this
      ensures Valid() && clock >= old(clock)
      ensures ok ==> source != d && Replaceable(old(tree), d) && IsFile(Referent(m, old(tree), source))
      ensures ok ==> var f := Referent(m, old(tree), source).value; Get(tree, d) == Some(File(f.bytes, Bits(f.mode)))
      ensures ok ==> CanMake(old(tree), m.above(d)) && Standing(tree, m.above(d))
      ensures Undisturbed(old(tree), tree, if ok then {d} else {}, Makes(old(tree), m.above(d)))
      ensures Calm(old(clock)) && source != d && Reachable(old(tree), d) && IsFile(Referent(m, old(tree), source)) ==> ok
    {
      assert NamedAbove(m, d);
      if source == d {
        return false;
      }
      ok := Try();
      var stat := Referent(m, tree, source);
      ok := ok && IsFile(stat) && Replaceable(tree, d);
      if !ok {
        return;
      }
      ok := MkdirAbove(d);
      if !ok {
        return;
      }
      MadeReferent(m, old(tree), m.above(d), source);
      ok := PutCopy(source, d, Bits(stat.value.mode));
    }
  }

  /** New directories do not change what a link chain reaches. */
  lemma MadeReferent(m: Machine, t: Tree, dirs: set<Entry>, e: Entry)
    requires CanMake(t, dirs) && Referent(m, t, e).Some?
    ensures Referent(m, Made(t, dirs), e) == Referent(m, t, e)
  {
    MadeFollow(m, t, dirs, e, MAX_LINKS);
  }

  lemma {:induction false} MadeFollow(m: Machine, t: Tree, dirs: set<Entry>, e: Entry, fuel: nat)
    requires Follow(m, t, e, fuel).Some?
    ensures Follow(m, Made(t, dirs), e, fuel) == Follow(m, t, e, fuel)
    ensures Follow(m, t, e, fuel).value in t
    decreases fuel
  {
    match Get(t, e) {
      case Some(Link(target)) => MadeFollow(m, t, dirs, m.kernel(e, target).value, fuel - 1);
      case _ =>
    }
  }
}
