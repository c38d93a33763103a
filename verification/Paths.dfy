/** POSIX path arithmetic as the configuration runtime uses it: resolve, normalize, relative. */
module Paths {
  import opened Text

  predicate IsAbsolute(s: string) { s != "" && s[0] == '/' }

  /** A plain component: not empty, not a dot step, without a slash. */
  predicate Component(c: string) {
    c != "" && c != "." && c != ".." && '/' !in c
  }

  predicate Clean(parts: seq<string>) {
    forall i :: 0 <= i < |parts| ==> Component(parts[i])
  }

  /** Taking some steps from a directory. */
  function Walk(at: seq<string>, steps: seq<string>): seq<string>
    decreases |steps|
  {
    if steps == [] then at
    else if steps[0] == "" || steps[0] == "." then Walk(at, steps[1..])
    else if steps[0] == ".." then Walk(if at == [] then [] else at[..|at| - 1], steps[1..])
    else Walk(at + [steps[0]], steps[1..])
  }

  lemma {:induction false} WalkClean(at: seq<string>, steps: seq<string>)
    requires Clean(at) && forall i :: 0 <= i < |steps| ==> '/' !in steps[i]
    ensures Clean(Walk(at, steps))
    decreases |steps|
  {
    if steps != [] {
      if steps[0] == "" || steps[0] == "." {
        WalkClean(at, steps[1..]);
      } else if steps[0] == ".." {
        WalkClean(if at == [] then [] else at[..|at| - 1], steps[1..]);
      } else {
        WalkClean(at + [steps[0]], steps[1..]);
      }
    }
  }

  lemma {:induction false} WalkPlain(at: seq<string>, steps: seq<string>)
    requires Clean(steps)
    ensures Walk(at, steps) == at + steps
    decreases |steps|
  {
    if steps != [] {
      assert Component(steps[0]);
      WalkPlain(at + [steps[0]], steps[1..]);
      assert at + [steps[0]] + steps[1..] == at + steps;
    } else {
      assert at + steps == at;
    }
  }

  /** The components an absolute path leads to. */
  function Parts(s: string): (r: seq<string>)
    ensures Clean(r)
  {
    JoinOfSplit(s, '/');
    WalkClean([], Split(s, '/'));
    Walk([], Split(s, '/'))
  }

  function Show(parts: seq<string>): string {
    "/" + Join(parts, "/")
  }

  /** `resolve(base, s)` for an absolute base. */
  function Resolve(base: string, s: string): string {
    Show(if IsAbsolute(s) then Parts(s) else Walk(Parts(base), Split(s, '/')))
  }

  predicate EndsInSlash(s: string) { s != "" && s[|s| - 1] == '/' }

  /** `normalize(s)` for an absolute path: a trailing slash stays. */
  function Normalize(s: string): string {
    Show(Parts(s)) + if EndsInSlash(s) && Parts(s) != [] then "/" else ""
  }

  predicate SameUpTo(a: seq<string>, b: seq<string>, n: nat) {
    n <= |a| && n <= |b| && a[..n] == b[..n]
  }

  /** The longest shared beginning. */
  function Common(a: seq<string>, b: seq<string>): (n: nat)
    ensures n <= |a| && n <= |b| && SameUpTo(a, b, n)
    ensures n < |a| && n < |b| ==> a[n] != b[n]
  {
    if a == [] || b == [] || a[0] != b[0] then 0 else 1 + Common(a[1..], b[1..])
  }

  function Ups(n: nat): seq<string> {
    if n == 0 then [] else [".."] + Ups(n - 1)
  }

  /** `relative(base, target)` for absolute paths. */
  function Relative(base: string, target: string): string {
    var a, b := Parts(base), Parts(target);
    var n := Common(a, b);
    Join(Ups(|a| - n) + b[n..], "/")
  }

  /** At or beneath. */
  predicate Beneath(base: seq<string>, parts: seq<string>) {
    |base| <= |parts| && parts[..|base|] == base
  }

  // ------------------------------------------------------------------- reading back

  lemma ShownParts(parts: seq<string>)
    requires Clean(parts)
    ensures Parts(Show(parts)) == parts && IsAbsolute(Show(parts))
  {
    hide Split; hide Join;
    var s := Join(parts, "/");
    assert Show(parts) == "" + ['/'] + s;
    SplitAppend("", '/', s);
    SplitWhole("", '/');
    if parts == [] {
      EmptyJoin();
      assert Split(Show(parts), '/') == ["", ""];
      assert ["", ""][1..] == [""] && [""][1..] == [];
      assert Walk([], ["", ""]) == Walk([], [""]);
    } else {
      SplitOfJoin(parts, '/');
      assert Split(Show(parts), '/') == [""] + parts;
      WalkPlain([], parts);
      assert ([""] + parts)[1..] == parts;
      assert [] + parts == parts;
    }
  }

  lemma EmptyJoin()
    ensures Join([], "/") == ""
  {
  }

  lemma SlashedParts(parts: seq<string>)
    requires Clean(parts) && parts != []
    ensures Parts(Show(parts) + "/") == parts
  {
    hide Split; hide Join; hide Walk;
    var s := Show(parts);
    assert s + "/" == s + ['/'] + "";
    SplitAppend(s, '/', "");
    SplitWhole("", '/');
    ShownParts(parts);
    WalkOn([], Split(s, '/'));
  }

  lemma {:induction false} WalkOn(at: seq<string>, steps: seq<string>)
    ensures Walk(at, steps + [""]) == Walk(at, steps)
    decreases |steps|
  {
    if steps == [] {
      assert [] + [""] == [""];
    } else {
      assert (steps + [""])[0] == steps[0] && (steps + [""])[1..] == steps[1..] + [""];
      if steps[0] == "" || steps[0] == "." {
        WalkOn(at, steps[1..]);
      } else if steps[0] == ".." {
        WalkOn(if at == [] then [] else at[..|at| - 1], steps[1..]);
      } else {
        WalkOn(at + [steps[0]], steps[1..]);
      }
    }
  }

  lemma ShowEnds(parts: seq<string>)
    requires Clean(parts)
    ensures EndsInSlash(Show(parts)) <==> parts == []
  {
    if parts != [] {
      JoinEnds(parts);
      var j := Join(parts, "/");
      assert Show(parts)[|Show(parts)| - 1] == j[|j| - 1];
    }
  }

  lemma {:induction false} JoinEnds(parts: seq<string>)
    requires Clean(parts) && parts != []
    ensures Join(parts, "/") != "" && Join(parts, "/")[|Join(parts, "/")| - 1] != '/'
    decreases |parts|
  {
    assert Component(parts[0]);
    if |parts| > 1 {
      JoinEnds(parts[1..]);
    } else {
      assert parts[0][|parts[0]| - 1] in parts[0];
    }
  }

  /** A normalized path is left alone. */
  lemma NormalizeTwice(s: string)
    requires IsAbsolute(s)
    ensures Normalize(Normalize(s)) == Normalize(s) && IsAbsolute(Normalize(s))
  {
    hide Parts; hide Show;
    var parts := Parts(s);
    ShownParts(parts);
    ShowEnds(parts);
    if EndsInSlash(s) && parts != [] {
      SlashedParts(parts);
    } else {
      assert Show(parts) + "" == Show(parts);
    }
  }

  /** A resolved path is normalized. */
  lemma ResolveNormal(base: string, s: string)
    ensures Normalize(Resolve(base, s)) == Resolve(base, s) && IsAbsolute(Resolve(base, s))
  {
    hide Parts; hide Show; hide Walk; hide Split;
    var parts := if IsAbsolute(s) then Parts(s) else Walk(Parts(base), Split(s, '/'));
    JoinOfSplit(s, '/');
    WalkClean(Parts(base), Split(s, '/'));
    ShownParts(parts);
    ShowEnds(parts);
    assert Show(parts) + "" == Show(parts);
  }

  // ---------------------------------------------------------------------- containment

  predicate Escapes(fromBase: string) {
    fromBase == ".." || StartsWith(fromBase, "../") || IsAbsolute(fromBase)
  }

  lemma UpEscapes(n: nat, rest: seq<string>)
    requires n > 0
    ensures Escapes(Join(Ups(n) + rest, "/"))
  {
    var all := Ups(n) + rest;
    assert all[0] == "..";
    if |all| > 1 {
      var tail := Join(all[1..], "/");
      assert Join(all, "/") == ".." + "/" + tail;
      assert (".." + "/" + tail)[..3] == "../";
    }
  }

  /** A path that escapes does not begin with a plain component. */
  lemma EscapeHead(s: string)
    ensures Escapes(s) ==> !Component(s[..Find(s, '/')])
  {
    if s == ".." {
      FindIs(s, '/', 2);
    } else if StartsWith(s, "../") {
      var p := s[..3];
      assert s[0] == p[0] && s[1] == p[1] && s[2] == p[2];
      assert s[..2] == "..";
      FindIs(s, '/', 2);
    } else if IsAbsolute(s) {
      FindIs(s, '/', 0);
    }
  }

  lemma HeadComponent(c: string, tail: string)
    requires '/' !in c
    ensures var s := c + "/" + tail; Find(s, '/') == |c| && s[..Find(s, '/')] == c
  {
    var s := c + "/" + tail;
    assert s[..|c|] == c && s[|c|] == '/';
    FindIs(s, '/', |c|);
  }

  lemma CleanStays(parts: seq<string>)
    requires Clean(parts)
    ensures !Escapes(Join(parts, "/"))
  {
    var s := Join(parts, "/");
    EscapeHead(s);
    if parts != [] {
      var c := parts[0];
      assert Component(c);
      hide Find; hide Escapes;
      if |parts| > 1 {
        HeadComponent(c, Join(parts[1..], "/"));
      } else {
        FindIs(c, '/', |c|);
        assert c[..|c|] == c;
      }
    }
  }

  /** The escape test on the relative path holds exactly for targets outside the base. */
  lemma RelativeExact(base: string, target: string)
    ensures !Escapes(Relative(base, target)) <==> Beneath(Parts(base), Parts(target))
  {
    hide Parts; hide Join; hide Escapes;
    var a, b := Parts(base), Parts(target);
    var n := Common(a, b);
    if n < |a| {
      UpEscapes(|a| - n, b[n..]);
    } else {
      assert Ups(0) + b[n..] == b[n..];
      CleanStays(b[n..]);
    }
  }
}
