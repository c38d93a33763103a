/** Strings the way the apt tools cut and glue them: JavaScript white space, runs of
    separators, lines, and the joins that undo each split. */
module Text {

  /** The separator classes of the three splitting patterns in use: white space,
      white space or commas, and commas alone. */
  datatype Sep = Space | SpaceComma | Comma

  /** The characters matched by `\s` in a JavaScript pattern and stripped by `trim`. */
  predicate IsSpace(c: char) {
    || c == ' ' || '\t' <= c <= '\r' || c == '\U{00A0}' || c == '\U{1680}'
    || '\U{2000}' <= c <= '\U{200A}' || c == '\U{2028}' || c == '\U{2029}'
    || c == '\U{202F}' || c == '\U{205F}' || c == '\U{3000}' || c == '\U{FEFF}'
  }

  predicate IsSep(c: char, k: Sep) {
    match k
    case Space => IsSpace(c)
    case SpaceComma => IsSpace(c) || c == ','
    case Comma => c == ','
  }

  predicate Free(s: string, k: Sep) {
    forall i :: 0 <= i < |s| ==> !IsSep(s[i], k)
  }

  /** A nonempty string without separators. */
  predicate Word(s: string, k: Sep) {
    s != "" && Free(s, k)
  }

  predicate AllWords(ts: seq<string>, k: Sep) {
    forall i :: 0 <= i < |ts| ==> Word(ts[i], k)
  }

  predicate Blank(s: string) {
    forall i :: 0 <= i < |s| ==> IsSpace(s[i])
  }

  predicate StartsWith(s: string, p: string) {
    |p| <= |s| && s[..|p|] == p
  }

  lemma Assoc<T>(a: seq<T>, b: seq<T>, c: seq<T>)
    ensures a + (b + c) == a + b + c
  {
  }

  lemma Cut<T>(a: seq<T>, b: seq<T>)
    ensures (a + b)[..|a|] == a && (a + b)[|a|..] == b
    ensures b != [] ==> (a + b)[|a|] == b[0]
  {
  }

  // ---------------------------------------------------------------- trimming

  function TrimStart(s: string): string {
    if s == "" || !IsSpace(s[0]) then s else TrimStart(s[1..])
  }

  function TrimEnd(s: string): string {
    if s == "" || !IsSpace(s[|s| - 1]) then s else TrimEnd(s[..|s| - 1])
  }

  /** Trimming drops blank characters only, up to one that is not. */
  lemma {:induction false} TrimStartIs(s: string)
    ensures var r := TrimStart(s); |r| <= |s| && r == s[|s| - |r|..] && Blank(s[..|s| - |r|]) && (r != "" ==> !IsSpace(r[0]))
    decreases |s|
  {
    if s != "" && IsSpace(s[0]) {
      TrimStartIs(s[1..]);
      var r := TrimStart(s);
      assert s[..|s| - |r|] == [s[0]] + s[1..][..|s| - 1 - |r|];
    }
  }

  lemma {:induction false} TrimEndIs(s: string)
    ensures var r := TrimEnd(s); |r| <= |s| && r == s[..|r|] && (r != "" ==> !IsSpace(r[|r| - 1]))
    decreases |s|
  {
    if s != "" && IsSpace(s[|s| - 1]) {
      TrimEndIs(s[..|s| - 1]);
    }
  }

  function Trim(s: string): string {
    TrimEnd(TrimStart(s))
  }

  /** A string `trim` leaves alone. */
  predicate Trimmed(s: string) {
    s != "" ==> !IsSpace(s[0]) && !IsSpace(s[|s| - 1])
  }

  lemma TrimFixes(s: string)
    ensures Trim(s) == s <==> Trimmed(s)
    ensures Trimmed(Trim(s))
  {
    var a := TrimStart(s);
    var b := TrimEnd(a);
    TrimStartIs(s);
    TrimEndIs(a);
    hide TrimEnd;
    if b != "" {
      assert b[0] == a[0];
    }
    if b == s {
      assert |a| == |s|;
    } else if Trimmed(s) {
      TrimEndWhole(s);
    }
  }

  lemma TrimEndWhole(s: string)
    requires Trimmed(s)
    ensures TrimStart(s) == s && TrimEnd(s) == s
  {
  }

  lemma TrimBlank(s: string)
    ensures Trim(s) == "" <==> Blank(s)
  {
    var a := TrimStart(s);
    TrimStartIs(s);
    assert a != "" ==> a[0] == s[|s| - |a|];
    assert s[..|s|] == s;
    if a != "" {
      TrimEndKeepsHead(a);
    }
  }

  lemma TrimEndKeepsHead(s: string)
    requires s != "" && !IsSpace(s[0])
    ensures TrimEnd(s) != ""
  {
  }

  // ------------------------------------------------------------ runs and words

  /** No separator among the first `n` characters. */
  predicate FreeUpTo(s: string, k: Sep, n: nat) {
    n <= |s| && Free(s[..n], k)
  }

  /** Length of the longest separator-free prefix. */
  function Run(s: string, k: Sep): (n: nat)
    ensures n <= |s| && FreeUpTo(s, k, n)
    ensures n < |s| ==> IsSep(s[n], k)
  {
    if s == "" || IsSep(s[0], k) then 0
    else
      var m := Run(s[1..], k);
      assert s[..1 + m] == [s[0]] + s[1..][..m];
      1 + m
  }

  lemma {:induction false} RunIs(s: string, k: Sep, n: nat)
    requires n <= |s| && Free(s[..n], k) && (n < |s| ==> IsSep(s[n], k))
    ensures Run(s, k) == n
  {
    if n > 0 {
      assert s[0] == s[..n][0];
      assert s[1..][..n - 1] == s[..n][1..];
      RunIs(s[1..], k, n - 1);
    }
  }

  /** `s.split(/[sep]+/).filter(Boolean)`: the maximal separator-free pieces, in order. */
  function Words(s: string, k: Sep): (w: seq<string>)
    ensures AllWords(w, k)
    decreases |s|
  {
    if s == "" then []
    else if IsSep(s[0], k) then Words(s[1..], k)
    else
      var n := Run(s, k);
      [s[..n]] + Words(s[n..], k)
  }

  function Join(parts: seq<string>, sep: string): string {
    if |parts| == 0 then ""
    else if |parts| == 1 then parts[0]
    else parts[0] + sep + Join(parts[1..], sep)
  }

  lemma JoinCons(x: string, tail: seq<string>, sep: string)
    ensures Join([x] + tail, sep) == if tail == [] then x else x + sep + Join(tail, sep)
  {
    assert ([x] + tail)[1..] == tail;
  }

  /** A word in front of a separator, or at the end, is cut off whole. */
  lemma {:induction false} WordsStep(t: string, rest: string, k: Sep)
    requires Word(t, k)
    requires rest == "" || IsSep(rest[0], k)
    ensures Words(t + rest, k) == [t] + Words(rest, k)
  {
    var s := t + rest;
    var n := Run(s, k);
    RunIs(s, k, |t|);
    assert s[..|t|] == t && s[|t|..] == rest;
  }

  /** Splitting what was joined by one separator gives the words back. */
  lemma {:induction false} WordsOfJoin(ts: seq<string>, sep: char, k: Sep)
    requires AllWords(ts, k) && IsSep(sep, k)
    ensures Words(Join(ts, [sep]), k) == ts
  {
    if |ts| == 1 {
      WordsStep(ts[0], "", k);
      assert ts[0] + "" == ts[0];
    } else if |ts| > 1 {
      var tail := Join(ts[1..], [sep]);
      WordsStep(ts[0], [sep] + tail, k);
      assert Join(ts, [sep]) == ts[0] + ([sep] + tail);
      assert ([sep] + tail)[1..] == tail;
      WordsOfJoin(ts[1..], sep, k);
    }
  }

  // -------------------------------------------------------------------- lines

  predicate AbsentUpTo(s: string, c: char, n: nat) {
    n <= |s| && c !in s[..n]
  }

  /** First index of `c`, or the length when `c` does not occur. */
  function Find(s: string, c: char): (n: nat)
    ensures n <= |s| && AbsentUpTo(s, c, n)
    ensures n < |s| ==> s[n] == c
  {
    if s == "" || s[0] == c then 0
    else
      var m := Find(s[1..], c);
      assert s[..1 + m] == [s[0]] + s[1..][..m];
      1 + m
  }

  lemma {:induction false} FindIs(s: string, c: char, n: nat)
    requires n <= |s| && c !in s[..n] && (n < |s| ==> s[n] == c)
    ensures Find(s, c) == n
  {
    if n > 0 {
      FindIs(s[1..], c, n - 1);
    }
  }

  /** `s.split(c)` for a one-character separator. */
  function Split(s: string, c: char): (r: seq<string>)
    ensures |r| > 0
    decreases |s|
  {
    var n := Find(s, c);
    if n == |s| then [s] else [s[..n]] + Split(s[n + 1..], c)
  }

  lemma {:induction false} SplitAppend(a: string, c: char, b: string)
    ensures Split(a + [c] + b, c) == Split(a, c) + Split(b, c)
    decreases |a|
  {
    var s := a + [c] + b;
    var n := Find(a, c);
    assert s[..n] == a[..n];
    FindIs(s, c, n);
    if n == |a| {
      assert s[n + 1..] == b && s[..n] == a;
    } else {
      assert s[n + 1..] == a[n + 1..] + [c] + b;
      SplitAppend(a[n + 1..], c, b);
    }
  }

  lemma SplitWhole(s: string, c: char)
    requires c !in s
    ensures Split(s, c) == [s]
  {
    FindIs(s, c, |s|);
  }

  /** Splitting joined lines gives the lines back. */
  lemma {:induction false} SplitOfJoin(parts: seq<string>, c: char)
    requires parts != [] && forall i :: 0 <= i < |parts| ==> c !in parts[i]
    ensures Split(Join(parts, [c]), c) == parts
  {
    SplitWhole(parts[0], c);
    if |parts| > 1 {
      SplitOfJoin(parts[1..], c);
      SplitAppend(parts[0], c, Join(parts[1..], [c]));
    }
  }

  /** Joining what was split gives the string back, and no piece holds the separator. */
  lemma {:induction false} JoinOfSplit(s: string, c: char)
    ensures Join(Split(s, c), [c]) == s
    ensures forall i :: 0 <= i < |Split(s, c)| ==> c !in Split(s, c)[i]
    decreases |s|
  {
    var n := Find(s, c);
    if n < |s| {
      JoinOfSplit(s[n + 1..], c);
      assert s == s[..n] + [c] + s[n + 1..];
    } else {
      assert s[..n] == s;
    }
  }

  /** Lines without a line feed inside. */
  predicate CleanLines(ls: seq<string>) {
    forall i :: 0 <= i < |ls| ==> '\n' !in ls[i]
  }

  lemma CleanAppend(a: seq<string>, b: seq<string>)
    ensures CleanLines(a + b) <==> CleanLines(a) && CleanLines(b)
  {
    if CleanLines(a + b) {
      forall i | 0 <= i < |a| ensures '\n' !in a[i] { assert (a + b)[i] == a[i]; }
      forall i | 0 <= i < |b| ensures '\n' !in b[i] { assert (a + b)[|a| + i] == b[i]; }
    }
  }

  // ---------------------------------------------------------- ASCII lower case

  function LowerChar(c: char): char {
    if 'A' <= c <= 'Z' then c - 'A' + 'a' else c
  }

  function Lower(s: string): (r: string)
    ensures |r| == |s|
    ensures forall i :: 0 <= i < |s| ==> r[i] == LowerChar(s[i])
  {
    if s == "" then "" else [LowerChar(s[0])] + Lower(s[1..])
  }
}
