/** What the Python printer writes for one field, character by character
    (library/filter_plugins/apt_sources.py): names, values, and the lines of a key. */
module AptRows {
  import opened Wrappers
  import opened Text
  import opened AptModel
  import opened AptSources
  import AptLines
  import AptScheme
  import AptSourcesFacts

  // ------------------------------------------------------------------ values

  /** A whole number as `str` writes it. */
  ghost predicate Numeral(s: string, n: int) {
    if n < 0 then s != "" && s[0] == '-' && Natural(s[1..], -n) else Natural(s, n)
  }

  ghost predicate Natural(s: string, n: nat) {
    AptLines.Number(s, n) && (s[0] != '0' || s == "0")
  }

  /** A part of a list as text: flags in Python's spelling. */
  ghost predicate PartShown(p: Scalar, t: string) {
    match p
    case Flag(on) => t == if on then "True" else "False"
    case Num(n) => Numeral(t, n)
    case Str(s) => t == s && '\n' !in s
    case _ => false
  }

  ghost predicate PartsShown(ps: seq<Scalar>, ts: seq<string>) {
    |ps| == |ts| && forall k :: 0 <= k < |ps| ==> PartShown(ps[k], ts[k])
  }

  /** A value as text: a flag as yes or no, a list with blanks between its parts. */
  ghost predicate ShownAs(key: string, v: Value, t: string) {
    match v
    case One(Flag(on)) => if on then t == "yes" else key != "components" && t == "no"
    case One(Num(n)) => Numeral(t, n)
    case One(Str(s)) => t == s
    case Items(ps) => ps != [] && exists ts :: PartsShown(ps, ts) && t == Join(ts, " ")
    case _ => false
  }

  /** A field without a row. */
  predicate LeftOut(key: string, v: Value) {
    v == One(Nothing) || v == Items([]) || (key == "components" && v == One(Flag(false)))
  }

  lemma NumberIs(n: int)
    ensures Numeral(Number(n), n)
  {
    hide AptScheme.Decimal; hide AptScheme.Value; hide AptScheme.IsDigit; hide AptLines.Number;
    var m := if n < 0 then -n else n;
    AptLines.DecimalLead(m);
    AptLines.NumberExact(AptScheme.Decimal(m), m);
  }

  lemma PartIs(p: Scalar)
    ensures PartText(p).Some? ==> PartShown(p, PartText(p).value)
    ensures PartText(p).None? ==> forall t :: !PartShown(p, t)
  {
    if p.Num? {
      NumberIs(p.n);
    }
    hide Number; hide Numeral;
  }

  lemma {:induction false} PartsAre(ps: seq<Scalar>)
    ensures PartTexts(ps).Some? ==> PartsShown(ps, PartTexts(ps).value)
    ensures PartTexts(ps).None? ==> forall ts :: !PartsShown(ps, ts)
  {
    hide PartText; hide PartShown;
    if ps != [] {
      PartIs(ps[0]);
      PartsAre(ps[1..]);
      if PartTexts(ps).Some? {
        var t, rest := PartText(ps[0]).value, PartTexts(ps[1..]).value;
        assert PartTexts(ps).value == [t] + rest;
        assert forall k :: 1 <= k < |ps| ==> ps[k] == ps[1..][k - 1];
      } else {
        forall ts | PartsShown(ps, ts) ensures false {
          assert PartShown(ps[0], ts[0]);
          PartsTail(ps, ts);
        }
      }
    }
  }

  lemma PartsTail(ps: seq<Scalar>, ts: seq<string>)
    requires ps != [] && PartsShown(ps, ts)
    ensures PartsShown(ps[1..], ts[1..])
  {
    hide PartShown;
  }

  /** The text of a value, which values have no row, and which are refused: all others. */
  lemma ShownExact(key: string, v: Value)
    ensures Show(key, v).Skipped? <==> LeftOut(key, v)
    ensures Show(key, v).Text? ==> ShownAs(key, v, Show(key, v).text)
    ensures Show(key, v).Refused? ==> forall t :: !ShownAs(key, v, t)
  {
    hide PartTexts; hide PartsShown; hide Join; hide Number; hide Numeral;
    match v
    case Items(ps) => PartsAre(ps);
    case One(scalar) =>
      if scalar.Num? {
        NumberIs(scalar.n);
      }
  }

  // ------------------------------------------------------------------ lines

  /** What Python's `splitlines` breaks at, without a carriage return. */
  predicate Breaks(c: char) {
    c in {'\n', '\U{000B}', '\U{000C}', '\U{001C}', '\U{001D}', '\U{001E}', '\U{0085}', '\U{2028}', '\U{2029}'}
  }

  /** What Python's `strip` removes. */
  predicate Stripped(c: char) {
    || Breaks(c) || c in {'\t', '\r', '\U{001F}', ' ', '\U{00A0}', '\U{1680}', '\U{202F}', '\U{205F}', '\U{3000}'}
    || '\U{2000}' <= c <= '\U{200A}'
  }

  lemma BreakIs(c: char)
    ensures IsBreak(c) <==> Breaks(c) || c == '\r'
    ensures IsPySpace(c) <==> Stripped(c)
  {
  }

  /** The text without what is removed at its ends. */
  ghost predicate Core(text: string, core: string) {
    exists a, b ::
      text == a + core + b && (forall c :: c in a ==> Stripped(c)) && (forall c :: c in b ==> Stripped(c))
      && (core != "" ==> !Stripped(core[0]) && !Stripped(core[|core| - 1]))
  }

  /** The lines of a text, each ended by one break but perhaps the last. */
  ghost predicate LinesAre(s: string, ls: seq<string>)
    decreases |ls|
  {
    if ls == [] then s == ""
    else
      && (forall c :: c in ls[0] ==> !Breaks(c))
      && (|| (|ls| == 1 && s == ls[0] && s != "")
          || exists br, rest :: Breaks(br) && s == ls[0] + [br] + rest && LinesAre(rest, ls[1..]))
  }

  /** A public key block in its armor, whatever white space in front. */
  ghost predicate KeyBlock(text: string) {
    && (exists lead, rest :: text == lead + "-----BEGIN PGP PUBLIC KEY BLOCK-----" + rest && forall c :: c in lead ==> Stripped(c))
    && exists a, b :: text == a + "-----END PGP PUBLIC KEY BLOCK-----" + b
  }

  lemma {:induction false} LeftStripIs(s: string)
    ensures |LeftStrip(s)| <= |s| && s == s[..|s| - |LeftStrip(s)|] + LeftStrip(s)
    ensures forall c :: c in s[..|s| - |LeftStrip(s)|] ==> Stripped(c)
  {
    if s != "" {
      BreakIs(s[0]);
      hide Stripped;
      if IsPySpace(s[0]) {
        LeftStripIs(s[1..]);
        var k := |s| - |LeftStrip(s)|;
        assert s[..k] == [s[0]] + s[1..][..k - 1];
      }
    }
  }

  lemma {:induction false} LeftStripOf(lead: string, rest: string)
    requires (forall c :: c in lead ==> Stripped(c)) && (rest != "" ==> !Stripped(rest[0]))
    ensures LeftStrip(lead + rest) == rest
    decreases |lead|
  {
    if lead == "" {
      assert lead + rest == rest;
      if rest != "" {
        BreakIs(rest[0]);
      }
    } else {
      BreakIs(lead[0]);
      hide Stripped;
      assert (lead + rest)[1..] == lead[1..] + rest && lead[0] in lead;
      LeftStripOf(lead[1..], rest);
    }
  }

  lemma {:induction false} RightStripIs(s: string)
    ensures s == RightStrip(s) + s[|RightStrip(s)|..]
    ensures forall c :: c in s[|RightStrip(s)|..] ==> Stripped(c)
    decreases |s|
  {
    if s != "" {
      BreakIs(s[|s| - 1]);
      hide Stripped;
      if IsPySpace(s[|s| - 1]) {
        RightStripIs(s[..|s| - 1]);
        var k := |RightStrip(s)|;
        assert s[k..] == s[..|s| - 1][k..] + [s[|s| - 1]];
      }
    }
  }

  lemma StripEnds(text: string)
    ensures var l := LeftStrip(text); var r := RightStrip(l);
      r != "" ==> r[0] == l[0] && !Stripped(r[0]) && !Stripped(r[|r| - 1])
  {
    var r := RightStrip(LeftStrip(text));
    if r != "" {
      BreakIs(r[0]);
      BreakIs(r[|r| - 1]);
    }
    hide Stripped; hide LeftStrip; hide RightStrip;
  }

  lemma StripIs(text: string)
    ensures Core(text, Strip(text))
  {
    hide Stripped; hide LeftStrip; hide RightStrip;
    var l := LeftStrip(text);
    var r := RightStrip(l);
    LeftStripIs(text);
    RightStripIs(l);
    StripEnds(text);
    Assoc(text[..|text| - |l|], r, l[|r|..]);
  }

  lemma NoneBreak(s: string, n: nat)
    requires n <= |s| && (forall i :: 0 <= i < n ==> !IsBreak(s[i])) && '\r' !in s
    ensures forall c :: c in s[..n] ==> !Breaks(c)
    ensures n < |s| ==> (IsBreak(s[n]) <==> Breaks(s[n]))
  {
    forall c | c in s[..n] ensures !Breaks(c) {
      BreakIs(c);
    }
    if n < |s| {
      BreakIs(s[n]);
      assert s[n] in s;
    }
  }

  lemma LineLast(s: string)
    requires s != "" && forall c :: c in s ==> !Breaks(c)
    ensures LinesAre(s, [s])
  {
    hide Breaks;
  }

  lemma {:induction false} LinesIs(s: string)
    requires '\r' !in s
    ensures LinesAre(s, PyLines(s))
    decreases |s|
  {
    hide LinesAre; hide Breaks; hide IsBreak;
    if s != "" {
      var n := FindBreak(s);
      NoneBreak(s, n);
      hide FindBreak;
      if n < |s| {
        var rest := s[n + 1..];
        LinesIs(rest);
        LineCons(s[..n], s[n], rest, PyLines(rest));
        assert s == s[..n] + [s[n]] + rest;
      } else {
        assert s[..n] == s;
        LineLast(s);
      }
    } else {
      NoLines();
    }
  }

  lemma NoLines()
    ensures LinesAre("", [])
  {
  }

  lemma LineCons(l: string, br: char, rest: string, ls: seq<string>)
    requires (forall c :: c in l ==> !Breaks(c)) && Breaks(br) && LinesAre(rest, ls)
    ensures LinesAre(l + [br] + rest, [l] + ls)
  {
    assert ([l] + ls)[0] == l && ([l] + ls)[1..] == ls;
  }

  lemma Heads(text: string, lead: string, rest: string)
    requires text == lead + BEGIN_KEY + rest && forall c :: c in lead ==> Stripped(c)
    ensures StartsWith(LeftStrip(text), BEGIN_KEY)
  {
    BeginNot();
    hide Stripped; hide LeftStrip;
    Assoc(lead, BEGIN_KEY, rest);
    LeftStripOf(lead, BEGIN_KEY + rest);
  }

  lemma HeadOf(text: string) returns (lead: string, rest: string)
    requires StartsWith(LeftStrip(text), BEGIN_KEY)
    ensures text == lead + BEGIN_KEY + rest && forall c :: c in lead ==> Stripped(c)
  {
    hide Stripped; hide LeftStrip;
    LeftStripIs(text);
    var l := LeftStrip(text);
    lead, rest := text[..|text| - |l|], l[|BEGIN_KEY|..];
    assert l == BEGIN_KEY + rest;
    Assoc(lead, BEGIN_KEY, rest);
  }

  lemma BlockIs(text: string)
    ensures IsInlineKey(text) <==> KeyBlock(text)
  {
    hide Stripped; hide LeftStrip; hide StartsWith; hide Includes;
    IncludesIs(text, END_KEY);
    if StartsWith(LeftStrip(text), BEGIN_KEY) {
      var lead, rest := HeadOf(text);
    }
    if KeyBlock(text) {
      var lead, rest :| text == lead + "-----BEGIN PGP PUBLIC KEY BLOCK-----" + rest && forall c :: c in lead ==> Stripped(c);
      Heads(text, lead, rest);
    }
  }

  lemma BeginNot()
    ensures !Stripped(BEGIN_KEY[0])
  {
  }

  lemma IncludesIs(s: string, t: string)
    ensures Includes(s, t) <==> exists a, b :: s == a + t + b
  {
    if Includes(s, t) {
      var i :| 0 <= i <= |s| && StartsWith(s[i..], t);
      assert s == s[..i] + t + s[i..][|t|..];
    }
    if a, b :| s == a + t + b {
      assert s[|a|..] == t + b;
      assert StartsWith(s[|a|..], t);
    }
  }

  /** The rows of a text: one line, or a key block behind a line of its own, its lines with a blank
      in front and a dot for an empty one. */
  ghost predicate RowWritten(name: string, text: string, lines: seq<string>) {
    if '\n' !in text then lines == [name + ": " + text]
    else
      exists core, ls ::
        Core(text, core) && LinesAre(core, ls) && |lines| == |ls| + 1 && lines[0] == name + ":"
        && forall k :: 0 <= k < |ls| ==> lines[k + 1] == " " + if ls[k] == "" then "." else ls[k]
  }

  lemma StuffIs(l: string)
    ensures Stuff(l) == " " + if l == "" then "." else l
  {
  }

  lemma CoreFree(text: string, core: string, c: char)
    requires Core(text, core) && c !in text
    ensures c !in core
  {
    hide Stripped;
  }

  /** The lines of a field with a text: refused for a carriage return, or for a line feed in
      anything but the key block of `Signed-By`. */
  lemma LinesExact(s: Slot, text: string)
    ensures RowLines(s, text).None? <==> Forbidden(s.key, text)
    ensures RowLines(s, text).Some? ==> RowWritten(s.name, text, RowLines(s, text).value)
  {
    hide IsInlineKey; hide KeyBlock; hide Core; hide LinesAre; hide Strip; hide PyLines; hide StuffAll; hide Stuff;
    BlockIs(text);
    if RowLines(s, text).Some? && '\n' in text {
      StripIs(text);
      CoreFree(text, Strip(text), '\r');
      LinesIs(Strip(text));
      var ls := PyLines(Strip(text));
      forall k | 0 <= k < |ls| ensures RowLines(s, text).value[k + 1] == " " + if ls[k] == "" then "." else ls[k] {
        StuffIs(ls[k]);
      }
    }
  }

  /** A text that no row can hold. */
  ghost predicate Forbidden(key: string, t: string) {
    '\r' in t || ('\n' in t && !(key == "signed-by" && KeyBlock(t)))
  }

  /** The rows of a field, in all: none for a value that is left out, else those of its text. */
  lemma RowExact(s: Slot)
    ensures LeftOut(s.key, s.value) ==> Row(s) == Some([])
    ensures forall lines :: Row(s) == Some(lines) && !LeftOut(s.key, s.value) ==>
      exists t :: ShownAs(s.key, s.value, t) && RowWritten(s.name, t, lines)
    ensures Row(s).None? ==> !LeftOut(s.key, s.value)
    ensures Row(s).None? ==> (forall t :: !ShownAs(s.key, s.value, t)) || exists t :: ShownAs(s.key, s.value, t) && Forbidden(s.key, t)
  {
    hide Show; hide ShownAs; hide LeftOut; hide Forbidden; hide RowLines; hide RowWritten; hide KeyBlock;
    ShownExact(s.key, s.value);
    if Show(s.key, s.value).Text? {
      LinesExact(s, Show(s.key, s.value).text);
    }
  }

  // ------------------------------------------------------------------ names

  /** The names with a spelling of their own. */
  predicate Spelled(w: string) {
    || w in {"Types", "URIs", "Suites", "Components", "Signed-By", "Architectures"}
    || w in {"Trusted", "Enabled", "Package", "Pin", "Pin-Priority"}
  }

  lemma SpelledIs(name: string, w: string)
    requires Spelled(w) && Lower(name) == Lower(w)
    ensures Canonical(name) == w
  {
    AptSourcesFacts.LowerSpellings();
    hide Lower;
  }

  lemma OtherSpelling(name: string)
    requires forall w :: Spelled(w) ==> Lower(name) != Lower(w)
    ensures Canonical(name) == name
  {
    AptSourcesFacts.LowerSpellings();
    hide Lower;
    assert Spelled("Types") && Spelled("URIs") && Spelled("Suites") && Spelled("Components") && Spelled("Signed-By");
    assert Spelled("Architectures") && Spelled("Trusted") && Spelled("Enabled") && Spelled("Package") && Spelled("Pin");
    assert Spelled("Pin-Priority");
  }

  /** A field name: a letter, then letters, digits and `-`. */
  predicate FieldName(s: string) {
    s != "" && ('a' <= s[0] <= 'z' || 'A' <= s[0] <= 'Z')
    && forall c :: c in s ==> c == '-' || 'a' <= c <= 'z' || 'A' <= c <= 'Z' || '0' <= c <= '9'
  }

  /** What a name is printed as, which names are valid, and which values count as lacking. */
  lemma NameExact(name: string, w: string, v: Value)
    ensures Spelled(w) && Lower(name) == Lower(w) ==> Canonical(name) == w
    ensures (forall x :: Spelled(x) ==> Lower(name) != Lower(x)) ==> Canonical(name) == name
    ensures IsFieldName(name) <==> FieldName(name)
    ensures Lacking(v) <==> v in {One(Nothing), One(Flag(false)), One(Num(0)), One(Str("")), Items([])}
  {
    hide Lower; hide Canonical; hide Spelled;
    if Spelled(w) && Lower(name) == Lower(w) {
      SpelledIs(name, w);
    }
    if forall x :: Spelled(x) ==> Lower(name) != Lower(x) {
      OtherSpelling(name);
    }
    if FieldName(name) {
      forall k | 0 <= k < |name| ensures IsKeyChar(name[k]) {
        assert name[k] in name;
      }
    }
  }
}
