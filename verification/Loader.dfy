/** Projecting a loader template (files/zim/activation.ts): quoting for the shell, and replacing
    tokens one at a time. */
module Loader {
  import opened Wrappers
  import opened Text

  // ----------------------------------------------------------------------- quoting

  function Escaped(v: string): string {
    if v == "" then "" else (if v[0] == '\'' then "'\\''" else [v[0]]) + Escaped(v[1..])
  }

  /** `zshQuote`; None for a value with NUL. */
  function Quote(v: string): Option<string> {
    if '\0' in v then None else Some("'" + Escaped(v) + "'")
  }

  /** Reading a word by sections 2.2.1 and 2.2.2 of the Shell Command Language of POSIX.1-2017:
      single quotes keep everything up to the next one, a backslash outside keeps one character.
      None when a character stands unquoted or a quote stays open. */
  function Read(word: string, inside: bool): Option<string>
    decreases |word|
  {
    if word == "" then if inside then None else Some("")
    else if word[0] == '\'' then Read(word[1..], !inside)
    else if inside then Add(word[0], Read(word[1..], true))
    else if word[0] == '\\' && |word| > 1 then Add(word[1], Read(word[2..], false))
    else None
  }

  function Add(c: char, r: Option<string>): Option<string> {
    match r case None => None case Some(s) => Some([c] + s)
  }

  lemma {:induction false} EscapedReads(v: string)
    ensures Read(Escaped(v) + "'", true) == Some(v)
  {
    if v == "" {
      assert "" + "'" == "'" && "'"[1..] == "";
    } else {
      EscapedReads(v[1..]);
      var rest := Escaped(v[1..]) + "'";
      assert v == [v[0]] + v[1..];
      if v[0] == '\'' {
        var w := "'\\''" + rest;
        assert Escaped(v) + "'" == w;
        assert w[1..] == "\\''" + rest;
        assert w[1..][2..] == "'" + rest && ("'" + rest)[1..] == rest;
        assert Read(w[1..], false) == Add('\'', Read("'" + rest, false));
      } else {
        assert Escaped(v) + "'" == [v[0]] + rest;
        assert ([v[0]] + rest)[1..] == rest;
      }
    }
  }

  /** The shell gives every quoted value back. */
  lemma QuoteReads(v: string)
    ensures '\0' !in v <==> Quote(v).Some?
    ensures Quote(v).Some? ==> Read(Quote(v).value, false) == Some(v)
  {
    EscapedReads(v);
    assert ("'" + Escaped(v) + "'")[1..] == Escaped(v) + "'";
    hide Escaped;
  }

  // ------------------------------------------------------------------- searching text

  predicate At(s: string, t: string, i: nat) {
    i + |t| <= |s| && s[i..i + |t|] == t
  }

  predicate Contains(s: string, t: string) {
    exists i :: 0 <= i <= |s| && At(s, t, i)
  }

  /** `indexOf(t, from)` */
  function IndexOf(s: string, t: string, from: nat): (r: Option<nat>)
    ensures r.Some? ==> from <= r.value && At(s, t, r.value) && forall j :: from <= j < r.value ==> !At(s, t, j)
    ensures r.None? ==> forall j :: from <= j ==> !At(s, t, j)
    decreases |s| - from
  {
    if from > |s| then None else if At(s, t, from) then Some(from) else IndexOf(s, t, from + 1)
  }

  /** `replaceLoaderToken`; None where it throws. */
  function ReplaceToken(template: string, token: string, value: string): Option<string> {
    match IndexOf(template, token, 0)
    case None => None
    case Some(first) =>
      if IndexOf(template, token, first + |token|).Some? then None
      else Some(template[..first] + value + template[first + |token|..])
  }

  predicate Upper(c: char) { 'A' <= c <= 'Z' || c == '_' }

  /** The pattern of a placeholder. */
  predicate IsPlaceholder(s: string) {
    |s| > 8 && s[..6] == "@@ZIM_" && s[|s| - 2..] == "@@" && forall i :: 6 <= i < |s| - 2 ==> Upper(s[i])
  }

  predicate HasPlaceholder(s: string) {
    exists i, j :: 0 <= i <= j <= |s| && IsPlaceholder(s[i..j])
  }

  /** The final `replace(/\r?\n$/, "")`. */
  function DropNewline(s: string): string {
    if s == "" || s[|s| - 1] != '\n' then s
    else if |s| > 1 && s[|s| - 2] == '\r' then s[..|s| - 2]
    else s[..|s| - 1]
  }

  // ------------------------------------------------------------------------ projection

  datatype Replacement = Replacement(token: string, value: string)

  function ReplaceAll(template: string, rs: seq<Replacement>): Option<string>
    decreases |rs|
  {
    if rs == [] then Some(template)
    else match ReplaceToken(template, rs[0].token, rs[0].value) case None => None case Some(s) => ReplaceAll(s, rs[1..])
  }

  /** The loop and the checks of `projectLoader`. */
  function Project(template: string, rs: seq<Replacement>): Option<string> {
    match ReplaceAll(template, rs)
    case None => None
    case Some(s) => if HasPlaceholder(s) then None else Some(DropNewline(s))
  }

  method ProjectLoader(template: string, rs: seq<Replacement>) returns (content: Option<string>)
    ensures content == Project(template, rs)
  {
    hide ReplaceToken; hide HasPlaceholder;
    var projected := template;
    var i := 0;
    assert rs[0..] == rs;
    while i < |rs|
      invariant 0 <= i <= |rs| && ReplaceAll(template, rs) == ReplaceAll(projected, rs[i..])
    {
      assert rs[i..][1..] == rs[i + 1..];
      var next := ReplaceToken(projected, rs[i].token, rs[i].value);
      if next.None? {
        return None;
      }
      projected := next.value;
      i := i + 1;
    }
    return if HasPlaceholder(projected) then None else Some(DropNewline(projected));
  }

  // ------------------------------------------------------------------- the replacements

  function Unique(vs: seq<string>): seq<string> {
    if vs == [] then []
    else
      var front := Unique(vs[..|vs| - 1]);
      if vs[|vs| - 1] in front then front else front + [vs[|vs| - 1]]
  }

  function QuoteAll(vs: seq<string>): Option<seq<string>> {
    if vs == [] then Some([])
    else
      match Quote(vs[0])
      case None => None
      case Some(q) => match QuoteAll(vs[1..]) case None => None case Some(rest) => Some([q] + rest)
  }

  datatype Channel = Zimrc | Zimenv

  datatype Paths = Paths(home: string, config: string, legacy: seq<string>, controller: string, emergency: string)

  /** The list `replacements`; None when a value holds NUL. */
  function Replacements(channel: Channel, p: Paths): Option<seq<Replacement>> {
    match (Quote(p.home), Quote(p.config), QuoteAll(Unique(p.legacy)), Quote(p.controller), Quote(p.emergency))
    case (Some(home), Some(config), Some(legacy), Some(controller), emergency) =>
      var common := [Replacement("@@ZIM_CACHE_HOME@@", home), Replacement("@@ZIM_CONFIG_OUTPUT@@", config),
                     Replacement("@@ZIM_LEGACY_CONFIG_PATTERN@@", Join(legacy, "|")), Replacement("@@ZIM_CONTROLLER@@", controller)];
      if channel.Zimenv? then Some(common)
      else (match emergency case None => None case Some(e) => Some(common + [Replacement("@@ZIM_EMERGENCY_MODULE@@", e)]))
    case _ => None
  }
}
