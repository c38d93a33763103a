/** The second printer of deb822 sources, library/filter_plugins/apt_sources.py: authored
    mappings are merged by field name whatever its case, and printed as stanzas. */
module AptSources {
  import opened Wrappers
  import opened Text
  import opened AptModel
  import AptScheme

  // --------------------------------------------------------------- authored values

  /** Python values as the printer tells them apart; Other is everything it refuses. */
  datatype Scalar = Nothing | Flag(on: bool) | Num(n: int) | Str(text: string) | Other

  datatype Value = One(scalar: Scalar) | Items(parts: seq<Scalar>)

  /** A mapping: its items in insertion order. */
  type Mapping = seq<(string, Value)>

  /** `{**m, name: value}`: replaces in place or appends. */
  function Update(m: Mapping, name: string, value: Value): Mapping {
    if m == [] then [(name, value)]
    else if m[0].0 == name then [(name, value)] + m[1..]
    else [m[0]] + Update(m[1..], name, value)
  }

  function UpdateAll(m: Mapping, more: Mapping): Mapping
    decreases |more|
  {
    if more == [] then m else UpdateAll(Update(m, more[0].0, more[0].1), more[1..])
  }

  predicate IsLetter(c: char) { 'A' <= c <= 'Z' || 'a' <= c <= 'z' }

  /** The pattern `_FIELD`, on the whole name. */
  predicate IsFieldName(s: string) {
    s != "" && IsLetter(s[0]) && forall i :: 0 <= i < |s| ==> IsKeyChar(s[i])
  }

  /** `_CANONICAL.get(name.lower(), name)` */
  function Canonical(name: string): string {
    var l := Lower(name);
    if l == "types" then "Types"
    else if l == "uris" then "URIs"
    else if l == "suites" then "Suites"
    else if l == "components" then "Components"
    else if l == "signed-by" then "Signed-By"
    else if l == "architectures" then "Architectures"
    else if l == "trusted" then "Trusted"
    else if l == "enabled" then "Enabled"
    else if l == "package" then "Package"
    else if l == "pin" then "Pin"
    else if l == "pin-priority" then "Pin-Priority"
    else name
  }

  // ------------------------------------------------------------------------- merge

  /** An item of the dictionary `fields`. */
  datatype Slot = Slot(key: string, name: string, value: Value)

  function Place(slots: seq<Slot>, s: Slot): seq<Slot> {
    if slots == [] then [s]
    else if slots[0].key == s.key then [s] + slots[1..]
    else [slots[0]] + Place(slots[1..], s)
  }

  function SlotOf(item: (string, Value)): Slot {
    Slot(Lower(Canonical(item.0)), Canonical(item.0), item.1)
  }

  /** The items of one mapping put over the fields at hand; None for an invalid name. */
  function Merge(slots: seq<Slot>, m: Mapping): Option<seq<Slot>>
    decreases |m|
  {
    if m == [] then Some(slots)
    else if !IsFieldName(m[0].0) then None
    else Merge(Place(slots, SlotOf(m[0])), m[1..])
  }

  function FindSlot(slots: seq<Slot>, key: string): Option<Slot> {
    if slots == [] then None else if slots[0].key == key then Some(slots[0]) else FindSlot(slots[1..], key)
  }

  /** `in (None, False, "", [])`: zero equals False. */
  predicate Lacking(v: Value) {
    v in [One(Nothing), One(Flag(false)), One(Num(0)), One(Str("")), Items([])]
  }

  predicate Complete(slots: seq<Slot>, required: seq<string>) {
    forall i :: 0 <= i < |required| ==>
      FindSlot(slots, Lower(required[i])).Some? && !Lacking(FindSlot(slots, Lower(required[i])).value.value)
  }

  // ------------------------------------------------------------------------ values

  /** `str` of a whole number. */
  function Number(n: int): string {
    if n < 0 then "-" + AptScheme.Decimal(-n) else AptScheme.Decimal(n)
  }

  /** A list part as text; None where it is refused. A flag is a number to Python. */
  function PartText(p: Scalar): Option<string> {
    match p
    case Flag(on) => Some(if on then "True" else "False")
    case Num(n) => Some(Number(n))
    case Str(s) => if '\n' in s then None else Some(s)
    case _ => None
  }

  function PartTexts(ps: seq<Scalar>): Option<seq<string>> {
    if ps == [] then Some([])
    else
      match PartText(ps[0])
      case None => None
      case Some(t) => match PartTexts(ps[1..]) case None => None case Some(rest) => Some([t] + rest)
  }

  datatype Shown = Skipped | Refused | Text(text: string)

  /** The value of a field as text, before the line checks. */
  function Show(key: string, v: Value): Shown {
    match v
    case Items(parts) =>
      if parts == [] then Skipped
      else (match PartTexts(parts) case None => Refused case Some(ts) => Text(Join(ts, " ")))
    case One(scalar) =>
      match scalar
      case Nothing => Skipped
      case Flag(on) => if on then Text("yes") else if key == "components" then Skipped else Text("no")
      case Num(n) => Text(Number(n))
      case Str(s) => Text(s)
      case Other => Refused
  }

  // ------------------------------------------------------- Python's strip and lines

  predicate IsBreak(c: char) {
    '\n' <= c <= '\r' || '\U{001C}' <= c <= '\U{001E}' || c == '\U{0085}' || c == '\U{2028}' || c == '\U{2029}'
  }

  predicate IsPySpace(c: char) {
    || IsBreak(c) || c == '\t' || c == '\U{001F}' || c == ' ' || c == '\U{00A0}' || c == '\U{1680}'
    || '\U{2000}' <= c <= '\U{200A}' || c == '\U{202F}' || c == '\U{205F}' || c == '\U{3000}'
  }

  function LeftStrip(s: string): (r: string)
    ensures r != "" ==> !IsPySpace(r[0])
  {
    if s == "" || !IsPySpace(s[0]) then s else LeftStrip(s[1..])
  }

  function RightStrip(s: string): (r: string)
    ensures r != "" ==> !IsPySpace(r[|r| - 1])
    ensures r <= s
  {
    if s == "" || !IsPySpace(s[|s| - 1]) then s else RightStrip(s[..|s| - 1])
  }

  function Strip(s: string): string {
    RightStrip(LeftStrip(s))
  }

  function FindBreak(s: string): (n: nat)
    ensures n <= |s| && (n < |s| ==> IsBreak(s[n])) && forall i :: 0 <= i < n ==> !IsBreak(s[i])
  {
    if s == "" || IsBreak(s[0]) then 0 else 1 + FindBreak(s[1..])
  }

  /** `splitlines()`, for text without carriage returns. */
  function PyLines(s: string): seq<string>
    decreases |s|
  {
    if s == "" then []
    else
      var n := FindBreak(s);
      if n == |s| then [s] else [s[..n]] + PyLines(s[n + 1..])
  }

  // ------------------------------------------------------------------------- rows

  const BEGIN_KEY := "-----BEGIN PGP PUBLIC KEY BLOCK-----"
  const END_KEY := "-----END PGP PUBLIC KEY BLOCK-----"

  predicate Includes(s: string, t: string) {
    exists i :: 0 <= i <= |s| && StartsWith(s[i..], t)
  }

  predicate IsInlineKey(s: string) {
    StartsWith(LeftStrip(s), BEGIN_KEY) && Includes(s, END_KEY)
  }

  /** The lines of a row; None where the value is refused. */
  function RowLines(s: Slot, text: string): Option<seq<string>> {
    if '\r' in text then None
    else if '\n' !in text then Some([s.name + ": " + text])
    else if s.key != "signed-by" || !IsInlineKey(text) then None
    else Some([s.name + ":"] + StuffAll(PyLines(Strip(text))))
  }

  function Row(s: Slot): Option<seq<string>> {
    match Show(s.key, s.value)
    case Skipped => Some([])
    case Refused => None
    case Text(text) => RowLines(s, text)
  }

  /** The lines of a stanza. */
  function Rows(slots: seq<Slot>): Option<seq<string>> {
    if slots == [] then Some([])
    else
      match Row(slots[0])
      case None => None
      case Some(lines) => match Rows(slots[1..]) case None => None case Some(rest) => Some(lines + rest)
  }

  /** `_stanza`: the rows of a mapping over its defaults, joined. */
  function Stanza(spec: Mapping, defaults: Mapping, required: seq<string>): Option<seq<string>> {
    match Merge([], defaults)
    case None => None
    case Some(base) =>
      match Merge(base, spec)
      case None => None
      case Some(slots) => if Complete(slots, required) then Rows(slots) else None
  }

  const REQUIRED := ["Types", "URIs", "Suites"]

  predicate HasSignedBy(m: Mapping) {
    exists i :: 0 <= i < |m| && Lower(m[i].0) == "signed-by"
  }

  /** The defaults every stanza starts from. */
  function Base(defaults: Mapping, signedBy: string): Mapping {
    var base := UpdateAll([("Types", One(Str("deb")))], defaults);
    if signedBy != "" && !HasSignedBy(base) then Update(base, "Signed-By", One(Str(signedBy))) else base
  }

  function StanzaTexts(specs: seq<Mapping>, base: Mapping): Option<seq<string>> {
    if specs == [] then Some([])
    else
      match Stanza(specs[0], base, REQUIRED)
      case None => None
      case Some(lines) =>
        match StanzaTexts(specs[1..], base)
        case None => None
        case Some(rest) => Some([Join(lines, "\n")] + rest)
  }

  /** `apt_sources`; "" for no acquired key. */
  function Print(specs: seq<Mapping>, defaults: Mapping, signedBy: string): Option<string> {
    if specs == [] then None
    else match StanzaTexts(specs, Base(defaults, signedBy)) case None => None case Some(ss) => Some(Join(ss, "\n\n") + "\n")
  }

  // ------------------------------------------------------------- the loops of _stanza

  /** The inner loop that updates `fields`. */
  method MergeInto(fields: seq<Slot>, source: Mapping) returns (r: Option<seq<Slot>>)
    ensures r == Merge(fields, source)
  {
    hide IsFieldName; hide SlotOf; hide Place;
    var slots := fields;
    var i := 0;
    assert source[0..] == source;
    while i < |source|
      invariant 0 <= i <= |source| && Merge(fields, source) == Merge(slots, source[i..])
    {
      assert source[i..][1..] == source[i + 1..];
      if !IsFieldName(source[i].0) {
        return None;
      }
      slots := Place(slots, SlotOf(source[i]));
      i := i + 1;
    }
    return Some(slots);
  }

  function AddRows(front: seq<string>, rest: Option<seq<string>>): Option<seq<string>> {
    match rest case None => None case Some(lines) => Some(front + lines)
  }

  /** The loop that appends `rows`. */
  method RenderRows(fields: seq<Slot>) returns (rows: Option<seq<string>>)
    ensures rows == Rows(fields)
  {
    hide Row;
    var out: seq<string> := [];
    var i := 0;
    assert fields[0..] == fields;
    assert Rows(fields).Some? ==> [] + Rows(fields).value == Rows(fields).value;
    while i < |fields|
      invariant 0 <= i <= |fields| && Rows(fields) == AddRows(out, Rows(fields[i..]))
    {
      assert fields[i..][1..] == fields[i + 1..];
      var lines := Row(fields[i]);
      if lines.None? {
        return None;
      }
      var rest := Rows(fields[i + 1..]);
      assert rest.Some? ==> out + (lines.value + rest.value) == out + lines.value + rest.value;
      out := out + lines.value;
      i := i + 1;
    }
    assert out + [] == out;
    return Some(out);
  }

  /** `_stanza`, with its three phases. */
  method RenderStanza(spec: Mapping, defaults: Mapping, required: seq<string>) returns (stanza: Option<string>)
    ensures stanza == match Stanza(spec, defaults, required) case None => None case Some(lines) => Some(Join(lines, "\n"))
  {
    hide Merge; hide Rows; hide Join; hide Lower;
    var base := MergeInto([], defaults);
    if base.None? {
      return None;
    }
    var slots := MergeInto(base.value, spec);
    if slots.None? {
      return None;
    }
    var i := 0;
    while i < |required|
      invariant 0 <= i <= |required|
      invariant Complete(slots.value, required[..i])
    {
      var slot := FindSlot(slots.value, Lower(required[i]));
      if slot.None? || Lacking(slot.value.value) {
        return None;
      }
      assert forall k :: 0 <= k <= i ==> required[..i + 1][k] == required[k];
      assert forall k :: 0 <= k < i ==> required[..i][k] == required[k];
      i := i + 1;
    }
    assert required[..i] == required;
    var rows := RenderRows(slots.value);
    if rows.None? {
      return None;
    }
    return Some(Join(rows.value, "\n"));
  }
}
