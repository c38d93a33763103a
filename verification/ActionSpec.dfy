/** The action spec file: its admission and the decoding of entry names in
    files/actions/model.ts. */
module ActionSpec {
  import opened Wrappers
  import Text

  /** A parsed JSON value; a table has each key once, in file order. */
  datatype Value = Null | Flag(b: bool) | Num(n: int) | Str(s: string) | List(items: seq<Value>) | Table(rows: seq<(string, Value)>)

  datatype Audience = User | System

  const AUDIENCES := [User, System]

  function NameOf(a: Audience): string {
    if a.User? then "user" else "system"
  }

  datatype Step = Domain(declaration: Value) | Action(action: string) | Exec(path: string, children: Option<Steps>)

  datatype Steps = Steps(list: seq<Step>)

  datatype Setup = Setup(env: bool, basedir: Value)

  datatype Family = Family(
    name: string, action: string, entry: string, aliases: seq<string>, default: Option<Audience>,
    plans: seq<(Audience, seq<Step>)>, setup: seq<(Audience, Setup)>)

  type Spec = seq<Family>

  function Field(rows: seq<(string, Value)>, key: string): Option<Value> {
    if rows == [] then None else if rows[0].0 == key then Some(rows[0].1) else Field(rows[1..], key)
  }

  function Member(v: Value, key: string): Option<Value> {
    if v.Table? then Field(v.rows, key) else None
  }

  predicate Alnum(c: char) {
    'A' <= c <= 'Z' || 'a' <= c <= 'z' || '0' <= c <= '9'
  }

  /** NAME */
  predicate IsName(s: string) {
    s != "" && Alnum(s[0]) && forall i :: 1 <= i < |s| ==> Alnum(s[i]) || s[i] == '_' || s[i] == '.' || s[i] == '-'
  }

  function Named(v: Option<Value>): Option<string> {
    match v case Some(Str(s)) => if IsName(s) then Some(s) else None case _ => None
  }

  predicate PartOk(part: string) { part != "" && part != "." && part != ".." }

  predicate PartsOk(parts: seq<string>) {
    forall i :: 0 <= i < |parts| ==> PartOk(parts[i])
  }

  /** `binPath` */
  predicate IsBinPath(s: string) {
    Text.StartsWith(s, "bin/") && PartsOk(Text.Split(s, '/'))
  }

  function BinPath(v: Option<Value>): Option<string> {
    match v case Some(Str(s)) => if IsBinPath(s) then Some(s) else None case _ => None
  }

  /** `steps`; `domain` tells which declarations `domainStep` admits, and as what. */
  function ParseSteps(domain: Value -> Option<Value>, items: seq<Value>): Option<seq<Step>>
    decreases items
  {
    if items == [] then Some([])
    else
      match ParseStep(domain, items[0])
      case None => None
      case Some(s) => match ParseSteps(domain, items[1..]) case None => None case Some(rest) => Some([s] + rest)
  }

  function ParseStep(domain: Value -> Option<Value>, v: Value): Option<Step>
    decreases v
  {
    var kind := Member(v, "kind");
    if kind == Some(Str("domain")) then (match domain(v) case None => None case Some(d) => Some(Domain(d)))
    else if kind == Some(Str("action")) then (match Named(Member(v, "action")) case None => None case Some(a) => Some(Action(a)))
    else if kind != Some(Str("exec")) then None
    else
      match BinPath(Member(v, "path"))
      case None => None
      case Some(path) =>
        match Member(v, "children")
        case None => Some(Exec(path, None))
        case Some(children) =>
          MemberSmaller(v, "children");
          if !children.List? then None
          else match ParseSteps(domain, children.items) case None => None case Some(cs) => Some(Exec(path, Some(Steps(cs))))
  }

  lemma {:induction false} FieldSmaller(rows: seq<(string, Value)>, key: string)
    requires Field(rows, key).Some?
    ensures exists i :: 0 <= i < |rows| && rows[i].1 == Field(rows, key).value
  {
    if rows[0].0 != key {
      FieldSmaller(rows[1..], key);
      var i :| 0 <= i < |rows[1..]| && rows[1..][i].1 == Field(rows[1..], key).value;
      assert rows[i + 1].1 == Field(rows, key).value;
    }
  }

  lemma MemberSmaller(v: Value, key: string)
    requires Member(v, key).Some?
    ensures Member(v, key).value < v
  {
    FieldSmaller(v.rows, key);
    var i :| 0 <= i < |v.rows| && v.rows[i].1 == Member(v, key).value;
    assert v.rows[i] in v.rows;
  }

  // ----------------------------------------------------------------- families

  /** The qualified entry of a family. */
  function EntryName(name: string, a: Audience): string {
    name + "-" + NameOf(a) + ".mjs"
  }

  function DefaultName(name: string): string { name + ".mjs" }

  function Strings(ss: seq<string>): (r: seq<Value>)
    ensures |r| == |ss| && forall i :: 0 <= i < |r| ==> r[i] == Str(ss[i])
  {
    if ss == [] then [] else [Str(ss[0])] + Strings(ss[1..])
  }

  function AudienceOf(s: string): Option<Audience> {
    if s == "user" then Some(User) else if s == "system" then Some(System) else None
  }

  function Available(plans: Value): seq<Audience> {
    (if Member(plans, "user").Some? then [User] else []) + (if Member(plans, "system").Some? then [System] else [])
  }

  predicate KnownAudiences(rows: seq<(string, Value)>) {
    forall i :: 0 <= i < |rows| ==> AudienceOf(rows[i].0).Some?
  }

  function ParsePlans(domain: Value -> Option<Value>, plans: Value, available: seq<Audience>): Option<seq<(Audience, seq<Step>)>> {
    if available == [] then Some([])
    else
      match Member(plans, NameOf(available[0]))
      case Some(List(items)) =>
        (match ParseSteps(domain, items)
         case None => None
         case Some(steps) =>
           match ParsePlans(domain, plans, available[1..])
           case None => None
           case Some(rest) => Some([(available[0], steps)] + rest))
      case _ => None
  }

  /** The audience of the real entry. */
  function EntryAudience(name: string, entry: Option<Value>, available: seq<Audience>): Option<Audience> {
    if available == [] then None
    else if entry == Some(Str(EntryName(name, available[0]))) then Some(available[0])
    else EntryAudience(name, entry, available[1..])
  }

  function OtherEntries(name: string, available: seq<Audience>, chief: Audience): seq<string> {
    if available == [] then []
    else (if available[0] == chief then [] else [EntryName(name, available[0])]) + OtherEntries(name, available[1..], chief)
  }

  /** The aliases a family must declare. */
  function Aliases(name: string, available: seq<Audience>, chief: Audience, hasDefault: bool): seq<string> {
    (if hasDefault then [DefaultName(name)] else []) + OtherEntries(name, available, chief)
  }

  function ParseSetup(rows: seq<(string, Value)>, available: seq<Audience>): Option<seq<(Audience, Setup)>> {
    if rows == [] then Some([])
    else
      var a := AudienceOf(rows[0].0);
      var env, basedir := Member(rows[0].1, "env"), Member(rows[0].1, "basedir");
      if !rows[0].1.Table? || a.None? || a.value !in available then None
      else if env.None? || !env.value.Flag? || basedir.None? || !(basedir.value.Str? || basedir.value.Flag?) then None
      else
        match ParseSetup(rows[1..], available)
        case None => None
        case Some(rest) => Some([(a.value, Setup(env.value.b, basedir.value))] + rest)
  }

  function ParseFamily(domain: Value -> Option<Value>, name: string, raw: Value): Option<Family> {
    var plans := Member(raw, "plans");
    if !IsName(name) || !raw.Table? || Member(raw, "name") != Some(Str(name)) then None
    else
      match Named(Member(raw, "action"))
      case None => None
      case Some(action) =>
        if plans.None? || !plans.value.Table? || !KnownAudiences(plans.value.rows) then None
        else ParseBody(domain, name, raw, action, plans.value, Available(plans.value))
  }

  function ParseBody(domain: Value -> Option<Value>, name: string, raw: Value, action: string, plans: Value, available: seq<Audience>)
    : Option<Family>
  {
    if available == [] then None
    else
      match ParsePlans(domain, plans, available)
      case None => None
      case Some(parsed) =>
        match EntryAudience(name, Member(raw, "entry"), available)
        case None => None
        case Some(chief) => ParseNames(name, raw, action, parsed, available, chief)
  }

  function ParseNames(name: string, raw: Value, action: string, plans: seq<(Audience, seq<Step>)>, available: seq<Audience>, chief: Audience)
    : Option<Family>
  {
    var default := Member(raw, "default");
    var aliases := Aliases(name, available, chief, default.Some?);
    var setup := Member(raw, "setup");
    if default.Some? && default != Some(Str(NameOf(chief))) then None
    else if Member(raw, "aliases") != Some(List(Strings(aliases))) then None
    else if setup.Some? && !setup.value.Table? then None
    else
      match (if setup.None? then Some([]) else ParseSetup(setup.value.rows, available))
      case None => None
      case Some(parsed) =>
        Some(Family(name, action, EntryName(name, chief), aliases, if default.None? then None else Some(chief), plans, parsed))
  }

  function ParseFamilies(domain: Value -> Option<Value>, rows: seq<(string, Value)>): Option<Spec> {
    if rows == [] then Some([])
    else
      match ParseFamily(domain, rows[0].0, rows[0].1)
      case None => None
      case Some(f) => match ParseFamilies(domain, rows[1..]) case None => None case Some(rest) => Some([f] + rest)
  }

  /** `parseActionSpec` */
  function ParseSpec(domain: Value -> Option<Value>, v: Value): Option<Spec> {
    match Member(v, "actions")
    case Some(Table(rows)) => if Member(v, "version") == Some(Num(1)) then ParseFamilies(domain, rows) else None
    case _ => None
  }

  function AddFamilies(done: Spec, r: Option<Spec>): (p: Option<Spec>)
    ensures done == [] ==> p == r
  {
    assert r.Some? ==> [] + r.value == r.value;
    match r case None => None case Some(rest) => Some(done + rest)
  }

  /** The loop of `parseActionSpec`. */
  method ParseActionSpec(domain: Value -> Option<Value>, v: Value) returns (spec: Option<Spec>)
    ensures spec == ParseSpec(domain, v)
  {
    hide ParseFamily;
    var actions := Member(v, "actions");
    if Member(v, "version") != Some(Num(1)) || actions.None? || !actions.value.Table? {
      return None;
    }
    var rows := actions.value.rows;
    var done: Spec := [];
    var i := 0;
    assert rows[0..] == rows;
    while i < |rows|
      invariant 0 <= i <= |rows| && ParseFamilies(domain, rows) == AddFamilies(done, ParseFamilies(domain, rows[i..]))
    {
      assert rows[i..][1..] == rows[i + 1..];
      var f := ParseFamily(domain, rows[i].0, rows[i].1);
      if f.None? {
        return None;
      }
      var rest := ParseFamilies(domain, rows[i + 1..]);
      assert rest.Some? ==> done + ([f.value] + rest.value) == (done + [f.value]) + rest.value;
      done := done + [f.value];
      i := i + 1;
    }
    assert done + [] == done;
    return Some(done);
  }

  // ------------------------------------------------------------------- decoding names

  function FindEntry(spec: Spec, entry: string): Option<Family> {
    if spec == [] then None else if spec[0].entry == entry then Some(spec[0]) else FindEntry(spec[1..], entry)
  }

  predicate HasPlan(f: Family, a: Audience) {
    exists i :: 0 <= i < |f.plans| && f.plans[i].0 == a
  }

  /** The audience an invoked name stands for. */
  function Decoded(f: Family, invoked: string, entry: string): Option<Audience> {
    if invoked == EntryName(f.name, User) then Some(User)
    else if invoked == EntryName(f.name, System) then Some(System)
    else if invoked == DefaultName(f.name) then
      if entry == EntryName(f.name, User) then Some(User)
      else if entry == EntryName(f.name, System) then Some(System) else None
    else None
  }

  /** `selectAction` for an entry in a `bin` directory, by last names. */
  function Select(spec: Spec, invoked: string, entry: string): Option<(Family, Audience)> {
    match FindEntry(spec, entry)
    case None => None
    case Some(f) =>
      if invoked != entry && invoked !in f.aliases then None
      else
        match Decoded(f, invoked, entry)
        case None => None
        case Some(a) => if HasPlan(f, a) then Some((f, a)) else None
  }

  lemma NamesDiffer(name: string)
    ensures EntryName(name, User) != EntryName(name, System) && DefaultName(name) != EntryName(name, User)
    ensures DefaultName(name) != EntryName(name, System)
  {
    assert |EntryName(name, User)| == |name| + 9 && |EntryName(name, System)| == |name| + 11 && |DefaultName(name)| == |name| + 4;
  }
}
