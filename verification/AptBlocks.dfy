/** Managed blocks after a rewrite: when the result scans again, what its blocks hold, and
    when adopting a row breaks the block around it. */
module AptBlocks {
  import opened Wrappers
  import opened Text
  import opened AptScheme

  // -------------------------------------------------------------------- marker marks

  lemma NumberedMark(id: nat, tail: string)
    requires tail == " begin" || tail == " end"
    ensures var p := Decimal(id) + tail; var d := Digits(p);
      d == |Decimal(id)| && d > 0 && p[..d] == Decimal(id) && p[d..] == tail
  {
    var p := Decimal(id) + tail;
    Cut(Decimal(id), tail);
  }

  lemma PrefixCut(p: string)
    ensures StartsWith(PREFIX + p, PREFIX) && (PREFIX + p)[|PREFIX|..] == p
  {
  }

  lemma TailCut(ds: string, tail: string)
    requires tail == " begin" || tail == " end"
    ensures var p := ds + tail; p[|ds|..] == tail && p[|ds| + |tail|..] == ""
    ensures StartsWith(tail, " begin") <==> tail == " begin"
    ensures StartsWith(tail, " end") <==> tail == " end"
  {
    assert tail == " begin" ==> tail[..4][1] == 'b';
  }

  lemma BeginMarks(id: nat)
    ensures MarkOf(BeginLine(id)) == Begin(id)
  {
    hide Decimal; hide Digits; hide Value; hide StartsWith;
    Assoc(PREFIX, Decimal(id), " begin");
    PrefixCut(Decimal(id) + " begin");
    NumberedMark(id, " begin");
    TailCut(Decimal(id), " begin");
  }

  lemma EndMarks(id: nat)
    ensures MarkOf(EndLine(id)) == End(id)
  {
    hide Decimal; hide Digits; hide Value; hide StartsWith;
    Assoc(PREFIX, Decimal(id), " end");
    PrefixCut(Decimal(id) + " end");
    NumberedMark(id, " end");
    TailCut(Decimal(id), " end");
  }

  // ------------------------------------------------------- blocks by what they hold

  /** A managed block without positions: its id and its rows. */
  datatype Managed = Managed(id: nat, rows: seq<string>)

  function AddManaged(m: Managed, r: Option<seq<Managed>>): Option<seq<Managed>> {
    match r case None => None case Some(ms) => Some([m] + ms)
  }

  /** The open block after a line that is no marker. */
  function NextOpen(l: string, open: Option<Managed>): Option<Managed> {
    if open.None? || IsProvenance(l) then open else Some(Managed(open.value.id, open.value.rows + [l]))
  }

  /** The scan by contents; `open` is the block being read. */
  function ScanRows(lines: seq<string>, open: Option<Managed>): Option<seq<Managed>> {
    if lines == [] then
      if open.None? then Some([]) else None
    else
      match MarkOf(lines[0])
      case NoMark =>
        ScanRows(lines[1..], NextOpen(lines[0], open))
      case Begin(id) => if open.Some? then None else ScanRows(lines[1..], Some(Managed(id, [])))
      case End(id) =>
        if open.None? || open.value.id != id then None else AddManaged(open.value, ScanRows(lines[1..], None))
  }

  function RowsAt(lines: seq<string>, at: seq<nat>): (r: seq<string>)
    requires ContentInRange(lines, at)
    ensures |r| == |at| && forall k :: 0 <= k < |r| ==> r[k] == lines[at[k]]
  {
    if at == [] then [] else RowsAt(lines, at[..|at| - 1]) + [lines[at[|at| - 1]]]
  }

  lemma {:induction false} ContentIs(lines: seq<string>, j: nat, end: nat)
    requires end <= |lines|
    ensures forall k :: k in Content(lines, j, end) <==> j <= k < end && !IsProvenance(lines[k])
    ensures j <= end < |lines| ==> Content(lines, j, end + 1) == Content(lines, j, end) + (if IsProvenance(lines[end]) then [] else [end])
    decreases end - j
  {
    hide IsProvenance;
    if j < end {
      ContentIs(lines, j + 1, end);
    } else if j == end < |lines| {
      assert Content(lines, j + 1, end + 1) == [];
    }
  }

  predicate ContentInRange(lines: seq<string>, at: seq<nat>) {
    forall k :: 0 <= k < |at| ==> at[k] < |lines|
  }

  predicate InRange(lines: seq<string>, bs: seq<Block>) {
    forall b :: b in bs ==> ContentInRange(lines, b.content)
  }

  function ManagedAll(lines: seq<string>, bs: seq<Block>): (r: seq<Managed>)
    requires InRange(lines, bs)
    ensures |r| == |bs| && forall k :: 0 <= k < |r| ==> bs[k] in bs && r[k] == Managed(bs[k].id, RowsAt(lines, bs[k].content))
  {
    seq(|bs|, k requires 0 <= k < |bs| =>
      assert bs[k] in bs;
      Managed(bs[k].id, RowsAt(lines, bs[k].content)))
  }

  lemma OpenInRange(lines: seq<string>, i: nat, begin: nat)
    requires i <= |lines|
    ensures ContentInRange(lines, Content(lines, begin + 1, i))
  {
    ContentIs(lines, begin + 1, i);
    var at := Content(lines, begin + 1, i);
    forall k | 0 <= k < |at| ensures at[k] < |lines| {
      assert at[k] in at;
    }
  }

  function OpenRows(lines: seq<string>, i: nat, open: Option<Open>): Option<Managed>
    requires i <= |lines|
  {
    match open
    case None => None
    case Some(o) =>
      OpenInRange(lines, i, o.begin);
      Some(Managed(o.id, RowsAt(lines, Content(lines, o.begin + 1, i))))
  }

  /** Blocks come in file order without overlap, each with the lines between its markers. */
  predicate Blocked(lines: seq<string>, i: nat, open: Option<Open>, bs: seq<Block>) {
    && (forall b :: b in bs ==> b.begin < b.end < |lines| && i <= b.end && b.content == Content(lines, b.begin + 1, b.end))
    && (forall a, b :: 0 <= a < b < |bs| ==> bs[a].end < bs[b].begin)
    && (open.Some? ==> bs != [] && bs[0].begin == open.value.begin)
    && forall a :: 0 <= a < |bs| && (a > 0 || open.None?) ==> i <= bs[a].begin
  }

  lemma {:induction false} ScanBlocked(lines: seq<string>, i: nat, open: Option<Open>)
    requires i <= |lines| && (open.Some? ==> open.value.begin < i) && Scan(lines, i, open).Ok?
    ensures Blocked(lines, i, open, Scan(lines, i, open).value)
    decreases |lines| - i
  {
    hide MarkOf; hide Content;
    if i < |lines| {
      match MarkOf(lines[i]) {
        case NoMark => ScanBlocked(lines, i + 1, open);
        case Begin(id) =>
          ScanBlocked(lines, i + 1, Some(Open(id, i)));
        case End(id) =>
          ScanBlocked(lines, i + 1, None);
      }
    }
  }

  lemma BlockedInRange(lines: seq<string>, i: nat, open: Option<Open>, bs: seq<Block>)
    requires Blocked(lines, i, open, bs)
    ensures InRange(lines, bs)
  {
    forall b | b in bs ensures ContentInRange(lines, b.content) {
      ContentIs(lines, b.begin + 1, b.end);
      forall k | 0 <= k < |b.content| ensures b.content[k] < |lines| {
        assert b.content[k] in b.content;
      }
    }
  }

  lemma NextOpenRows(lines: seq<string>, i: nat, open: Option<Open>)
    requires i < |lines| && (open.Some? ==> open.value.begin < i)
    ensures OpenRows(lines, i + 1, open) == NextOpen(lines[i], OpenRows(lines, i, open))
  {
    hide IsProvenance;
    if open.Some? {
      ContentIs(lines, open.value.begin + 1, i);
      ContentIs(lines, open.value.begin + 1, i + 1);
      var c := Content(lines, open.value.begin + 1, i);
      hide Content;
      assert !IsProvenance(lines[i]) ==> (c + [i])[..|c|] == c;
      assert c + [] == c;
    }
  }

  lemma ScanInRange(lines: seq<string>, i: nat, open: Option<Open>)
    requires i <= |lines| && (open.Some? ==> open.value.begin < i) && Scan(lines, i, open).Ok?
    ensures InRange(lines, Scan(lines, i, open).value)
  {
    hide InRange; hide Scan; hide Blocked;
    ScanBlocked(lines, i, open);
    BlockedInRange(lines, i, open, Scan(lines, i, open).value);
  }

  function Held(lines: seq<string>, r: Scanned): Option<seq<Managed>>
    requires r.Ok? ==> InRange(lines, r.value)
  {
    if r.Err? then None else Some(ManagedAll(lines, r.value))
  }

  lemma HeldCons(lines: seq<string>, b: Block, r: Scanned)
    requires r.Ok? ==> InRange(lines, r.value)
    requires ContentInRange(lines, b.content)
    ensures r.Ok? ==> InRange(lines, [b] + r.value)
    ensures Held(lines, AddBlock(b, r)) == AddManaged(Managed(b.id, RowsAt(lines, b.content)), Held(lines, r))
  {
    hide RowsAt;
    if r.Ok? {
      var all := [b] + r.value;
      assert all[0] == b && forall x :: x in r.value ==> x in all;
      assert ManagedAll(lines, all) == [Managed(b.id, RowsAt(lines, b.content))] + ManagedAll(lines, r.value);
    }
  }

  lemma ScanStep(lines: seq<string>, i: nat, open: Option<Open>)
    requires i < |lines|
    ensures Scan(lines, i, open) ==
      match MarkOf(lines[i])
      case NoMark => Scan(lines, i + 1, open)
      case Begin(id) =>
        if open.Some? then Err(Nested(id, i + 1)) else Scan(lines, i + 1, Some(Open(id, i)))
      case End(id) =>
        if open.None? || open.value.id != id then Err(Unmatched(id, i + 1))
        else AddBlock(Block(id, open.value.begin, i, Content(lines, open.value.begin + 1, i)), Scan(lines, i + 1, None))
    ensures lines[i..][1..] == lines[i + 1..] && lines[i..][0] == lines[i] && lines[i..] != []
  {
    hide MarkOf; hide Content;
  }

  lemma FreshOpen(lines: seq<string>, i: nat, id: nat)
    requires i < |lines|
    ensures OpenRows(lines, i + 1, Some(Open(id, i))) == Some(Managed(id, []))
  {
  }

  lemma ScanEnd(lines: seq<string>, open: Option<Open>)
    ensures Scan(lines, |lines|, open).Ok? <==> open.None?
    ensures open.None? ==> Scan(lines, |lines|, open).value == []
    ensures lines[|lines|..] == []
  {
  }

  /** Both scans agree on every file. */
  lemma {:induction false} ScansAgree(lines: seq<string>, i: nat, open: Option<Open>)
    requires i <= |lines| && (open.Some? ==> open.value.begin < i)
    ensures Scan(lines, i, open).Ok? ==> InRange(lines, Scan(lines, i, open).value)
    ensures ScanRows(lines[i..], OpenRows(lines, i, open)) == Held(lines, Scan(lines, i, open))
    decreases |lines| - i
  {
    hide MarkOf; hide IsProvenance; hide Scan; hide Content; hide RowsAt; hide InRange; hide AddBlock; hide AddManaged;
    hide ContentInRange;
    if Scan(lines, i, open).Ok? {
      ScanInRange(lines, i, open);
    }
    if i < |lines| {
      ScanStep(lines, i, open);
      match MarkOf(lines[i]) {
        case NoMark =>
          NextOpenRows(lines, i, open);
          ScansAgree(lines, i + 1, open);
        case Begin(id) =>
          if open.None? {
            FreshOpen(lines, i, id);
            ScansAgree(lines, i + 1, Some(Open(id, i)));
          }
        case End(id) =>
          if open.Some? && open.value.id == id {
            ScansAgree(lines, i + 1, None);
            OpenInRange(lines, i, open.value.begin);
            HeldCons(lines, Block(id, open.value.begin, i, Content(lines, open.value.begin + 1, i)), Scan(lines, i + 1, None));
          }
      }
    } else {
      ScanEnd(lines, open);
    }
  }

  // ------------------------------------------------------------------- wrapping rows

  /** Some lines wrapped in markers of their own. */
  function Wrap(lines: seq<string>, ids: seq<Option<nat>>): seq<string>
    requires |ids| == |lines|
  {
    if lines == [] then []
    else
      (if ids[0].None? then [lines[0]] else [BeginLine(ids[0].value), lines[0], EndLine(ids[0].value)])
      + Wrap(lines[1..], ids[1..])
  }

  /** The new blocks. */
  function Singles(lines: seq<string>, ids: seq<Option<nat>>): seq<Managed>
    requires |ids| == |lines|
  {
    if lines == [] then []
    else (if ids[0].None? then [] else [Managed(ids[0].value, [lines[0]])]) + Singles(lines[1..], ids[1..])
  }

  /** Some wrapped line stands inside a block. */
  predicate Clash(lines: seq<string>, ids: seq<Option<nat>>, open: bool)
    requires |ids| == |lines|
  {
    if lines == [] then false
    else
      var mark := MarkOf(lines[0]);
      if mark.NoMark? then (open && ids[0].Some?) || Clash(lines[1..], ids[1..], open)
      else Clash(lines[1..], ids[1..], mark.Begin?)
  }

  /** Only plain rows are wrapped. */
  predicate PlainRows(lines: seq<string>, ids: seq<Option<nat>>)
    requires |ids| == |lines|
  {
    forall k :: 0 <= k < |lines| && ids[k].Some? ==> MarkOf(lines[k]) == NoMark && !IsProvenance(lines[k])
  }

  lemma ScanRowsCons(l: string, rest: seq<string>, open: Option<Managed>)
    ensures ScanRows([l] + rest, open) ==
      var mark := MarkOf(l);
      if mark.NoMark? then ScanRows(rest, NextOpen(l, open))
      else if mark.Begin? then (if open.Some? then None else ScanRows(rest, Some(Managed(mark.id, []))))
      else if open.None? || open.value.id != mark.id then None
      else AddManaged(open.value, ScanRows(rest, None))
  {
    hide MarkOf; hide IsProvenance; hide AddManaged;
    assert ([l] + rest)[1..] == rest;
  }

  /** A wrapped row reads as one block when no block is open, and breaks an open one. */
  lemma WrappedRow(id: nat, l: string, rest: seq<string>, open: Option<Managed>)
    requires MarkOf(l) == NoMark && !IsProvenance(l)
    ensures ScanRows([BeginLine(id), l, EndLine(id)] + rest, open) ==
      if open.Some? then None else AddManaged(Managed(id, [l]), ScanRows(rest, None))
  {
    hide MarkOf; hide IsProvenance; hide ScanRows; hide AddManaged; hide BeginLine; hide EndLine;
    BeginMarks(id);
    EndMarks(id);
    var b, e := BeginLine(id), EndLine(id);
    assert [b, l, e] + rest == [b] + ([l] + ([e] + rest));
    ScanRowsCons(b, [l] + ([e] + rest), open);
    ScanRowsCons(l, [e] + rest, Some(Managed(id, [])));
    ScanRowsCons(e, rest, Some(Managed(id, [l])));
    assert [] + [l] == [l];
  }

  predicate SameBlocks(a: Option<seq<Managed>>, b: Option<seq<Managed>>, extra: seq<Managed>) {
    a.Some? && b.Some? && multiset(a.value) == multiset(b.value) + multiset(extra)
  }

  lemma SameBlocksAdd(m: Managed, a: Option<seq<Managed>>, b: Option<seq<Managed>>, extra: seq<Managed>)
    requires SameBlocks(a, b, extra)
    ensures SameBlocks(AddManaged(m, a), AddManaged(m, b), extra)
    ensures SameBlocks(AddManaged(m, a), b, [m] + extra)
  {
  }

  lemma WrapStep(lines: seq<string>, ids: seq<Option<nat>>)
    requires |ids| == |lines| && lines != []
    ensures Wrap(lines, ids) ==
      (if ids[0].None? then [lines[0]] else [BeginLine(ids[0].value), lines[0], EndLine(ids[0].value)])
      + Wrap(lines[1..], ids[1..])
    ensures ids[0].None? ==> Singles(lines, ids) == Singles(lines[1..], ids[1..])
    ensures ids[0].Some? ==> Singles(lines, ids) == [Managed(ids[0].value, [lines[0]])] + Singles(lines[1..], ids[1..])
    ensures lines == [lines[0]] + lines[1..]
  {
    hide MarkOf; hide IsProvenance; hide BeginLine; hide EndLine;
    assert [] + Singles(lines[1..], ids[1..]) == Singles(lines[1..], ids[1..]);
  }

  lemma PlainTail(lines: seq<string>, ids: seq<Option<nat>>)
    requires |ids| == |lines| && lines != [] && PlainRows(lines, ids)
    ensures PlainRows(lines[1..], ids[1..])
    ensures ids[0].Some? ==> MarkOf(lines[0]) == NoMark && !IsProvenance(lines[0])
  {
    hide MarkOf; hide IsProvenance;
  }

  /** The wrapped text scans exactly when no wrapped row stands inside a block; its blocks are
      then the old ones and one for each wrapped row. */
  lemma {:induction false} WrapScans(lines: seq<string>, ids: seq<Option<nat>>, open: Option<Managed>)
    requires |ids| == |lines| && PlainRows(lines, ids) && ScanRows(lines, open).Some?
    ensures Clash(lines, ids, open.Some?) ==> ScanRows(Wrap(lines, ids), open).None?
    ensures !Clash(lines, ids, open.Some?) ==>
      SameBlocks(ScanRows(Wrap(lines, ids), open), ScanRows(lines, open), Singles(lines, ids))
    decreases |lines|, 0
  {
    hide MarkOf; hide IsProvenance; hide BeginLine; hide EndLine; hide PlainRows; hide Wrap; hide Singles;
    hide AddManaged; hide SameBlocks; hide ScanRows;
    if lines != [] {
      WrapStep(lines, ids);
      PlainTail(lines, ids);
      var l, rest, wrapped := lines[0], lines[1..], Wrap(lines[1..], ids[1..]);
      ScanRowsCons(l, rest, open);
      if ids[0].Some? {
        WrappedRow(ids[0].value, l, wrapped, open);
        if open.None? {
          WrapScans(rest, ids[1..], None);
          AddedNone(Managed(ids[0].value, [l]), ScanRows(wrapped, None));
          if !Clash(rest, ids[1..], false) {
            SameBlocksAdd(Managed(ids[0].value, [l]), ScanRows(wrapped, None), ScanRows(rest, None), Singles(rest, ids[1..]));
          }
        }
      } else {
        PlainLineScans(l, rest, ids[1..], open);
        ScanRowsCons(l, wrapped, open);
      }
    } else {
      EmptyScans(ids, open);
    }
  }

  lemma AddedNone(m: Managed, r: Option<seq<Managed>>)
    ensures AddManaged(m, r).None? <==> r.None?
  {
  }

  lemma EmptyScans(ids: seq<Option<nat>>, open: Option<Managed>)
    requires ids == [] && ScanRows([], open).Some?
    ensures SameBlocks(ScanRows(Wrap([], ids), open), ScanRows([], open), Singles([], ids))
  {
  }

  lemma {:induction false} PlainLineScans(l: string, rest: seq<string>, ids: seq<Option<nat>>, open: Option<Managed>)
    requires |ids| == |rest| && PlainRows(rest, ids) && ScanRows([l] + rest, open).Some?
    ensures MarkOf(l).NoMark? ==>
      (Clash(rest, ids, open.Some?) ==> ScanRows([l] + Wrap(rest, ids), open).None?) &&
      (!Clash(rest, ids, open.Some?) ==> SameBlocks(ScanRows([l] + Wrap(rest, ids), open), ScanRows([l] + rest, open), Singles(rest, ids)))
    ensures MarkOf(l).Begin? ==>
      (Clash(rest, ids, true) ==> ScanRows([l] + Wrap(rest, ids), open).None?) &&
      (!Clash(rest, ids, true) ==> SameBlocks(ScanRows([l] + Wrap(rest, ids), open), ScanRows([l] + rest, open), Singles(rest, ids)))
    ensures MarkOf(l).End? ==>
      (Clash(rest, ids, false) ==> ScanRows([l] + Wrap(rest, ids), open).None?) &&
      (!Clash(rest, ids, false) ==> SameBlocks(ScanRows([l] + Wrap(rest, ids), open), ScanRows([l] + rest, open), Singles(rest, ids)))
    decreases |rest|, 1
  {
    hide MarkOf; hide IsProvenance; hide PlainRows; hide Wrap; hide Singles; hide SameBlocks; hide ScanRows; hide Clash;
    hide AddManaged;
    ScanRowsCons(l, rest, open);
    ScanRowsCons(l, Wrap(rest, ids), open);
    var mark := MarkOf(l);
    if mark.NoMark? {
      WrapScans(rest, ids, NextOpen(l, open));
    } else if mark.Begin? {
      WrapScans(rest, ids, Some(Managed(mark.id, [])));
    } else {
      AddedNone(open.value, ScanRows(rest, None));
      AddedNone(open.value, ScanRows(Wrap(rest, ids), None));
      WrapScans(rest, ids, None);
      if !Clash(rest, ids, false) {
        SameBlocksAdd(open.value, ScanRows(Wrap(rest, ids), None), ScanRows(rest, None), Singles(rest, ids));
      }
    }
  }
}
