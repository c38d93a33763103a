/** Adopting changed rows into managed blocks: fresh ids, what a later scan finds, and exactly
    when it still succeeds. */
module AptAdopt {
  import opened Wrappers
  import opened Text
  import opened AptModel
  import opened AptScheme
  import opened AptFlip
  import opened AptRewrite
  import opened AptSurgery
  import opened AptVerify
  import opened AptProcess
  import opened AptBlocks

  // ------------------------------------------------------------- rows are plain lines

  lemma ProvenanceHead(line: string)
    requires IsProvenance(line)
    ensures |line| > 2 && line[0] == '#' && line[1] == ' ' && line[2] == 's'
  {
    var p := line[..10];
    assert line[0] == p[0] && line[1] == p[1] && line[2] == p[2];
  }

  /** A line the planner changes is no marker and no provenance line, before or after. */
  lemma RowIsPlain(raw: string, fmt: Format, target: Scheme)
    requires NewLine(raw, fmt, target).Some?
    ensures MarkOf(raw) == NoMark && !IsProvenance(raw)
  {
    hide NewLine; hide IsProvenance;
    if StartsWith(raw, PREFIX) {
      PrefixNoRow(raw, fmt, target);
    }
    if IsProvenance(raw) {
      ProvenanceHead(raw);
      CommentNotFound(raw);
    }
  }

  lemma FoundIsRow(line: string)
    requires FindUri(line).Some?
    ensures MarkOf(line) == NoMark && !IsProvenance(line)
  {
    hide IsProvenance; hide FindUri;
    if StartsWith(line, PREFIX) {
      PrefixHead(line);
      CommentNotFound(line);
    }
    if IsProvenance(line) {
      ProvenanceHead(line);
      CommentNotFound(line);
    }
  }

  lemma ChangedIsPlain(raw: string, fmt: Format, target: Scheme)
    requires NewLine(raw, fmt, target).Some?
    ensures MarkOf(NewLine(raw, fmt, target).value) == NoMark && !IsProvenance(NewLine(raw, fmt, target).value)
  {
    hide FlipClassicLine; hide FlipDeb822Line; hide ParseClassicLine; hide FindUri; hide MarkOf; hide IsProvenance;
    hide FlipOrAll; hide Words; hide AllWords; hide OneLine;
    if fmt.Classic? {
      LineFlips(raw, target);
      FoundIsRow(FlipClassicLine(raw, target).value);
    } else {
      UrisSettle(raw, target);
      FlipLineParts(raw, target);
      var l := FlipDeb822Line(raw, target).value;
      assert l[0] == 'U';
      if IsProvenance(l) {
        ProvenanceHead(l);
      }
    }
  }

  // -------------------------------------------------------------- the changed text

  function Changed(lines: seq<string>, byLine: map<nat, string>): (r: seq<string>)
    ensures |r| == |lines| && forall i :: 0 <= i < |r| ==> r[i] == if i in byLine then byLine[i] else lines[i]
  {
    seq(|lines|, i requires 0 <= i < |lines| => if i in byLine then byLine[i] else lines[i])
  }

  function Given(adopt: map<nat, nat>, n: nat): (r: seq<Option<nat>>)
    ensures |r| == n && forall i :: 0 <= i < n ==> r[i] == if i in adopt then Some(adopt[i]) else None
  {
    seq(n, i requires 0 <= i < n => if i in adopt then Some(adopt[i]) else None)
  }

  lemma {:induction false} RenderedWraps(lines: seq<string>, byLine: map<nat, string>, adopt: map<nat, nat>, i: nat)
    requires i <= |lines|
    ensures Rendered(lines, byLine, adopt, i) == Wrap(Changed(lines, byLine)[i..], Given(adopt, |lines|)[i..])
    decreases |lines| - i
  {
    hide BeginLine; hide EndLine; hide Changed; hide Given;
    if i < |lines| {
      RenderedWraps(lines, byLine, adopt, i + 1);
      var a, b := Changed(lines, byLine), Given(adopt, |lines|);
      assert a[i..][1..] == a[i + 1..] && b[i..][1..] == b[i + 1..];
    }
  }

  predicate SameMarks(a: seq<string>, b: seq<string>) {
    |a| == |b| && forall i :: 0 <= i < |a| ==> MarkOf(a[i]) == MarkOf(b[i]) && IsProvenance(a[i]) == IsProvenance(b[i])
  }

  lemma ChangedMarks(lines: seq<string>, byLine: map<nat, string>, fmt: Format, target: Scheme)
    requires RowsMatch(lines, byLine, fmt, target)
    ensures SameMarks(lines, Changed(lines, byLine))
    ensures forall i :: 0 <= i < |lines| && i in byLine ==> MarkOf(Changed(lines, byLine)[i]) == NoMark && !IsProvenance(Changed(lines, byLine)[i])
  {
    hide MarkOf; hide IsProvenance; hide NewLine; hide Changed;
    forall i | 0 <= i < |lines|
      ensures MarkOf(lines[i]) == MarkOf(Changed(lines, byLine)[i]) && IsProvenance(lines[i]) == IsProvenance(Changed(lines, byLine)[i])
      ensures i in byLine ==> MarkOf(Changed(lines, byLine)[i]) == NoMark && !IsProvenance(Changed(lines, byLine)[i])
    {
      if i in byLine {
        assert NewLine(lines[i], fmt, target) == Some(byLine[i]);
        RowIsPlain(lines[i], fmt, target);
        ChangedIsPlain(lines[i], fmt, target);
      }
    }
  }

  lemma {:induction false} ContentSame(a: seq<string>, b: seq<string>, j: nat, end: nat)
    requires SameMarks(a, b) && end <= |a|
    ensures Content(a, j, end) == Content(b, j, end)
    decreases end - j
  {
    hide MarkOf; hide IsProvenance;
    if j < end {
      ContentSame(a, b, j + 1, end);
    }
  }

  lemma {:induction false} ScanSame(a: seq<string>, b: seq<string>, i: nat, open: Option<Open>)
    requires SameMarks(a, b) && i <= |a|
    ensures Scan(a, i, open) == Scan(b, i, open)
    decreases |a| - i
  {
    hide MarkOf; hide IsProvenance; hide Content; hide AddBlock; hide Scan;
    if i < |a| {
      ScanStep(a, i, open);
      ScanStep(b, i, open);
      var mark := MarkOf(a[i]);
      assert mark == MarkOf(b[i]);
      if mark.NoMark? {
        ScanSame(a, b, i + 1, open);
      } else if mark.Begin? {
        ScanSame(a, b, i + 1, Some(Open(mark.id, i)));
      } else if open.Some? {
        ScanSame(a, b, i + 1, None);
        ContentSame(a, b, open.value.begin + 1, i);
      }
    } else {
      ScanDone(a, b, open);
    }
  }

  lemma ScanDone(a: seq<string>, b: seq<string>, open: Option<Open>)
    requires |a| == |b|
    ensures Scan(a, |a|, open) == Scan(b, |b|, open)
  {
  }

  // ----------------------------------------------------------------------- clashes

  predicate Inside(b: Block, i: nat) { b.begin < i < b.end }

  predicate Broken(bs: seq<Block>, ids: seq<Option<nat>>, i: nat) {
    exists k, b :: i <= k < |ids| && ids[k].Some? && b in bs && Inside(b, k)
  }

  lemma BrokenStep(bs: seq<Block>, ids: seq<Option<nat>>, i: nat)
    requires i < |ids|
    ensures Broken(bs, ids, i) <==> Broken(bs, ids, i + 1) || (ids[i].Some? && exists b :: b in bs && Inside(b, i))
  {
    hide Inside;
    if Broken(bs, ids, i) && !Broken(bs, ids, i + 1) {
      var k, b :| i <= k < |ids| && ids[k].Some? && b in bs && Inside(b, k);
      assert k == i;
    }
  }

  lemma BrokenCons(b: Block, bs: seq<Block>, ids: seq<Option<nat>>, i: nat)
    requires b.end <= i
    ensures Broken([b] + bs, ids, i) <==> Broken(bs, ids, i)
  {
    forall k, c | i <= k < |ids| && ids[k].Some? && c in [b] + bs && Inside(c, k) ensures c in bs {
    }
    forall c | c in bs ensures c in [b] + bs {
    }
  }

  lemma InsideOpen(lines: seq<string>, i: nat, open: Option<Open>, bs: seq<Block>)
    requires Blocked(lines, i + 1, open, bs)
    requires open.Some? ==> open.value.begin < i
    ensures (exists b :: b in bs && Inside(b, i)) <==> open.Some?
  {
    hide Content;
    if open.Some? {
      assert bs[0] in bs;
      assert Inside(bs[0], i);
    } else {
      forall b | b in bs ensures !Inside(b, i) {
        var a :| 0 <= a < |bs| && bs[a] == b;
      }
    }
  }

  lemma ClashStep(lines: seq<string>, ids: seq<Option<nat>>, i: nat, open: bool)
    requires |ids| == |lines| && i < |lines|
    ensures Clash(lines[i..], ids[i..], open) ==
      var mark := MarkOf(lines[i]);
      if mark.NoMark? then (open && ids[i].Some?) || Clash(lines[i + 1..], ids[i + 1..], open)
      else Clash(lines[i + 1..], ids[i + 1..], mark.Begin?)
  {
    hide MarkOf;
    assert lines[i..][1..] == lines[i + 1..] && ids[i..][1..] == ids[i + 1..];
  }

  /** A wrapped row clashes exactly when it stands inside one of the scanned blocks. */
  lemma {:induction false} ClashInside(lines: seq<string>, ids: seq<Option<nat>>, i: nat, open: Option<Open>)
    requires |ids| == |lines| && i <= |lines| && (open.Some? ==> open.value.begin < i) && Scan(lines, i, open).Ok?
    requires forall k :: 0 <= k < |ids| && ids[k].Some? ==> MarkOf(lines[k]) == NoMark
    ensures Clash(lines[i..], ids[i..], open.Some?) <==> Broken(Scan(lines, i, open).value, ids, i)
    decreases |lines| - i
  {
    hide MarkOf; hide Content; hide Scan; hide Blocked; hide Clash; hide Broken; hide Inside;
    if i < |lines| {
      ScanStep(lines, i, open);
      ClashStep(lines, ids, i, open.Some?);
      var mark := MarkOf(lines[i]);
      var bs := Scan(lines, i, open).value;
      BrokenStep(bs, ids, i);
      if mark.NoMark? {
        ClashInside(lines, ids, i + 1, open);
        ScanBlocked(lines, i + 1, open);
        InsideOpen(lines, i, open, bs);
      } else if mark.Begin? {
        ClashInside(lines, ids, i + 1, Some(Open(mark.id, i)));
      } else {
        ClashInside(lines, ids, i + 1, None);
        BrokenCons(Block(mark.id, open.value.begin, i, Content(lines, open.value.begin + 1, i)),
          Scan(lines, i + 1, None).value, ids, i + 1);
      }
    } else {
      NoClash(lines, ids);
      NotBroken(lines, ids, open);
    }
  }

  lemma NoClash(lines: seq<string>, ids: seq<Option<nat>>)
    requires |ids| == |lines|
    ensures forall open :: !Clash(lines[|lines|..], ids[|ids|..], open)
  {
  }

  lemma NotBroken(lines: seq<string>, ids: seq<Option<nat>>, open: Option<Open>)
    requires |ids| == |lines| && Scan(lines, |lines|, open).Ok?
    ensures !Broken(Scan(lines, |lines|, open).value, ids, |lines|)
  {
  }

  // ---------------------------------------------------------------- ids of adopted rows

  predicate HasRow(rows: seq<Row>, i: nat) {
    exists k :: 0 <= k < |rows| && rows[k].lineIdx == i
  }

  predicate InOrder(rows: seq<Row>) {
    forall a, b :: 0 <= a < b < |rows| ==> rows[a].lineIdx < rows[b].lineIdx
  }

  lemma RowsCons(rows: seq<Row>, i: nat)
    requires rows != []
    ensures HasRow(rows, i) <==> rows[0].lineIdx == i || HasRow(rows[1..], i)
    ensures InOrder(rows) ==> InOrder(rows[1..]) && (HasRow(rows[1..], i) ==> rows[0].lineIdx < i)
  {
    if HasRow(rows, i) && rows[0].lineIdx != i {
      var k :| 0 <= k < |rows| && rows[k].lineIdx == i;
      assert rows[1..][k - 1] == rows[k];
    }
    if HasRow(rows[1..], i) {
      var k :| 0 <= k < |rows| - 1 && rows[1..][k].lineIdx == i;
      assert rows[k + 1].lineIdx == i;
    }
  }

  /** Ids go to the rows in no single-row block. */
  lemma {:induction false} AdoptKeys(rows: seq<Row>, single: map<nat, nat>, id: nat, acc: map<nat, nat>, i: nat)
    ensures i in Adopt(rows, single, id, acc) <==> i in acc || (HasRow(rows, i) && i !in single)
    decreases |rows|
  {
    if rows != [] {
      RowsCons(rows, i);
      hide HasRow;
      AdoptKeys(rows[1..], single, id, acc, i);
      AdoptKeys(rows[1..], single, id + 1, acc[rows[0].lineIdx := id], i);
    }
  }

  lemma {:induction false} AdoptKeeps(rows: seq<Row>, single: map<nat, nat>, id: nat, acc: map<nat, nat>, i: nat)
    requires i in acc && !HasRow(rows, i)
    ensures i in Adopt(rows, single, id, acc) && Adopt(rows, single, id, acc)[i] == acc[i]
    decreases |rows|
  {
    if rows != [] {
      RowsCons(rows, i);
      hide HasRow;
      AdoptKeeps(rows[1..], single, id, acc, i);
      AdoptKeeps(rows[1..], single, id + 1, acc[rows[0].lineIdx := id], i);
    }
  }

  /** The ids given out start at `id` and grow in file order. */
  lemma {:induction false} AdoptFresh(rows: seq<Row>, single: map<nat, nat>, id: nat, acc: map<nat, nat>, i: nat)
    requires InOrder(rows) && HasRow(rows, i) && i !in single
    ensures i in Adopt(rows, single, id, acc) && id <= Adopt(rows, single, id, acc)[i]
    ensures forall j :: HasRow(rows, j) && j !in single && i < j ==>
      j in Adopt(rows, single, id, acc) && Adopt(rows, single, id, acc)[i] < Adopt(rows, single, id, acc)[j]
    decreases |rows|
  {
    var row, rest := rows[0], rows[1..];
    var skip := row.lineIdx in single;
    var next := if skip then acc else acc[row.lineIdx := id];
    var from := if skip then id else id + 1;
    assert Adopt(rows, single, id, acc) == Adopt(rest, single, from, next);
    RowsCons(rows, i);
    hide Adopt; hide InOrder;
    if i == row.lineIdx {
      if HasRow(rest, i) {
        assert false;
      }
      AdoptKeeps(rest, single, from, next, i);
    } else {
      AdoptFresh(rest, single, from, next, i);
    }
    forall j | HasRow(rows, j) && j !in single && i < j
      ensures j in Adopt(rest, single, from, next) && Adopt(rest, single, from, next)[i] < Adopt(rest, single, from, next)[j]
    {
      RowsCons(rows, j);
      if i == row.lineIdx {
        AdoptFresh(rest, single, from, next, j);
      }
    }
  }

  lemma {:induction false} SingleKeys(blocks: seq<Block>)
    ensures forall i :: i in SingleContent(blocks) <==> exists b :: b in blocks && b.content == [i]
  {
    if blocks != [] {
      var front, last := blocks[..|blocks| - 1], blocks[|blocks| - 1];
      SingleKeys(front);
      assert blocks == front + [last];
      forall i ensures i in SingleContent(blocks) <==> exists b :: b in blocks && b.content == [i] {
        if i in SingleContent(blocks) {
          if i in SingleContent(front) {
            var b :| b in front && b.content == [i];
            assert b in blocks;
          } else {
            assert last.content == [i] && last in blocks;
          }
        }
        if b :| b in blocks && b.content == [i] {
          assert b in front || b == last;
        }
      }
    }
  }

  // ------------------------------------------------------------ the file scans again

  /** A changed row stands in a block with other rows. */
  ghost predicate Crowded(rows: seq<Row>, blocks: seq<Block>) {
    exists r, b :: r in rows && b in blocks && Inside(b, r.lineIdx) && |b.content| != 1
  }

  lemma SameBlock(lines: seq<string>, bs: seq<Block>, a: Block, b: Block, i: nat)
    requires Blocked(lines, 0, None, bs) && a in bs && b in bs && Inside(a, i) && Inside(b, i)
    ensures a == b
  {
    hide Content;
    var x :| 0 <= x < |bs| && bs[x] == a;
    var y :| 0 <= y < |bs| && bs[y] == b;
  }

  lemma ContentInside(lines: seq<string>, bs: seq<Block>, b: Block, i: nat)
    requires Blocked(lines, 0, None, bs) && b in bs && i < |lines| && !IsProvenance(lines[i])
    ensures i in b.content <==> Inside(b, i)
  {
    hide IsProvenance;
    ContentIs(lines, b.begin + 1, b.end);
  }

  /** The plan for one file: its rows, its blocks and the ids of the adopted rows. */
  ghost predicate PlanOf(lines: seq<string>, fmt: Format, target: Scheme, rows: seq<Row>, blocks: seq<Block>, adopt: map<nat, nat>) {
    && rows == RowsFrom(lines, fmt, target, 0)
    && Scan(lines, 0, None) == Ok(blocks)
    && adopt == Adopt(rows, SingleContent(blocks), MaxId(blocks) + 1, map[])
  }

  lemma PlanFacts(lines: seq<string>, fmt: Format, target: Scheme, rows: seq<Row>, blocks: seq<Block>, adopt: map<nat, nat>)
    requires PlanOf(lines, fmt, target, rows, blocks, adopt)
    ensures Blocked(lines, 0, None, blocks) && InOrder(rows)
    ensures forall r :: r in rows ==> r.lineIdx < |lines| && !IsProvenance(lines[r.lineIdx]) && MarkOf(lines[r.lineIdx]) == NoMark
    ensures forall i :: i in adopt <==> HasRow(rows, i) && i !in SingleContent(blocks)
  {
    hide NewLine; hide IsProvenance; hide MarkOf; hide Adopt; hide RowsFrom; hide Scan; hide Blocked; hide HasRow;
    ScanBlocked(lines, 0, None);
    PlannedRows(lines, fmt, target, 0);
    forall r | r in rows ensures r.lineIdx < |lines| && !IsProvenance(lines[r.lineIdx]) && MarkOf(lines[r.lineIdx]) == NoMark {
      RowIsPlain(lines[r.lineIdx], fmt, target);
    }
    forall i ensures i in adopt <==> HasRow(rows, i) && i !in SingleContent(blocks) {
      AdoptKeys(rows, SingleContent(blocks), MaxId(blocks) + 1, map[], i);
    }
  }

  /** The fallback for rows in multi-row blocks can never be chosen: every planned row is
      adopted or is alone in its block. */
  lemma FallbackUnreachable(lines: seq<string>, fmt: Format, target: Scheme, rows: seq<Row>, blocks: seq<Block>, adopt: map<nat, nat>)
    requires PlanOf(lines, fmt, target, rows, blocks, adopt)
    ensures forall r :: r in rows ==> r.lineIdx in adopt || r.lineIdx in SingleContent(blocks)
  {
    hide PlanOf; hide SingleContent; hide Blocked; hide InOrder; hide IsProvenance; hide MarkOf;
    PlanFacts(lines, fmt, target, rows, blocks, adopt);
    forall r | r in rows ensures HasRow(rows, r.lineIdx) {
      var k :| 0 <= k < |rows| && rows[k] == r;
    }
  }

  /** Ids of adopted rows are new and pairwise different. */
  lemma FreshIds(lines: seq<string>, fmt: Format, target: Scheme, rows: seq<Row>, blocks: seq<Block>, adopt: map<nat, nat>)
    requires PlanOf(lines, fmt, target, rows, blocks, adopt)
    ensures forall i, b :: i in adopt && b in blocks ==> b.id < adopt[i]
    ensures forall i, j :: i in adopt && j in adopt && i < j ==> adopt[i] < adopt[j]
  {
    PlanFacts(lines, fmt, target, rows, blocks, adopt);
    hide NewLine; hide IsProvenance; hide MarkOf; hide Adopt; hide RowsFrom; hide Scan; hide Blocked; hide HasRow; hide SingleContent;
    forall i | i in adopt
      ensures MaxId(blocks) + 1 <= adopt[i]
      ensures forall j :: j in adopt && i < j ==> adopt[i] < adopt[j]
    {
      AdoptFresh(rows, SingleContent(blocks), MaxId(blocks) + 1, map[], i);
    }
  }

  lemma BrokenIsCrowded(lines: seq<string>, fmt: Format, target: Scheme, rows: seq<Row>, blocks: seq<Block>, adopt: map<nat, nat>)
    requires PlanOf(lines, fmt, target, rows, blocks, adopt)
    ensures Broken(blocks, Given(adopt, |lines|), 0) <==> Crowded(rows, blocks)
  {
    hide PlanOf; hide SingleContent; hide InOrder; hide IsProvenance; hide MarkOf; hide Blocked; hide Given; hide Inside;
    PlanFacts(lines, fmt, target, rows, blocks, adopt);
    SingleKeys(blocks);
    var ids := Given(adopt, |lines|);
    if Broken(blocks, ids, 0) {
      var k, b :| 0 <= k < |ids| && ids[k].Some? && b in blocks && Inside(b, k);
      var n :| 0 <= n < |rows| && rows[n].lineIdx == k;
      assert rows[n] in rows;
      ContentInside(lines, blocks, b, k);
      assert |b.content| == 1 ==> b.content == [k];
    }
    if Crowded(rows, blocks) {
      var r, b :| r in rows && b in blocks && Inside(b, r.lineIdx) && |b.content| != 1;
      var n :| 0 <= n < |rows| && rows[n] == r;
      assert HasRow(rows, r.lineIdx);
      if r.lineIdx in SingleContent(blocks) {
        var c :| c in blocks && c.content == [r.lineIdx];
        ContentInside(lines, blocks, c, r.lineIdx);
        SameBlock(lines, blocks, b, c, r.lineIdx);
      }
      assert ids[r.lineIdx].Some?;
    }
  }

  lemma PlainGiven(lines: seq<string>, byLine: map<nat, string>, fmt: Format, target: Scheme, adopt: map<nat, nat>)
    requires RowsMatch(lines, byLine, fmt, target) && forall i :: i in adopt ==> i in byLine
    ensures PlainRows(Changed(lines, byLine), Given(adopt, |lines|))
  {
    hide MarkOf; hide IsProvenance; hide NewLine; hide Changed; hide Given; hide RowsMatch;
    ChangedMarks(lines, byLine, fmt, target);
  }

  lemma ScanWhole(lines: seq<string>)
    ensures Scan(lines, 0, None).Ok? ==> InRange(lines, Scan(lines, 0, None).value)
    ensures ScanRows(lines, None) == Held(lines, Scan(lines, 0, None))
  {
    hide Scan; hide ScanRows; hide InRange; hide Held;
    assert lines[0..] == lines;
    ScansAgree(lines, 0, None);
  }

  /** The rewritten file scans again exactly when no changed row stands in a multi-row block. */
  lemma RescanExact(text: string, fmt: Format, target: Scheme, rows: seq<Row>, blocks: seq<Block>, adopt: map<nat, nat>)
    requires PlanOf(Split(text, '\n'), fmt, target, rows, blocks, adopt)
    ensures Scan(Split(RewrittenText(text, fmt, target, adopt), '\n'), 0, None).Ok? <==> !Crowded(rows, blocks)
    ensures var lines := Split(text, '\n'); var changed := Changed(lines, RowMap(rows));
      var after := ScanRows(Split(RewrittenText(text, fmt, target, adopt), '\n'), None);
      InRange(changed, blocks) &&
      (!Crowded(rows, blocks) ==> SameBlocks(after, Some(ManagedAll(changed, blocks)), Singles(changed, Given(adopt, |lines|))))
  {
    hide MarkOf; hide IsProvenance; hide NewLine; hide Given; hide RowsMatch; hide Split; hide RewrittenText; hide Rendered;
    hide RowMap; hide RowsFrom; hide Scan; hide ScanRows; hide Adopt; hide SingleContent; hide Crowded; hide Broken; hide Clash;
    hide PlainRows; hide Wrap; hide Singles; hide SameMarks; hide InRange; hide HasRow; hide InOrder; hide Blocked;
    var lines := Split(text, '\n');
    var byLine := RowMap(rows);
    var changed, ids := Changed(lines, byLine), Given(adopt, |lines|);
    RewrittenLines(text, fmt, target, adopt);
    RenderedWraps(lines, byLine, adopt, 0);
    assert changed[0..] == changed && ids[0..] == ids;
    ChangedMarks(lines, byLine, fmt, target);
    ScanSame(lines, changed, 0, None);
    ScanWhole(changed);
    PlanFacts(lines, fmt, target, rows, blocks, adopt);
    AdoptInRows(rows, adopt);
    PlainGiven(lines, byLine, fmt, target, adopt);
    WrapScans(changed, ids, None);
    ClashInside(changed, ids, 0, None);
    BrokenIsCrowded(lines, fmt, target, rows, blocks, adopt);
    ScanWhole(Wrap(changed, ids));
  }

  lemma AdoptInRows(rows: seq<Row>, adopt: map<nat, nat>)
    requires forall i :: i in adopt ==> HasRow(rows, i)
    ensures forall i :: i in adopt ==> i in RowMap(rows)
  {
    hide RowMap;
    RowMapKeys(rows);
  }

  // ---------------------------------------------------------------- rows flip back

  function Other(t: Scheme): Scheme {
    if t.Http? then Https else Http
  }

  lemma FlipsBack(u: string, target: Scheme)
    requires FlipUri(u, target).Some?
    ensures FlipUri(FlipUri(u, target).value, Other(target)).Some?
  {
    var f := FlipUri(u, target).value;
    var head := Name(target) + "://";
    assert f[..|head|] == head;
    if target.Https? {
      assert f[4] == head[4] == 's';
      assert !StartsWith(f, "http://") by {
        assert |f| >= 7 ==> f[..7][4] == f[4];
      }
    }
  }

  lemma ClassicFlipsBack(raw: string, target: Scheme)
    requires FlipClassicLine(raw, target).Some?
    ensures FlipClassicLine(FlipClassicLine(raw, target).value, Other(target)).Some?
  {
    FoundFlip(raw, target);
    hide FlipClassicLine; hide FlipUri; hide FindUri; hide Head; hide ShapeOk;
    var sh, u, b := ShapeOf(raw);
    FlippedLine(sh, u, b, target);
    FlipFacts(u, target);
    FlipsBack(u, target);
    var f := FlipUri(u, target).value;
    ShapeFind(sh, f, b);
    FlippedLine(sh, f, b, Other(target));
  }

  lemma Deb822FlipsBack(raw: string, target: Scheme)
    requires FlipDeb822Line(raw, target).Some?
    ensures FlipDeb822Line(FlipDeb822Line(raw, target).value, Other(target)).Some?
  {
    FlipLineParts(raw, target);
    var vals := Words(DropOneBlank(raw[5..]), SpaceComma);
    assert AnyFlips(vals, target);
    hide FlipDeb822Line; hide OneLine; hide Words; hide Join; hide FlipOrAll; hide FlipUri;
    SomeFlipsBack(vals, target);
    PrintedFlips(FlipDeb822Line(raw, target).value, FlipOrAll(vals, target), Other(target));
  }

  lemma SomeFlipsBack(vals: seq<string>, target: Scheme)
    requires AnyFlips(vals, target)
    ensures AnyFlips(FlipOrAll(vals, target), Other(target))
  {
    hide FlipUri;
    var i :| 0 <= i < |vals| && FlipUri(vals[i], target).Some?;
    FlipsBack(vals[i], target);
    assert FlipUri(FlipOrAll(vals, target)[i], Other(target)).Some?;
  }

  lemma PrintedFlips(l: string, vals: seq<string>, target: Scheme)
    requires AllWords(vals, SpaceComma) && l == "URIs: " + Join(vals, " ") && AnyFlips(vals, target)
    ensures FlipDeb822Line(l, target).Some?
  {
    hide Words; hide Join; hide FlipOrAll; hide AnyFlips; hide OneLine; hide AllWords; hide MarkOf;
    UrisPrinted(vals);
  }

  /** A changed row changes again towards the other scheme. */
  lemma RowFlipsBack(raw: string, fmt: Format, target: Scheme)
    requires NewLine(raw, fmt, target).Some?
    ensures NewLine(NewLine(raw, fmt, target).value, fmt, Other(target)).Some?
  {
    hide FlipClassicLine; hide FlipDeb822Line;
    match fmt {
      case Classic => ClassicFlipsBack(raw, target);
      case Deb822 => Deb822FlipsBack(raw, target);
    }
  }

  lemma {:induction false} RenderedHolds(lines: seq<string>, byLine: map<nat, string>, adopt: map<nat, nat>, i: nat, j: nat)
    requires i <= j < |lines| && j in byLine
    ensures byLine[j] in Rendered(lines, byLine, adopt, i)
    decreases j - i
  {
    hide BeginLine; hide EndLine;
    if i < j {
      RenderedHolds(lines, byLine, adopt, i + 1, j);
    }
    assert i == j ==> byLine[j] in Group(lines, byLine, adopt, i);
  }

  /** A rewritten file with a changed row holds rows to change back. */
  lemma RewrittenFlipsBack(text: string, fmt: Format, target: Scheme, adopt: map<nat, nat>)
    requires RowsFrom(Split(text, '\n'), fmt, target, 0) != []
    ensures RowsFrom(Split(RewrittenText(text, fmt, target, adopt), '\n'), fmt, Other(target), 0) != []
  {
    hide Split; hide RewrittenText; hide Rendered; hide RowMap; hide RowsFrom; hide NewLine;
    var lines := Split(text, '\n');
    var rows := RowsFrom(lines, fmt, target, 0);
    var byLine := RowMap(rows);
    RewrittenLines(text, fmt, target, adopt);
    PlannedRows(lines, fmt, target, 0);
    RowMapKeys(rows);
    assert rows[0] in rows;
    var j := rows[0].lineIdx;
    assert NewLine(lines[j], fmt, target) == Some(byLine[j]);
    RowFlipsBack(lines[j], fmt, target);
    RenderedHolds(lines, byLine, adopt, 0, j);
    var after := Rendered(lines, byLine, adopt, 0);
    var k :| 0 <= k < |after| && after[k] == byLine[j];
    EveryRowPlanned(after, fmt, Other(target), 0, k);
  }

  // -------------------------------------------------------------------- one run

  /** What a run leaves in the file, and what it reports. */
  datatype Outcome =
    | Unparsed(error: ParseError)
    | Unscanned(why: ScanError)
    | Idle
    | Flipped(text: string, adopted: nat)
    | Restored(problem: Problem)

  /** The ids `processFileInner` gives to the rows it adopts. */
  function AdoptionOf(lines: seq<string>, fmt: Format, target: Scheme): map<nat, nat>
    requires Scan(lines, 0, None).Ok?
  {
    var blocks := Scan(lines, 0, None).value;
    Adopt(RowsFrom(lines, fmt, target, 0), SingleContent(blocks), MaxId(blocks) + 1, map[])
  }

  /** The file parses and has rows to change. */
  predicate HasWork(text: string, fmt: Format, target: Scheme) {
    Parse(text, fmt).Ok? && RowsFrom(Split(text, '\n'), fmt, target, 0) != []
  }

  /** Its markers are in order as well: a run writes to it. */
  predicate Ready(text: string, fmt: Format, target: Scheme) {
    HasWork(text, fmt, target) && Scan(Split(text, '\n'), 0, None).Ok?
  }

  predicate Rejected(updated: Option<string>, fmt: Format, target: Scheme, expected: nat) {
    updated.None? || Verdict(updated.value, fmt, target, expected).Some?
  }

  /** `processFileInner`. `updated` is the file as the external block editor left it when it
      accepted every row, None when it is missing or failed. */
  method ProcessFile(original: string, fmt: Format, target: Scheme, updated: Option<string>) returns (r: Outcome)
    ensures r.Unparsed? <==> Parse(original, fmt).Err?
    ensures r.Unparsed? ==> Parse(original, fmt) == Err(r.error)
    ensures r.Idle? <==> Parse(original, fmt).Ok? && RowsFrom(Split(original, '\n'), fmt, target, 0) == []
    ensures r.Unscanned? <==> HasWork(original, fmt, target) && Scan(Split(original, '\n'), 0, None).Err?
    ensures r.Unscanned? ==> Scan(Split(original, '\n'), 0, None) == Err(r.why)
    ensures !Ready(original, fmt, target) ==> !r.Restored? && !r.Flipped?
    ensures Ready(original, fmt, target) && r.Flipped? ==> r.adopted == |AdoptionOf(Split(original, '\n'), fmt, target)|
    ensures Ready(original, fmt, target) && r.Restored? ==>
      Verdict(RewrittenText(original, fmt, target, AdoptionOf(Split(original, '\n'), fmt, target)), fmt, target, |Parse(original, fmt).value|)
        == Some(r.problem)
    ensures Ready(original, fmt, target) ==>
      (r.Restored? <==> !AllInSight(original, fmt, target) && Rejected(updated, fmt, target, |Parse(original, fmt).value|))
    ensures r.Flipped? ==> Ready(original, fmt, target) && Verdict(r.text, fmt, target, |Parse(original, fmt).value|).None?
    ensures r.Flipped? && !Rejected(updated, fmt, target, |Parse(original, fmt).value|) ==> r.text == updated.value
    ensures r.Flipped? && Rejected(updated, fmt, target, |Parse(original, fmt).value|) ==>
      r.text == RewrittenText(original, fmt, target, AdoptionOf(Split(original, '\n'), fmt, target))
    ensures r.Flipped? && Rejected(updated, fmt, target, |Parse(original, fmt).value|) ==>
      Parse(r.text, fmt).Ok? && EntriesAfter(Parse(original, fmt).value, Parse(r.text, fmt).value, target)
  {
    hide Scan; hide Split; hide RewrittenText; hide RowsFrom; hide RowMap; hide SingleContent; hide Rendered; hide AllInSight; hide Adopt;
    hide ClassicEntries; hide Deb822Entries; hide FlipEntries; hide Verdict;
    var json: Parsed;
    if fmt.Deb822? {
      json := ParseDeb822(original);
    } else {
      json := ParseClassic(original);
    }
    if json.Err? {
      return Unparsed(json.error);
    }
    var lines := Split(original, '\n');
    var rows := PlanRows(lines, fmt, target);
    if rows == [] {
      return Idle;
    }
    var scanned := ScanBlocks(lines);
    if scanned.Err? {
      return Unscanned(scanned.error);
    }
    var adopt := PlanAdoption(rows, scanned.value);
    var surgical := Render(lines, rows, adopt);
    assert surgical == RewrittenText(original, fmt, target, adopt) by {
      RewrittenIs(original, fmt, target, adopt);
    }
    if updated.Some? {
      var problem := Verify(updated.value, fmt, target, |json.value|);
      if problem.None? {
        return Flipped(updated.value, |adopt|);
      }
    }
    var problem := Verify(surgical, fmt, target, |json.value|);
    RewriteAccepted(original, fmt, target, adopt);
    if problem.Some? {
      return Restored(problem.value);
    }
    RewriteReads(original, fmt, target, adopt);
    return Flipped(surgical, |adopt|);
  }

  lemma RewrittenIs(text: string, fmt: Format, target: Scheme, adopt: map<nat, nat>)
    ensures RewrittenText(text, fmt, target, adopt) ==
      Join(Rendered(Split(text, '\n'), RowMap(RowsFrom(Split(text, '\n'), fmt, target, 0)), adopt, 0), "\n")
  {
  }

  // -------------------------------------------------------------------- two runs

  /** Whether a run over the text puts markers into a block of several lines. */
  ghost predicate Nests(text: string, fmt: Format, target: Scheme)
    requires Scan(Split(text, '\n'), 0, None).Ok?
  {
    Crowded(RowsFrom(Split(text, '\n'), fmt, target, 0), Scan(Split(text, '\n'), 0, None).value)
  }

  /** A run and the next one, whatever the external editor made of the file in either. With the
      same target the next run has nothing to do. Towards the other scheme it stops at the markers
      of a surgical rewrite exactly when the first run nested them; those of the editor are
      first looked at by the next run. */
  method RunTwice(original: string, fmt: Format, target: Scheme, next: Scheme, updated: Option<string>, again: Option<string>)
    returns (first: Outcome, second: Outcome)
    ensures first.Flipped? ==> Ready(original, fmt, target)
    ensures Ready(original, fmt, target) ==>
      (first.Flipped? <==> AllInSight(original, fmt, target) || !Rejected(updated, fmt, target, |Parse(original, fmt).value|))
    ensures first.Flipped? && next == target ==> second.Idle?
    ensures first.Flipped? && next != target && Rejected(updated, fmt, target, |Parse(original, fmt).value|) ==>
      (second.Unscanned? <==> Nests(original, fmt, target))
    ensures first.Flipped? && next != target && !Rejected(updated, fmt, target, |Parse(original, fmt).value|) ==>
      (second.Unscanned? <==> HasWork(updated.value, fmt, next) && Scan(Split(updated.value, '\n'), 0, None).Err?)
  {
    hide Scan; hide Split; hide RewrittenText; hide RowsFrom; hide AllInSight; hide Adopt; hide SingleContent; hide Parse; hide FlipEntries; hide Verdict;
    hide Crowded;
    first := ProcessFile(original, fmt, target, updated);
    second := first;
    if first.Flipped? {
      var lines := Split(original, '\n');
      second := ProcessFile(first.text, fmt, next, again);
      ghost var adopt := AdoptionOf(lines, fmt, target);
      if next == target {
        VerifiedIsIdle(first.text, fmt, target, |Parse(original, fmt).value|);
      } else if Rejected(updated, fmt, target, |Parse(original, fmt).value|) {
        RewrittenFlipsBack(original, fmt, target, adopt);
        RescanExact(original, fmt, target, RowsFrom(lines, fmt, target, 0), Scan(lines, 0, None).value, adopt);
      }
    }
  }

  /** Two rows wrapped by hand in one block, the first to be changed. */
  lemma NestedSample(text: string, raw: string, other: string, target: Scheme)
    requires Split(text, '\n') == [BeginLine(1), raw, other, EndLine(1)]
    requires FlipClassicLine(raw, target).Some? && MarkOf(other) == NoMark && !IsProvenance(other)
    ensures Scan(Split(text, '\n'), 0, None) == Ok([Block(1, 0, 3, [1, 2])]) && Nests(text, Classic, target)
    ensures Scan(Split(RewrittenText(text, Classic, target, AdoptionOf(Split(text, '\n'), Classic, target)), '\n'), 0, None).Err?
  {
    hide MarkOf; hide IsProvenance; hide FlipClassicLine; hide BeginLine; hide EndLine; hide RowsFrom; hide Scan; hide Content; hide Split;
    hide RewrittenText; hide Adopt; hide SingleContent; hide MaxId;
    var lines := Split(text, '\n');
    NestedBlocks(lines, raw, other, target);
    RescanExact(text, Classic, target, RowsFrom(lines, Classic, target, 0), [Block(1, 0, 3, [1, 2])], AdoptionOf(lines, Classic, target));
  }

  lemma NestedBlocks(lines: seq<string>, raw: string, other: string, target: Scheme)
    requires lines == [BeginLine(1), raw, other, EndLine(1)]
    requires FlipClassicLine(raw, target).Some? && MarkOf(other) == NoMark && !IsProvenance(other)
    ensures Scan(lines, 0, None) == Ok([Block(1, 0, 3, [1, 2])])
    ensures Crowded(RowsFrom(lines, Classic, target, 0), [Block(1, 0, 3, [1, 2])])
  {
    hide MarkOf; hide IsProvenance; hide FlipClassicLine; hide BeginLine; hide EndLine; hide RowsFrom; hide Scan; hide Content;
    BeginMarks(1);
    EndMarks(1);
    RowIsPlain(raw, Classic, target);
    EveryRowPlanned(lines, Classic, target, 0, 1);
    ScanStep(lines, 0, None);
    ScanStep(lines, 1, Some(Open(1, 0)));
    ScanStep(lines, 2, Some(Open(1, 0)));
    ScanStep(lines, 3, Some(Open(1, 0)));
    ScanEnd(lines, None);
    TwoRows(lines);
    var b := Block(1, 0, 3, [1, 2]);
    assert [b] + [] == [b] && b in [b] && Inside(b, 1);
  }

  lemma TwoRows(lines: seq<string>)
    requires |lines| == 4 && !IsProvenance(lines[1]) && !IsProvenance(lines[2])
    ensures Content(lines, 1, 3) == [1, 2]
  {
    hide IsProvenance;
    assert Content(lines, 3, 3) == [];
    assert Content(lines, 2, 3) == [2];
  }

  lemma NestedParses(raw: string, other: string)
    requires ParseClassicLine(raw).Ok? && ParseClassicLine(other).Ok?
    ensures ClassicSources([BeginLine(1), raw, other, EndLine(1)]).Some?
  {
    hide ClassicSources; hide ParseClassicLine; hide BeginLine; hide EndLine; hide MarkerLine;
    MarkerForm(1);
    ClassicMarker(1, "begin", [raw, other, EndLine(1)]);
    ClassicStep(raw, [other, EndLine(1)]);
    ClassicStep(other, [EndLine(1)]);
    ClassicMarker(1, "end", []);
    NoClassicSources();
    assert [BeginLine(1), raw, other, EndLine(1)] == [BeginLine(1)] + [raw, other, EndLine(1)];
    assert [raw, other, EndLine(1)] == [raw] + [other, EndLine(1)] && [other, EndLine(1)] == [other] + [EndLine(1)];
    assert [EndLine(1)] == [EndLine(1)] + [];
  }

  /** On such a file the first run writes nested markers and the run back stops on them. */
  method NestedRuns(text: string, raw: string, other: string, target: Scheme, again: Option<string>) returns (first: Outcome, second: Outcome)
    requires Split(text, '\n') == [BeginLine(1), raw, other, EndLine(1)]
    requires FlipClassicLine(raw, target).Some? && MarkOf(other) == NoMark && !IsProvenance(other)
    requires ParseClassicLine(raw).Ok? && ParseClassicLine(other).Ok?
    ensures first.Flipped? && second.Unscanned?
  {
    hide MarkOf; hide IsProvenance; hide FlipClassicLine; hide BeginLine; hide EndLine; hide RowsFrom; hide Scan; hide Split; hide ParseClassicLine;
    hide RewrittenText; hide Parse; hide ClassicSources; hide Verdict;
    first, second := RunTwice(text, Classic, target, Other(target), None, again);
    NestedSample(text, raw, other, target);
    assert Nests(text, Classic, target);
    NestedParses(raw, other);
    ParseOf(text, Classic);
  }
}
