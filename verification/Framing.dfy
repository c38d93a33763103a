/** Newline-delimited JSON frames with a bound, as they stand in files/kanata-dial/protocol.ts. */
module Framing {
  import opened Wrappers
  import Text

  type Bytes = seq<bv8>

  const NEWLINE: bv8 := 10

  /** A parsed JSON value. Objects are maps: the first of two equal keys is lost, as it is when
      JavaScript parses. */
  datatype Json = Null | Bool(b: bool) | Num(n: real) | Str(s: string) | Arr(items: seq<Json>) | Obj(members: map<string, Json>)

  datatype FrameError = TooLong | EmptyFrame | NotJson

  /** How bytes become text and text becomes a value; None where `JSON.parse` throws. */
  datatype Codec = Codec(text: Bytes -> string, parse: string -> Option<Json>)

  predicate NoNewlineUpTo(data: Bytes, n: nat) {
    n <= |data| && NEWLINE !in data[..n]
  }

  function NextNewline(data: Bytes): (n: nat)
    ensures n <= |data| && NoNewlineUpTo(data, n)
    ensures n < |data| ==> data[n] == NEWLINE
  {
    if data == [] || data[0] == NEWLINE then 0
    else
      var m := NextNewline(data[1..]);
      assert data[..1 + m] == [data[0]] + data[1..][..m];
      1 + m
  }

  lemma {:induction false} NextNewlineIs(data: Bytes, n: nat)
    requires n <= |data| && NEWLINE !in data[..n] && (n < |data| ==> data[n] == NEWLINE)
    ensures NextNewline(data) == n
  {
    if n > 0 {
      assert data[0] in data[..n];
      assert data[1..][..n - 1] == data[..n][1..];
      NextNewlineIs(data[1..], n - 1);
    }
  }

  function Decode(c: Codec, frame: Bytes): Result<Json, FrameError> {
    var line := c.text(frame);
    if Text.Trim(line) == "" then Err(EmptyFrame)
    else match c.parse(line) case None => Err(NotJson) case Some(v) => Ok(v)
  }

  /** The messages of the complete frames, and the unfinished rest. */
  type Pushed = Result<(seq<Json>, Bytes), FrameError>

  function Front(v: seq<Json>, r: Pushed): (p: Pushed)
    ensures v == [] ==> p == r
  {
    assert r.Ok? ==> [] + r.value.0 == r.value.0;
    if r.Err? then r else Ok((v + r.value.0, r.value.1))
  }

  function Frames(c: Codec, limit: nat, data: Bytes): Pushed
    decreases |data|
  {
    var end := NextNewline(data);
    if end > limit then Err(TooLong)
    else if end == |data| then Ok(([], data))
    else
      match Decode(c, data[..end])
      case Err(e) => Err(e)
      case Ok(v) => Front([v], Frames(c, limit, data[end + 1..]))
  }

  /** What the reader keeps between pushes: an unfinished frame within the limit. */
  predicate Tail(limit: nat, pending: Bytes) {
    |pending| <= limit && NEWLINE !in pending
  }

  lemma {:induction false} FramesTail(c: Codec, limit: nat, data: Bytes)
    ensures Frames(c, limit, data).Ok? ==> Tail(limit, Frames(c, limit, data).value.1)
    decreases |data|
  {
    var end := NextNewline(data);
    if end < |data| {
      FramesTail(c, limit, data[end + 1..]);
    }
  }

  lemma FrontTwice(a: seq<Json>, b: seq<Json>, r: Pushed)
    ensures Front(a, Front(b, r)) == Front(a + b, r)
  {
    assert r.Ok? ==> a + (b + r.value.0) == a + b + r.value.0;
  }

  /** Reading on from where a push stopped is reading it all at once; when the first part fails
      so does the whole. */
  lemma {:induction false} FramesSplit(c: Codec, limit: nat, a: Bytes, b: Bytes)
    ensures Frames(c, limit, a).Err? ==> Frames(c, limit, a + b).Err?
    ensures Frames(c, limit, a).Ok? ==>
      Frames(c, limit, a + b) == Front(Frames(c, limit, a).value.0, Frames(c, limit, Frames(c, limit, a).value.1 + b))
    decreases |a|
  {
    hide Decode;
    var end := NextNewline(a);
    if end < |a| {
      assert (a + b)[..end] == a[..end];
      NextNewlineIs(a + b, end);
      assert (a + b)[end + 1..] == a[end + 1..] + b;
      FramesSplit(c, limit, a[end + 1..], b);
      var v := Decode(c, a[..end]);
      if v.Ok? && Frames(c, limit, a[end + 1..]).Ok? {
        var r := Frames(c, limit, a[end + 1..]).value;
        FrontTwice([v.value], r.0, Frames(c, limit, r.1 + b));
      }
    } else if end > limit {
      LongStart(a, b);
    }
  }

  lemma LongStart(a: Bytes, b: Bytes)
    requires NextNewline(a) == |a|
    ensures NextNewline(a + b) >= |a|
  {
    assert forall k :: 0 <= k < |a| ==> (a + b)[k] != NEWLINE by { assert a == a[..|a|]; }
  }

  /** Pushing chunk after chunk, stopping at the first that throws. */
  function PushAll(c: Codec, limit: nat, pending: Bytes, chunks: seq<Bytes>): Pushed
    decreases |chunks|
  {
    if chunks == [] then Ok(([], pending))
    else
      match Frames(c, limit, pending + chunks[0])
      case Err(e) => Err(e)
      case Ok(r) => Front(r.0, PushAll(c, limit, r.1, chunks[1..]))
  }

  function Concat(chunks: seq<Bytes>): Bytes {
    if chunks == [] then [] else chunks[0] + Concat(chunks[1..])
  }

  /** Framing does not depend on how the stream is cut: the chunks are accepted exactly when
      one push of the whole is, with the same messages and the same rest, within the limit. */
  lemma {:induction false} ChunkIndependence(c: Codec, limit: nat, pending: Bytes, chunks: seq<Bytes>)
    requires Tail(limit, pending)
    ensures PushAll(c, limit, pending, chunks).Ok? <==> Frames(c, limit, pending + Concat(chunks)).Ok?
    ensures PushAll(c, limit, pending, chunks).Ok? ==>
      PushAll(c, limit, pending, chunks) == Frames(c, limit, pending + Concat(chunks))
      && Tail(limit, PushAll(c, limit, pending, chunks).value.1)
    decreases |chunks|
  {
    if chunks == [] {
      assert pending[..|pending|] == pending;
      NextNewlineIs(pending, |pending|);
      assert pending + Concat(chunks) == pending;
    } else {
      hide Frames;
      var rest := Concat(chunks[1..]);
      assert pending + (chunks[0] + rest) == pending + chunks[0] + rest;
      FramesSplit(c, limit, pending + chunks[0], rest);
      FramesTail(c, limit, pending + chunks[0]);
      var first := Frames(c, limit, pending + chunks[0]);
      if first.Ok? {
        ChunkIndependence(c, limit, first.value.1, chunks[1..]);
      }
    }
  }

  /** Lines as they go over the wire, each ended by the byte 10, and an unfinished one. */
  function Wire(lines: seq<Bytes>, rest: Bytes): Bytes {
    if lines == [] then rest else lines[0] + [10] + Wire(lines[1..], rest)
  }

  /** A line that is one message: within the limit, not blank, and JSON. */
  predicate IsMessage(c: Codec, limit: nat, line: Bytes) {
    |line| <= limit && !Text.Blank(c.text(line)) && c.parse(c.text(line)).Some?
  }

  predicate AllMessages(c: Codec, limit: nat, lines: seq<Bytes>) {
    forall i :: 0 <= i < |lines| ==> IsMessage(c, limit, lines[i])
  }

  predicate ReadsAs(c: Codec, lines: seq<Bytes>, messages: seq<Json>) {
    |messages| == |lines| && forall i :: 0 <= i < |lines| ==> c.parse(c.text(lines[i])) == Some(messages[i])
  }

  /** Whatever lines went over the wire, they are accepted exactly when every one is a message and
      the unfinished one is within the limit; then the messages are the lines' values in order. */
  lemma {:induction false} FramesExact(c: Codec, limit: nat, lines: seq<Bytes>, rest: Bytes)
    requires (forall i :: 0 <= i < |lines| ==> 10 !in lines[i]) && 10 !in rest
    ensures var r := Frames(c, limit, Wire(lines, rest));
      && (r.Ok? <==> AllMessages(c, limit, lines) && |rest| <= limit)
      && (r.Ok? ==> ReadsAs(c, lines, r.value.0) && r.value.1 == rest)
    decreases |lines|
  {
    var data := Wire(lines, rest);
    if lines == [] {
      assert rest[..|rest|] == rest;
      NextNewlineIs(rest, |rest|);
    } else {
      hide IsMessage; hide Decode; hide Frames; hide AllMessages; hide ReadsAs;
      var more := Wire(lines[1..], rest);
      FramesFirst(c, limit, lines[0], more);
      FramesExact(c, limit, lines[1..], rest);
      FirstFrame(c, limit, lines[0]);
      AllCons(c, limit, lines);
      if Decode(c, lines[0]).Ok? && Frames(c, limit, more).Ok? {
        ReadsCons(c, lines, Decode(c, lines[0]).value, Frames(c, limit, more).value.0);
      }
    }
  }

  lemma FramesFirst(c: Codec, limit: nat, line: Bytes, more: Bytes)
    requires 10 !in line
    ensures var r, v, next := Frames(c, limit, line + [10] + more), Decode(c, line), Frames(c, limit, more);
      && (r.Ok? <==> |line| <= limit && v.Ok? && next.Ok?)
      && (r.Ok? ==> r.value == ([v.value] + next.value.0, next.value.1))
  {
    hide Decode; hide NextNewline;
    var data := line + [10] + more;
    var n := |line|;
    assert data[..n] == line && data[n + 1..] == more;
    NextNewlineIs(data, n);
  }

  lemma AllCons(c: Codec, limit: nat, lines: seq<Bytes>)
    requires lines != []
    ensures AllMessages(c, limit, lines) <==> IsMessage(c, limit, lines[0]) && AllMessages(c, limit, lines[1..])
  {
    hide IsMessage;
    assert lines == [lines[0]] + lines[1..];
  }

  lemma ReadsCons(c: Codec, lines: seq<Bytes>, v: Json, messages: seq<Json>)
    requires lines != [] && c.parse(c.text(lines[0])) == Some(v) && ReadsAs(c, lines[1..], messages)
    ensures ReadsAs(c, lines, [v] + messages)
  {
    assert lines == [lines[0]] + lines[1..];
  }

  lemma FirstFrame(c: Codec, limit: nat, line: Bytes)
    ensures |line| <= limit && Decode(c, line).Ok? <==> IsMessage(c, limit, line)
    ensures Decode(c, line).Ok? ==> c.parse(c.text(line)) == Some(Decode(c, line).value)
  {
    hide Text.Trim; hide Text.Blank;
    Text.TrimBlank(c.text(line));
  }

  /** Every stream is such lines. */
  lemma {:induction false} WireOf(data: Bytes) returns (lines: seq<Bytes>, rest: Bytes)
    ensures data == Wire(lines, rest) && (forall i :: 0 <= i < |lines| ==> 10 !in lines[i]) && 10 !in rest
    decreases |data|
  {
    var n := NextNewline(data);
    if n == |data| {
      assert data[..n] == data;
      lines, rest := [], data;
    } else {
      lines, rest := WireOf(data[n + 1..]);
      lines := [data[..n]] + lines;
      assert data == data[..n] + [10] + data[n + 1..];
    }
  }

  class JsonLines {
    var pending: Bytes
    const limit: nat
    const codec: Codec

    constructor (limit: nat, codec: Codec)
      ensures pending == [] && this.limit == limit && this.codec == codec
    {
      this.pending, this.limit, this.codec := [], limit, codec;
    }

    /** `push`. A throw leaves the pending bytes as they were. */
    method Push(chunk: Bytes) returns (r: Result<seq<Json>, FrameError>)
      modifies this`pending
      ensures var spec := Frames(codec, limit, old(pending) + chunk);
        match spec
        case Err(e) => r == Err(e) && pending == old(pending)
        case Ok(p) => r == Ok(p.0) && pending == p.1
    {
      hide Decode; hide Frames; hide Front; hide NextNewline;
      var data := pending + chunk;
      var messages: seq<Json> := [];
      var start := 0;
      assert data[0..] == data;
      var end := IndexOf(data, 0);
      while end < |data|
        invariant start <= |data| && end == start + NextNewline(data[start..])
        invariant Frames(codec, limit, data) == Front(messages, Frames(codec, limit, data[start..]))
        invariant pending == old(pending)
        decreases |data| - start
      {
        FramesFrom(codec, limit, data, start, end, messages);
        if end - start > limit {
          return Err(TooLong);
        }
        var v := Decode(codec, data[start..end]);
        if v.Err? {
          return Err(v.error);
        }
        messages := messages + [v.value];
        start := end + 1;
        end := IndexOf(data, start);
      }
      FramesEnd(codec, limit, data, start, messages);
      if |data| - start > limit {
        return Err(TooLong);
      }
      pending := data[start..];
      return Ok(messages);
    }
  }

  /** What the frames from a position on are when the next newline is known. */
  lemma FramesFrom(c: Codec, limit: nat, data: Bytes, start: nat, end: nat, messages: seq<Json>)
    requires start <= end < |data| && end == start + NextNewline(data[start..])
    ensures Front(messages, Frames(c, limit, data[start..])) ==
      if end - start > limit then Err(TooLong)
      else match Decode(c, data[start..end])
        case Err(e) => Err(e)
        case Ok(v) => Front(messages + [v], Frames(c, limit, data[end + 1..]))
  {
    hide Decode; hide NextNewline;
    assert data[start..][..end - start] == data[start..end];
    assert data[start..][end - start + 1..] == data[end + 1..];
    var v := Decode(c, data[start..end]);
    if v.Ok? {
      FrontTwice(messages, [v.value], Frames(c, limit, data[end + 1..]));
    }
  }

  lemma FramesEnd(c: Codec, limit: nat, data: Bytes, start: nat, messages: seq<Json>)
    requires start <= |data| && |data| == start + NextNewline(data[start..])
    ensures Front(messages, Frames(c, limit, data[start..])) == if |data| - start > limit then Err(TooLong) else Ok((messages, data[start..]))
  {
    assert messages + [] == messages;
  }

  method IndexOf(data: Bytes, from: nat) returns (end: nat)
    requires from <= |data|
    ensures end == from + NextNewline(data[from..])
  {
    end := from;
    while end < |data| && data[end] != NEWLINE
      invariant from <= end <= |data|
      invariant NEWLINE !in data[from..end]
    {
      end := end + 1;
    }
    assert data[from..][..end - from] == data[from..end];
    NextNewlineIs(data[from..], end - from);
  }
}
