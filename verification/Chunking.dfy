/** Streaming chunkers: a body arrives in feeds, `Process` runs after each feed and `Finalize` at
    the end. The content-defined cut is a parameter; only its contract is assumed. */
module Chunking {
  import opened Prelude

  /** `cut(x)` is the length of the first chunk of the non-empty buffer x. */
  datatype Strategy =
    | FixedSize(chunkSize: nat)
    | ContentDefined(minSize: nat, maxSize: nat, cut: Bytes -> nat)

  function Longest(s: Strategy): nat {
    if s.FixedSize? then s.chunkSize else s.maxSize
  }

  function Shortest(s: Strategy): nat {
    if s.FixedSize? then s.chunkSize else s.minSize
  }

  /** A cut strictly inside the buffer, or at the maximum, does not move when bytes are appended. */
  ghost predicate StableCut(minSize: nat, maxSize: nat, cut: Bytes -> nat) {
    && (forall x: Bytes :: x != [] ==> 0 < cut(x) <= |x| && cut(x) <= maxSize && (minSize <= cut(x) || cut(x) == |x|))
    && (forall x: Bytes, y: Bytes :: x != [] && (cut(x) < |x| || cut(x) == maxSize) ==> cut(x + y) == cut(x))
  }

  ghost predicate Valid(s: Strategy) {
    match s
    case FixedSize(chunkSize) => 0 < chunkSize
    case ContentDefined(minSize, maxSize, cut) => 0 < minSize <= maxSize && StableCut(minSize, maxSize, cut)
  }

  /** Length of the chunk the buffer is ready to give up, if any. */
  function Ready(s: Strategy, buffer: Bytes): Option<nat> {
    match s
    case FixedSize(chunkSize) =>
      if chunkSize <= |buffer| then Some(chunkSize) else None
    case ContentDefined(minSize, maxSize, cut) =>
      if |buffer| < minSize || buffer == [] then None
      else if cut(buffer) < |buffer| || maxSize <= cut(buffer) then Some(cut(buffer))
      else None
  }

  /** The reference: cut the whole remaining body again and again. */
  function FirstCut(s: Strategy, body: Bytes): (n: nat)
    requires body != []
  {
    match s
    case FixedSize(chunkSize) => Min(chunkSize, |body|)
    case ContentDefined(_, _, cut) => cut(body)
  }

  ghost function Batch(s: Strategy, body: Bytes): seq<Bytes>
    requires Valid(s)
    decreases |body|
  {
    if body == [] then []
    else [body[..FirstCut(s, body)]] + Batch(s, body[FirstCut(s, body)..])
  }

  lemma ReadyIsACut(s: Strategy, buffer: Bytes)
    requires Valid(s)
    ensures Ready(s, buffer).Some? ==> buffer != [] && Ready(s, buffer).value == FirstCut(s, buffer)
    ensures Ready(s, buffer).None? && buffer != [] ==> FirstCut(s, buffer) == |buffer|
  {
  }

  /** A chunk that is ready stays the first chunk whatever arrives later. */
  lemma ReadyStays(s: Strategy, buffer: Bytes, rest: Bytes)
    requires Valid(s) && Ready(s, buffer).Some?
    ensures FirstCut(s, buffer + rest) == Ready(s, buffer).value
  {
    ReadyIsACut(s, buffer);
  }

  ghost predicate EmitsBefore(s: Strategy, before: Bytes, chunks: seq<Bytes>, after: Bytes, rest: Bytes)
    requires Valid(s)
  {
    Batch(s, before + rest) == chunks + Batch(s, after + rest)
  }

  /** Handing out `chunks` turned the buffer `before` into `after` without changing the batch
      result, whatever arrives next. */
  ghost predicate Emits(s: Strategy, before: Bytes, chunks: seq<Bytes>, after: Bytes)
    requires Valid(s)
  {
    forall rest: Bytes :: EmitsBefore(s, before, chunks, after, rest)
  }

  lemma EmitsReady(s: Strategy, buffer: Bytes, n: nat)
    requires Valid(s) && Ready(s, buffer) == Some(n) && n <= |buffer|
    ensures Emits(s, buffer, [buffer[..n]], buffer[n..])
  {
    ReadyIsACut(s, buffer);
    forall rest: Bytes ensures EmitsBefore(s, buffer, [buffer[..n]], buffer[n..], rest) {
      ReadyStays(s, buffer, rest);
      assert (buffer + rest)[..n] == buffer[..n];
      assert (buffer + rest)[n..] == buffer[n..] + rest;
    }
  }

  lemma EmitsNothing(s: Strategy, buffer: Bytes)
    requires Valid(s)
    ensures Emits(s, buffer, [], buffer)
  {
    forall rest: Bytes ensures EmitsBefore(s, buffer, [], buffer, rest) {
      assert [] + Batch(s, buffer + rest) == Batch(s, buffer + rest);
    }
  }

  lemma EmitsBoth(s: Strategy, a: Bytes, x: seq<Bytes>, b: Bytes, y: seq<Bytes>, c: Bytes)
    requires Valid(s) && Emits(s, a, x, b) && Emits(s, b, y, c)
    ensures Emits(s, a, x + y, c)
  {
    forall rest: Bytes ensures EmitsBefore(s, a, x + y, c, rest) {
      assert EmitsBefore(s, a, x, b, rest) && EmitsBefore(s, b, y, c, rest);
      Assoc(x, y, Batch(s, c + rest));
    }
  }

  lemma EmitsFed(s: Strategy, a: Bytes, x: seq<Bytes>, b: Bytes, feed: Bytes)
    requires Valid(s) && Emits(s, a, x, b)
    ensures Emits(s, a + feed, x, b + feed)
  {
    forall rest: Bytes ensures EmitsBefore(s, a + feed, x, b + feed, rest) {
      assert EmitsBefore(s, a, x, b, feed + rest);
      Assoc(a, feed, rest);
      Assoc(b, feed, rest);
    }
  }

  /** One feed more, and the chunks it released. */
  lemma EmitsFeed(s: Strategy, feeds: seq<Bytes>, i: nat, chunks: seq<Bytes>, before: Bytes, done: seq<Bytes>,
                  after: Bytes)
    requires Valid(s) && i < |feeds|
    requires Emits(s, Flatten(feeds[..i]), chunks, before) && Emits(s, before + feeds[i], done, after)
    ensures Emits(s, Flatten(feeds[..i + 1]), chunks + done, after)
  {
    FlattenUpTo(feeds, i);
    EmitsFed(s, Flatten(feeds[..i]), chunks, before, feeds[i]);
    EmitsBoth(s, Flatten(feeds[..i]) + feeds[i], chunks, before + feeds[i], done, after);
  }

  /** At the end the chunks handed out and the chunks of what is left are the chunks of the body. */
  lemma EmitsAll(s: Strategy, body: Bytes, chunks: seq<Bytes>, left: Bytes)
    requires Valid(s) && Emits(s, body, chunks, left)
    ensures Batch(s, body) == chunks + Batch(s, left)
  {
    assert EmitsBefore(s, body, chunks, left, []);
    assert body + [] == body && left + [] == left;
  }

  /** The bytes received and not yet handed out as chunks. */
  class Buffer {
    var data: Bytes

    constructor ()
      ensures data == []
    {
      data := [];
    }

    method Extend(feed: Bytes)
      modifies this
      ensures data == old(data) + feed
    {
      data := data + feed;
    }

    method SplitTo(n: nat) returns (head: Bytes)
      requires n <= |data|
      modifies this
      ensures head == old(data)[..n] && data == old(data)[n..]
    {
      head := data[..n];
      data := data[n..];
    }

    /** Hands out every chunk that later feeds cannot change. */
    method Process(s: Strategy) returns (chunks: seq<Bytes>)
      requires Valid(s)
      modifies this
      ensures Ready(s, data).None? && Emits(s, old(data), chunks, data)
    {
      chunks := [];
      EmitsNothing(s, data);
      while Ready(s, data).Some?
        invariant Emits(s, old(data), chunks, data)
        decreases |data|
      {
        ReadyIsACut(s, data);
        ghost var before := data;
        var chunk := SplitTo(Ready(s, data).value);
        EmitsReady(s, before, |chunk|);
        EmitsBoth(s, old(data), chunks, before, [chunk], data);
        chunks := chunks + [chunk];
      }
    }

    /** Hands out what is left, which is one last chunk or nothing. */
    method Finalize(s: Strategy) returns (tail: Option<Bytes>)
      requires Valid(s) && Ready(s, data).None?
      modifies this
      ensures data == [] && (tail.None? <==> old(data) == [])
      ensures (if tail.Some? then [tail.value] else []) == Batch(s, old(data))
    {
      ReadyIsACut(s, data);
      if data == [] {
        tail := None;
      } else {
        tail := Some(data);
        assert data[..|data|] == data && data[|data|..] == [];
        data := [];
      }
    }
  }

  /** Streaming equals batch: however the body is split into feeds, the chunks are those of the
      whole body cut at once. */
  method ChunkBody(s: Strategy, feeds: seq<Bytes>) returns (chunks: seq<Bytes>)
    requires Valid(s)
    ensures chunks == Batch(s, Flatten(feeds))
  {
    var buffer := new Buffer();
    chunks := [];
    var i := 0;
    EmitsNothing(s, []);
    while i < |feeds|
      invariant 0 <= i <= |feeds| && fresh(buffer)
      invariant Ready(s, buffer.data).None? && Emits(s, Flatten(feeds[..i]), chunks, buffer.data)
    {
      ghost var before := buffer.data;
      buffer.Extend(feeds[i]);
      var done := buffer.Process(s);
      EmitsFeed(s, feeds, i, chunks, before, done, buffer.data);
      chunks := chunks + done;
      i := i + 1;
    }
    assert feeds[..i] == feeds;
    EmitsAll(s, Flatten(feeds), chunks, buffer.data);
    var tail := buffer.Finalize(s);
    if tail.Some? {
      chunks := chunks + [tail.value];
    }
  }

  /** Chunks join up to the body, none is empty or over the maximum, and all but the last reach
      the minimum. */
  lemma {:induction false} BatchShape(s: Strategy, body: Bytes)
    requires Valid(s)
    ensures Flatten(Batch(s, body)) == body
    ensures forall i :: 0 <= i < |Batch(s, body)| ==> 0 < |Batch(s, body)[i]| <= Longest(s)
    ensures forall i :: 0 <= i < |Batch(s, body)| - 1 ==> Shortest(s) <= |Batch(s, body)[i]|
    decreases |body|
  {
    if body != [] {
      var n := FirstCut(s, body);
      BatchShape(s, body[n..]);
      assert body == body[..n] + body[n..];
      assert Batch(s, body)[1..] == Batch(s, body[n..]);
      if n == |body| {
        assert Batch(s, body[n..]) == [];
      }
    }
  }

  /** Where chunk i starts: the lengths of the chunks before it, added up. */
  function StartOf(chunks: seq<Bytes>, i: nat): nat
    requires i <= |chunks|
  {
    if i == 0 then 0 else |chunks[0]| + StartOf(chunks[1..], i - 1)
  }

  lemma BatchHead(s: Strategy, body: Bytes)
    requires Valid(s) && Batch(s, body) != []
    ensures body != [] && 0 < FirstCut(s, body) <= |body|
    ensures |Batch(s, body)[0]| == FirstCut(s, body) && Batch(s, body)[1..] == Batch(s, body[FirstCut(s, body)..])
  {
  }

  /** Each chunk is as long as the first cut of the body from where the chunk starts. */
  lemma {:induction false} CutsInTurn(s: Strategy, body: Bytes, i: nat)
    requires Valid(s) && i < |Batch(s, body)|
    ensures var at := StartOf(Batch(s, body), i);
            at < |body| && |Batch(s, body)[i]| == FirstCut(s, body[at..])
    decreases i
  {
    BatchHead(s, body);
    if i == 0 {
      assert body[0..] == body;
    } else {
      var n, rest := FirstCut(s, body), Batch(s, body)[1..];
      CutsInTurn(s, body[n..], i - 1);
      TailOfTail(body, n, StartOf(rest, i - 1));
    }
  }

  /** The content-defined chunker cuts where it is told: each chunk is as long as the cut of the body from its start. */
  lemma CutsWhereTold(minSize: nat, maxSize: nat, cut: Bytes -> nat, body: Bytes, i: nat)
    requires Valid(ContentDefined(minSize, maxSize, cut)) && i < |Batch(ContentDefined(minSize, maxSize, cut), body)|
    ensures var chunks := Batch(ContentDefined(minSize, maxSize, cut), body);
            StartOf(chunks, i) < |body| && |chunks[i]| == cut(body[StartOf(chunks, i)..])
  {
    CutsInTurn(ContentDefined(minSize, maxSize, cut), body, i);
  }

  /** i times n by repeated addition. */
  function Offset(i: nat, n: nat): nat {
    if i == 0 then 0 else Offset(i - 1, n) + n
  }

  lemma {:induction false} OffsetIsProduct(i: nat, n: nat)
    ensures Offset(i, n) == i * n
  {
    if i != 0 {
      OffsetIsProduct(i - 1, n);
      assert i * n == (i - 1) * n + n;
    }
  }

  lemma {:induction false} FixedChunkFrom(n: nat, body: Bytes, i: nat)
    requires 0 < n
    ensures i < |Batch(FixedSize(n), body)| <==> Offset(i, n) < |body|
    ensures Offset(i, n) < |body| ==>
              Batch(FixedSize(n), body)[i] == body[Offset(i, n)..Min(Offset(i, n) + n, |body|)]
    decreases i
  {
    var s := FixedSize(n);
    if body != [] && i > 0 {
      var k, at := Min(n, |body|), Offset(i - 1, n);
      var rest := Batch(s, body[k..]);
      assert Batch(s, body) == [body[..k]] + rest;
      FixedChunkFrom(n, body[k..], i - 1);
      if at + n < |body| {
        SliceOfTail(body, n, at, Min(at + n, |body| - n));
      }
    }
  }

  /** The fixed-size chunker is plain arithmetic: chunk i holds bytes [i * n, (i + 1) * n). */
  lemma FixedChunkAt(n: nat, body: Bytes, i: nat)
    requires 0 < n
    ensures i < |Batch(FixedSize(n), body)| <==> i * n < |body|
    ensures i * n < |body| ==> Batch(FixedSize(n), body)[i] == body[i * n..Min((i + 1) * n, |body|)]
  {
    FixedChunkFrom(n, body, i);
    OffsetIsProduct(i, n);
    OffsetIsProduct(i + 1, n);
  }
}
