/** Uploads and reads over one store: an upload chunks, stores and then names its blocks; a read plans
    slices, streams them and repairs what it had to fetch. */
module Requests {
  import opened Prelude
  import opened Lww
  import opened SiteModel
  import opened Replication
  import opened Cluster
  import opened Invariants
  import opened Chunking
  import opened RangeRead
  import opened Store

  // ── upload ────────────────────────────────────────────────────────────────

  /** The site once `chunks` are stored and, for a body that arrived whole, named by the key's row. */
  function Uploaded(cfg: Config, s: Site, me: SiteId, chunks: seq<Bytes>, key: ObjectKey, etag: string,
                    clock: nat -> int): Site {
    SiteModel.InsertObject(StoreChunks(cfg, s, me, chunks, clock), key, Digests(cfg, chunks), |Flatten(chunks)|, etag,
                           clock(|chunks|))
  }

  lemma StoreChunksSnoc(cfg: Config, s: Site, me: SiteId, chunks: seq<Bytes>, data: Bytes, clock: nat -> int)
    ensures StoreChunks(cfg, s, me, chunks + [data], clock)
            == KeepSite(StoreChunks(cfg, s, me, chunks, clock), me, cfg.digest(data), data, LOCAL_FID, clock(|chunks|))
    ensures Digests(cfg, chunks + [data]) == Digests(cfg, chunks) + [cfg.digest(data)]
    ensures |Flatten(chunks + [data])| == |Flatten(chunks)| + |data|
  {
    assert (chunks + [data])[..|chunks|] == chunks;
    FlattenSnoc(chunks, data);
  }

  lemma {:induction false} ChunksKeepRows(cfg: Config, s: Site, me: SiteId, chunks: seq<Bytes>, clock: nat -> int)
    ensures StoreChunks(cfg, s, me, chunks, clock).catalog == s.catalog
    ensures StoreChunks(cfg, s, me, chunks, clock).staging == s.staging
  {
    if chunks != [] {
      ChunksKeepRows(cfg, s, me, chunks[..|chunks| - 1], clock);
    }
  }

  /** The upload so far: these chunks are stored, and these are their hashes and total size. */
  ghost predicate InProgress(cfg: Config, was: Site, me: SiteId, s: Site, chunks: seq<Bytes>, clock: nat -> int,
                             hashes: seq<Hash>, size: int)
  {
    s == StoreChunks(cfg, was, me, chunks, clock) && hashes == Digests(cfg, chunks) && size == |Flatten(chunks)|
  }

  method StoreOne(store: Store, cfg: Config, hashes: seq<Hash>, size: int, data: Bytes, clock: nat -> int,
                  ghost was: Site, ghost stored: seq<Bytes>)
    returns (hashes': seq<Hash>, size': int)
    requires InProgress(cfg, was, store.me, store.View(), stored, clock, hashes, size)
    modifies store
    ensures InProgress(cfg, was, store.me, store.View(), stored + [data], clock, hashes', size')
  {
    StoreChunksSnoc(cfg, was, store.me, stored, data, clock);
    var h := cfg.digest(data);
    store.KeepBlock(h, data, clock(|hashes|));
    hashes' := hashes + [h];
    size' := size + |data|;
  }

  method StoreAll(store: Store, cfg: Config, hashes: seq<Hash>, size: int, more: seq<Bytes>, clock: nat -> int,
                  ghost was: Site, ghost stored: seq<Bytes>)
    returns (hashes': seq<Hash>, size': int)
    requires InProgress(cfg, was, store.me, store.View(), stored, clock, hashes, size)
    modifies store
    ensures InProgress(cfg, was, store.me, store.View(), stored + more, clock, hashes', size')
  {
    hashes', size' := hashes, size;
    ghost var done := stored;
    var i := 0;
    while i < |more|
      invariant 0 <= i <= |more| && done == stored + more[..i]
      invariant InProgress(cfg, was, store.me, store.View(), done, clock, hashes', size')
    {
      hashes', size' := StoreOne(store, cfg, hashes', size', more[i], clock, was, done);
      done := done + [more[i]];
      i := i + 1;
    }
    assert more[..i] == more;
  }

  /** The body of an upload: feeds arrive one by one, and `broken` says the stream then failed. Exactly the
      chunks of the whole body are stored, in order; a broken body leaves some of its chunks. */
  method StoreBody(store: Store, cfg: Config, strategy: Strategy, feeds: seq<Bytes>, broken: bool, clock: nat -> int)
    returns (ok: bool, hashes: seq<Hash>, size: int)
    requires Valid(strategy)
    modifies store
    ensures ok == !broken
    ensures ok ==> InProgress(cfg, old(store.View()), store.me, store.View(), Batch(strategy, Flatten(feeds)), clock,
                              hashes, size)
    ensures !ok ==> exists chunks :: chunks <= Batch(strategy, Flatten(feeds))
                                     && store.View() == StoreChunks(cfg, old(store.View()), store.me, chunks, clock)
  {
    ghost var was := store.View();
    var buffer := new Buffer();
    hashes, size := [], 0;
    ghost var chunks: seq<Bytes> := [];
    assert Digests(cfg, chunks) == [];
    EmitsNothing(strategy, []);
    var i := 0;
    while i < |feeds|
      invariant 0 <= i <= |feeds| && fresh(buffer)
      invariant InProgress(cfg, was, store.me, store.View(), chunks, clock, hashes, size)
      invariant Ready(strategy, buffer.data).None? && Emits(strategy, Flatten(feeds[..i]), chunks, buffer.data)
    {
      ghost var before := buffer.data;
      buffer.Extend(feeds[i]);
      var done := buffer.Process(strategy);
      hashes, size := StoreAll(store, cfg, hashes, size, done, clock, was, chunks);
      EmitsFeed(strategy, feeds, i, chunks, before, done, buffer.data);
      chunks := chunks + done;
      i := i + 1;
    }
    assert feeds[..i] == feeds;
    EmitsAll(strategy, Flatten(feeds), chunks, buffer.data);
    if broken {
      return false, hashes, size;
    }
    var tail := buffer.Finalize(strategy);
    ghost var last := if tail.Some? then [tail.value] else [];
    if tail.Some? {
      hashes, size := StoreAll(store, cfg, hashes, size, [tail.value], clock, was, chunks);
    } else {
      assert chunks + last == chunks;
    }
    ok := true;
  }

  /** put_object: the store ends with exactly the chunks of the whole body and one new row naming them in order; a
      broken upload leaves some of the body's chunks and no row. */
  method PutObject(store: Store, cfg: Config, strategy: Strategy, key: ObjectKey, feeds: seq<Bytes>, broken: bool,
                   etag: string, clock: nat -> int)
    returns (ok: bool)
    requires Valid(strategy)
    modifies store
    ensures ok == !broken
    ensures ok ==> store.View() == Uploaded(cfg, old(store.View()), store.me, Batch(strategy, Flatten(feeds)), key,
                                            etag, clock)
    ensures !ok ==> exists chunks :: chunks <= Batch(strategy, Flatten(feeds))
                                     && store.View() == StoreChunks(cfg, old(store.View()), store.me, chunks, clock)
  {
    var hashes, size;
    ok, hashes, size := StoreBody(store, cfg, strategy, feeds, broken, clock);
    if ok {
      store.InsertObject(key, hashes, size, etag, clock(|hashes|));
    }
  }

  /** The site once a part's chunks are stored and the part names them. */
  function PartUploaded(cfg: Config, s: Site, me: SiteId, chunks: seq<Bytes>, upload: UploadKey, number: int,
                        etag: string, clock: nat -> int): Site {
    var stored := StoreChunks(cfg, s, me, chunks, clock);
    stored.(staging := SiteModel.InsertPart(stored.staging, upload, number,
                                            Part(Digests(cfg, chunks), |Flatten(chunks)|, etag)))
  }

  /** upload_part: refused without its upload; else the part names exactly the chunks of the whole body, and every
      other part stays. */
  method UploadPart(store: Store, cfg: Config, strategy: Strategy, upload: UploadKey, number: int, feeds: seq<Bytes>,
                    broken: bool, etag: string, clock: nat -> int)
    returns (ok: bool)
    requires Valid(strategy)
    modifies store
    ensures ok <==> upload in old(store.uploads) && !broken
    ensures upload !in old(store.uploads) ==> store.View() == old(store.View())
    ensures !ok ==> store.parts == old(store.parts)
    ensures !ok && upload in old(store.uploads) ==>
              exists chunks :: chunks <= Batch(strategy, Flatten(feeds))
                               && store.View() == StoreChunks(cfg, old(store.View()), store.me, chunks, clock)
    ensures ok ==>
              var chunks := Batch(strategy, Flatten(feeds));
              && store.View() == PartUploaded(cfg, old(store.View()), store.me, chunks, upload, number, etag, clock)
              && upload in store.parts && number in store.parts[upload]
              && store.parts[upload][number] == Part(Digests(cfg, chunks), |Flatten(feeds)|, etag)
  {
    if upload !in store.uploads {
      return false;
    }
    ghost var was := store.View();
    var hashes, size;
    ok, hashes, size := StoreBody(store, cfg, strategy, feeds, broken, clock);
    if ok {
      store.InsertPart(upload, number, hashes, size, etag);
      BatchShape(strategy, Flatten(feeds));
    } else {
      ghost var chunks :| chunks <= Batch(strategy, Flatten(feeds))
                          && store.View() == StoreChunks(cfg, was, store.me, chunks, clock);
      ChunksKeepRows(cfg, was, store.me, chunks, clock);
    }
  }

  // ── reading one block ─────────────────────────────────────────────────────

  type Fetch = (SiteId, Hash) -> Option<Bytes>

  function FirstAnswer(candidates: seq<SiteId>, h: Hash, fetch: Fetch): Option<Bytes> {
    if candidates == [] then None
    else if fetch(candidates[0], h).Some? then fetch(candidates[0], h)
    else FirstAnswer(candidates[1..], h, fetch)
  }

  /** Someone answers exactly when some candidate does, and the answer is one of theirs. */
  lemma {:induction false} AnswersComeFrom(candidates: seq<SiteId>, h: Hash, fetch: Fetch)
    ensures FirstAnswer(candidates, h, fetch).Some? <==> exists q :: q in candidates && fetch(q, h).Some?
    ensures FirstAnswer(candidates, h, fetch).Some? ==>
              exists q :: q in candidates && fetch(q, h) == FirstAnswer(candidates, h, fetch)
  {
    if candidates != [] {
      AnswersComeFrom(candidates[1..], h, fetch);
      assert candidates == [candidates[0]] + candidates[1..];
    }
  }

  /** A peer on record as a holder answers. */
  ghost predicate Answered(holders: Table<SiteId, Bytes>, h: Hash, peers: seq<SiteId>, fetch: Fetch) {
    exists q :: q in peers && q in holders && fetch(q, h).Some?
  }

  /** The data is what some peer on record as a holder answers. */
  ghost predicate AnAnswer(holders: Table<SiteId, Bytes>, h: Hash, peers: seq<SiteId>, fetch: Fetch, data: Bytes) {
    exists q :: q in peers && q in holders && fetch(q, h) == Some(data)
  }

  lemma CandidatesAnswer(holders: Table<SiteId, Bytes>, h: Hash, peers: seq<SiteId>, fetch: Fetch)
    ensures var data := FirstAnswer(Candidates(holders, peers), h, fetch);
            && (data.Some? <==> Answered(holders, h, peers, fetch))
            && (data.Some? ==> AnAnswer(holders, h, peers, fetch, data.value))
  {
    CandidatesAreHolders(holders, peers);
    AnswersComeFrom(Candidates(holders, peers), h, fetch);
    var data := FirstAnswer(Candidates(holders, peers), h, fetch);
    if data.Some? {
      var q :| q in Candidates(holders, peers) && fetch(q, h) == data;
      assert q in peers && q in holders;
    }
  }

  /** Where the bytes of h come from: the local copy, else the first known holder that answers. */
  function Obtain(ix: BlockIndex, me: SiteId, h: Hash, peers: seq<SiteId>, fetch: Fetch): Option<Bytes> {
    if Holds(ix.locations, me, h) then (if h in ix.blobs then Some(ix.blobs[h]) else None)
    else FirstAnswer(Candidates(Holders(ix.locations, h), peers), h, fetch)
  }

  /** A block read from a peer is stored here, or queued when storing it fails. */
  function Repaired(s: Site, me: SiteId, h: Hash, data: Option<Bytes>, promotes: bool, now: int): Site {
    if Holds(s.index.locations, me, h) || data.None? then s
    else if promotes then StoreLocal(s, me, h, data.value, LOCAL_FID, now)
    else s.(backlog := s.backlog.(queue := Queued(s.backlog.queue, h, now)))
  }

  method AskPeers(store: Store, h: Hash, peers: seq<SiteId>, fetch: Fetch) returns (data: Option<Bytes>)
    ensures data == FirstAnswer(Candidates(Holders(store.locations, h), peers), h, fetch)
  {
    var i := 0;
    while i < |peers|
      invariant 0 <= i <= |peers|
      invariant FirstAnswer(Candidates(Holders(store.locations, h), peers[i..]), h, fetch)
                == FirstAnswer(Candidates(Holders(store.locations, h), peers), h, fetch)
    {
      ghost var rest := Candidates(Holders(store.locations, h), peers[i + 1..]);
      assert peers[i..][1..] == peers[i + 1..] && [] + rest == rest;
      if peers[i] in Holders(store.locations, h) {
        assert ([peers[i]] + rest)[1..] == rest;
        data := fetch(peers[i], h);
        if data.Some? {
          return;
        }
      }
      i := i + 1;
    }
    data := None;
  }

  method GetBlock(store: Store, h: Hash, peers: seq<SiteId>, fetch: Fetch, promotes: bool, now: int)
    returns (data: Option<Bytes>)
    modifies store
    ensures data == Obtain(old(store.View().index), store.me, h, peers, fetch)
    ensures store.View() == Repaired(old(store.View()), store.me, h, data, promotes, now)
    ensures old(Holds(store.locations, store.me, h)) ==> store.View() == old(store.View())
    ensures old(Holds(store.locations, store.me, h)) && h in old(store.blobs) ==> data == Some(old(store.blobs)[h])
    ensures !old(Holds(store.locations, store.me, h)) ==>
              var holders := old(Holders(store.locations, h));
              && (data.Some? <==> Answered(holders, h, peers, fetch))
              && (data.Some? ==> AnAnswer(holders, h, peers, fetch, data.value))
              && (data.Some? && promotes ==>
                  Holds(store.locations, store.me, h) && h in store.blobs && store.blobs[h] == data.value)
              && (data.Some? && !promotes ==> h in store.queue)
              && (data.None? ==> store.View() == old(store.View()))
  {
    CandidatesAnswer(Holders(store.locations, h), h, peers, fetch);
    if h in store.locations && store.me in store.locations[h] {
      return if h in store.blobs then Some(store.blobs[h]) else None;
    }
    data := AskPeers(store, h, peers, fetch);
    if data.Some? {
      if promotes {
        store.KeepBlock(h, data.value, now);
      } else {
        store.EnqueueReplication(h, now);
      }
    }
  }

  /** Reading one block changes where no block's bytes come from. */
  lemma ReadKeepsSources(s: Site, me: SiteId, h: Hash, peers: seq<SiteId>, fetch: Fetch, promotes: bool, now: int,
                         other: Hash)
    ensures Obtain(Repaired(s, me, h, Obtain(s.index, me, h, peers, fetch), promotes, now).index, me, other, peers,
                   fetch)
            == Obtain(s.index, me, other, peers, fetch)
  {
  }

  // ── reading an object ─────────────────────────────────────────────────────

  datatype Response = NoSuchKey | InvalidRange | SlowDown | Content(body: Bytes, length: int)

  /** One block to stream, by its position in the manifest. */
  datatype Piece = Piece(block: nat, skip: nat, take: Option<nat>)

  /** The manifest's blocks are these chunks: recorded sizes and every source of bytes agree. */
  ghost predicate Agrees(ix: BlockIndex, me: SiteId, peers: seq<SiteId>, fetch: Fetch, blocks: seq<Hash>,
                         chunks: seq<Bytes>) {
    && |chunks| == |blocks|
    && forall i :: 0 <= i < |blocks| ==>
         && SizeOf(ix.sizes, blocks[i]) == |chunks[i]|
         && Obtain(ix, me, blocks[i], peers, fetch) in {None, Some(chunks[i])}
  }

  function SizeOf(sizes: Table<Hash, int>, h: Hash): int {
    if h in sizes then sizes[h].value else 0
  }

  predicate Fits(plan: seq<Piece>, n: nat) {
    forall i :: 0 <= i < |plan| ==> plan[i].block < n
  }

  /** What a plan delivers before the first block that cannot be had. */
  function Delivered(ix: BlockIndex, me: SiteId, peers: seq<SiteId>, fetch: Fetch, blocks: seq<Hash>,
                     plan: seq<Piece>): Bytes
    requires Fits(plan, |blocks|)
  {
    if plan == [] then []
    else var data := Obtain(ix, me, blocks[plan[0].block], peers, fetch);
         if data.None? then []
         else SliceBytes(data.value, plan[0].skip, plan[0].take) + Delivered(ix, me, peers, fetch, blocks, plan[1..])
  }

  function Frames(chunks: seq<Bytes>, plan: seq<Piece>): seq<Bytes>
    requires Fits(plan, |chunks|)
  {
    seq(|plan|, i requires 0 <= i < |plan| => SliceBytes(chunks[plan[i].block], plan[i].skip, plan[i].take))
  }

  lemma {:induction false} DeliveredIsAPrefix(ix: BlockIndex, me: SiteId, peers: seq<SiteId>, fetch: Fetch,
                                              blocks: seq<Hash>, chunks: seq<Bytes>, plan: seq<Piece>)
    requires Agrees(ix, me, peers, fetch, blocks, chunks) && Fits(plan, |blocks|)
    ensures Delivered(ix, me, peers, fetch, blocks, plan) <= Flatten(Frames(chunks, plan))
    ensures (forall h :: h in blocks ==> Obtain(ix, me, h, peers, fetch).Some?) ==>
              Delivered(ix, me, peers, fetch, blocks, plan) == Flatten(Frames(chunks, plan))
  {
    if plan != [] {
      DeliveredIsAPrefix(ix, me, peers, fetch, blocks, chunks, plan[1..]);
      assert Frames(chunks, plan)[1..] == Frames(chunks, plan[1..]);
      assert blocks[plan[0].block] in blocks;
    }
  }

  function Pieces(slices: seq<Slice>): seq<Piece> {
    seq(|slices|, i requires 0 <= i < |slices| => Piece(slices[i].block, slices[i].skip, Some(slices[i].take)))
  }

  lemma {:induction false} FramesOfSlices(chunks: seq<Bytes>, slices: seq<Slice>)
    requires forall s :: s in slices ==> s.block < |chunks|
    ensures Fits(Pieces(slices), |chunks|) && Flatten(Frames(chunks, Pieces(slices))) == Streamed(chunks, slices)
  {
    forall i | 0 <= i < |slices| ensures slices[i].block < |chunks| {
      assert slices[i] in slices;
    }
    if slices != [] {
      var init, last := slices[..|slices| - 1], slices[|slices| - 1];
      FramesOfSlices(chunks, init);
      var frame := SliceBytes(chunks[last.block], last.skip, Some(last.take));
      assert Frames(chunks, Pieces(slices)) == Frames(chunks, Pieces(init)) + [frame];
      FlattenSnoc(Frames(chunks, Pieces(init)), frame);
    }
  }

  /** The bytes of the object that the request asks for. */
  function Requested(flat: Bytes, range: Option<Range>): Bytes {
    match range
    case None => flat
    case Some(r) =>
      var bounds := ResolveRange(r, |flat|);
      if bounds.None? then [] else flat[bounds.value.0..bounds.value.1 + 1]
  }

  /** Requested bytes are the wanted positions, each in its place. */
  lemma RequestedIsWanted(flat: Bytes, range: Range)
    ensures ResolveRange(range, |flat|).None? <==> forall i: nat :: !Wanted(range, |flat|, i)
    ensures ResolveRange(range, |flat|).Some? ==>
              var (lo, hi), want := ResolveRange(range, |flat|).value, Requested(flat, Some(range));
              && |want| == hi - lo + 1
              && (forall i: nat :: Wanted(range, |flat|, i) ==> lo <= i <= hi && want[i - lo] == flat[i])
              && Wanted(range, |flat|, lo) && Wanted(range, |flat|, hi)
  {
    var bounds := ResolveRange(range, |flat|);
    assert bounds.Some? ==> Wanted(range, |flat|, bounds.value.0);
  }

  method Stream(store: Store, blocks: seq<Hash>, plan: seq<Piece>, peers: seq<SiteId>, fetch: Fetch, promotes: bool,
                now: int)
    returns (body: Bytes, first: bool)
    requires Fits(plan, |blocks|)
    modifies store
    ensures body == Delivered(old(store.View().index), store.me, peers, fetch, blocks, plan)
    ensures first <==> plan == [] || Obtain(old(store.View().index), store.me, blocks[plan[0].block], peers,
                                            fetch).Some?
  {
    ghost var was := store.View().index;
    body, first := [], true;
    var k := 0;
    while k < |plan|
      invariant 0 <= k <= |plan| && first
      invariant forall h ::
                  Obtain(store.View().index, store.me, h, peers, fetch) == Obtain(was, store.me, h, peers, fetch)
      invariant body + Delivered(was, store.me, peers, fetch, blocks, plan[k..])
                == Delivered(was, store.me, peers, fetch, blocks, plan)
      invariant 0 < k ==> Obtain(was, store.me, blocks[plan[0].block], peers, fetch).Some?
    {
      ghost var before := store.View();
      var h := blocks[plan[k].block];
      var data := GetBlock(store, h, peers, fetch, promotes, now);
      forall other
        ensures Obtain(store.View().index, store.me, other, peers, fetch) == Obtain(was, store.me, other, peers, fetch)
      {
        ReadKeepsSources(before, store.me, h, peers, fetch, promotes, now, other);
      }
      assert plan[k..][1..] == plan[k + 1..];
      if data.None? {
        return body, k != 0;
      }
      body := body + SliceBytes(data.value, plan[k].skip, plan[k].take);
      k := k + 1;
    }
  }

  method BlockSizes(store: Store, blocks: seq<Hash>) returns (sizes: seq<int>)
    ensures |sizes| == |blocks| && forall i :: 0 <= i < |blocks| ==> sizes[i] == SizeOf(store.sizes, blocks[i])
  {
    sizes := [];
    for k := 0 to |blocks|
      invariant |sizes| == k && forall i :: 0 <= i < k ==> sizes[i] == SizeOf(store.sizes, blocks[i])
    {
      sizes := sizes + [SizeOf(store.sizes, blocks[k])];
    }
  }

  /** A signed 64-bit size read as unsigned. */
  function AsU64(size: int): nat {
    if 0 <= size then size else size % 0x1_0000_0000_0000_0000
  }

  /** The blocks to stream for a request that can be met. */
  method PlanRead(store: Store, blocks: seq<Hash>, bounds: Option<(nat, nat)>, ghost chunks: seq<Bytes>)
    returns (plan: seq<Piece>)
    requires bounds.Some? ==> bounds.value.0 <= bounds.value.1
    ensures Fits(plan, |blocks|)
    ensures bounds.None? ==> (plan == [] <==> blocks == []) && (plan != [] ==> plan[0].block == 0)
    ensures && bounds.Some? && |chunks| == |blocks|
            && (forall i :: 0 <= i < |blocks| ==> SizeOf(store.sizes, blocks[i]) == |chunks[i]|) ==>
              && (plan == [] <==> |Flatten(chunks)| <= bounds.value.0)
              && (plan != [] ==> HoldsPosition(chunks, plan[0].block, bounds.value.0))
    ensures && |chunks| == |blocks|
            && (forall i :: 0 <= i < |blocks| ==> SizeOf(store.sizes, blocks[i]) == |chunks[i]|) ==>
              Flatten(Frames(chunks, plan)) ==
              match bounds
              case None => Flatten(chunks)
              case Some(b) => Window(Flatten(chunks), b.0, b.1)
  {
    if bounds.None? {
      plan := seq(|blocks|, (i: nat) => Piece(i, 0, None));
      assert |chunks| == |blocks| ==> Frames(chunks, plan) == chunks;
    } else {
      var sizes := BlockSizes(store, blocks);
      ghost var shape: seq<Bytes> :=
        if |chunks| == |blocks| && forall i :: 0 <= i < |blocks| ==> |chunks[i]| == sizes[i] then chunks
        else seq(|sizes|, i requires 0 <= i < |sizes| => seq(Length(sizes[i]), _ => 0));
      var slices := SliceBlocksForRange(sizes, bounds.value.0, bounds.value.1, shape);
      FramesOfSlices(shape, slices);
      plan := Pieces(slices);
    }
  }

  /** The bytes asked for, and the block they start in. */
  function Asked(flat: Bytes, bounds: Option<(nat, nat)>): Bytes
    requires bounds.Some? ==> bounds.value.0 <= bounds.value.1 < |flat|
  {
    if bounds.None? then flat else flat[bounds.value.0..bounds.value.1 + 1]
  }

  ghost predicate StartsIn(chunks: seq<Bytes>, bounds: Option<(nat, nat)>, j: nat) {
    if bounds.None? then j == 0 && chunks != [] else HoldsPosition(chunks, j, bounds.value.0)
  }

  /** The body is a prefix of what was asked for, all of it when every block can be had, and the request is turned
      down before it starts exactly when the block it starts in cannot be had. */
  ghost predicate Answers(r: Response, ix: BlockIndex, me: SiteId, peers: seq<SiteId>, fetch: Fetch,
                          blocks: seq<Hash>, chunks: seq<Bytes>, bounds: Option<(nat, nat)>)
    requires |blocks| == |chunks| && (bounds.Some? ==> bounds.value.0 <= bounds.value.1 < |Flatten(chunks)|)
  {
    var want := Asked(Flatten(chunks), bounds);
    && (r.Content? ==> r.body <= want && r.length == |want|)
    && ((forall h :: h in blocks ==> Obtain(ix, me, h, peers, fetch).Some?) ==> r == Content(want, |want|))
    && (r.SlowDown? <==> exists j: nat :: StartsIn(chunks, bounds, j) && Obtain(ix, me, blocks[j], peers, fetch).None?)
  }

  lemma StartsInOne(chunks: seq<Bytes>, bounds: Option<(nat, nat)>, i: nat, j: nat)
    requires StartsIn(chunks, bounds, i) && StartsIn(chunks, bounds, j)
    ensures i == j
  {
    if i < j {
      FlattenLonger(chunks, i + 1, j);
    } else if j < i {
      FlattenLonger(chunks, j + 1, i);
    }
  }

  lemma FlattenLonger(chunks: seq<Bytes>, i: nat, j: nat)
    requires i <= j <= |chunks|
    ensures |Flatten(chunks[..i])| <= |Flatten(chunks[..j])|
  {
    assert chunks[..j] == chunks[..i] + chunks[i..j];
    FlattenAppend(chunks[..i], chunks[i..j]);
  }

  /** Streams what a live manifest's range asks for. */
  method Serve(store: Store, m: Manifest, bounds: Option<(nat, nat)>, peers: seq<SiteId>, fetch: Fetch,
               promotes: bool, now: int, ghost chunks: seq<Bytes>)
    returns (r: Response)
    requires bounds.Some? ==> bounds.value.0 <= bounds.value.1
    modifies store
    ensures r.Content? || r.SlowDown?
    ensures var ix := old(store.View().index);
            && Agrees(ix, store.me, peers, fetch, m.blocks, chunks) && m.size == |Flatten(chunks)|
            && (bounds.Some? ==> bounds.value.1 < |Flatten(chunks)|) ==>
            Answers(r, ix, store.me, peers, fetch, m.blocks, chunks, bounds)
  {
    ghost var was := store.View().index;
    var plan := PlanRead(store, m.blocks, bounds, chunks);
    var body, first := Stream(store, m.blocks, plan, peers, fetch, promotes, now);
    var length := if bounds.None? then m.size else bounds.value.1 - bounds.value.0 + 1;
    r := if first then Content(body, length) else SlowDown;
    if && Agrees(was, store.me, peers, fetch, m.blocks, chunks) && m.size == |Flatten(chunks)|
       && (bounds.Some? ==> bounds.value.1 < |Flatten(chunks)|)
    {
      DeliveredIsAPrefix(was, store.me, peers, fetch, m.blocks, chunks, plan);
      assert !first ==> m.blocks[plan[0].block] in m.blocks;
      if plan != [] {
        assert StartsIn(chunks, bounds, plan[0].block);
        forall j: nat | StartsIn(chunks, bounds, j) ensures j == plan[0].block {
          StartsInOne(chunks, bounds, plan[0].block, j);
        }
      }
    }
  }

  /** get_object. Whatever is unavailable, the body is a prefix of what was asked for and the announced
      length is right; with every block to be had the body is exactly what was asked for; and a
      response that never starts is an unavailable first block, not a truncated success. */
  method GetObject(store: Store, key: ObjectKey, range: Option<Range>, peers: seq<SiteId>, fetch: Fetch,
                   promotes: bool, now: int, ghost chunks: seq<Bytes>)
    returns (r: Response)
    modifies store
    ensures r == NoSuchKey <==> !IsLive(old(store.View().catalog), key)
    ensures IsLive(old(store.View().catalog), key) ==>
              var m := old(store.View().catalog.objects)[key].value;
              && (r == InvalidRange <==> range.Some? && ResolveRange(range.value, AsU64(m.size)).None?)
              && (Agrees(old(store.View().index), store.me, peers, fetch, m.blocks, chunks)
                  && m.size == |Flatten(chunks)| && r != InvalidRange ==>
                  var bounds := if range.None? then None else ResolveRange(range.value, |Flatten(chunks)|);
                  Answers(r, old(store.View().index), store.me, peers, fetch, m.blocks, chunks, bounds))
  {
    if key !in store.objects || store.objects[key].value.deleted {
      return NoSuchKey;
    }
    var m := store.objects[key].value;
    var bounds: Option<(nat, nat)> := None;
    if range.Some? {
      bounds := ResolveRange(range.value, AsU64(m.size));
      if bounds.None? {
        return InvalidRange;
      }
    }
    r := Serve(store, m, bounds, peers, fetch, promotes, now, chunks);
  }

  /** The key's row is live, names these chunks, and all of them can be had. */
  ghost predicate Readable(s: Site, me: SiteId, key: ObjectKey, peers: seq<SiteId>, fetch: Fetch, chunks: seq<Bytes>) {
    && IsLive(s.catalog, key)
    && var m := s.catalog.objects[key].value;
       && m.size == |Flatten(chunks)| && Agrees(s.index, me, peers, fetch, m.blocks, chunks)
       && forall h :: h in m.blocks ==> Obtain(s.index, me, h, peers, fetch).Some?
  }

  /** A read of such a row returns the requested part of the chunks joined, or refuses the range. */
  method GetWhole(store: Store, key: ObjectKey, range: Option<Range>, peers: seq<SiteId>, fetch: Fetch,
                  ghost chunks: seq<Bytes>)
    returns (r: Response)
    modifies store
    ensures var body := Flatten(chunks);
            Readable(old(store.View()), store.me, key, peers, fetch, chunks) ==>
            r == if range.Some? && ResolveRange(range.value, |body|).None? then InvalidRange
                 else Content(Requested(body, range), |Requested(body, range)|)
  {
    r := GetObject(store, key, range, peers, fetch, true, 0, chunks);
  }
}
