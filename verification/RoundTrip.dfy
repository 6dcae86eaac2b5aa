/** What is put can be read: an upload's row wins exactly when its timestamp is newest, and then every
    later read at that store returns the requested part of the body, byte for byte. */
module RoundTrip {
  import opened Prelude
  import opened SiteModel
  import opened Cluster
  import opened Invariants
  import opened Preservation
  import opened Durability
  import opened Chunking
  import opened RangeRead
  import opened Store
  import opened Requests
  import opened Maintenance

  lemma {:induction false} ChunksAreHeld(cfg: Config, s: Site, me: SiteId, chunks: seq<Bytes>, clock: nat -> int)
    requires IndexOk(cfg, me, s.index)
    ensures var t := StoreChunks(cfg, s, me, chunks, clock);
            && t.catalog == s.catalog
            && IndexOk(cfg, me, t.index)
            && forall i :: 0 <= i < |chunks| ==> cfg.digest(chunks[i]) in t.index.blobs
  {
    if chunks != [] {
      var k := |chunks| - 1;
      ChunksAreHeld(cfg, s, me, chunks[..k], clock);
      var before := StoreChunks(cfg, s, me, chunks[..k], clock);
      IndexKeepsBlock(cfg, me, before.index, cfg.digest(chunks[k]), chunks[k], LOCAL_FID, clock(k));
      forall i | 0 <= i < k ensures cfg.digest(chunks[i]) in before.index.blobs {
        assert chunks[..k][i] == chunks[i];
      }
    }
  }

  /** Held blocks agree with the chunks they were cut from. */
  lemma HeldBlocksAgree(cfg: Config, ix: BlockIndex, me: SiteId, chunks: seq<Bytes>, peers: seq<SiteId>, fetch: Fetch)
    requires CollisionFree(cfg) && IndexOk(cfg, me, ix)
    requires forall i :: 0 <= i < |chunks| ==> cfg.digest(chunks[i]) in ix.blobs
    ensures Agrees(ix, me, peers, fetch, Digests(cfg, chunks), chunks)
    ensures forall h :: h in Digests(cfg, chunks) ==> Obtain(ix, me, h, peers, fetch).Some?
  {
    forall i | 0 <= i < |chunks|
      ensures var h := Digests(cfg, chunks)[i];
              SizeOf(ix.sizes, h) == |chunks[i]| && Obtain(ix, me, h, peers, fetch) == Some(chunks[i])
    {
      SizesAreLengths(cfg, me, ix, cfg.digest(chunks[i]));
    }
  }

  /** An upload takes effect exactly when its timestamp is newer than the row it meets, and then its
      blocks are all at hand here and join up to the body. */
  lemma UploadTakesEffectIff(cfg: Config, s: Site, me: SiteId, strategy: Strategy, body: Bytes, key: ObjectKey,
                             etag: string, clock: nat -> int, peers: seq<SiteId>, fetch: Fetch)
    requires CollisionFree(cfg) && IndexOk(cfg, me, s.index) && Valid(strategy)
    ensures var chunks := Batch(strategy, body);
            var t := Uploaded(cfg, s, me, chunks, key, etag, clock);
            && IndexOk(cfg, me, t.index)
            && (t.catalog != s.catalog <==>
                key !in s.catalog.objects || s.catalog.objects[key].updatedAt < clock(|chunks|))
            && (t.catalog != s.catalog ==>
                t.catalog.objects[key].value == Manifest(Digests(cfg, chunks), |body|, etag, false))
            && Flatten(chunks) == body
            && Agrees(t.index, me, peers, fetch, Digests(cfg, chunks), chunks)
            && (forall h :: h in Digests(cfg, chunks) ==> Obtain(t.index, me, h, peers, fetch).Some?)
  {
    var chunks := Batch(strategy, body);
    BatchShape(strategy, body);
    ChunksAreHeld(cfg, s, me, chunks, clock);
    var t := Uploaded(cfg, s, me, chunks, key, etag, clock);
    HeldBlocksAgree(cfg, t.index, me, chunks, peers, fetch);
    var ts := clock(|chunks|);
    if key in s.catalog.objects && s.catalog.objects[key].updatedAt >= ts {
      assert t.catalog == s.catalog;
    } else {
      assert t.catalog.objects[key].updatedAt == ts;
    }
  }

  /** Put, then get, at one store: the requested part of the body comes back if the put's timestamp was
      newest, whichever way the body was fed and cut. */
  method PutThenGet(store: Store, cfg: Config, strategy: Strategy, key: ObjectKey, feeds: seq<Bytes>, etag: string,
                    clock: nat -> int, range: Option<Range>, peers: seq<SiteId>, fetch: Fetch)
    returns (r: Response)
    requires Valid(strategy) && CollisionFree(cfg) && IndexOk(cfg, store.me, store.View().index)
    modifies store
    ensures var body := Flatten(feeds);
            key !in old(store.objects) || old(store.objects)[key].updatedAt < clock(|Batch(strategy, body)|) ==>
            r == if range.Some? && ResolveRange(range.value, |body|).None? then InvalidRange
                 else Content(Requested(body, range), |Requested(body, range)|)
  {
    ghost var was := store.View();
    ghost var chunks := Batch(strategy, Flatten(feeds));
    var ok := PutObject(store, cfg, strategy, key, feeds, false, etag, clock);
    UploadTakesEffectIff(cfg, was, store.me, strategy, Flatten(feeds), key, etag, clock, peers, fetch);
    r := GetWhole(store, key, range, peers, fetch, chunks);
  }

  // ── multipart ─────────────────────────────────────────────────────────────

  /** The parts are those of these bodies, and their blocks are all held. */
  ghost predicate PartsOfBodies(cfg: Config, strategy: Strategy, parts: map<int, Part>, blobs: map<Hash, Bytes>,
                                bodies: map<int, Bytes>)
    requires Valid(strategy)
  {
    && parts.Keys == bodies.Keys
    && forall n :: n in parts ==>
         && parts[n].blocks == Digests(cfg, Batch(strategy, bodies[n])) && parts[n].size == |bodies[n]|
         && AllIn(parts[n].blocks, blobs.Keys)
  }

  /** The bodies joined in the given order. */
  function Joined(bodies: map<int, Bytes>, numbers: seq<int>): Bytes
    requires forall i :: 0 <= i < |numbers| ==> numbers[i] in bodies
  {
    if numbers == [] then [] else bodies[numbers[0]] + Joined(bodies, numbers[1..])
  }

  ghost function JoinedChunks(strategy: Strategy, bodies: map<int, Bytes>, numbers: seq<int>): seq<Bytes>
    requires Valid(strategy) && forall i :: 0 <= i < |numbers| ==> numbers[i] in bodies
  {
    if numbers == [] then [] else Batch(strategy, bodies[numbers[0]]) + JoinedChunks(strategy, bodies, numbers[1..])
  }

  lemma {:induction false} JoinedIsFlat(strategy: Strategy, bodies: map<int, Bytes>, numbers: seq<int>)
    requires Valid(strategy) && forall i :: 0 <= i < |numbers| ==> numbers[i] in bodies
    ensures Flatten(JoinedChunks(strategy, bodies, numbers)) == Joined(bodies, numbers)
  {
    if numbers != [] {
      JoinedIsFlat(strategy, bodies, numbers[1..]);
      BatchShape(strategy, bodies[numbers[0]]);
      FlattenAppend(Batch(strategy, bodies[numbers[0]]), JoinedChunks(strategy, bodies, numbers[1..]));
    }
  }

  lemma DigestsAppend(cfg: Config, a: seq<Bytes>, b: seq<Bytes>)
    ensures Digests(cfg, a + b) == Digests(cfg, a) + Digests(cfg, b)
  {
  }

  /** Parts joined name the chunks of their bodies joined, and their sizes add up to its length. */
  lemma {:induction false} PartsJoin(cfg: Config, strategy: Strategy, parts: map<int, Part>, blobs: map<Hash, Bytes>,
                                     bodies: map<int, Bytes>, numbers: seq<int>)
    requires Valid(strategy) && PartsOfBodies(cfg, strategy, parts, blobs, bodies)
    requires forall i :: 0 <= i < |numbers| ==> numbers[i] in parts
    ensures Flatten(ListsInOrder(parts, numbers)) == Digests(cfg, JoinedChunks(strategy, bodies, numbers))
    ensures SizesAdded(parts, numbers) == |Joined(bodies, numbers)|
    ensures forall h :: h in Digests(cfg, JoinedChunks(strategy, bodies, numbers)) ==> h in blobs
  {
    if numbers != [] {
      var first: int, rest := numbers[0], numbers[1..];
      PartsJoin(cfg, strategy, parts, blobs, bodies, rest);
      assert ListsInOrder(parts, numbers)[1..] == ListsInOrder(parts, rest);
      DigestsAppend(cfg, Batch(strategy, bodies[first]), JoinedChunks(strategy, bodies, rest));
    }
  }

  /** Complete, then get: the requested part of the parts' bodies joined in part-number order, if the completion's
      timestamp was newest, whichever way each body was fed and cut. */
  method CompleteThenGet(store: Store, cfg: Config, strategy: Strategy, upload: UploadKey, key: string,
                         combine: (seq<string>, nat) -> Option<string>, ts: int, range: Option<Range>,
                         peers: seq<SiteId>, fetch: Fetch, ghost bodies: map<int, Bytes>)
    returns (done: Completion, r: Response, ghost numbers: seq<int>)
    requires Valid(strategy) && CollisionFree(cfg) && IndexOk(cfg, store.me, store.View().index)
    requires PartsOfBodies(cfg, strategy, PartsOf(store.View().staging, upload), store.blobs, bodies)
    modifies store
    ensures var k := ObjectKey(upload.bucket, key);
            done.Completed? && (k !in old(store.objects) || old(store.objects)[k].updatedAt < ts) ==>
            && InPartOrder(PartsOf(old(store.View().staging), upload), numbers)
            && var body := Joined(bodies, numbers);
               r == if range.Some? && ResolveRange(range.value, |body|).None? then InvalidRange
                    else Content(Requested(body, range), |Requested(body, range)|)
  {
    ghost var parts, ix := PartsOf(store.View().staging, upload), store.View().index;
    done, numbers := CompleteMultipartUpload(store, upload, key, combine, ts);
    ghost var chunks := [];
    if done.Completed? {
      PartsJoin(cfg, strategy, parts, ix.blobs, bodies, numbers);
      JoinedIsFlat(strategy, bodies, numbers);
      chunks := JoinedChunks(strategy, bodies, numbers);
      forall i | 0 <= i < |chunks| ensures cfg.digest(chunks[i]) in ix.blobs {
        assert Digests(cfg, chunks)[i] in Digests(cfg, chunks);
      }
      HeldBlocksAgree(cfg, ix, store.me, chunks, peers, fetch);
      assert store.View().index == ix;
    }
    r := GetWhole(store, ObjectKey(upload.bucket, key), range, peers, fetch, chunks);
  }
}
