/** Reading at any site what was uploaded at any other. */
module SiteReads {
  import opened Prelude
  import opened SiteModel
  import opened Replication
  import opened Cluster
  import opened Invariants
  import opened MeshPreservation
  import opened Holding
  import opened Durability
  import opened RangeRead
  import opened Store
  import opened Requests
  import opened Handlers

  /** A block can be had here: it is held, or a known holder among the peers answers. */
  ghost predicate Available(ix: BlockIndex, h: Hash, peers: seq<SiteId>, fetch: Fetch) {
    h in ix.blobs || exists q :: q in peers && q in Holders(ix.locations, h) && fetch(q, h).Some?
  }

  /** A block is obtained exactly when it is available, and what is obtained has its hash. */
  lemma ObtainsWhatIsAvailable(cfg: Config, c: Mesh, s: SiteId, h: Hash, peers: seq<SiteId>, fetch: Fetch)
    requires s in c && Faithful(c, s, fetch) && forall p :: p in c ==> IndexOk(cfg, p, c[p].site.index)
    ensures var ix, data := c[s].site.index, Obtain(c[s].site.index, s, h, peers, fetch);
            && (data.Some? <==> Available(ix, h, peers, fetch))
            && (data.Some? ==> cfg.digest(data.value) == h)
  {
    var ix := c[s].site.index;
    var holders := Holders(ix.locations, h);
    assert h in ix.blobs <==> Holds(ix.locations, s, h);
    CandidatesAreHolders(holders, peers);
    AnswersComeFrom(Candidates(holders, peers), h, fetch);
    if h !in ix.blobs && FirstAnswer(Candidates(holders, peers), h, fetch).Some? {
      var from := AnswerHasASource(Candidates(holders, peers), h, fetch);
      assert h in c[from].site.index.blobs;
    }
  }

  lemma AllIndexesOk(cfg: Config, states: seq<Mesh>, steps: seq<Step>, i: nat)
    requires IsRun(cfg, states, steps) && i < |states|
    ensures forall p :: p in states[i] ==> IndexOk(cfg, p, states[i][p].site.index)
  {
    forall p | p in states[i] ensures IndexOk(cfg, p, states[i][p].site.index) {
      NodeSound(cfg, states, steps, i, p);
    }
  }

  lemma RecordedSize(cfg: Config, s: SiteId, ix: BlockIndex, data: Bytes)
    requires CollisionFree(cfg) && IndexOk(cfg, s, ix) && cfg.digest(data) in ix.sizes
    ensures SizeOf(ix.sizes, cfg.digest(data)) == |data|
  {
    assert Measured(cfg, cfg.digest(data), ix.sizes[cfg.digest(data)].value);
  }

  /** In every state of every run, at every site where an uploaded manifest is current, whatever can be had of its
      blocks is the chunks it was cut into, with the recorded sizes right, and a block can be had exactly when it is
      available. */
  lemma ReadsAgreeEverywhere(cfg: Config, states: seq<Mesh>, steps: seq<Step>, i: nat, s: SiteId, p: SiteId, j: nat,
                             chunks: seq<Bytes>, peers: seq<SiteId>, fetch: Fetch)
    requires IsRun(cfg, states, steps) && i < |states| && s in states[i] && p in states[i]
    requires UploadReached(states[i], s, p, j) && StillCurrent(states[i][s].site.catalog,
                                                               states[i][p].site.journal.log[j])
    requires p == s ==> SparesUploads(cfg, states, steps, i, s)
    requires CollisionFree(cfg) && Faithful(states[i], s, fetch)
    requires states[i][p].site.journal.log[j].fact.blocks == Digests(cfg, chunks)
    ensures var ix, f := states[i][s].site.index, states[i][p].site.journal.log[j].fact;
            && Agrees(ix, s, peers, fetch, f.blocks, chunks)
            && f.size == |Flatten(chunks)|
            && forall h :: h in f.blocks ==> (Obtain(ix, s, h, peers, fetch).Some? <==> Available(ix, h, peers, fetch))
  {
    var c := states[i];
    var ix, f := c[s].site.index, c[p].site.journal.log[j].fact;
    AllIndexesOk(cfg, states, steps, i);
    forall k | 0 <= k < |chunks|
      ensures SizeOf(ix.sizes, f.blocks[k]) == |chunks[k]|
      ensures Obtain(ix, s, f.blocks[k], peers, fetch) in {None, Some(chunks[k])}
    {
      assert f.blocks[k] == cfg.digest(chunks[k]) && f.blocks[k] in f.blocks;
      ManifestsResolve(cfg, states, steps, i, s, p, j, f.blocks[k]);
      RecordedSize(cfg, s, ix, chunks[k]);
      ObtainsWhatIsAvailable(cfg, c, s, f.blocks[k], peers, fetch);
    }
    forall h | h in f.blocks ensures Obtain(ix, s, h, peers, fetch).Some? <==> Available(ix, h, peers, fetch) {
      ObtainsWhatIsAvailable(cfg, c, s, h, peers, fetch);
    }
    UploadedSize(cfg, states, steps, i, p, j, chunks);
  }

  lemma UploadedSize(cfg: Config, states: seq<Mesh>, steps: seq<Step>, i: nat, p: SiteId, j: nat, chunks: seq<Bytes>)
    requires IsRun(cfg, states, steps) && i < |states| && p in states[i] && CollisionFree(cfg)
    requires j in states[i][p].history.uploaded && j < |states[i][p].site.journal.log|
    requires states[i][p].site.journal.log[j].fact.ObjectPut?
    requires states[i][p].site.journal.log[j].fact.blocks == Digests(cfg, chunks)
    ensures states[i][p].site.journal.log[j].fact.size == |Flatten(chunks)|
  {
    NodeSound(cfg, states, steps, i, p);
    var r := states[i][p].site.journal.log[j];
    assert r in states[i][p].history.arrivals && RecordSound(cfg, r);
    DescribedSize(cfg, chunks, r.fact.size);
  }

  /** A read at site s of what was uploaded at p: a prefix of the bytes asked for with the right length, and all of them
      when every block is available. */
  method ReadAnywhere(store: Store, key: ObjectKey, range: Option<Range>, peers: seq<SiteId>, fetch: Fetch,
                      promotes: bool, now: int,
                      ghost cfg: Config, ghost states: seq<Mesh>, ghost steps: seq<Step>, ghost i: nat,
                          ghost p: SiteId, ghost j: nat,
                      ghost chunks: seq<Bytes>)
    returns (r: Response)
    requires IsRun(cfg, states, steps) && i < |states| && store.me in states[i] && p in states[i]
    requires store.View() == states[i][store.me].site
    requires UploadReached(states[i], store.me, p, j)
    requires StillCurrent(states[i][store.me].site.catalog, states[i][p].site.journal.log[j])
    requires states[i][p].site.journal.log[j].fact.key == key
    requires p == store.me ==> SparesUploads(cfg, states, steps, i, store.me)
    requires CollisionFree(cfg) && Faithful(states[i], store.me, fetch)
    requires states[i][p].site.journal.log[j].fact.blocks == Digests(cfg, chunks)
    modifies store
    ensures var want, ix := Requested(Flatten(chunks), range), old(store.View().index);
            if range.Some? && ResolveRange(range.value, |Flatten(chunks)|).None? then r == InvalidRange
            else && (r.Content? ==> r.body <= want && r.length == |want|)
                 && ((forall h :: h in Digests(cfg, chunks) ==> Available(ix, h, peers, fetch)) ==>
                     r == Content(want, |want|))
  {
    ReadsAgreeEverywhere(cfg, states, steps, i, store.me, p, j, chunks, peers, fetch);
    r := GetObject(store, key, range, peers, fetch, promotes, now, chunks);
  }
}
