/** What every reachable state of the cluster satisfies. */
module Invariants {
  import opened Prelude
  import opened Lww
  import opened SiteModel
  import opened Cluster

  // ── soundness of hashes, sizes and block lists ────────────────────────────

  function Digests(cfg: Config, chunks: seq<Bytes>): seq<Hash> {
    seq(|chunks|, i requires 0 <= i < |chunks| => cfg.digest(chunks[i]))
  }

  /** Some byte string of this length has this hash. */
  ghost predicate Measured(cfg: Config, h: Hash, length: int) {
    exists data: Bytes :: cfg.digest(data) == h && |data| == length
  }

  /** The block list and size are those of some list of chunks. */
  ghost predicate Described(cfg: Config, blocks: seq<Hash>, size: int) {
    exists chunks: seq<Bytes> :: Digests(cfg, chunks) == blocks && |Flatten(chunks)| == size
  }

  ghost predicate RecordSound(cfg: Config, r: Record) {
    match r.fact
    case ObjectPut(_, blocks, size, _) => Described(cfg, blocks, size)
    case BlockAnnounce(h, _, _, length) => Measured(cfg, h, length)
    case _ => true
  }

  lemma DescribedNone(cfg: Config)
    ensures Described(cfg, [], 0)
  {
    assert Digests(cfg, []) == [];
  }

  lemma DescribedMore(cfg: Config, a: seq<Hash>, m: int, b: seq<Hash>, n: int)
    requires Described(cfg, a, m) && Described(cfg, b, n)
    ensures Described(cfg, a + b, m + n)
  {
    var x :| Digests(cfg, x) == a && |Flatten(x)| == m;
    var y :| Digests(cfg, y) == b && |Flatten(y)| == n;
    FlattenAppend(x, y);
    assert Digests(cfg, x + y) == a + b;
  }

  lemma DescribedOne(cfg: Config, data: Bytes)
    ensures Described(cfg, [cfg.digest(data)], |data|)
  {
    assert Digests(cfg, [data]) == [cfg.digest(data)];
    FlattenSnoc([], data);
    assert [] + [data] == [data];
  }

  // ── the invariant of one node ─────────────────────────────────────────────

  ghost predicate IndexOk(cfg: Config, me: SiteId, ix: BlockIndex) {
    && (forall h :: h in ix.blobs <==> Holds(ix.locations, me, h))
    && ix.sizes.Keys == ix.locations.Keys
    && (forall h :: h in ix.locations ==> ix.locations[h] != map[])
    && (forall h :: h in ix.blobs ==> cfg.digest(ix.blobs[h]) == h)
    && (forall h :: h in ix.sizes ==> Measured(cfg, h, ix.sizes[h].value))
  }

  /** The hashes announced in a log. */
  ghost function Announced(log: seq<Record>): set<Hash> {
    set r | r in log && r.fact.BlockAnnounce? :: r.fact.hash
  }

  ghost predicate AllIn(blocks: seq<Hash>, hashes: set<Hash>) {
    forall h :: h in blocks ==> h in hashes
  }

  /** An own record is logged under this site's name, and an uploaded manifest comes after the
      announcements of all its blocks. */
  ghost predicate LogOk(me: SiteId, log: seq<Record>, uploaded: set<nat>, arrivals: seq<Record>) {
    && (forall i :: 0 <= i < |log| ==> log[i] in arrivals)
    && (forall i :: 0 <= i < |log| && log[i].fact.BlockAnnounce? ==> log[i].fact.location == me)
    && (forall i :: i in uploaded ==>
          i < |log| && log[i].fact.ObjectPut? && AllIn(log[i].fact.blocks, Announced(log[..i])))
  }

  /** Every writer's block list is that of some chunks, and the blocks of an upload are all in `hashes`. */
  ghost predicate WritersOk(cfg: Config, writers: map<nat, Writer>, hashes: set<Hash>) {
    forall w :: w in writers ==>
      && Described(cfg, writers[w].blocks, writers[w].size)
      && (writers[w].Uploading? ==> AllIn(writers[w].blocks, hashes))
  }

  ghost predicate PartOk(cfg: Config, part: Part, hashes: set<Hash>) {
    Described(cfg, part.blocks, part.size) && AllIn(part.blocks, hashes)
  }

  ghost predicate PartsOk(cfg: Config, st: Staging, hashes: set<Hash>) {
    forall u, n :: u in st.parts && n in st.parts[u] ==> PartOk(cfg, st.parts[u][n], hashes)
  }

  /** The row a logged manifest wrote is still the row of its key. */
  ghost predicate StillCurrent(c: Catalog, r: Record) {
    r.fact.ObjectPut? && r.fact.key in c.objects
    && c.objects[r.fact.key] == Versioned(Manifest(r.fact.blocks, r.fact.size, r.fact.etag, false), r.ts)
  }

  ghost predicate HasRemoteHolder(locations: Locations, me: SiteId, h: Hash) {
    exists p :: p != me && p in Holders(locations, h)
  }

  ghost predicate QueueOk(me: SiteId, queue: map<Hash, QueueRow>, locations: Locations) {
    forall h :: h in queue ==> HasRemoteHolder(locations, me, h)
  }

  ghost predicate NodeInv(cfg: Config, me: SiteId, n: Node) {
    && n.site.catalog == CatalogOf(n.history.arrivals)
    && (forall r :: r in n.history.arrivals ==> RecordSound(cfg, r))
    && IndexOk(cfg, me, n.site.index)
    && LogOk(me, n.site.journal.log, n.history.uploaded, n.history.arrivals)
    && n.site.index.blobs.Keys <= Announced(n.site.journal.log)
    && WritersOk(cfg, n.writers, Announced(n.site.journal.log))
    && PartsOk(cfg, n.site.staging, Announced(n.site.journal.log))
    && QueueOk(me, n.site.backlog.queue, n.site.index.locations)
  }

  // ── the invariant between two nodes, and of the whole mesh ────────────────

  /** The announcement by p at time ts is on record: p's location row and the size row are no older. */
  ghost predicate OnRecord(ix: BlockIndex, p: SiteId, h: Hash, ts: int) {
    && h in ix.locations && p in ix.locations[h] && ts <= ix.locations[h][p].updatedAt
    && h in ix.sizes && ts <= ix.sizes[h].updatedAt
  }

  /** An announcement of p merged here is on record, and its block is held, queued or swept. */
  ghost predicate Kept(n: Node, p: SiteId, r: Record) {
    r.fact.BlockAnnounce? ==>
      && OnRecord(n.site.index, p, r.fact.hash, r.ts)
      && (r.fact.hash in n.site.index.blobs || r.fact.hash in n.site.backlog.queue || r.fact.hash in n.history.gone)
  }

  ghost predicate PairInv(n: Node, p: SiteId, log: seq<Record>) {
    && At(n.site.journal.cursors, p) <= At(n.sync.reading, p) <= At(n.sync.seen, p) <= |log|
    && forall j :: 0 <= j < At(n.sync.seen, p) ==> Kept(n, p, log[j])
  }

  /** r is in this site's own log, or in the part of a peer's log merged here. */
  ghost predicate Sees(c: Mesh, me: SiteId, r: Record)
    requires me in c
  {
    || r in c[me].site.journal.log
    || exists p :: p in c && p != me && At(c[me].sync.seen, p) <= |c[p].site.journal.log|
                   && r in c[p].site.journal.log[..At(c[me].sync.seen, p)]
  }

  ghost predicate Accounted(c: Mesh, me: SiteId)
    requires me in c
  {
    forall r :: r in c[me].history.arrivals <==> Sees(c, me, r)
  }

  ghost predicate Inv(cfg: Config, c: Mesh) {
    && (forall s :: s in c ==> NodeInv(cfg, s, c[s]) && Accounted(c, s))
    && (forall s, p :: s in c && p in c && s != p ==> PairInv(c[s], p, c[p].site.journal.log))
  }
}
