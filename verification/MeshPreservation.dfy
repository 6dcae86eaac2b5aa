/** From steps that keep one node sound to steps and runs that keep the whole mesh sound. */
module MeshPreservation {
  import opened Prelude
  import opened SiteModel
  import opened Gc
  import opened Replication
  import opened Cluster
  import opened Invariants
  import opened Preservation

  // ── what a node knows about one peer ──────────────────────────────────────

  /** Recording any location ages no row of an announcement on record. */
  lemma OnRecordStays(ix: BlockIndex, p: SiteId, g: Hash, ts: int, h: Hash, loc: SiteId, fid: Bytes, length: int,
                      now: int)
    requires OnRecord(ix, p, g, ts)
    ensures OnRecord(RecordLocation(ix, h, loc, fid, length, now), p, g, ts)
  {
  }

  lemma OnRecordAfterReap(ix: BlockIndex, p: SiteId, g: Hash, ts: int, me: SiteId, hs: set<Hash>)
    requires OnRecord(ix, p, g, ts) && p != me
    ensures OnRecord(Reap(ix, me, hs), p, g, ts)
  {
    assert p in ix.locations[g] - {me};
  }

  lemma PairAfterStore(me: SiteId, n: Node, p: SiteId, log: seq<Record>, h: Hash, data: Bytes, fid: Bytes, ts: int,
                       writers: map<nat, Writer>, queue: map<Hash, QueueRow>)
    requires PairInv(n, p, log)
    requires forall g :: g in n.site.backlog.queue ==> g in queue || g == h
    ensures PairInv(StoreNew(me, WithQueue(n.(writers := writers), queue), h, data, fid, ts), p, log)
  {
    var n' := StoreNew(me, WithQueue(n.(writers := writers), queue), h, data, fid, ts);
    forall j | 0 <= j < At(n.sync.seen, p) ensures Kept(n', p, log[j]) {
      assert Kept(n, p, log[j]);
      if log[j].fact.BlockAnnounce? {
        OnRecordStays(n.site.index, p, log[j].fact.hash, log[j].ts, h, me, fid, |data|, ts);
      }
    }
  }

  lemma KeptAfterPull(me: SiteId, n: Node, p: SiteId, before: Record, peer: SiteId, r: Record, now: int)
    requires Kept(n, p, before)
    requires r.fact.BlockAnnounce? && Holds(n.site.index.locations, me, r.fact.hash) ==>
        r.fact.hash in n.site.index.blobs
    requires r.fact.BlockAnnounce? ==> r.fact.location != me
    ensures Kept(PullOne(me, n, peer, r, now), p, before)
  {
    if r.fact.BlockAnnounce? && before.fact.BlockAnnounce? {
      var f := r.fact;
      OnRecordStays(n.site.index, p, before.fact.hash, before.ts, f.hash, f.location, f.fid, f.length, r.ts);
      HoldersGrow(n.site.index.locations, f.hash, f.location, f.fid, r.ts, f.hash, me);
    }
  }

  lemma PulledIsKept(me: SiteId, n: Node, peer: SiteId, r: Record, now: int)
    requires r.fact.BlockAnnounce? ==> r.fact.location == peer && peer != me
    requires r.fact.BlockAnnounce? && Holds(n.site.index.locations, me, r.fact.hash) ==>
        r.fact.hash in n.site.index.blobs
    ensures Kept(PullOne(me, n, peer, r, now), peer, r)
  {
    if r.fact.BlockAnnounce? {
      HoldersGrow(n.site.index.locations, r.fact.hash, peer, r.fact.fid, r.ts, r.fact.hash, me);
    }
  }

  lemma PairAfterPull(me: SiteId, n: Node, p: SiteId, log: seq<Record>, peer: SiteId, r: Record, now: int)
    requires PairInv(n, p, log) && (forall h :: h in n.site.index.blobs <==> Holds(n.site.index.locations, me, h))
    requires p == peer ==> At(n.sync.reading, p) < |log| && r == log[At(n.sync.reading, p)]
    requires p == peer && r.fact.BlockAnnounce? ==> r.fact.location == p
    requires r.fact.BlockAnnounce? ==> r.fact.location != me
    ensures PairInv(PullOne(me, n, peer, r, now), p, log)
  {
    var n' := PullOne(me, n, peer, r, now);
    forall j | 0 <= j < At(n'.sync.seen, p) ensures Kept(n', p, log[j]) {
      if j < At(n.sync.seen, p) {
        KeptAfterPull(me, n, p, log[j], peer, r, now);
      } else {
        PulledIsKept(me, n, peer, r, now);
      }
    }
  }

  lemma PairAfterSweep(cfg: Config, me: SiteId, n: Node, p: SiteId, log: seq<Record>,
                       force: bool, now: int, stamp: Hash -> int)
    requires PairInv(n, p, log) && p != me
    ensures PairInv(SweepNode(cfg, me, n, force, now, stamp), p, log)
  {
    var reaped := Reaped(n.site, me, cfg.grace, force, now);
    forall j | 0 <= j < At(n.sync.seen, p) ensures Kept(SweepNode(cfg, me, n, force, now, stamp), p, log[j]) {
      assert Kept(n, p, log[j]);
      if log[j].fact.BlockAnnounce? {
        OnRecordAfterReap(n.site.index, p, log[j].fact.hash, log[j].ts, me, reaped);
      }
    }
  }

  /** A queue that loses at most a held hash still accounts for every announcement. */
  lemma PairAfterQueue(n: Node, p: SiteId, log: seq<Record>, writers: map<nat, Writer>, queue: map<Hash, QueueRow>)
    requires PairInv(n, p, log)
    requires forall h :: h in n.site.backlog.queue ==> h in queue || h in n.site.index.blobs
    ensures PairInv(WithQueue(n.(writers := writers), queue), p, log)
  {
    forall j | 0 <= j < At(n.sync.seen, p) ensures Kept(WithQueue(n.(writers := writers), queue), p, log[j]) {
      assert Kept(n, p, log[j]);
    }
  }

  /** Nothing about a peer changes with tables that announcements do not concern. */
  lemma PairAfterLocal(n: Node, n': Node, p: SiteId, log: seq<Record>)
    requires PairInv(n, p, log)
    requires n'.site.journal.cursors == n.site.journal.cursors && n'.sync == n.sync
    requires n'.site.index == n.site.index && n'.site.backlog.queue == n.site.backlog.queue
    requires n'.history.gone == n.history.gone
    ensures PairInv(n', p, log)
  {
    forall j | 0 <= j < At(n.sync.seen, p) ensures Kept(n', p, log[j]) {
      assert Kept(n, p, log[j]);
    }
  }

  // ── arrivals are exactly what a node has seen ─────────────────────────────

  lemma AccountedAfterOwn(c: Mesh, me: SiteId, n: Node, added: seq<Record>)
    requires me in c && Accounted(c, me)
    requires n.site.journal.log == c[me].site.journal.log + added
    requires n.history.arrivals == c[me].history.arrivals + added && n.sync.seen == c[me].sync.seen
    ensures Accounted(c[me := n], me)
  {
    var d := c[me := n];
    forall r ensures r in n.history.arrivals <==> Sees(d, me, r) {
      if r !in added {
        if Sees(c, me, r) && r !in c[me].site.journal.log {
          var p :| p in c && p != me && At(c[me].sync.seen, p) <= |c[p].site.journal.log|
                   && r in c[p].site.journal.log[..At(c[me].sync.seen, p)];
          assert p in d && d[p] == c[p];
        }
        if Sees(d, me, r) && r !in n.site.journal.log {
          var p :| p in d && p != me && At(n.sync.seen, p) <= |d[p].site.journal.log|
                   && r in d[p].site.journal.log[..At(n.sync.seen, p)];
          assert p in c && d[p] == c[p];
        }
      }
    }
  }

  lemma AccountedAfterPull(c: Mesh, me: SiteId, n: Node, peer: SiteId, now: int)
    requires me in c && peer in c && peer != me && Accounted(c, me)
    requires At(c[me].sync.reading, peer) <= At(c[me].sync.seen, peer) <= |c[peer].site.journal.log|
    requires At(c[me].sync.reading, peer) < |c[peer].site.journal.log|
    requires n == PullOne(me, c[me], peer, c[peer].site.journal.log[At(c[me].sync.reading, peer)], now)
    requires n.site.journal == c[me].site.journal
    ensures Accounted(c[me := n], me)
  {
    var d := c[me := n];
    var log := c[peer].site.journal.log;
    var k := At(c[me].sync.reading, peer);
    assert forall p :: p != peer ==> At(n.sync.seen, p) == At(c[me].sync.seen, p);
    assert log[..At(c[me].sync.seen, peer)] + [log[k]] == log[..At(n.sync.seen, peer)]
           || At(n.sync.seen, peer) == At(c[me].sync.seen, peer);
    forall r ensures r in n.history.arrivals <==> Sees(d, me, r) {
      if Sees(c, me, r) && r !in c[me].site.journal.log {
        var p :| p in c && p != me && At(c[me].sync.seen, p) <= |c[p].site.journal.log|
                 && r in c[p].site.journal.log[..At(c[me].sync.seen, p)];
        assert d[p] == c[p] && r in d[p].site.journal.log[..At(n.sync.seen, p)];
      }
      if r == log[k] {
        assert d[peer] == c[peer] && r in log[..At(n.sync.seen, peer)];
        assert Sees(d, me, r);
      }
      if Sees(d, me, r) && r !in n.site.journal.log && r != log[k] {
        var p :| p in d && p != me && At(n.sync.seen, p) <= |d[p].site.journal.log|
                 && r in d[p].site.journal.log[..At(n.sync.seen, p)];
        assert d[p] == c[p] && r in c[p].site.journal.log[..At(c[me].sync.seen, p)];
        assert Sees(c, me, r);
      }
    }
  }

  /** Another site's log growing shows a node nothing new. */
  lemma AccountedElsewhere(c: Mesh, me: SiteId, n: Node, q: SiteId)
    requires me in c && q in c && q != me && Accounted(c, q)
    requires c[me].site.journal.log <= n.site.journal.log
    requires forall p :: p in c && p != q ==> At(c[q].sync.seen, p) <= |c[p].site.journal.log|
    ensures Accounted(c[me := n], q)
  {
    var d := c[me := n];
    assert forall p :: p in c && p != q ==>
             d[p].site.journal.log[..At(c[q].sync.seen, p)] == c[p].site.journal.log[..At(c[q].sync.seen, p)];
    forall r ensures Sees(c, q, r) <==> Sees(d, q, r) {
      if Sees(c, q, r) && r !in c[q].site.journal.log {
        var p :| p in c && p != q && At(c[q].sync.seen, p) <= |c[p].site.journal.log|
                 && r in c[p].site.journal.log[..At(c[q].sync.seen, p)];
        assert r in d[p].site.journal.log[..At(d[q].sync.seen, p)];
      }
      if Sees(d, q, r) && r !in d[q].site.journal.log {
        var p :| p in d && p != q && At(d[q].sync.seen, p) <= |d[p].site.journal.log|
                 && r in d[p].site.journal.log[..At(d[q].sync.seen, p)];
        assert r in c[p].site.journal.log[..At(c[q].sync.seen, p)];
      }
    }
  }

  lemma PairLogGrows(n: Node, p: SiteId, log: seq<Record>, log': seq<Record>)
    requires PairInv(n, p, log) && log <= log'
    ensures PairInv(n, p, log')
  {
  }

  /** Replacing one node by a sound one whose log only grew keeps the mesh sound. */
  lemma MeshKeeps(cfg: Config, c: Mesh, me: SiteId, n: Node)
    requires Inv(cfg, c) && me in c
    requires NodeInv(cfg, me, n) && Accounted(c[me := n], me)
    requires c[me].site.journal.log <= n.site.journal.log
    requires forall p :: p in c && p != me ==> PairInv(n, p, c[p].site.journal.log)
    ensures Inv(cfg, c[me := n])
  {
    var d := c[me := n];
    forall s | s in d ensures NodeInv(cfg, s, d[s]) && Accounted(d, s) {
      if s != me {
        forall p | p in c && p != s ensures At(c[s].sync.seen, p) <= |c[p].site.journal.log| {
          assert PairInv(c[s], p, c[p].site.journal.log);
        }
        AccountedElsewhere(c, me, n, s);
      }
    }
    forall s, p | s in d && p in d && s != p ensures PairInv(d[s], p, d[p].site.journal.log) {
      if s != me {
        PairLogGrows(c[s], p, c[p].site.journal.log, d[p].site.journal.log);
      }
    }
  }

  // ── the steps ─────────────────────────────────────────────────────────────

  /** A step that changes no table another invariant reads, and logs the records `added`. */
  lemma LocalStep(cfg: Config, c: Mesh, me: SiteId, n: Node, added: seq<Record>)
    requires Inv(cfg, c) && me in c && NodeInv(cfg, me, n)
    requires n.site.journal == c[me].site.journal.(log := c[me].site.journal.log + added)
    requires n.history.arrivals == c[me].history.arrivals + added
    requires n.sync == c[me].sync && n.site.backlog.queue == c[me].site.backlog.queue
    requires n.site.index == c[me].site.index && n.history.gone == c[me].history.gone
    ensures Inv(cfg, c[me := n])
  {
    AccountedAfterOwn(c, me, n, added);
    forall p | p in c && p != me ensures PairInv(n, p, c[p].site.journal.log) {
      PairAfterLocal(c[me], n, p, c[p].site.journal.log);
    }
    MeshKeeps(cfg, c, me, n);
  }

  /** A step that logs nothing. */
  lemma SteadyStep(cfg: Config, c: Mesh, me: SiteId, n: Node)
    requires Inv(cfg, c) && me in c && NodeInv(cfg, me, n)
    requires n.site.journal.log == c[me].site.journal.log && n.history.arrivals == c[me].history.arrivals
    requires n.sync.seen == c[me].sync.seen
    requires forall p :: p in c && p != me ==> PairInv(n, p, c[p].site.journal.log)
    ensures Inv(cfg, c[me := n])
  {
    AccountedAfterOwn(c, me, n, []);
    MeshKeeps(cfg, c, me, n);
  }

  lemma StoreNewStep(cfg: Config, c: Mesh, me: SiteId, h: Hash, data: Bytes, fid: Bytes, ts: int,
                     writers: map<nat, Writer>, queue: map<Hash, QueueRow>)
    requires Inv(cfg, c) && me in c && cfg.digest(data) == h
    requires WritersOk(cfg, writers, Announced(c[me].site.journal.log) + {h})
    requires QueueOk(me, queue, c[me].site.index.locations)
    requires forall g :: g in c[me].site.backlog.queue ==> g in queue || g == h
    ensures Inv(cfg, c[me := StoreNew(me, WithQueue(c[me].(writers := writers), queue), h, data, fid, ts)])
  {
    var n := StoreNew(me, WithQueue(c[me].(writers := writers), queue), h, data, fid, ts);
    StoreNewKeeps(cfg, me, c[me], h, data, fid, ts, writers, queue);
    AccountedAfterOwn(c, me, n, [Record(ts, BlockAnnounce(h, me, fid, |data|))]);
    forall p | p in c && p != me ensures PairInv(n, p, c[p].site.journal.log) {
      PairAfterStore(me, c[me], p, c[p].site.journal.log, h, data, fid, ts, writers, queue);
    }
    MeshKeeps(cfg, c, me, n);
  }

  lemma QueueStep(cfg: Config, c: Mesh, me: SiteId, writers: map<nat, Writer>, queue: map<Hash, QueueRow>)
    requires Inv(cfg, c) && me in c
    requires WritersOk(cfg, writers, Announced(c[me].site.journal.log))
    requires QueueOk(me, queue, c[me].site.index.locations)
    requires forall h :: h in c[me].site.backlog.queue ==> h in queue || h in c[me].site.index.blobs
    ensures Inv(cfg, c[me := WithQueue(c[me].(writers := writers), queue)])
  {
    var n := WithQueue(c[me].(writers := writers), queue);
    QueueKeeps(cfg, me, c[me], writers, queue);
    forall p | p in c && p != me ensures PairInv(n, p, c[p].site.journal.log) {
      PairAfterQueue(c[me], p, c[p].site.journal.log, writers, queue);
    }
    SteadyStep(cfg, c, me, n);
  }

  lemma StoreStep(cfg: Config, c: Mesh, me: SiteId, h: Hash, data: Bytes, fid: Bytes, ts: int,
                  writers: map<nat, Writer>, queue: map<Hash, QueueRow>)
    requires Inv(cfg, c) && me in c && cfg.digest(data) == h
    requires WritersOk(cfg, writers, Announced(c[me].site.journal.log) + {h})
    requires QueueOk(me, queue, c[me].site.index.locations)
    requires forall g :: g in c[me].site.backlog.queue ==> g in queue || g == h
    ensures Inv(cfg, c[me := KeepBlock(me, WithQueue(c[me].(writers := writers), queue), h, data, fid, ts)])
  {
    if Holds(c[me].site.index.locations, me, h) {
      assert Announced(c[me].site.journal.log) + {h} == Announced(c[me].site.journal.log);
      QueueStep(cfg, c, me, writers, queue);
    } else {
      StoreNewStep(cfg, c, me, h, data, fid, ts, writers, queue);
    }
  }

  lemma PullStep(cfg: Config, c: Mesh, me: SiteId, peer: SiteId, now: int)
    requires Inv(cfg, c) && me in c && Enabled(c, me, Pull(peer, now))
    ensures Inv(cfg, c[me := PullOne(me, c[me], peer, c[peer].site.journal.log[At(c[me].sync.reading, peer)], now)])
  {
    var log := c[peer].site.journal.log;
    var r := log[At(c[me].sync.reading, peer)];
    assert r in c[peer].history.arrivals;
    var n := PullOne(me, c[me], peer, r, now);
    PullOneKeeps(cfg, me, c[me], peer, r, now);
    assert PairInv(c[me], peer, log);
    AccountedAfterPull(c, me, n, peer, now);
    forall p | p in c && p != me ensures PairInv(n, p, c[p].site.journal.log) {
      PairAfterPull(me, c[me], p, c[p].site.journal.log, peer, r, now);
    }
    MeshKeeps(cfg, c, me, n);
  }

  lemma PairsAfterSweep(cfg: Config, c: Mesh, me: SiteId, force: bool, now: int, stamp: Hash -> int)
    requires Inv(cfg, c) && me in c
    ensures forall p :: p in c && p != me ==> PairInv(SweepNode(cfg, me, c[me], force, now, stamp), p,
                                                      c[p].site.journal.log)
  {
    forall p | p in c && p != me
      ensures PairInv(SweepNode(cfg, me, c[me], force, now, stamp), p, c[p].site.journal.log)
    {
      PairAfterSweep(cfg, me, c[me], p, c[p].site.journal.log, force, now, stamp);
    }
  }

  lemma SweepStep(cfg: Config, c: Mesh, me: SiteId, force: bool, now: int, stamp: Hash -> int)
    requires Inv(cfg, c) && me in c
    ensures Inv(cfg, c[me := SweepNode(cfg, me, c[me], force, now, stamp)])
  {
    var n := SweepNode(cfg, me, c[me], force, now, stamp);
    SweepKeeps(cfg, me, c[me], force, now, stamp);
    PairsAfterSweep(cfg, c, me, force, now, stamp);
    SteadyStep(cfg, c, me, n);
  }

  lemma PairAfterCursor(n: Node, n': Node, peer: SiteId, p: SiteId, log: seq<Record>)
    requires PairInv(n, p, log) && (p == peer ==> At(n.sync.reading, peer) <= At(n.sync.seen, peer))
    requires n' == StoreCursor(n, peer) || n' == Rewind(n, peer)
    ensures PairInv(n', p, log)
  {
    forall j | 0 <= j < At(n.sync.seen, p) ensures Kept(n', p, log[j]) {
      assert Kept(n, p, log[j]);
    }
  }

  /** Saving the cursor of a pull, or starting the pull over from the saved cursor. */
  lemma CursorStep(cfg: Config, c: Mesh, me: SiteId, peer: SiteId, n: Node)
    requires Inv(cfg, c) && me in c && peer in c && peer != me
    requires n == StoreCursor(c[me], peer) || n == Rewind(c[me], peer)
    ensures Inv(cfg, c[me := n])
  {
    forall p | p in c && p != me ensures PairInv(n, p, c[p].site.journal.log) {
      PairAfterCursor(c[me], n, peer, p, c[p].site.journal.log);
    }
    SteadyStep(cfg, c, me, n);
  }

  lemma WritersStep(cfg: Config, c: Mesh, me: SiteId, w: nat, job: Writer)
    requires Inv(cfg, c) && me in c && Described(cfg, job.blocks, job.size)
    requires job.Uploading? ==> AllIn(job.blocks, Announced(c[me].site.journal.log))
    ensures Inv(cfg, c[me := c[me].(writers := c[me].writers[w := job])])
  {
    var n := c[me];
    assert WithQueue(n.(writers := n.writers[w := job]), n.site.backlog.queue) == n.(writers := n.writers[w := job]);
    QueueStep(cfg, c, me, n.writers[w := job], n.site.backlog.queue);
  }

  lemma StoreBlockStep(cfg: Config, c: Mesh, me: SiteId, w: nat, data: Bytes, fid: Bytes, ts: int)
    requires Inv(cfg, c) && me in c && w in c[me].writers && c[me].writers[w].Uploading?
    ensures Inv(cfg, c[me := StoreInto(cfg, me, c[me], w, data, fid, ts)])
  {
    var n := c[me];
    MoreStored(cfg, n.writers, Announced(n.site.journal.log), w, data);
    var writers := Extended(cfg, n.writers, w, data);
    StoreStep(cfg, c, me, cfg.digest(data), data, fid, ts, writers, n.site.backlog.queue);
    assert WithQueue(n.(writers := writers), n.site.backlog.queue) == n.(writers := writers);
  }

  lemma RequestKeeps(cfg: Config, c: Mesh, me: SiteId, a: Action)
    requires Inv(cfg, c) && me in c && Enabled(c, me, a)
    requires a.BeginUpload? || a.StoreBlock? || a.BeginCopy? || a.BeginComplete? || a.FinishPart? || a.Abandon?
    ensures Inv(cfg, c[me := Act(cfg, c, me, a)])
  {
    var n := c[me];
    match a
    case BeginUpload(w) =>
      DescribedNone(cfg);
      WritersStep(cfg, c, me, w, Uploading([], 0));
    case StoreBlock(w, data, fid, ts) =>
      StoreBlockStep(cfg, c, me, w, data, fid, ts);
    case BeginCopy(w, source) =>
      RowsDescribed(cfg, me, n, source);
      var m := n.site.catalog.objects[source].value;
      WritersStep(cfg, c, me, w, Copying(m.blocks, m.size, m.etag));
    case BeginComplete(w, upload, numbers) =>
      AssembleSound(cfg, n.site.staging, upload, numbers, Announced(n.site.journal.log));
      var (blocks, size) := Assemble(PartsOf(n.site.staging, upload), numbers);
      WritersStep(cfg, c, me, w, Uploading(blocks, size));
    case FinishPart(w, upload, number, etag) =>
      WritePartKeeps(cfg, me, n, w, upload, number, etag);
      LocalStep(cfg, c, me, WritePart(n, w, upload, number, etag), []);
    case Abandon(w) =>
      assert WithQueue(n.(writers := n.writers - {w}), n.site.backlog.queue) == n.(writers := n.writers - {w});
      QueueStep(cfg, c, me, n.writers - {w}, n.site.backlog.queue);
  }

  lemma WriteKeeps(cfg: Config, c: Mesh, me: SiteId, a: Action)
    requires Inv(cfg, c) && me in c && Enabled(c, me, a)
    requires a.FinishObject? || a.Delete? || a.AddUser? || a.CreateUpload? || a.EndUpload?
    ensures Inv(cfg, c[me := Act(cfg, c, me, a)])
  {
    var n := c[me];
    match a
    case FinishObject(w, key, etag, ts) =>
      WriteObjectKeeps(cfg, me, n, w, key, etag, ts);
      LocalStep(cfg, c, me, WriteObject(n, w, key, etag, ts),
                [Record(ts, ObjectPut(key, n.writers[w].blocks, n.writers[w].size, etag))]);
    case Delete(key, ts) =>
      RemoveObjectKeeps(cfg, me, n, key, ts);
      LocalStep(cfg, c, me, RemoveObject(n, key, ts), [Record(ts, ObjectDelete(key))]);
    case AddUser(accessKey, credential, ts) =>
      WriteUserKeeps(cfg, me, n, accessKey, credential, ts);
      LocalStep(cfg, c, me, WriteUser(n, accessKey, credential, ts), [Record(ts, UserPut(accessKey, credential))]);
    case CreateUpload(upload, name) =>
      LocalStep(cfg, c, me, WithStaging(n, n.site.staging.(uploads := n.site.staging.uploads[upload := name])), []);
    case EndUpload(upload) =>
      LocalStep(cfg, c, me, WithStaging(n, DropUpload(n.site.staging, upload)), []);
  }

  lemma DrainKeeps(cfg: Config, c: Mesh, me: SiteId, a: Action)
    requires Inv(cfg, c) && me in c && Enabled(c, me, a) && (a.DrainDrop? || a.DrainDefer?)
    ensures Inv(cfg, c[me := Act(cfg, c, me, a)])
  {
    var n := c[me];
    assert n.(writers := n.writers) == n;
    match a
    case DrainDrop(h) =>
      DropOnlyWhenHeld(cfg, me, n, h);
      QueueStep(cfg, c, me, n.writers, n.site.backlog.queue - {h});
    case DrainDefer(h, now) =>
      QueueStep(cfg, c, me, n.writers, Deferred(n.site.backlog.queue, h, now));
  }

  lemma FetchKeeps(cfg: Config, c: Mesh, me: SiteId, a: Action)
    requires Inv(cfg, c) && me in c && Enabled(c, me, a) && (a.ReadRepair? || a.DrainFetch?)
    ensures Inv(cfg, c[me := Act(cfg, c, me, a)])
  {
    FetchStep(cfg, c, me, a.h, c[a.from].site.index.blobs[a.h], a.fid, a.ts);
  }

  lemma RequeueKeeps(cfg: Config, c: Mesh, me: SiteId, h: Hash, now: int)
    requires Inv(cfg, c) && me in c && Enabled(c, me, Requeue(h, now))
    ensures Inv(cfg, c[me := WithQueue(c[me], Queued(c[me].site.backlog.queue, h, now))])
  {
    var n := c[me];
    assert HasRemoteHolder(n.site.index.locations, me, h);
    QueueStep(cfg, c, me, n.writers, Queued(n.site.backlog.queue, h, now));
    assert n.(writers := n.writers) == n;
  }

  lemma FetchStep(cfg: Config, c: Mesh, me: SiteId, h: Hash, data: Bytes, fid: Bytes, ts: int)
    requires Inv(cfg, c) && me in c && cfg.digest(data) == h
    ensures Inv(cfg, c[me := Fetched(me, c[me], h, data, fid, ts)])
    ensures Inv(cfg, c[me := KeepBlock(me, c[me], h, data, fid, ts)])
  {
    var n := c[me];
    StoreStep(cfg, c, me, h, data, fid, ts, n.writers, n.site.backlog.queue - {h});
    assert n.(writers := n.writers) == n;
    StoreStep(cfg, c, me, h, data, fid, ts, n.writers, n.site.backlog.queue);
    assert WithQueue(n, n.site.backlog.queue) == n;
  }

  /** A queue entry is dropped only because the block is held: the "gone globally" case never arises. */
  lemma DropOnlyWhenHeld(cfg: Config, me: SiteId, n: Node, h: Hash)
    requires NodeInv(cfg, me, n) && h in n.site.backlog.queue
    requires PlanReplication(Holders(n.site.index.locations, h), me, []).Drop?
    ensures h in n.site.index.blobs
  {
    var p :| p != me && p in Holders(n.site.index.locations, h);
    PlanCharacterised(Holders(n.site.index.locations, h), me, [], p);
  }

  /** Every enabled step keeps the invariant. */
  lemma StepKeeps(cfg: Config, c: Mesh, step: Step, c': Mesh)
    requires Inv(cfg, c) && Next(cfg, c, step, c')
    ensures Inv(cfg, c')
  {
    var me, a := step.at, step.action;
    if a.Pull? {
      PullStep(cfg, c, me, a.peer, a.now);
    } else if a.SaveCursor? || a.RestartPull? {
      CursorStep(cfg, c, me, a.peer, Act(cfg, c, me, a));
    } else if a.Sweep? {
      SweepStep(cfg, c, me, a.force, a.now, a.stamp);
    } else if a.ReadRepair? || a.DrainFetch? {
      FetchKeeps(cfg, c, me, a);
    } else if a.Requeue? {
      RequeueKeeps(cfg, c, me, a.h, a.now);
    } else if a.DrainDrop? || a.DrainDefer? {
      DrainKeeps(cfg, c, me, a);
    } else if a.FinishObject? || a.Delete? || a.AddUser? || a.CreateUpload? || a.EndUpload? {
      WriteKeeps(cfg, c, me, a);
    } else {
      RequestKeeps(cfg, c, me, a);
    }
  }

  lemma EmptyMeshSound(cfg: Config, c: Mesh)
    requires forall s :: s in c ==> c[s] == EMPTY_NODE
    ensures Inv(cfg, c)
  {
  }

  lemma {:induction false} RunSoundUpTo(cfg: Config, states: seq<Mesh>, steps: seq<Step>, i: nat)
    requires IsRun(cfg, states, steps) && i < |states|
    ensures forall j :: 0 <= j <= i ==> Inv(cfg, states[j])
  {
    if i == 0 {
      RunStarts(cfg, states, steps);
    } else {
      RunSoundUpTo(cfg, states, steps, i - 1);
      StepAtKeeps(cfg, states, steps, i);
    }
  }

  /** Every state of every run satisfies the invariant. */
  lemma RunSound(cfg: Config, states: seq<Mesh>, steps: seq<Step>, i: nat)
    requires IsRun(cfg, states, steps) && i < |states|
    ensures Inv(cfg, states[i])
  {
    RunSoundUpTo(cfg, states, steps, i);
  }

  lemma RunStarts(cfg: Config, states: seq<Mesh>, steps: seq<Step>)
    requires IsRun(cfg, states, steps)
    ensures Inv(cfg, states[0])
  {
    EmptyMeshSound(cfg, states[0]);
  }

  lemma StepAtKeeps(cfg: Config, states: seq<Mesh>, steps: seq<Step>, i: nat)
    requires IsRun(cfg, states, steps) && 0 < i < |states| && Inv(cfg, states[i - 1])
    ensures Inv(cfg, states[i])
  {
    assert StepAt(cfg, states, steps, i - 1);
    StepKeeps(cfg, states[i - 1], steps[i - 1], states[i]);
  }

  lemma NodeSound(cfg: Config, states: seq<Mesh>, steps: seq<Step>, i: nat, s: SiteId)
    requires IsRun(cfg, states, steps) && i < |states| && s in states[i]
    ensures NodeInv(cfg, s, states[i][s])
  {
    RunSound(cfg, states, steps, i);
  }

  lemma {:induction false} SitesStay(cfg: Config, states: seq<Mesh>, steps: seq<Step>, i: nat, j: nat)
    requires IsRun(cfg, states, steps) && i <= j < |states|
    ensures states[i].Keys == states[j].Keys
  {
    if i < j {
      SitesStay(cfg, states, steps, i, j - 1);
      assert StepAt(cfg, states, steps, j - 1);
    }
  }
}
