/** What each step does to the invariant of the node that takes it. */
module Preservation {
  import opened Prelude
  import opened Lww
  import opened SiteModel
  import opened Gc
  import opened Cluster
  import opened Invariants

  // ── building blocks ───────────────────────────────────────────────────────

  lemma AnnouncedSnoc(log: seq<Record>, r: Record)
    ensures Announced(log + [r]) == Announced(log) + if r.fact.BlockAnnounce? then {r.fact.hash} else {}
  {
    assert r in log + [r];
  }

  lemma LogGrows(me: SiteId, log: seq<Record>, uploaded: set<nat>, arrivals: seq<Record>, r: Record)
    requires LogOk(me, log, uploaded, arrivals)
    requires r.fact.BlockAnnounce? ==> r.fact.location == me
    ensures LogOk(me, log + [r], uploaded, arrivals + [r])
  {
    forall i | i in uploaded ensures (log + [r])[..i] == log[..i] {
    }
  }

  lemma WritersMore(cfg: Config, writers: map<nat, Writer>, hashes: set<Hash>, more: set<Hash>)
    requires WritersOk(cfg, writers, hashes) && hashes <= more
    ensures WritersOk(cfg, writers, more)
  {
  }

  lemma PartsMore(cfg: Config, st: Staging, hashes: set<Hash>, more: set<Hash>)
    requires PartsOk(cfg, st, hashes) && hashes <= more
    ensures PartsOk(cfg, st, more)
  {
  }

  /** A record older than or as old as its key's row cannot become current again: whichever write
      comes next, a record current afterwards was current before. */
  lemma NeverCurrentAgain(arrivals: seq<Record>, next: Record, r: Record)
    requires r in arrivals && StillCurrent(CatalogOf(arrivals + [next]), r)
    ensures StillCurrent(CatalogOf(arrivals), r)
  {
    var w := ObjectWrite(r)[0];
    assert w in ObjectWrites(arrivals) by {
      WritesFromRecords(arrivals);
      assert w in ObjectWrite(r);
    }
    assert (arrivals + [next])[..|arrivals|] == arrivals;
    NoComeback(ObjectWrites(arrivals), ObjectWrite(next), w);
  }

  lemma CatalogIgnoresAnnounce(arrivals: seq<Record>, r: Record)
    requires r.fact.BlockAnnounce?
    ensures CatalogOf(arrivals + [r]) == CatalogOf(arrivals)
  {
    CatalogSnoc(arrivals, r);
  }

  // ── storing a block ───────────────────────────────────────────────────────

  /** Noting one more location adds that holder of that hash and nothing else. */
  lemma HoldersGrow(locations: Locations, h: Hash, loc: SiteId, fid: Bytes, ts: int, g: Hash, p: SiteId)
    ensures p in Holders(NoteLocation(locations, h, loc, fid, ts), g) <==>
            p in Holders(locations, g) || (g == h && p == loc)
  {
  }

  lemma IndexKeepsBlock(cfg: Config, me: SiteId, ix: BlockIndex, h: Hash, data: Bytes, fid: Bytes, ts: int)
    requires IndexOk(cfg, me, ix) && cfg.digest(data) == h
    ensures IndexOk(cfg, me, RecordLocation(ix, h, me, fid, |data|, ts).(blobs := ix.blobs[h := data]))
  {
    forall g ensures g in ix.blobs[h := data] <==> Holds(NoteLocation(ix.locations, h, me, fid, ts), me, g) {
      HoldersGrow(ix.locations, h, me, fid, ts, g, me);
    }
    assert Measured(cfg, h, |data|);
  }

  /** Noting a holder keeps every queued hash with a remote holder. */
  lemma QueueAfterNote(me: SiteId, queue: map<Hash, QueueRow>, locations: Locations,
                       h: Hash, loc: SiteId, fid: Bytes, ts: int)
    requires QueueOk(me, queue, locations)
    ensures QueueOk(me, queue, NoteLocation(locations, h, loc, fid, ts))
  {
    forall g | g in queue ensures HasRemoteHolder(NoteLocation(locations, h, loc, fid, ts), me, g) {
      var p :| p != me && p in Holders(locations, g);
      HoldersGrow(locations, h, loc, fid, ts, g, p);
    }
  }

  lemma MoreStored(cfg: Config, writers: map<nat, Writer>, hashes: set<Hash>, w: nat, data: Bytes)
    requires WritersOk(cfg, writers, hashes) && w in writers && writers[w].Uploading?
    ensures WritersOk(cfg, Extended(cfg, writers, w, data), hashes + {cfg.digest(data)})
  {
    DescribedOne(cfg, data);
    DescribedMore(cfg, writers[w].blocks, writers[w].size, [cfg.digest(data)], |data|);
  }

  /** A new block keeps the invariant: the node it enters may already name the block in its writers and
      may have dropped it from the queue. */
  lemma StoreNewKeeps(cfg: Config, me: SiteId, n: Node, h: Hash, data: Bytes, fid: Bytes, ts: int,
                      writers: map<nat, Writer>, queue: map<Hash, QueueRow>)
    requires NodeInv(cfg, me, n) && cfg.digest(data) == h
    requires WritersOk(cfg, writers, Announced(n.site.journal.log) + {h})
    requires QueueOk(me, queue, n.site.index.locations)
    ensures NodeInv(cfg, me, StoreNew(me, WithQueue(n.(writers := writers), queue), h, data, fid, ts))
  {
    var r := Record(ts, BlockAnnounce(h, me, fid, |data|));
    var log := n.site.journal.log;
    CatalogIgnoresAnnounce(n.history.arrivals, r);
    IndexKeepsBlock(cfg, me, n.site.index, h, data, fid, ts);
    assert Measured(cfg, h, |data|);
    LogGrows(me, log, n.history.uploaded, n.history.arrivals, r);
    AnnouncedSnoc(log, r);
    PartsMore(cfg, n.site.staging, Announced(log), Announced(log + [r]));
    QueueAfterNote(me, queue, n.site.index.locations, h, me, fid, ts);
  }

  lemma QueueKeeps(cfg: Config, me: SiteId, n: Node, writers: map<nat, Writer>, queue: map<Hash, QueueRow>)
    requires NodeInv(cfg, me, n)
    requires WritersOk(cfg, writers, Announced(n.site.journal.log)) && QueueOk(me, queue, n.site.index.locations)
    ensures NodeInv(cfg, me, WithQueue(n.(writers := writers), queue))
  {
  }

  // ── requests ──────────────────────────────────────────────────────────────

  lemma {:induction false} AssembleSound(cfg: Config, st: Staging, u: UploadKey, numbers: seq<int>, hashes: set<Hash>)
    requires PartsOk(cfg, st, hashes)
    requires forall i :: 0 <= i < |numbers| ==> numbers[i] in PartsOf(st, u)
    ensures var (blocks, size) := Assemble(PartsOf(st, u), numbers);
            Described(cfg, blocks, size) && AllIn(blocks, hashes)
  {
    if numbers == [] {
      DescribedNone(cfg);
    } else {
      var init := numbers[..|numbers| - 1];
      AssembleSound(cfg, st, u, init, hashes);
      var (blocks, size) := Assemble(PartsOf(st, u), init);
      var number: int := numbers[|numbers| - 1];
      var last := PartsOf(st, u)[number];
      assert PartOk(cfg, last, hashes);
      DescribedMore(cfg, blocks, size, last.blocks, last.size);
    }
  }

  /** A manifest whose blocks are all announced is logged after their announcements. */
  lemma UploadLogged(me: SiteId, log: seq<Record>, uploaded: set<nat>, arrivals: seq<Record>, r: Record)
    requires LogOk(me, log, uploaded, arrivals)
    requires r.fact.ObjectPut? && AllIn(r.fact.blocks, Announced(log))
    ensures LogOk(me, log + [r], uploaded + {|log|}, arrivals + [r])
  {
    LogGrows(me, log, uploaded, arrivals, r);
    assert (log + [r])[..|log|] == log && (log + [r])[|log|] == r;
  }

  lemma WriteObjectKeeps(cfg: Config, me: SiteId, n: Node, w: nat, key: ObjectKey, etag: string, ts: int)
    requires NodeInv(cfg, me, n) && w in n.writers
    ensures NodeInv(cfg, me, WriteObject(n, w, key, etag, ts))
  {
    var job := n.writers[w];
    var r := Record(ts, ObjectPut(key, job.blocks, job.size, etag));
    var log := n.site.journal.log;
    CatalogSnoc(n.history.arrivals, r);
    AnnouncedSnoc(log, r);
    if job.Uploading? {
      UploadLogged(me, log, n.history.uploaded, n.history.arrivals, r);
    } else {
      LogGrows(me, log, n.history.uploaded, n.history.arrivals, r);
    }
  }

  /** Every row of the catalog carries a described block list, wherever it came from. */
  lemma RowsDescribed(cfg: Config, me: SiteId, n: Node, key: ObjectKey)
    requires NodeInv(cfg, me, n) && key in n.site.catalog.objects
    ensures var m := n.site.catalog.objects[key].value; Described(cfg, m.blocks, m.size)
  {
    var row := n.site.catalog.objects[key];
    var r := RowHasARecord(n.history.arrivals, key);
    assert RecordSound(cfg, r);
    DescribedNone(cfg);
  }

  lemma RowHasARecord(arrivals: seq<Record>, key: ObjectKey) returns (r: Record)
    requires key in CatalogOf(arrivals).objects
    ensures r in arrivals
    ensures var row := CatalogOf(arrivals).objects[key]; Write(key, row.value, row.updatedAt) in ObjectWrite(r)
  {
    var row := CatalogOf(arrivals).objects[key];
    ReplayIsNewest(ObjectWrites(arrivals));
    WritesFromRecords(arrivals);
    assert Newest(ObjectWrites(arrivals), Write(key, row.value, row.updatedAt));
    r :| r in arrivals && Write(key, row.value, row.updatedAt) in ObjectWrite(r);
  }

  lemma WritePartKeeps(cfg: Config, me: SiteId, n: Node, w: nat, upload: UploadKey, number: int, etag: string)
    requires NodeInv(cfg, me, n) && w in n.writers && n.writers[w].Uploading?
    ensures NodeInv(cfg, me, WritePart(n, w, upload, number, etag))
  {
  }

  lemma RemoveObjectKeeps(cfg: Config, me: SiteId, n: Node, key: ObjectKey, ts: int)
    requires NodeInv(cfg, me, n)
    ensures NodeInv(cfg, me, RemoveObject(n, key, ts))
  {
    OwnRecordKeeps(cfg, me, n, RemoveObject(n, key, ts), Record(ts, ObjectDelete(key)));
  }

  lemma WriteUserKeeps(cfg: Config, me: SiteId, n: Node, accessKey: string, credential: Credential, ts: int)
    requires NodeInv(cfg, me, n)
    ensures NodeInv(cfg, me, WriteUser(n, accessKey, credential, ts))
  {
    OwnRecordKeeps(cfg, me, n, WriteUser(n, accessKey, credential, ts), Record(ts, UserPut(accessKey, credential)));
  }

  /** Logging a delete or a user and merging it into the own catalog. */
  lemma OwnRecordKeeps(cfg: Config, me: SiteId, n: Node, n': Node, r: Record)
    requires NodeInv(cfg, me, n) && (r.fact.ObjectDelete? || r.fact.UserPut?)
    requires n' == n.(site := n.site.(catalog := Apply(n.site, me, r, 0).catalog,
                                      journal := Logged(n.site.journal, r.ts, r.fact)),
                      history := n.history.(arrivals := n.history.arrivals + [r]))
    ensures NodeInv(cfg, me, n')
  {
    var log := n.site.journal.log;
    assert n'.site.journal.log == log + [r];
    ApplyReplays(n.site, me, r, 0, n.history.arrivals);
    LogGrows(me, log, n.history.uploaded, n.history.arrivals, r);
    AnnouncedSnoc(log, r);
  }

  // ── pulling a record ──────────────────────────────────────────────────────

  lemma IndexNotesHolder(cfg: Config, me: SiteId, ix: BlockIndex, h: Hash, loc: SiteId, fid: Bytes, length: int,
                         ts: int)
    requires IndexOk(cfg, me, ix) && loc != me && Measured(cfg, h, length)
    ensures IndexOk(cfg, me, RecordLocation(ix, h, loc, fid, length, ts))
    ensures forall g :: Holds(NoteLocation(ix.locations, h, loc, fid, ts), me, g) <==> Holds(ix.locations, me, g)
  {
    forall g ensures Holds(NoteLocation(ix.locations, h, loc, fid, ts), me, g) <==> Holds(ix.locations, me, g) {
      HoldersGrow(ix.locations, h, loc, fid, ts, g, me);
    }
  }

  lemma PullOneKeeps(cfg: Config, me: SiteId, n: Node, peer: SiteId, r: Record, now: int)
    requires NodeInv(cfg, me, n) && RecordSound(cfg, r)
    requires r.fact.BlockAnnounce? ==> r.fact.location != me
    ensures NodeInv(cfg, me, PullOne(me, n, peer, r, now))
  {
    var n' := PullOne(me, n, peer, r, now);
    ApplyReplays(n.site, me, r, now, n.history.arrivals);
    assert n'.site.journal == n.site.journal && n'.site.staging == n.site.staging;
    if r.fact.BlockAnnounce? {
      var f := r.fact;
      IndexNotesHolder(cfg, me, n.site.index, f.hash, f.location, f.fid, f.length, r.ts);
      QueueAfterNote(me, n.site.backlog.queue, n.site.index.locations, f.hash, f.location, f.fid, r.ts);
      HoldersGrow(n.site.index.locations, f.hash, f.location, f.fid, r.ts, f.hash, f.location);
      assert HasRemoteHolder(n'.site.index.locations, me, f.hash);
    }
  }

  // ── sweeping ──────────────────────────────────────────────────────────────

  lemma IndexAfterReap(cfg: Config, me: SiteId, ix: BlockIndex, hs: set<Hash>)
    requires IndexOk(cfg, me, ix)
    ensures IndexOk(cfg, me, Reap(ix, me, hs))
  {
    forall h ensures h in ix.blobs - hs <==> Holds(DropHolders(ix.locations, me, hs), me, h) {
      ReapHolders(ix.locations, me, hs, h);
    }
  }

  /** Sweeping never touches another site's entry. */
  lemma RemoteHoldersStay(me: SiteId, locations: Locations, hs: set<Hash>, h: Hash, p: SiteId)
    requires p != me && p in Holders(locations, h)
    ensures p in Holders(DropHolders(locations, me, hs), h)
  {
    ReapHolders(locations, me, hs, h);
  }

  lemma SweepKeeps(cfg: Config, me: SiteId, n: Node, force: bool, now: int, stamp: Hash -> int)
    requires NodeInv(cfg, me, n)
    ensures NodeInv(cfg, me, SweepNode(cfg, me, n, force, now, stamp))
  {
    var n' := SweepNode(cfg, me, n, force, now, stamp);
    var reaped := Reaped(n.site, me, cfg.grace, force, now);
    IndexAfterReap(cfg, me, n.site.index, reaped);
    forall h | h in n.site.backlog.queue ensures HasRemoteHolder(n'.site.index.locations, me, h) {
      var p :| p != me && p in Holders(n.site.index.locations, h);
      RemoteHoldersStay(me, n.site.index.locations, reaped, h, p);
    }
  }
}
