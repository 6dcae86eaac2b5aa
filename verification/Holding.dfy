/** What a site holds for its own uploads, in runs whose sweeps there spare unfinished uploads. */
module Holding {
  import opened Prelude
  import opened SiteModel
  import opened Gc
  import opened Cluster
  import opened Invariants
  import opened Preservation
  import opened MeshPreservation

  /** Step k is a sweep of site s. */
  ghost predicate SweepsAt(steps: seq<Step>, k: nat, s: SiteId) {
    k < |steps| && steps[k].at == s && steps[k].action.Sweep?
  }

  /** The sweep reaps no block of an upload in progress. */
  ghost predicate SparesInFlight(cfg: Config, me: SiteId, n: Node, a: Action)
    requires a.Sweep?
  {
    Reaped(n.site, me, cfg.grace, a.force, a.now) !! InFlight(n)
  }

  /** Of the first i steps, no sweep of s reaps a block of an upload in progress there. */
  ghost predicate SparesUploads(cfg: Config, states: seq<Mesh>, steps: seq<Step>, i: nat, s: SiteId)
    requires |states| == |steps| + 1
  {
    forall k :: 0 <= k < i && SweepsAt(steps, k, s) && s in states[k] ==>
        SparesInFlight(cfg, s, states[k][s], steps[k].action)
  }

  ghost predicate Durable(c: Catalog, log: seq<Record>, uploaded: set<nat>, hashes: set<Hash>) {
    forall i :: i in uploaded && i < |log| && StillCurrent(c, log[i]) ==> AllIn(log[i].fact.blocks, hashes)
  }

  /** The blocks of unfinished uploads, of parts and of uploads still current are all held. */
  ghost predicate HoldsUploads(cfg: Config, n: Node) {
    var held := n.site.index.blobs.Keys;
    && WritersOk(cfg, n.writers, held)
    && PartsOk(cfg, n.site.staging, held)
    && Durable(n.site.catalog, n.site.journal.log, n.history.uploaded, held)
  }

  // ── the steps ─────────────────────────────────────────────────────────────

  /** Durability of the uploads logged so far survives any further arrival, own or remote. */
  lemma DurableAfterArrival(arrivals: seq<Record>, next: Record, log: seq<Record>, log': seq<Record>,
                            uploaded: set<nat>, held: set<Hash>)
    requires Durable(CatalogOf(arrivals), log, uploaded, held)
    requires forall i :: 0 <= i < |log| ==> log[i] in arrivals
    requires forall i :: i in uploaded ==> i < |log|
    requires log <= log'
    ensures Durable(CatalogOf(arrivals + [next]), log', uploaded, held)
  {
    forall i | i in uploaded && StillCurrent(CatalogOf(arrivals + [next]), log'[i])
      ensures AllIn(log'[i].fact.blocks, held)
    {
      assert log'[i] == log[i];
      NeverCurrentAgain(arrivals, next, log[i]);
    }
  }

  lemma WriteHolds(cfg: Config, me: SiteId, n: Node, w: nat, key: ObjectKey, etag: string, ts: int)
    requires NodeInv(cfg, me, n) && HoldsUploads(cfg, n) && w in n.writers
    ensures HoldsUploads(cfg, WriteObject(n, w, key, etag, ts))
  {
    var job := n.writers[w];
    var r := Record(ts, ObjectPut(key, job.blocks, job.size, etag));
    var log := n.site.journal.log;
    CatalogSnoc(n.history.arrivals, r);
    DurableAfterArrival(n.history.arrivals, r, log, log + [r], n.history.uploaded, n.site.index.blobs.Keys);
    if job.Uploading? {
      DurableOneMore(CatalogOf(n.history.arrivals + [r]), log, n.history.uploaded, r, n.site.index.blobs.Keys);
    }
    WritersLess(cfg, n.writers, w, n.site.index.blobs.Keys);
  }

  lemma DurableOneMore(c: Catalog, log: seq<Record>, uploaded: set<nat>, r: Record, held: set<Hash>)
    requires Durable(c, log + [r], uploaded, held) && r.fact.ObjectPut? && AllIn(r.fact.blocks, held)
    ensures Durable(c, log + [r], uploaded + {|log|}, held)
  {
    assert (log + [r])[|log|] == r;
  }

  lemma WritersLess(cfg: Config, writers: map<nat, Writer>, w: nat, held: set<Hash>)
    requires WritersOk(cfg, writers, held)
    ensures WritersOk(cfg, writers - {w}, held)
  {
  }

  /** An own delete or user, or a pulled record, which change no block, writer or part. */
  lemma ArrivalHolds(cfg: Config, me: SiteId, n: Node, n': Node, r: Record)
    requires NodeInv(cfg, me, n) && HoldsUploads(cfg, n)
    requires n'.site.catalog == Apply(n.site, me, r, 0).catalog && n.site.journal.log <= n'.site.journal.log
    requires n'.site.index.blobs == n.site.index.blobs && n'.site.staging == n.site.staging
    requires n'.writers == n.writers && n'.history.uploaded == n.history.uploaded
    ensures HoldsUploads(cfg, n')
  {
    ApplyReplays(n.site, me, r, 0, n.history.arrivals);
    DurableAfterArrival(n.history.arrivals, r, n.site.journal.log, n'.site.journal.log, n.history.uploaded,
                        n.site.index.blobs.Keys);
  }

  lemma KeepHolds(cfg: Config, me: SiteId, n: Node, h: Hash, data: Bytes, fid: Bytes, ts: int)
    requires h in n.site.index.blobs <==> Holds(n.site.index.locations, me, h)
    requires forall i :: i in n.history.uploaded ==> i < |n.site.journal.log|
    requires PartsOk(cfg, n.site.staging, n.site.index.blobs.Keys)
    requires Durable(n.site.catalog, n.site.journal.log, n.history.uploaded, n.site.index.blobs.Keys)
    requires WritersOk(cfg, n.writers, n.site.index.blobs.Keys + {h})
    ensures HoldsUploads(cfg, KeepBlock(me, n, h, data, fid, ts))
  {
    var held := n.site.index.blobs.Keys;
    if Holds(n.site.index.locations, me, h) {
      assert held + {h} == held;
    } else {
      var n' := StoreNew(me, n, h, data, fid, ts);
      assert n'.site.index.blobs.Keys == held + {h};
      PartsMore(cfg, n.site.staging, held, held + {h});
      var log := n.site.journal.log;
      assert forall i :: i in n.history.uploaded ==> n'.site.journal.log[i] == log[i];
    }
  }

  lemma SweepHolds(cfg: Config, me: SiteId, n: Node, a: Action)
    requires HoldsUploads(cfg, n) && a.Sweep? && SparesInFlight(cfg, me, n, a)
    ensures HoldsUploads(cfg, SweepNode(cfg, me, n, a.force, a.now, a.stamp))
  {
    var n' := SweepNode(cfg, me, n, a.force, a.now, a.stamp);
    var reaped := Reaped(n.site, me, cfg.grace, a.force, a.now);
    var held := n.site.index.blobs.Keys;
    assert n'.site.index.blobs.Keys == held - reaped;
    forall i | i in n.history.uploaded && i < |n.site.journal.log|
        && StillCurrent(n.site.catalog, n.site.journal.log[i])
      ensures AllIn(n.site.journal.log[i].fact.blocks, held - reaped)
    {
      assert forall h :: h in n.site.journal.log[i].fact.blocks ==> h in NamedByObjects(n.site.catalog);
    }
    forall u, k | u in n.site.staging.parts && k in n.site.staging.parts[u]
      ensures PartOk(cfg, n.site.staging.parts[u][k], held - reaped)
    {
      assert PartOk(cfg, n.site.staging.parts[u][k], held);
      assert forall h :: h in n.site.staging.parts[u][k].blocks ==> h in NamedByParts(n.site.staging);
    }
    forall w | w in n.writers && n.writers[w].Uploading? ensures AllIn(n.writers[w].blocks, held - reaped) {
      assert forall h :: h in n.writers[w].blocks ==> h in InFlight(n);
    }
  }

  lemma RequestHolds(cfg: Config, c: Mesh, me: SiteId, a: Action)
    requires me in c && Enabled(c, me, a) && NodeInv(cfg, me, c[me]) && HoldsUploads(cfg, c[me])
    requires a.BeginUpload? || a.BeginCopy? || a.BeginComplete? || a.FinishPart? || a.Abandon?
             || a.CreateUpload? || a.EndUpload?
    ensures HoldsUploads(cfg, Act(cfg, c, me, a))
  {
    var n := c[me];
    DescribedNone(cfg);
    match a
    case BeginCopy(w, source) => RowsDescribed(cfg, me, n, source);
    case BeginComplete(w, upload, numbers) =>
      AssembleSound(cfg, n.site.staging, upload, numbers, n.site.index.blobs.Keys);
    case _ =>
  }

  lemma FetchHolds(cfg: Config, c: Mesh, me: SiteId, a: Action)
    requires me in c && Enabled(c, me, a) && NodeInv(cfg, me, c[me]) && HoldsUploads(cfg, c[me])
    requires a.StoreBlock? || a.ReadRepair? || a.DrainFetch?
    ensures HoldsUploads(cfg, Act(cfg, c, me, a))
  {
    var n := c[me];
    var held := n.site.index.blobs.Keys;
    match a
    case StoreBlock(w, data, fid, ts) =>
      MoreStored(cfg, n.writers, held, w, data);
      KeepHolds(cfg, me, n.(writers := Extended(cfg, n.writers, w, data)), cfg.digest(data), data, fid, ts);
    case ReadRepair(h, from, fid, ts) =>
      WritersMore(cfg, n.writers, held, held + {h});
      KeepHolds(cfg, me, n, h, c[from].site.index.blobs[h], fid, ts);
    case DrainFetch(h, from, fid, ts) =>
      WritersMore(cfg, n.writers, held, held + {h});
      KeepHolds(cfg, me, WithQueue(n, n.site.backlog.queue - {h}), h, c[from].site.index.blobs[h], fid, ts);
  }

  /** Cursors and the queue are no concern of uploads. */
  lemma QuietHolds(cfg: Config, n: Node, n': Node)
    requires HoldsUploads(cfg, n)
    requires n'.site.index == n.site.index && n'.site.staging == n.site.staging && n'.site.catalog == n.site.catalog
    requires n'.site.journal.log == n.site.journal.log && n'.writers == n.writers && n'.history == n.history
    ensures HoldsUploads(cfg, n')
  {
  }

  lemma RecordHolds(cfg: Config, c: Mesh, me: SiteId, a: Action)
    requires me in c && Enabled(c, me, a) && NodeInv(cfg, me, c[me]) && HoldsUploads(cfg, c[me])
    requires a.FinishObject? || a.Delete? || a.AddUser? || a.Pull?
    ensures HoldsUploads(cfg, Act(cfg, c, me, a))
  {
    var n := c[me];
    match a
    case FinishObject(w, key, etag, ts) => WriteHolds(cfg, me, n, w, key, etag, ts);
    case Delete(key, ts) => DeleteHolds(cfg, me, n, key, ts);
    case AddUser(accessKey, credential, ts) => UserHolds(cfg, me, n, accessKey, credential, ts);
    case Pull(peer, now) => PullHolds(cfg, me, n, peer, c[peer].site.journal.log[At(n.sync.reading, peer)], now);
  }

  lemma DeleteHolds(cfg: Config, me: SiteId, n: Node, key: ObjectKey, ts: int)
    requires NodeInv(cfg, me, n) && HoldsUploads(cfg, n)
    ensures HoldsUploads(cfg, RemoveObject(n, key, ts))
  {
    ArrivalHolds(cfg, me, n, RemoveObject(n, key, ts), Record(ts, ObjectDelete(key)));
  }

  lemma UserHolds(cfg: Config, me: SiteId, n: Node, accessKey: string, credential: Credential, ts: int)
    requires NodeInv(cfg, me, n) && HoldsUploads(cfg, n)
    ensures HoldsUploads(cfg, WriteUser(n, accessKey, credential, ts))
  {
    ArrivalHolds(cfg, me, n, WriteUser(n, accessKey, credential, ts), Record(ts, UserPut(accessKey, credential)));
  }

  lemma PullHolds(cfg: Config, me: SiteId, n: Node, peer: SiteId, r: Record, now: int)
    requires NodeInv(cfg, me, n) && HoldsUploads(cfg, n)
    ensures HoldsUploads(cfg, PullOne(me, n, peer, r, now))
  {
    ArrivalHolds(cfg, me, n, PullOne(me, n, peer, r, now), r);
  }

  lemma StepHolds(cfg: Config, c: Mesh, me: SiteId, a: Action)
    requires me in c && Enabled(c, me, a) && NodeInv(cfg, me, c[me]) && HoldsUploads(cfg, c[me])
    requires a.Sweep? ==> SparesInFlight(cfg, me, c[me], a)
    ensures HoldsUploads(cfg, Act(cfg, c, me, a))
  {
    if a.Sweep? {
      SweepHolds(cfg, me, c[me], a);
    } else if a.FinishObject? || a.Delete? || a.AddUser? || a.Pull? {
      RecordHolds(cfg, c, me, a);
    } else if a.StoreBlock? || a.ReadRepair? || a.DrainFetch? {
      FetchHolds(cfg, c, me, a);
    } else if a.SaveCursor? || a.RestartPull? || a.Requeue? || a.DrainDrop? || a.DrainDefer? {
      QuietHolds(cfg, c[me], Act(cfg, c, me, a));
    } else {
      RequestHolds(cfg, c, me, a);
    }
  }

  lemma MeshStepHolds(cfg: Config, c: Mesh, step: Step, c': Mesh, s: SiteId)
    requires Next(cfg, c, step, c') && s in c && NodeInv(cfg, s, c[s]) && HoldsUploads(cfg, c[s])
    requires step.at == s && step.action.Sweep? ==> SparesInFlight(cfg, s, c[s], step.action)
    ensures HoldsUploads(cfg, c'[s])
  {
    if step.at == s {
      StepHolds(cfg, c, s, step.action);
    }
  }

  lemma {:induction false} RunHolds(cfg: Config, states: seq<Mesh>, steps: seq<Step>, i: nat, s: SiteId)
    requires IsRun(cfg, states, steps) && i < |states| && s in states[i] && SparesUploads(cfg, states, steps, i, s)
    ensures HoldsUploads(cfg, states[i][s])
  {
    if i > 0 {
      SitesStay(cfg, states, steps, i - 1, i);
      NodeSound(cfg, states, steps, i - 1, s);
      RunHolds(cfg, states, steps, i - 1, s);
      assert StepAt(cfg, states, steps, i - 1);
      MeshStepHolds(cfg, states[i - 1], steps[i - 1], states[i], s);
    }
  }
}
