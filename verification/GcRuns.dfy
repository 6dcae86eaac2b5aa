/** Garbage collection over whole runs: the grace period is honoured, and exactly which blocks outlive
    the sweeps between being stored and being named. */
module GcRuns {
  import opened Prelude
  import opened SiteModel
  import opened Gc
  import opened Cluster
  import opened MeshPreservation
  import opened Holding

  ghost predicate SawOrphan(states: seq<Mesh>, k: nat, s: SiteId, h: Hash) {
    k < |states| && s in states[k] && h in Orphans(states[k][s].site, s)
  }

  /** Sweep k first recorded h as an orphan, and every later sweep of s before step i still saw h
      held and unreferenced. */
  ghost predicate OrphanSince(states: seq<Mesh>, steps: seq<Step>, k: nat, i: nat, s: SiteId, h: Hash) {
    && k < i && SweepsAt(steps, k, s) && SawOrphan(states, k, s, h)
    && h !in states[k][s].site.backlog.pending
    && forall m :: k <= m < i && SweepsAt(steps, m, s) ==> SawOrphan(states, m, s, h)
  }

  /** Only a sweep changes pending entries or takes a stored block away. */
  lemma OnlySweepsTake(cfg: Config, c: Mesh, me: SiteId, a: Action)
    requires me in c && Enabled(c, me, a) && !a.Sweep?
    ensures Act(cfg, c, me, a).site.backlog.pending == c[me].site.backlog.pending
    ensures c[me].site.index.blobs.Keys <= Act(cfg, c, me, a).site.index.blobs.Keys
  {
  }

  /** What one step does to the pending entry of h at s. */
  lemma PendingAfterStep(cfg: Config, c: Mesh, step: Step, c': Mesh, s: SiteId, h: Hash)
    requires Next(cfg, c, step, c') && s in c && h in c'[s].site.backlog.pending
    ensures step.at == s && step.action.Sweep? ==>
              && h in Orphans(c[s].site, s)
              && c'[s].site.backlog.pending[h] == if h in c[s].site.backlog.pending then c[s].site.backlog.pending[h]
                                                  else step.action.stamp(h) + cfg.grace
    ensures !(step.at == s && step.action.Sweep?) ==> c'[s].site.backlog.pending == c[s].site.backlog.pending
  {
    if step.at == s && !step.action.Sweep? {
      OnlySweepsTake(cfg, c, s, step.action);
    }
  }

  /** A pending entry dates back to one sweep, with that sweep's stamp plus the grace period. */
  lemma {:induction false} PendingHasAnOrigin(cfg: Config, states: seq<Mesh>, steps: seq<Step>, i: nat, s: SiteId,
                                              h: Hash)
    returns (k: nat)
    requires IsRun(cfg, states, steps) && i < |states| && s in states[i] && h in states[i][s].site.backlog.pending
    ensures OrphanSince(states, steps, k, i, s, h)
    ensures states[i][s].site.backlog.pending[h] == steps[k].action.stamp(h) + cfg.grace
  {
    if i == 0 {
      assert false;
    } else {
      var c := states[i - 1];
      assert StepAt(cfg, states, steps, i - 1);
      PendingAfterStep(cfg, c, steps[i - 1], states[i], s, h);
      if SweepsAt(steps, i - 1, s) && h !in c[s].site.backlog.pending {
        k := i - 1;
      } else {
        k := PendingHasAnOrigin(cfg, states, steps, i - 1, s, h);
      }
    }
  }

  /** Grace over whole runs: a block that an unforced sweep reaps at time t was recorded as an orphan
      by an earlier sweep whose stamp is at least a grace period before t, and every sweep from that
      one on saw it held and unreferenced. Only with no grace at all is a first sighting reaped. */
  lemma UnforcedSweepHonoursGrace(cfg: Config, states: seq<Mesh>, steps: seq<Step>, i: nat, s: SiteId, h: Hash)
    requires IsRun(cfg, states, steps) && SweepsAt(steps, i, s) && s in states[i] && !steps[i].action.force
    requires h in Reaped(states[i][s].site, s, cfg.grace, false, steps[i].action.now)
    ensures SawOrphan(states, i, s, h)
    ensures || cfg.grace <= 0
            || exists k: nat :: OrphanSince(states, steps, k, i, s, h)
                           && steps[k].action.stamp(h) + cfg.grace <= steps[i].action.now
  {
    if h in states[i][s].site.backlog.pending {
      var k := PendingHasAnOrigin(cfg, states, steps, i, s, h);
    }
  }

  // ── which blocks outlive the sweeps ───────────────────────────────────────

  ghost predicate HeldAt(states: seq<Mesh>, j: nat, s: SiteId, h: Hash) {
    j < |states| && s in states[j] && h in states[j][s].site.index.blobs
  }

  function PendingOf(site: Site, h: Hash): Option<int> {
    if h in site.backlog.pending then Some(site.backlog.pending[h]) else None
  }

  /** The reap time of a held block after one step: a sweep that sees it referenced cancels it, the first
      sweep that does not sets it. */
  ghost function DeadlineAfter(cfg: Config, site: Site, step: Step, s: SiteId, h: Hash,
                               before: Option<int>): Option<int> {
    if step.at != s || !step.action.Sweep? then before
    else if h in LiveBlocks(site) then None
    else if before.Some? then before
    else Some(step.action.stamp(h) + cfg.grace)
  }

  /** The step leaves a held block alone: it is no sweep, or the block is referenced, or the sweep is unforced
      and its clock is below the reap time on record, or below the one it would record. */
  ghost predicate Passes(cfg: Config, site: Site, step: Step, s: SiteId, h: Hash, deadline: Option<int>) {
    || step.at != s || !step.action.Sweep?
    || h in LiveBlocks(site)
    || (!step.action.force && if deadline.Some? then step.action.now < deadline.value else 0 < cfg.grace)
  }

  /** The reap time of h at state j, traced from what was pending at state k by sweeps, clocks and references
      alone. */
  ghost function Deadline(cfg: Config, states: seq<Mesh>, steps: seq<Step>, s: SiteId, h: Hash, k: nat,
                          j: nat): Option<int>
    requires k <= j <= |steps| < |states| && Present(states, s)
    decreases j
  {
    if j == k then PendingOf(states[k][s].site, h)
    else DeadlineAfter(cfg, states[j - 1][s].site, steps[j - 1], s, h, Deadline(cfg, states, steps, s, h, k, j - 1))
  }

  ghost predicate Present(states: seq<Mesh>, s: SiteId) {
    forall i :: 0 <= i < |states| ==> s in states[i]
  }

  lemma PresentThroughout(cfg: Config, states: seq<Mesh>, steps: seq<Step>, i: nat, s: SiteId)
    requires IsRun(cfg, states, steps) && i < |states| && s in states[i]
    ensures Present(states, s)
  {
    SitesStay(cfg, states, steps, 0, i);
    forall j | 0 <= j < |states| ensures s in states[j] {
      SitesStay(cfg, states, steps, 0, j);
    }
  }

  ghost predicate PassesAt(cfg: Config, states: seq<Mesh>, steps: seq<Step>, s: SiteId, h: Hash, k: nat, j: nat)
    requires k <= j < |steps| < |states| && Present(states, s)
  {
    Passes(cfg, states[j][s].site, steps[j], s, h, Deadline(cfg, states, steps, s, h, k, j))
  }

  /** No step in [k, i) takes a block held since state k. */
  ghost predicate PassesAll(cfg: Config, states: seq<Mesh>, steps: seq<Step>, s: SiteId, h: Hash, k: nat, i: nat)
    requires k <= i <= |steps| < |states| && Present(states, s)
  {
    forall j :: k <= j < i ==> PassesAt(cfg, states, steps, s, h, k, j)
  }

  ghost predicate HeldThroughout(states: seq<Mesh>, k: nat, i: nat, s: SiteId, h: Hash) {
    forall j :: k <= j <= i ==> HeldAt(states, j, s, h)
  }

  /** One step, seen from a held block and its pending entry. */
  lemma HeldStep(cfg: Config, c: Mesh, step: Step, c': Mesh, s: SiteId, h: Hash)
    requires Next(cfg, c, step, c') && s in c && h in c[s].site.index.blobs && Holds(c[s].site.index.locations, s, h)
    ensures h in c'[s].site.index.blobs <==> Passes(cfg, c[s].site, step, s, h, PendingOf(c[s].site, h))
    ensures h in c'[s].site.index.blobs ==>
              PendingOf(c'[s].site, h) == DeadlineAfter(cfg, c[s].site, step, s, h, PendingOf(c[s].site, h))
  {
    if step.at == s && !step.action.Sweep? {
      OnlySweepsTake(cfg, c, s, step.action);
    }
  }

  lemma HeldStepAt(cfg: Config, states: seq<Mesh>, steps: seq<Step>, s: SiteId, h: Hash, j: nat)
    requires IsRun(cfg, states, steps) && j < |steps| && Present(states, s) && HeldAt(states, j, s, h)
    ensures HeldAt(states, j + 1, s, h) <==> Passes(cfg, states[j][s].site, steps[j], s, h,
                                                    PendingOf(states[j][s].site, h))
    ensures HeldAt(states, j + 1, s, h) ==>
              PendingOf(states[j + 1][s].site, h) == DeadlineAfter(cfg, states[j][s].site, steps[j], s, h,
                                                                   PendingOf(states[j][s].site, h))
  {
    NodeSound(cfg, states, steps, j, s);
    assert StepAt(cfg, states, steps, j);
    HeldStep(cfg, states[j], steps[j], states[j + 1], s, h);
  }

  /** While a block stays held, its pending entry is the traced reap time. */
  lemma {:induction false} PendingIsDeadline(cfg: Config, states: seq<Mesh>, steps: seq<Step>, s: SiteId, h: Hash,
                                             k: nat, j: nat)
    requires IsRun(cfg, states, steps) && k <= j < |states| && Present(states, s)
    requires HeldThroughout(states, k, j, s, h)
    ensures PendingOf(states[j][s].site, h) == Deadline(cfg, states, steps, s, h, k, j)
    decreases j
  {
    if k < j {
      PendingIsDeadline(cfg, states, steps, s, h, k, j - 1);
      assert HeldAt(states, j - 1, s, h) && HeldAt(states, j, s, h);
      HeldStepAt(cfg, states, steps, s, h, j - 1);
    }
  }

  /** A block held at state k is held in every state up to i if and only if every sweep in between that saw
      it unreferenced was unforced and read a clock below its reap time. */
  lemma {:induction false} HeldThroughoutIff(cfg: Config, states: seq<Mesh>, steps: seq<Step>, s: SiteId, h: Hash,
                                             k: nat, i: nat)
    requires IsRun(cfg, states, steps) && k <= i < |states| && HeldAt(states, k, s, h)
    ensures Present(states, s)
    ensures HeldThroughout(states, k, i, s, h) <==> PassesAll(cfg, states, steps, s, h, k, i)
    decreases i
  {
    PresentThroughout(cfg, states, steps, k, s);
    if k < i {
      HeldThroughoutIff(cfg, states, steps, s, h, k, i - 1);
      if HeldThroughout(states, k, i - 1, s, h) {
        PendingIsDeadline(cfg, states, steps, s, h, k, i - 1);
        assert HeldAt(states, i - 1, s, h);
        HeldStepAt(cfg, states, steps, s, h, i - 1);
        assert HeldAt(states, i, s, h) <==> PassesAt(cfg, states, steps, s, h, k, i - 1);
      }
    }
  }

  // ── from a stored block to its manifest ───────────────────────────────────

  /** The step finishes or gives up writer w at s. */
  ghost predicate Ends(step: Step, s: SiteId, w: nat) {
    step.at == s && match step.action
                    case FinishObject(v, _, _, _) => v == w
                    case FinishPart(v, _, _, _) => v == w
                    case Abandon(v) => v == w
                    case _ => false
  }

  ghost predicate Uploads(states: seq<Mesh>, j: nat, s: SiteId, w: nat, h: Hash) {
    && j < |states| && s in states[j] && w in states[j][s].writers
    && states[j][s].writers[w].Uploading? && h in states[j][s].writers[w].blocks
  }

  lemma WriterStep(cfg: Config, c: Mesh, step: Step, c': Mesh, s: SiteId, w: nat, h: Hash)
    requires Next(cfg, c, step, c') && s in c && !Ends(step, s, w)
    requires w in c[s].writers && c[s].writers[w].Uploading? && h in c[s].writers[w].blocks
    ensures w in c'[s].writers && c'[s].writers[w].Uploading? && h in c'[s].writers[w].blocks
  {
  }

  lemma {:induction false} UploadStillNames(cfg: Config, states: seq<Mesh>, steps: seq<Step>, s: SiteId, w: nat,
                                            h: Hash, k: nat, i: nat)
    requires IsRun(cfg, states, steps) && k <= i < |states| && Present(states, s) && Uploads(states, k, s, w, h)
    requires forall j :: k <= j < i ==> !Ends(steps[j], s, w)
    ensures Uploads(states, i, s, w, h)
    decreases i
  {
    if k < i {
      UploadStillNames(cfg, states, steps, s, w, h, k, i - 1);
      assert StepAt(cfg, states, steps, i - 1);
      WriterStep(cfg, states[i - 1], steps[i - 1], states[i], s, w, h);
    }
  }

  lemma StoresForUpload(cfg: Config, c: Mesh, s: SiteId, w: nat, data: Bytes, fid: Bytes, ts: int, c': Mesh)
    requires Next(cfg, c, Step(s, StoreBlock(w, data, fid, ts)), c')
    requires forall h :: h in c[s].site.index.blobs <==> Holds(c[s].site.index.locations, s, h)
    ensures s in c' && cfg.digest(data) in c'[s].site.index.blobs
    ensures w in c'[s].writers && c'[s].writers[w].Uploading? && cfg.digest(data) in c'[s].writers[w].blocks
    ensures c'[s].site.backlog.pending == c[s].site.backlog.pending
  {
    var blocks := c[s].writers[w].blocks;
    assert cfg.digest(data) in blocks + [cfg.digest(data)];
  }

  lemma FinishNames(cfg: Config, c: Mesh, s: SiteId, w: nat, key: ObjectKey, etag: string, ts: int, c': Mesh)
    requires Next(cfg, c, Step(s, FinishObject(w, key, etag, ts)), c') && c[s].writers[w].Uploading?
    ensures var log, job := c[s].site.journal.log, c[s].writers[w];
            && c'[s].site.journal.log == log + [Record(ts, ObjectPut(key, job.blocks, job.size, etag))]
            && |log| in c'[s].history.uploaded
    ensures c'[s].site.index == c[s].site.index
  {
  }

  lemma StoresAt(cfg: Config, states: seq<Mesh>, steps: seq<Step>, s: SiteId, k: nat, w: nat, data: Bytes, fid: Bytes,
                 ts: int)
    requires IsRun(cfg, states, steps) && k < |steps| && Present(states, s)
    requires steps[k] == Step(s, StoreBlock(w, data, fid, ts))
    ensures HeldAt(states, k + 1, s, cfg.digest(data)) && Uploads(states, k + 1, s, w, cfg.digest(data))
    ensures PendingOf(states[k + 1][s].site, cfg.digest(data)) == PendingOf(states[k][s].site, cfg.digest(data))
  {
    NodeSound(cfg, states, steps, k, s);
    assert StepAt(cfg, states, steps, k);
    StoresForUpload(cfg, states[k], s, w, data, fid, ts, states[k + 1]);
  }

  /** The last record of the site's log is an upload's manifest that names h. */
  ghost predicate JustNamed(states: seq<Mesh>, i: nat, s: SiteId, h: Hash) {
    && i < |states| && s in states[i]
    && var log := states[i][s].site.journal.log;
       && log != [] && log[|log| - 1].fact.ObjectPut? && h in log[|log| - 1].fact.blocks
       && |log| - 1 in states[i][s].history.uploaded
  }

  lemma FinishesAt(cfg: Config, states: seq<Mesh>, steps: seq<Step>, s: SiteId, i: nat, w: nat, key: ObjectKey,
                   etag: string, ts: int, h: Hash)
    requires IsRun(cfg, states, steps) && i < |steps| && Present(states, s) && Uploads(states, i, s, w, h)
    requires steps[i] == Step(s, FinishObject(w, key, etag, ts))
    ensures JustNamed(states, i + 1, s, h)
  {
    assert StepAt(cfg, states, steps, i);
    FinishNames(cfg, states[i], s, w, key, etag, ts, states[i + 1]);
  }

  lemma StepperIsPresent(cfg: Config, states: seq<Mesh>, steps: seq<Step>, k: nat)
    requires IsRun(cfg, states, steps) && k < |steps|
    ensures Present(states, steps[k].at)
  {
    assert StepAt(cfg, states, steps, k);
    PresentThroughout(cfg, states, steps, k, steps[k].at);
  }

  /** Step k of the run stores or deduplicates a block for an upload, and step i writes the upload's manifest,
      which names the block. The block is held from one to the other if and only if every sweep in between that
      saw it unreferenced was unforced and read a clock below its reap time: the entry pending at k if there was
      one, else what the first such sweep recorded. */
  lemma UploadKeepsBlockIff(cfg: Config, states: seq<Mesh>, steps: seq<Step>, s: SiteId, k: nat, i: nat,
                            w: nat, data: Bytes, fid: Bytes, ts: int, key: ObjectKey, etag: string, ts': int)
    requires IsRun(cfg, states, steps) && k < i < |steps|
    requires steps[k] == Step(s, StoreBlock(w, data, fid, ts)) && steps[i] == Step(s, FinishObject(w, key, etag, ts'))
    requires forall j :: k < j < i ==> !Ends(steps[j], s, w)
    ensures Present(states, s)
    ensures var h := cfg.digest(data);
            && JustNamed(states, i + 1, s, h)
            && PendingOf(states[k + 1][s].site, h) == PendingOf(states[k][s].site, h)
            && (HeldThroughout(states, k + 1, i + 1, s, h) <==> PassesAll(cfg, states, steps, s, h, k + 1, i + 1))
  {
    StepperIsPresent(cfg, states, steps, k);
    StoresAt(cfg, states, steps, s, k, w, data, fid, ts);
    UploadStillNames(cfg, states, steps, s, w, cfg.digest(data), k + 1, i);
    FinishesAt(cfg, states, steps, s, i, w, key, etag, ts', cfg.digest(data));
    HeldThroughoutIff(cfg, states, steps, s, cfg.digest(data), k + 1, i + 1);
  }

  // ── swept blocks ──────────────────────────────────────────────────────────

  /** The step brings h back to the attention of s: it stores h there or merges an announcement of it. */
  ghost predicate Returns(c: Mesh, step: Step, c': Mesh, s: SiteId, h: Hash) {
    && step.at == s && s in c && s in c'
    && (|| (h !in c[s].site.index.blobs && h in c'[s].site.index.blobs)
        || (step.action.Pull? && step.action.peer in c
            && At(c[s].sync.reading, step.action.peer) < |c[step.action.peer].site.journal.log|
            && var f := c[step.action.peer].site.journal.log[At(c[s].sync.reading, step.action.peer)].fact;
               f.BlockAnnounce? && f.hash == h))
  }

  lemma GoneStep(cfg: Config, c: Mesh, step: Step, c': Mesh, s: SiteId, h: Hash)
    requires Next(cfg, c, step, c') && s in c && h in c'[s].history.gone
    ensures || (step.at == s && step.action.Sweep?
                && h in Reaped(c[s].site, s, cfg.grace, step.action.force, step.action.now))
            || (h in c[s].history.gone && !Returns(c, step, c', s, h))
  {
  }

  /** A block counted as swept was reaped by a sweep of that site, and since then neither stored nor announced
      there. */
  lemma {:induction false} GoneHasASweep(cfg: Config, states: seq<Mesh>, steps: seq<Step>, i: nat, s: SiteId, h: Hash)
    returns (k: nat)
    requires IsRun(cfg, states, steps) && i < |states| && s in states[i] && h in states[i][s].history.gone
    ensures Present(states, s)
    ensures k < i && SweepsAt(steps, k, s)
    ensures h in Reaped(states[k][s].site, s, cfg.grace, steps[k].action.force, steps[k].action.now)
    ensures forall j :: k < j < i ==> !Returns(states[j], steps[j], states[j + 1], s, h)
  {
    PresentThroughout(cfg, states, steps, i, s);
    if i == 0 {
      assert false;
    } else {
      assert StepAt(cfg, states, steps, i - 1);
      GoneStep(cfg, states[i - 1], steps[i - 1], states[i], s, h);
      if SweepsAt(steps, i - 1, s)
         && h in Reaped(states[i - 1][s].site, s, cfg.grace, steps[i - 1].action.force, steps[i - 1].action.now) {
        k := i - 1;
      } else {
        k := GoneHasASweep(cfg, states, steps, i - 1, s, h);
      }
    }
  }
}
