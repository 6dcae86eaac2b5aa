/** The handlers as steps of the cluster: each is a segment of enabled steps of its site, so that every theorem
    about runs covers it. */
module Handlers {
  import opened Prelude
  import opened SiteModel
  import Gc
  import opened Replication
  import opened Cluster
  import opened Invariants
  import opened Pulling
  import opened Store
  import opened Requests
  import opened Maintenance

  lemma SegmentSnoc(cfg: Config, states: seq<Mesh>, steps: seq<Step>, step: Step, c: Mesh)
    requires IsSegment(cfg, states, steps) && Next(cfg, states[|steps|], step, c)
    ensures IsSegment(cfg, states + [c], steps + [step])
  {
    var states', steps' := states + [c], steps + [step];
    forall i | 0 <= i < |steps'| ensures StepAt(cfg, states', steps', i) {
      if i < |steps| {
        assert StepAt(cfg, states, steps, i);
      }
    }
  }

  lemma SegmentsJoin(cfg: Config, a: seq<Mesh>, aSteps: seq<Step>, b: seq<Mesh>, bSteps: seq<Step>)
    requires IsSegment(cfg, a, aSteps) && IsSegment(cfg, b, bSteps) && b[0] == a[|aSteps|]
    ensures IsSegment(cfg, a + b[1..], aSteps + bSteps)
    ensures (a + b[1..])[0] == a[0] && (a + b[1..])[|aSteps + bSteps|] == b[|bSteps|]
  {
    var states, steps := a + b[1..], aSteps + bSteps;
    forall i | 0 <= i < |steps| ensures StepAt(cfg, states, steps, i) {
      if i < |aSteps| {
        assert StepAt(cfg, a, aSteps, i);
      } else {
        assert StepAt(cfg, b, bSteps, i - |aSteps|);
      }
    }
  }

  /** A segment that starts where a run stands extends the run. */
  lemma SegmentExtendsRun(cfg: Config, states: seq<Mesh>, steps: seq<Step>, more: seq<Mesh>, moreSteps: seq<Step>)
    requires IsRun(cfg, states, steps) && IsSegment(cfg, more, moreSteps) && more[0] == states[|steps|]
    ensures IsRun(cfg, states + more[1..], steps + moreSteps)
  {
    SegmentsJoin(cfg, states, steps, more, moreSteps);
  }

  /** The segment goes from c to a mesh in which only `me` has changed, to n. */
  ghost predicate Leads(cfg: Config, c: Mesh, states: seq<Mesh>, steps: seq<Step>, me: SiteId, n: Node) {
    IsSegment(cfg, states, steps) && states[0] == c && states[|steps|] == c[me := n]
  }

  lemma LeadsNowhere(cfg: Config, c: Mesh, me: SiteId)
    requires me in c
    ensures Leads(cfg, c, [c], [], me, c[me])
  {
    assert c[me := c[me]] == c;
  }

  lemma LeadsOn(cfg: Config, c: Mesh, states: seq<Mesh>, steps: seq<Step>, me: SiteId, n: Node, a: Action)
    requires Leads(cfg, c, states, steps, me, n) && Enabled(c[me := n], me, a)
    ensures var n' := Act(cfg, c[me := n], me, a);
            Leads(cfg, c, states + [c[me := n']], steps + [Step(me, a)], me, n')
  {
    var n' := Act(cfg, c[me := n], me, a);
    assert c[me := n][me := n'] == c[me := n'];
    SegmentSnoc(cfg, states, steps, Step(me, a), c[me := n']);
  }

  // ── an upload ─────────────────────────────────────────────────────────────

  /** The node of an upload that has stored these chunks. */
  ghost predicate HasStored(cfg: Config, me: SiteId, n: Node, n': Node, w: nat, chunks: seq<Bytes>, clock: nat -> int) {
    && n'.site == StoreChunks(cfg, n.site, me, chunks, clock)
    && n'.writers == n.writers[w := Uploading(Digests(cfg, chunks), |Flatten(chunks)|)]
  }

  lemma StoresOneMore(cfg: Config, me: SiteId, n: Node, n': Node, w: nat, chunks: seq<Bytes>, data: Bytes,
                      clock: nat -> int)
    requires HasStored(cfg, me, n, n', w, chunks, clock)
    ensures HasStored(cfg, me, n, StoreInto(cfg, me, n', w, data, LOCAL_FID, clock(|chunks|)), w, chunks + [data],
                      clock)
  {
    StoreChunksSnoc(cfg, n.site, me, chunks, data, clock);
    var more := Extended(cfg, n'.writers, w, data);
    assert more == n.writers[w := Uploading(Digests(cfg, chunks + [data]), |Flatten(chunks + [data])|)];
  }

  lemma {:induction false} StoringIsASegment(cfg: Config, c: Mesh, me: SiteId, w: nat, chunks: seq<Bytes>,
                                             clock: nat -> int)
    returns (states: seq<Mesh>, steps: seq<Step>, n: Node)
    requires me in c && w !in c[me].writers
    ensures Leads(cfg, c, states, steps, me, n) && HasStored(cfg, me, c[me], n, w, chunks, clock)
    ensures |steps| == |chunks| + 1 && steps[0] == Step(me, BeginUpload(w))
    ensures forall k :: 0 <= k < |chunks| ==> steps[k + 1] == Step(me, StoreBlock(w, chunks[k], LOCAL_FID, clock(k)))
  {
    if chunks == [] {
      assert Digests(cfg, chunks) == [];
      LeadsNowhere(cfg, c, me);
      assert c[me := c[me]] == c;
      LeadsOn(cfg, c, [c], [], me, c[me], BeginUpload(w));
      n := Act(cfg, c, me, BeginUpload(w));
      states, steps := [c] + [c[me := n]], [] + [Step(me, BeginUpload(w))];
    } else {
      var k := |chunks| - 1;
      states, steps, n := StoringIsASegment(cfg, c, me, w, chunks[..k], clock);
      assert chunks == chunks[..k] + [chunks[k]];
      var a := StoreBlock(w, chunks[k], LOCAL_FID, clock(k));
      LeadsOn(cfg, c, states, steps, me, n, a);
      StoresOneMore(cfg, me, c[me], n, w, chunks[..k], chunks[k], clock);
      n := StoreInto(cfg, me, n, w, chunks[k], LOCAL_FID, clock(k));
      states, steps := states + [c[me := n]], steps + [Step(me, a)];
    }
  }

  /** What put_object does to a store is a segment: the upload begins, stores its chunks and writes its manifest. */
  lemma UploadIsASegment(cfg: Config, c: Mesh, me: SiteId, w: nat, chunks: seq<Bytes>, key: ObjectKey, etag: string,
                         clock: nat -> int)
    returns (states: seq<Mesh>, steps: seq<Step>, n: Node)
    requires me in c && w !in c[me].writers
    ensures Leads(cfg, c, states, steps, me, n)
    ensures n.site == Uploaded(cfg, c[me].site, me, chunks, key, etag, clock) && n.writers == c[me].writers
    ensures |n.site.journal.log| - 1 in n.history.uploaded
    ensures |steps| == |chunks| + 2 && steps[0] == Step(me, BeginUpload(w))
    ensures forall k :: 0 <= k < |chunks| ==> steps[k + 1] == Step(me, StoreBlock(w, chunks[k], LOCAL_FID, clock(k)))
    ensures steps[|chunks| + 1] == Step(me, FinishObject(w, key, etag, clock(|chunks|)))
  {
    states, steps, n := StoringIsASegment(cfg, c, me, w, chunks, clock);
    var a := FinishObject(w, key, etag, clock(|chunks|));
    LeadsOn(cfg, c, states, steps, me, n, a);
    n := WriteObject(n, w, key, etag, clock(|chunks|));
    states, steps := states + [c[me := n]], steps + [Step(me, a)];
    assert n.writers == c[me].writers;
  }

  /** What upload_part does to a store is a segment: the upload begins, stores its chunks and names them in its part. */
  lemma PartIsASegment(cfg: Config, c: Mesh, me: SiteId, w: nat, chunks: seq<Bytes>, upload: UploadKey, number: int,
                       etag: string, clock: nat -> int)
    returns (states: seq<Mesh>, steps: seq<Step>, n: Node)
    requires me in c && w !in c[me].writers
    ensures Leads(cfg, c, states, steps, me, n)
    ensures n.site == PartUploaded(cfg, c[me].site, me, chunks, upload, number, etag, clock)
    ensures n.writers == c[me].writers
    ensures |steps| == |chunks| + 2 && steps[0] == Step(me, BeginUpload(w))
    ensures forall k :: 0 <= k < |chunks| ==> steps[k + 1] == Step(me, StoreBlock(w, chunks[k], LOCAL_FID, clock(k)))
    ensures steps[|chunks| + 1] == Step(me, FinishPart(w, upload, number, etag))
  {
    states, steps, n := StoringIsASegment(cfg, c, me, w, chunks, clock);
    var a := FinishPart(w, upload, number, etag);
    LeadsOn(cfg, c, states, steps, me, n, a);
    n := WritePart(n, w, upload, number, etag);
    states, steps := states + [c[me := n]], steps + [Step(me, a)];
    assert n.writers == c[me].writers;
  }

  /** The steps of one store call have the effect of that call. */
  lemma StepsAreStoreCalls(cfg: Config, c: Mesh, me: SiteId, a: Action)
    requires me in c && Enabled(c, me, a)
    ensures var s, t := c[me].site, Act(cfg, c, me, a).site;
            match a
            case Delete(key, ts) => t == SiteModel.DeleteObject(s, key, ts)
            case AddUser(accessKey, credential, ts) => t == SiteModel.CreateUser(s, accessKey, credential, ts)
            case CreateUpload(upload, name) =>
              t == s.(staging := s.staging.(uploads := s.staging.uploads[upload := name]))
            case EndUpload(upload) => t == s.(staging := DropUpload(s.staging, upload))
            case Pull(peer, now) =>
              t == Apply(s, me, c[peer].site.journal.log[At(c[me].sync.reading, peer)], now)
            case SaveCursor(peer) =>
              t == s.(journal := s.journal.(cursors := Advance(s.journal.cursors, peer, At(c[me].sync.reading, peer))))
            case Requeue(h, now) => t == s.(backlog := s.backlog.(queue := Queued(s.backlog.queue, h, now)))
            case Sweep(force, now, stamp) => t == Gc.Swept(s, me, cfg.grace, force, now, stamp)
            case _ => true
  {
  }

  // ── a completion ──────────────────────────────────────────────────────────

  /** What complete_multipart_upload does to a store is a segment of three steps. */
  lemma CompletionIsASegment(cfg: Config, c: Mesh, me: SiteId, w: nat, upload: UploadKey, numbers: seq<int>,
                             key: ObjectKey, etag: string, ts: int)
    returns (states: seq<Mesh>, steps: seq<Step>, n: Node)
    requires me in c && w !in c[me].writers && InPartOrder(PartsOf(c[me].site.staging, upload), numbers)
    ensures Leads(cfg, c, states, steps, me, n)
    ensures n.site == CompletedSite(c[me].site, upload, key, numbers, etag, ts) && n.writers == c[me].writers
    ensures steps == [Step(me, BeginComplete(w, upload, numbers)), Step(me, FinishObject(w, key, etag, ts)),
                      Step(me, EndUpload(upload))]
  {
    var (blocks, size) := Assemble(PartsOf(c[me].site.staging, upload), numbers);
    LeadsNowhere(cfg, c, me);
    assert c[me := c[me]] == c;
    var begin := BeginComplete(w, upload, numbers);
    LeadsOn(cfg, c, [c], [], me, c[me], begin);
    n := c[me].(writers := c[me].writers[w := Uploading(blocks, size)]);
    states, steps := [c] + [c[me := n]], [] + [Step(me, begin)];
    var finish := FinishObject(w, key, etag, ts);
    LeadsOn(cfg, c, states, steps, me, n, finish);
    n := WriteObject(n, w, key, etag, ts);
    states, steps := states + [c[me := n]], steps + [Step(me, finish)];
    LeadsOn(cfg, c, states, steps, me, n, EndUpload(upload));
    n := WithStaging(n, DropUpload(n.site.staging, upload));
    states, steps := states + [c[me := n]], steps + [Step(me, EndUpload(upload))];
    assert n.writers == c[me].writers;
  }

  /** What copy_object does to a store is a segment of two steps. */
  lemma CopyIsASegment(cfg: Config, c: Mesh, me: SiteId, w: nat, source: ObjectKey, target: ObjectKey, ts: int)
    returns (states: seq<Mesh>, steps: seq<Step>, n: Node)
    requires me in c && w !in c[me].writers && IsLive(c[me].site.catalog, source)
    ensures Leads(cfg, c, states, steps, me, n)
    ensures var m := c[me].site.catalog.objects[source].value;
            && n.site == SiteModel.InsertObject(c[me].site, target, m.blocks, m.size, m.etag, ts)
            && n.writers == c[me].writers
            && steps == [Step(me, BeginCopy(w, source)), Step(me, FinishObject(w, target, m.etag, ts))]
  {
    var m := c[me].site.catalog.objects[source].value;
    LeadsNowhere(cfg, c, me);
    assert c[me := c[me]] == c;
    LeadsOn(cfg, c, [c], [], me, c[me], BeginCopy(w, source));
    n := c[me].(writers := c[me].writers[w := Copying(m.blocks, m.size, m.etag)]);
    states, steps := [c] + [c[me := n]], [] + [Step(me, BeginCopy(w, source))];
    var finish := FinishObject(w, target, m.etag, ts);
    LeadsOn(cfg, c, states, steps, me, n, finish);
    n := WriteObject(n, w, target, m.etag, ts);
    states, steps := states + [c[me := n]], steps + [Step(me, finish)];
    assert n.writers == c[me].writers;
  }

  // ── reading and draining ──────────────────────────────────────────────────

  /** A peer that answers, answers with the bytes it stores. */
  ghost predicate Faithful(c: Mesh, me: SiteId, fetch: Fetch) {
    forall p, h :: fetch(p, h).Some? ==>
      p in c && p != me && h in c[p].site.index.blobs && fetch(p, h) == Some(c[p].site.index.blobs[h])
  }

  lemma AnswerHasASource(candidates: seq<SiteId>, h: Hash, fetch: Fetch) returns (from: SiteId)
    requires FirstAnswer(candidates, h, fetch).Some?
    ensures from in candidates && fetch(from, h) == FirstAnswer(candidates, h, fetch)
  {
    AnswersComeFrom(candidates, h, fetch);
    from :| from in candidates && fetch(from, h) == FirstAnswer(candidates, h, fetch);
  }

  /** Reading a block from a peer is one enabled step: the repair, or the requeueing when that fails. */
  lemma RepairIsAStep(cfg: Config, c: Mesh, me: SiteId, h: Hash, peers: seq<SiteId>, fetch: Fetch, promotes: bool,
                      now: int)
    returns (a: Action)
    requires me in c && Faithful(c, me, fetch) && !Holds(c[me].site.index.locations, me, h)
    requires Obtain(c[me].site.index, me, h, peers, fetch).Some?
    ensures Enabled(c, me, a) && (if promotes then a.ReadRepair? && a.h == h else a == Requeue(h, now))
    ensures Act(cfg, c, me, a).site
            == Repaired(c[me].site, me, h, Obtain(c[me].site.index, me, h, peers, fetch), promotes, now)
  {
    var holders := Holders(c[me].site.index.locations, h);
    CandidatesAreHolders(holders, peers);
    var from := AnswerHasASource(Candidates(holders, peers), h, fetch);
    a := if promotes then ReadRepair(h, from, LOCAL_FID, now) else Requeue(h, now);
  }

  /** Settling a queue entry is one enabled drain step. */
  lemma DrainIsAStep(cfg: Config, c: Mesh, me: SiteId, h: Hash, peers: seq<SiteId>, fetch: Fetch, promotes: bool,
                     now: int)
    returns (a: Action)
    requires me in c && h in c[me].site.backlog.queue && Faithful(c, me, fetch)
    ensures Enabled(c, me, a)
    ensures var holders := Holders(c[me].site.index.locations, h);
            if holders == map[] || me in holders then a == DrainDrop(h)
            else if Answered(holders, h, peers, fetch) && promotes then a.DrainFetch? && a.h == h
            else a == DrainDefer(h, now)
    ensures Act(cfg, c, me, a).site == Drained(c[me].site, me, h, peers, fetch, promotes, now)
  {
    var holders := Holders(c[me].site.index.locations, h);
    CandidatesAreHolders(holders, peers);
    CandidatesAnswer(holders, h, peers, fetch);
    match PlanReplication(holders, me, peers)
    case Drop => a := DrainDrop(h);
    case Defer => a := DrainDefer(h, now);
    case FetchFrom(candidates) =>
      if FirstAnswer(candidates, h, fetch).None? || !promotes {
        a := DrainDefer(h, now);
      } else {
        var from := AnswerHasASource(candidates, h, fetch);
        a := DrainFetch(h, from, LOCAL_FID, now);
      }
  }

  // ── a synchronisation round ───────────────────────────────────────────────

  /** Nothing but restarts, pulls and saved cursors. */
  ghost predicate OnlySyncs(steps: seq<Step>) {
    forall i :: 0 <= i < |steps| ==>
      steps[i].action.RestartPull? || steps[i].action.Pull? || steps[i].action.SaveCursor?
  }

  /** The node of a pull loop that started at cursor c and has merged up to `upto`. */
  ghost predicate HasPulled(me: SiteId, n: Node, n': Node, peer: SiteId, log: seq<Record>, upto: nat, now: int)
    requires At(n.site.journal.cursors, peer) <= upto <= |log|
  {
    && At(n'.sync.reading, peer) == upto
    && n'.site == ApplyAll(n.site, me, log[At(n.site.journal.cursors, peer)..upto], now)
  }

  lemma PullsOneMore(me: SiteId, n: Node, n': Node, peer: SiteId, log: seq<Record>, upto: nat, now: int)
    requires At(n.site.journal.cursors, peer) <= upto < |log| && HasPulled(me, n, n', peer, log, upto, now)
    ensures HasPulled(me, n, PullOne(me, n', peer, log[upto], now), peer, log, upto + 1, now)
  {
    var after := At(n.site.journal.cursors, peer);
    assert log[after..upto + 1] == log[after..upto] + [log[upto]];
    ApplyAllSnoc(n.site, me, log[after..upto], log[upto], now);
  }

  lemma {:induction false} PullingIsASegment(cfg: Config, c: Mesh, me: SiteId, peer: SiteId, upto: nat, now: int)
    returns (states: seq<Mesh>, steps: seq<Step>, n: Node)
    requires me in c && peer in c && peer != me
    requires At(c[me].site.journal.cursors, peer) <= upto <= |c[peer].site.journal.log|
    ensures Leads(cfg, c, states, steps, me, n) && OnlySyncs(steps)
    ensures HasPulled(me, c[me], n, peer, c[peer].site.journal.log, upto, now)
    ensures |steps| == upto - At(c[me].site.journal.cursors, peer) + 1 && steps[0] == Step(me, RestartPull(peer))
    ensures forall k :: 0 < k < |steps| ==> steps[k] == Step(me, Pull(peer, now))
    decreases upto
  {
    var log, after := c[peer].site.journal.log, At(c[me].site.journal.cursors, peer);
    if upto == after {
      LeadsNowhere(cfg, c, me);
      assert c[me := c[me]] == c;
      LeadsOn(cfg, c, [c], [], me, c[me], RestartPull(peer));
      n := Rewind(c[me], peer);
      states, steps := [c] + [c[me := n]], [] + [Step(me, RestartPull(peer))];
      assert log[after..after] == [];
    } else {
      states, steps, n := PullingIsASegment(cfg, c, me, peer, upto - 1, now);
      assert c[me := n][peer] == c[peer];
      LeadsOn(cfg, c, states, steps, me, n, Pull(peer, now));
      PullsOneMore(me, c[me], n, peer, log, upto - 1, now);
      n := PullOne(me, n, peer, log[upto - 1], now);
      states, steps := states + [c[me := n]], steps + [Step(me, Pull(peer, now))];
    }
  }

  /** A round that catches up with a peer is a segment: a restart, one pull per record and one saved cursor. */
  lemma SyncIsASegment(cfg: Config, c: Mesh, me: SiteId, peer: SiteId, now: int)
    returns (states: seq<Mesh>, steps: seq<Step>, n: Node)
    requires me in c && peer in c && peer != me && At(c[me].site.journal.cursors, peer) < |c[peer].site.journal.log|
    ensures Leads(cfg, c, states, steps, me, n) && OnlySyncs(steps)
    ensures n.site == CaughtUp(c[me].site, me, peer, c[peer].site.journal.log, now, {})
    ensures var pulls := |c[peer].site.journal.log| - At(c[me].site.journal.cursors, peer);
            && |steps| == pulls + 2 && steps[0] == Step(me, RestartPull(peer))
            && steps[pulls + 1] == Step(me, SaveCursor(peer))
            && forall k :: 0 < k <= pulls ==> steps[k] == Step(me, Pull(peer, now))
  {
    var log, after := c[peer].site.journal.log, At(c[me].site.journal.cursors, peer);
    states, steps, n := PullingIsASegment(cfg, c, me, peer, |log|, now);
    LeadsOn(cfg, c, states, steps, me, n, SaveCursor(peer));
    MergingEverything(log, after, |log|);
    ApplyAllKeepsJournal(c[me].site, me, log[after..|log|], now);
    n := StoreCursor(n, peer);
    states, steps := states + [c[me := n]], steps + [Step(me, SaveCursor(peer))];
  }
}
