/** Blocks over whole runs: they stay where they were uploaded, they can be found from every site
    that sees a manifest naming them, and they are the bytes their hash says. */
module Durability {
  import opened Prelude
  import opened SiteModel
  import opened Cluster
  import opened Invariants
  import opened Preservation
  import opened MeshPreservation
  import opened Holding
  import opened GcRuns
  import opened Chunking

  ghost predicate CollisionFree(cfg: Config) {
    forall a: Bytes, b: Bytes :: cfg.digest(a) == cfg.digest(b) ==> a == b
  }

  /** Position j of p's log was written by an upload or a completion at p and has reached s. */
  ghost predicate UploadReached(c: Mesh, s: SiteId, p: SiteId, j: nat)
    requires s in c && p in c
  {
    j in c[p].history.uploaded && j < |c[p].site.journal.log| && (p == s || j < At(c[s].sync.seen, p))
  }

  /** Origin durability: while the row an upload wrote is still the row of its key at the site that
      took it, that site holds every one of its blocks, through any sweeps, pulls and drains, when its
      sweeps spare unfinished uploads. */
  lemma OriginKeepsItsBlocks(cfg: Config, states: seq<Mesh>, steps: seq<Step>, i: nat, s: SiteId, j: nat)
    requires IsRun(cfg, states, steps) && i < |states| && s in states[i] && j in states[i][s].history.uploaded
    requires SparesUploads(cfg, states, steps, i, s)
    ensures j < |states[i][s].site.journal.log|
    ensures var n := states[i][s];
            var r := n.site.journal.log[j];
            StillCurrent(n.site.catalog, r) ==>
              forall h :: h in r.fact.blocks ==> h in n.site.index.blobs && Holds(n.site.index.locations, s, h)
  {
    NodeSound(cfg, states, steps, i, s);
    RunHolds(cfg, states, steps, i, s);
  }

  /** One step, seen from a manifest among the arrivals: it was current before if it is current afterwards, and
      its blocks stay. */
  lemma CurrentStep(cfg: Config, c: Mesh, step: Step, c': Mesh, s: SiteId, r: Record)
    requires Next(cfg, c, step, c') && s in c && NodeInv(cfg, s, c[s]) && NodeInv(cfg, s, c'[s])
    requires r in c[s].history.arrivals && StillCurrent(c'[s].site.catalog, r)
    ensures StillCurrent(c[s].site.catalog, r)
    ensures AllIn(r.fact.blocks, c[s].site.index.blobs.Keys) ==> AllIn(r.fact.blocks, c'[s].site.index.blobs.Keys)
  {
    if step.at == s {
      var arrivals := c[s].history.arrivals;
      ArrivalsStep(cfg, c, s, step.action);
      if c'[s].history.arrivals != arrivals {
        NeverCurrentAgain(arrivals, c'[s].history.arrivals[|arrivals|], r);
      }
      if step.action.Sweep? {
        assert forall h :: h in r.fact.blocks ==> h in NamedByObjects(c[s].site.catalog);
      } else {
        OnlySweepsTake(cfg, c, s, step.action);
      }
    }
  }

  lemma ArrivalsStep(cfg: Config, c: Mesh, me: SiteId, a: Action)
    requires me in c && Enabled(c, me, a)
    ensures var before, after := c[me].history.arrivals, Act(cfg, c, me, a).history.arrivals;
            after == before || (|after| == |before| + 1 && after == before + [after[|before|]])
  {
  }

  lemma CurrentStepAt(cfg: Config, states: seq<Mesh>, steps: seq<Step>, s: SiteId, j: nat, r: Record)
    requires IsRun(cfg, states, steps) && j < |steps| && Present(states, s)
    requires r in states[j][s].history.arrivals && StillCurrent(states[j + 1][s].site.catalog, r)
    ensures StillCurrent(states[j][s].site.catalog, r)
    ensures AllIn(r.fact.blocks, states[j][s].site.index.blobs.Keys) ==>
            AllIn(r.fact.blocks, states[j + 1][s].site.index.blobs.Keys)
  {
    NodeSound(cfg, states, steps, j, s);
    NodeSound(cfg, states, steps, j + 1, s);
    assert StepAt(cfg, states, steps, j);
    CurrentStep(cfg, states[j], steps[j], states[j + 1], s, r);
  }

  lemma {:induction false} ArrivalsGrow(cfg: Config, states: seq<Mesh>, steps: seq<Step>, s: SiteId, m: nat, i: nat,
                                        r: Record)
    requires IsRun(cfg, states, steps) && m <= i < |states| && Present(states, s) && r in states[m][s].history.arrivals
    ensures r in states[i][s].history.arrivals
    decreases i
  {
    if m < i {
      ArrivalsGrow(cfg, states, steps, s, m, i - 1, r);
      assert StepAt(cfg, states, steps, i - 1);
      if steps[i - 1].at == s {
        ArrivalsStep(cfg, states[i - 1], s, steps[i - 1].action);
      }
    }
  }

  /** Whatever sweeps do to other uploads: a manifest whose blocks a site holds at some moment keeps them there
      as long as it is current. */
  lemma {:induction false} HeldWhileCurrent(cfg: Config, states: seq<Mesh>, steps: seq<Step>, s: SiteId, m: nat,
                                            i: nat, r: Record)
    requires IsRun(cfg, states, steps) && m <= i < |states| && s in states[m] && s in states[i]
    requires r in states[m][s].history.arrivals && StillCurrent(states[i][s].site.catalog, r)
    requires AllIn(r.fact.blocks, states[m][s].site.index.blobs.Keys)
    ensures AllIn(r.fact.blocks, states[i][s].site.index.blobs.Keys)
    decreases i
  {
    if m < i {
      PresentThroughout(cfg, states, steps, i, s);
      ArrivalsGrow(cfg, states, steps, s, m, i - 1, r);
      CurrentStepAt(cfg, states, steps, s, i - 1, r);
      HeldWhileCurrent(cfg, states, steps, s, m, i - 1, r);
    }
  }

  /** Manifest resolvability: wherever an uploaded manifest is the current row, every block it names
      has a size row and its origin as a known holder. Away from the origin no sweep can change that; at the
      origin its sweeps must spare unfinished uploads. */
  lemma ManifestsResolve(cfg: Config, states: seq<Mesh>, steps: seq<Step>, i: nat, s: SiteId, p: SiteId, j: nat,
                         h: Hash)
    requires IsRun(cfg, states, steps) && i < |states| && s in states[i] && p in states[i]
    requires UploadReached(states[i], s, p, j)
    requires StillCurrent(states[i][s].site.catalog, states[i][p].site.journal.log[j])
    requires p == s ==> SparesUploads(cfg, states, steps, i, s)
    requires h in states[i][p].site.journal.log[j].fact.blocks
    ensures var ix := states[i][s].site.index; h in ix.sizes && p in Holders(ix.locations, h)
  {
    var c := states[i];
    if p == s {
      NodeSound(cfg, states, steps, i, s);
      RunHolds(cfg, states, steps, i, s);
      assert h in c[s].site.index.blobs;
    } else {
      NodeSound(cfg, states, steps, i, p);
      assert PairInv(c[s], p, c[p].site.journal.log) by { RunSound(cfg, states, steps, i); }
      ResolvesElsewhere(c[s], p, c[p].site.journal.log, c[p].history, j, h);
    }
  }

  /** What an origin announced before a manifest is on record wherever the manifest has been pulled. */
  lemma ResolvesElsewhere(n: Node, p: SiteId, log: seq<Record>, history: History, j: nat, h: Hash)
    requires PairInv(n, p, log) && LogOk(p, log, history.uploaded, history.arrivals)
    requires j in history.uploaded && j < At(n.sync.seen, p) && h in log[j].fact.blocks
    ensures h in n.site.index.sizes && p in Holders(n.site.index.locations, h)
  {
    assert h in Announced(log[..j]);
    var r :| r in log[..j] && r.fact.BlockAnnounce? && r.fact.hash == h;
    var k :| 0 <= k < j && log[..j][k] == r;
    assert Kept(n, p, log[k]);
  }

  /** Content addressing: at every site of every run the bytes stored under a hash have that hash, although
      fetched blocks are never rehashed, and every site's size row for the hash is their length, whether that
      site holds the block or not. */
  lemma StoredBytesMatchTheirHash(cfg: Config, states: seq<Mesh>, steps: seq<Step>, i: nat, s: SiteId, p: SiteId,
                                  h: Hash)
    requires IsRun(cfg, states, steps) && i < |states| && s in states[i] && p in states[i]
        && h in states[i][p].site.index.blobs
    ensures cfg.digest(states[i][p].site.index.blobs[h]) == h
    ensures h in states[i][p].site.index.sizes
    ensures h in states[i][s].site.index.sizes && CollisionFree(cfg) ==>
              states[i][s].site.index.sizes[h].value == |states[i][p].site.index.blobs[h]|
  {
    NodeSound(cfg, states, steps, i, s);
    NodeSound(cfg, states, steps, i, p);
    SizesAreLengths(cfg, p, states[i][p].site.index, h);
    if h in states[i][s].site.index.sizes {
      assert Measured(cfg, h, states[i][s].site.index.sizes[h].value);
    }
  }

  lemma SizesAreLengths(cfg: Config, s: SiteId, ix: BlockIndex, h: Hash)
    requires IndexOk(cfg, s, ix) && h in ix.blobs
    ensures h in ix.sizes && (CollisionFree(cfg) ==> ix.sizes[h].value == |ix.blobs[h]|)
  {
    assert Holds(ix.locations, s, h);
    assert Measured(cfg, h, ix.sizes[h].value);
    var data: Bytes :| cfg.digest(data) == h && |data| == ix.sizes[h].value;
  }

  // ── reading an upload back ────────────────────────────────────────────────

  function Stored(blobs: map<Hash, Bytes>, blocks: seq<Hash>): seq<Bytes>
    requires forall h :: h in blocks ==> h in blobs
  {
    seq(|blocks|, i requires 0 <= i < |blocks| => assert blocks[i] in blocks; blobs[blocks[i]])
  }

  lemma StoredAreTheChunks(cfg: Config, blobs: map<Hash, Bytes>, blocks: seq<Hash>, chunks: seq<Bytes>)
    requires CollisionFree(cfg) && Digests(cfg, chunks) == blocks
    requires forall h :: h in blocks ==> h in blobs && cfg.digest(blobs[h]) == h
    ensures Stored(blobs, blocks) == chunks
  {
    assert |chunks| == |blocks|;
    forall i | 0 <= i < |chunks| ensures Stored(blobs, blocks)[i] == chunks[i] {
      assert blocks[i] in blocks && cfg.digest(chunks[i]) == Digests(cfg, chunks)[i];
    }
  }

  lemma DescribedSize(cfg: Config, chunks: seq<Bytes>, size: int)
    requires CollisionFree(cfg) && Described(cfg, Digests(cfg, chunks), size)
    ensures size == |Flatten(chunks)|
  {
    var other: seq<Bytes> :| Digests(cfg, other) == Digests(cfg, chunks) && |Flatten(other)| == size;
    assert |other| == |Digests(cfg, other)| == |chunks|;
    forall i | 0 <= i < |chunks| ensures other[i] == chunks[i] {
      assert Digests(cfg, other)[i] == cfg.digest(other[i]);
      assert Digests(cfg, chunks)[i] == cfg.digest(chunks[i]);
    }
    assert other == chunks;
  }

  /** An uploaded body survives: in any later state, if the row is still current where the body was
      uploaded, the blocks stored there join up to the body, byte for byte, whatever chunker was used,
      and the recorded sizes are the ones ranged reads need. */
  lemma UploadReadsBack(cfg: Config, states: seq<Mesh>, steps: seq<Step>, i: nat, s: SiteId, j: nat,
                        strategy: Strategy, body: Bytes)
    requires IsRun(cfg, states, steps) && i < |states| && s in states[i] && j in states[i][s].history.uploaded
    requires j < |states[i][s].site.journal.log| && StillCurrent(states[i][s].site.catalog,
                                                                 states[i][s].site.journal.log[j])
    requires SparesUploads(cfg, states, steps, i, s)
    requires CollisionFree(cfg) && Valid(strategy)
    requires states[i][s].site.journal.log[j].fact.blocks == Digests(cfg, Batch(strategy, body))
    ensures var ix, f := states[i][s].site.index, states[i][s].site.journal.log[j].fact;
            && (forall h :: h in f.blocks ==> h in ix.blobs && h in ix.sizes && ix.sizes[h].value == |ix.blobs[h]|)
            && Flatten(Stored(ix.blobs, f.blocks)) == body
            && f.size == |body|
  {
    NodeSound(cfg, states, steps, i, s);
    RunHolds(cfg, states, steps, i, s);
    var n := states[i][s];
    var r := n.site.journal.log[j];
    assert r in n.history.arrivals && RecordSound(cfg, r);
    assert AllIn(r.fact.blocks, n.site.index.blobs.Keys);
    forall h | h in r.fact.blocks
      ensures h in n.site.index.sizes && n.site.index.sizes[h].value == |n.site.index.blobs[h]|
    {
      SizesAreLengths(cfg, s, n.site.index, h);
    }
    var chunks := Batch(strategy, body);
    StoredAreTheChunks(cfg, n.site.index.blobs, r.fact.blocks, chunks);
    DescribedSize(cfg, chunks, r.fact.size);
    BatchShape(strategy, body);
  }

  // ── the replication queue ─────────────────────────────────────────────────

  /** Every announcement of a peer merged here is accounted for: the block is held, queued, or was
      swept after it was last stored or announced here. */
  lemma AnnouncedIsHeldQueuedOrSwept(cfg: Config, states: seq<Mesh>, steps: seq<Step>, i: nat, s: SiteId, p: SiteId,
                                     j: nat)
    requires IsRun(cfg, states, steps) && i < |states| && s in states[i] && p in states[i] && s != p
    requires j < At(states[i][s].sync.seen, p) <= |states[i][p].site.journal.log|
    requires states[i][p].site.journal.log[j].fact.BlockAnnounce?
    ensures var n, h := states[i][s], states[i][p].site.journal.log[j].fact.hash;
            && p in Holders(n.site.index.locations, h)
            && (h in n.site.index.blobs || h in n.site.backlog.queue || h in n.history.gone)
  {
    RunSound(cfg, states, steps, i);
    assert PairInv(states[i][s], p, states[i][p].site.journal.log);
    assert Kept(states[i][s], p, states[i][p].site.journal.log[j]);
  }

  /** Only the drainer takes a hash off the queue, and only once the block is held here. */
  lemma LeavesTheQueueOnlyWhenHeld(cfg: Config, states: seq<Mesh>, steps: seq<Step>, i: nat, s: SiteId, h: Hash)
    requires IsRun(cfg, states, steps) && i < |steps| && s in states[i] && s in states[i + 1]
    requires h in states[i][s].site.backlog.queue && h !in states[i + 1][s].site.backlog.queue
    ensures steps[i].at == s && (steps[i].action == DrainDrop(h)
                                 || (steps[i].action.DrainFetch? && steps[i].action.h == h))
    ensures h in states[i + 1][s].site.index.blobs
    ensures HasRemoteHolder(states[i][s].site.index.locations, s, h)
  {
    RunSound(cfg, states, steps, i);
    RunSound(cfg, states, steps, i + 1);
    assert StepAt(cfg, states, steps, i);
    QueueOnlyDrained(cfg, states[i], s, steps[i].action, h);
    if steps[i].action.DrainDrop? {
      DropOnlyWhenHeld(cfg, s, states[i][s], h);
    }
  }

  lemma QueueOnlyDrained(cfg: Config, c: Mesh, me: SiteId, a: Action, h: Hash)
    requires me in c && Enabled(c, me, a)
    requires h in c[me].site.backlog.queue && h !in Act(cfg, c, me, a).site.backlog.queue
    ensures a == DrainDrop(h) || (a.DrainFetch? && a.h == h)
    ensures a.DrainFetch? ==> h in Act(cfg, c, me, a).site.index.blobs
    ensures a == DrainDrop(h) ==> Act(cfg, c, me, a).site.index == c[me].site.index
  {
  }

  // ── the multipart hand-over ───────────────────────────────────────────────

  lemma PartOrderIsUnique(parts: map<int, Part>, a: seq<int>, b: seq<int>)
    requires InPartOrder(parts, a) && InPartOrder(parts, b)
    ensures a == b
  {
    SameSortedNumbers(a, b);
  }

  /** The parts' block lists, lowest part number first. */
  function ListsInOrder(parts: map<int, Part>, numbers: seq<int>): seq<seq<Hash>>
    requires forall i :: 0 <= i < |numbers| ==> numbers[i] in parts
  {
    seq(|numbers|, i requires 0 <= i < |numbers| => parts[numbers[i]].blocks)
  }

  lemma {:induction false} AssembledInPartOrder(parts: map<int, Part>, numbers: seq<int>)
    requires forall i :: 0 <= i < |numbers| ==> numbers[i] in parts
    ensures Assemble(parts, numbers).0 == Flatten(ListsInOrder(parts, numbers))
  {
    if numbers != [] {
      var init, number := numbers[..|numbers| - 1], numbers[|numbers| - 1];
      AssembledInPartOrder(parts, init);
      assert ListsInOrder(parts, numbers) == ListsInOrder(parts, init) + [parts[number].blocks];
      FlattenSnoc(ListsInOrder(parts, init), parts[number].blocks);
    }
  }

  lemma LastIsLargest(a: seq<int>, n: int)
    requires Increasing(a) && a != []
    ensures n in a[..|a| - 1] <==> n in a && n < a[|a| - 1]
    ensures n in a ==> n <= a[|a| - 1]
  {
    if n in a {
      var i :| 0 <= i < |a| && a[i] == n;
      if i < |a| - 1 {
        assert a[..|a| - 1][i] == n;
      }
    }
  }

  lemma {:induction false} SameSortedNumbers(a: seq<int>, b: seq<int>)
    requires Increasing(a) && Increasing(b)
    requires forall n :: n in a <==> n in b
    ensures a == b
  {
    assert a != [] ==> a[|a| - 1] in a;
    assert b != [] ==> b[|b| - 1] in b;
    if a != [] {
      var a', b' := a[..|a| - 1], b[..|b| - 1];
      LastIsLargest(a, b[|b| - 1]);
      LastIsLargest(b, a[|a| - 1]);
      forall n ensures n in a' <==> n in b' {
        LastIsLargest(a, n);
        LastIsLargest(b, n);
      }
      SameSortedNumbers(a', b');
      assert a == a' + [a[|a| - 1]] && b == b' + [b[|b| - 1]];
    }
  }

  /** The parts' sizes added up, lowest part number first. */
  function SizesAdded(parts: map<int, Part>, numbers: seq<int>): int
    requires forall i :: 0 <= i < |numbers| ==> numbers[i] in parts
  {
    if numbers == [] then 0 else parts[numbers[0]].size + SizesAdded(parts, numbers[1..])
  }

  lemma {:induction false} SizesAddedSnoc(parts: map<int, Part>, numbers: seq<int>)
    requires numbers != [] && forall i :: 0 <= i < |numbers| ==> numbers[i] in parts
    ensures SizesAdded(parts, numbers)
            == SizesAdded(parts, numbers[..|numbers| - 1]) + parts[numbers[|numbers| - 1]].size
  {
    if |numbers| > 1 {
      SizesAddedSnoc(parts, numbers[1..]);
      assert numbers[1..][..|numbers| - 2] == numbers[..|numbers| - 1][1..];
    }
  }

  lemma {:induction false} AssembledSize(parts: map<int, Part>, numbers: seq<int>)
    requires forall i :: 0 <= i < |numbers| ==> numbers[i] in parts
    ensures Assemble(parts, numbers).1 == SizesAdded(parts, numbers)
  {
    if numbers != [] {
      AssembledSize(parts, numbers[..|numbers| - 1]);
      SizesAddedSnoc(parts, numbers);
    }
  }

  /** A completion writes the parts' blocks in part-number order and the sum of their sizes. */
  lemma CompletionNamesTheParts(n: Node, w: nat, upload: UploadKey, numbers: seq<int>, key: ObjectKey, etag: string,
                                ts: int)
    requires InPartOrder(PartsOf(n.site.staging, upload), numbers) && w in n.writers
    requires (n.writers[w].blocks, n.writers[w].size) == Assemble(PartsOf(n.site.staging, upload), numbers)
    requires key in n.site.catalog.objects ==> n.site.catalog.objects[key].updatedAt < ts
    ensures var row := WriteObject(n, w, key, etag, ts).site.catalog.objects[key].value;
            && row.blocks == Flatten(ListsInOrder(PartsOf(n.site.staging, upload), numbers))
            && row.size == SizesAdded(PartsOf(n.site.staging, upload), numbers)
  {
    AssembledInPartOrder(PartsOf(n.site.staging, upload), numbers);
    AssembledSize(PartsOf(n.site.staging, upload), numbers);
  }

  /** In states [k, m) the parts of the upload at s are these. */
  ghost predicate PartsLast(states: seq<Mesh>, k: nat, m: nat, s: SiteId, upload: UploadKey, parts: map<int, Part>)
    requires m <= |states|
  {
    forall j :: k <= j < m ==> s in states[j] && PartsOf(states[j][s].site.staging, upload) == parts
  }

  /** In states [m, i) the manifest is the row of its key at s. */
  ghost predicate CurrentThroughout(states: seq<Mesh>, m: nat, i: nat, s: SiteId, r: Record)
    requires i <= |states|
  {
    forall j :: m <= j < i ==> s in states[j] && StillCurrent(states[j][s].site.catalog, r)
  }

  /** The hand-over: the parts are read at state k, the manifest is the row of its key from state m on, and the
      parts last until then. Whatever else happens in between and afterwards, forced sweeps included, no block of
      theirs that was held at k is ever missing up to state i. */
  lemma CompletionKeepsBlocks(cfg: Config, states: seq<Mesh>, steps: seq<Step>, s: SiteId, k: nat, m: nat, i: nat,
                              upload: UploadKey, parts: map<int, Part>, numbers: seq<int>, r: Record, h: Hash)
    requires IsRun(cfg, states, steps) && k <= m <= i < |states|
    requires InPartOrder(parts, numbers) && h in Assemble(parts, numbers).0 && HeldAt(states, k, s, h)
    requires PartsLast(states, k, m, s, upload, parts)
    requires r.fact.ObjectPut? && h in r.fact.blocks && CurrentThroughout(states, m, i, s, r)
    ensures HeldThroughout(states, k, i, s, h)
  {
    PresentThroughout(cfg, states, steps, k, s);
    forall j | k <= j < i ensures PassesAt(cfg, states, steps, s, h, k, j) {
      if j < m {
        AssembledFromParts(states[j][s].site.staging, upload, numbers, h);
      } else {
        assert StillCurrent(states[j][s].site.catalog, r);
        assert h in NamedByObjects(states[j][s].site.catalog);
      }
    }
    HeldThroughoutIff(cfg, states, steps, s, h, k, i);
  }

  lemma {:induction false} AssembledFromParts(st: Staging, upload: UploadKey, numbers: seq<int>, h: Hash)
    requires forall i :: 0 <= i < |numbers| ==> numbers[i] in PartsOf(st, upload)
    requires h in Assemble(PartsOf(st, upload), numbers).0
    ensures h in NamedByParts(st)
  {
    var number: int := numbers[|numbers| - 1];
    if h !in PartsOf(st, upload)[number].blocks {
      AssembledFromParts(st, upload, numbers[..|numbers| - 1], h);
    } else {
      assert upload in st.parts && number in st.parts[upload] && h in st.parts[upload][number].blocks;
    }
  }
}
