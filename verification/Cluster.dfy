/** The cluster as a state machine: any number of sites in a full mesh, one site moving per step.
    A step is one locked store call, except that a few calls are taken together: storing a block (the
    look-up, the bytes, the row and its announcement), merging an announcement (the rows, then the
    queue), one sweep, and the drain of one queue entry. Timestamps and clock readings are arbitrary. */
module Cluster {
  import opened Prelude
  import opened SiteModel
  import opened Gc
  import opened Replication

  datatype Config = Config(digest: Bytes -> Hash, grace: int)

  /** A request in progress at a site, holding the block list it will write. */
  datatype Writer =
    | Uploading(blocks: seq<Hash>, size: int)
    | Copying(blocks: seq<Hash>, size: int, etag: string)

  /** Where each peer's pull loop stands, and how far any pull ever got. */
  datatype Sync = Sync(reading: map<SiteId, nat>, seen: map<SiteId, nat>)

  /** History no step reads: records in arrival order, positions of the own log written by an upload
      or a completion, and blocks swept away since they were last stored or announced here. */
  datatype History = History(arrivals: seq<Record>, uploaded: set<nat>, gone: set<Hash>)

  datatype Node = Node(site: Site, writers: map<nat, Writer>, sync: Sync, history: History)

  const EMPTY_NODE := Node(EMPTY_SITE, map[], Sync(map[], map[]), History([], {}, {}))

  type Mesh = map<SiteId, Node>

  datatype Action =
    | BeginUpload(w: nat)
    | StoreBlock(w: nat, data: Bytes, fid: Bytes, ts: int)
    | BeginCopy(w: nat, source: ObjectKey)
    | BeginComplete(w: nat, upload: UploadKey, numbers: seq<int>)
    | FinishObject(w: nat, key: ObjectKey, etag: string, ts: int)
    | FinishPart(w: nat, upload: UploadKey, number: int, etag: string)
    | Abandon(w: nat)
    | Delete(key: ObjectKey, ts: int)
    | AddUser(accessKey: string, credential: Credential, ts: int)
    | CreateUpload(upload: UploadKey, name: string)
    | EndUpload(upload: UploadKey)
    | Pull(peer: SiteId, now: int)
    | SaveCursor(peer: SiteId)
    | RestartPull(peer: SiteId)
    | ReadRepair(h: Hash, from: SiteId, fid: Bytes, ts: int)
    | Requeue(h: Hash, now: int)
    | DrainDrop(h: Hash)
    | DrainDefer(h: Hash, now: int)
    | DrainFetch(h: Hash, from: SiteId, fid: Bytes, ts: int)
    | Sweep(force: bool, now: int, stamp: Hash -> int)

  // ── effects on one node ───────────────────────────────────────────────────

  function StoreNew(me: SiteId, n: Node, h: Hash, data: Bytes, fid: Bytes, ts: int): Node {
    n.(site := StoreLocal(n.site, me, h, data, fid, ts),
       history := n.history.(arrivals := n.history.arrivals + [Record(ts, BlockAnnounce(h, me, fid, |data|))],
                             gone := n.history.gone - {h}))
  }

  /** Stores a block unless it is already held; the block is held afterwards either way. */
  function KeepBlock(me: SiteId, n: Node, h: Hash, data: Bytes, fid: Bytes, ts: int): Node {
    if Holds(n.site.index.locations, me, h) then n else StoreNew(me, n, h, data, fid, ts)
  }

  function StoreInto(cfg: Config, me: SiteId, n: Node, w: nat, data: Bytes, fid: Bytes, ts: int): Node
    requires w in n.writers
  {
    KeepBlock(me, n.(writers := Extended(cfg, n.writers, w, data)), cfg.digest(data), data, fid, ts)
  }

  /** The writers once w has taken one more block. */
  function Extended(cfg: Config, writers: map<nat, Writer>, w: nat, data: Bytes): map<nat, Writer>
    requires w in writers
  {
    writers[w := Uploading(writers[w].blocks + [cfg.digest(data)], writers[w].size + |data|)]
  }

  /** The parts' blocks and total size, in the given part order. */
  function Assemble(parts: map<int, Part>, numbers: seq<int>): (seq<Hash>, int)
    requires forall i :: 0 <= i < |numbers| ==> numbers[i] in parts
  {
    if numbers == [] then ([], 0)
    else var last := parts[numbers[|numbers| - 1]];
         var (blocks, size) := Assemble(parts, numbers[..|numbers| - 1]);
         (blocks + last.blocks, size + last.size)
  }

  predicate Increasing(a: seq<int>) {
    forall i, j :: 0 <= i < j < |a| ==> a[i] < a[j]
  }

  predicate InPartOrder(parts: map<int, Part>, numbers: seq<int>) {
    && Increasing(numbers)
    && (forall i :: 0 <= i < |numbers| ==> numbers[i] in parts)
    && (forall n :: n in parts ==> n in numbers)
  }

  function WriteObject(n: Node, w: nat, key: ObjectKey, etag: string, ts: int): Node
    requires w in n.writers
  {
    var job := n.writers[w];
    Node(InsertObject(n.site, key, job.blocks, job.size, etag, ts),
         n.writers - {w},
         n.sync,
         n.history.(arrivals := n.history.arrivals + [Record(ts, ObjectPut(key, job.blocks, job.size, etag))],
                    uploaded := if job.Uploading? then n.history.uploaded + {|n.site.journal.log|}
                                else n.history.uploaded))
  }

  function WritePart(n: Node, w: nat, upload: UploadKey, number: int, etag: string): Node
    requires w in n.writers
  {
    var job := n.writers[w];
    n.(site := n.site.(staging := InsertPart(n.site.staging, upload, number, Part(job.blocks, job.size, etag))),
       writers := n.writers - {w})
  }

  function RemoveObject(n: Node, key: ObjectKey, ts: int): Node {
    n.(site := DeleteObject(n.site, key, ts),
       history := n.history.(arrivals := n.history.arrivals + [Record(ts, ObjectDelete(key))]))
  }

  function WriteUser(n: Node, accessKey: string, credential: Credential, ts: int): Node {
    n.(site := CreateUser(n.site, accessKey, credential, ts),
       history := n.history.(arrivals := n.history.arrivals + [Record(ts, UserPut(accessKey, credential))]))
  }

  function WithStaging(n: Node, staging: Staging): Node {
    n.(site := n.site.(staging := staging))
  }

  function WithQueue(n: Node, queue: map<Hash, QueueRow>): Node {
    n.(site := n.site.(backlog := n.site.backlog.(queue := queue)))
  }

  /** Merges the record the pull loop stands at and moves past it. */
  function PullOne(me: SiteId, n: Node, peer: SiteId, r: Record, now: int): Node {
    var position := At(n.sync.reading, peer) + 1;
    n.(site := Apply(n.site, me, r, now),
       sync := Sync(n.sync.reading[peer := position],
                    if position <= At(n.sync.seen, peer) then n.sync.seen else n.sync.seen[peer := position]),
       history := n.history.(arrivals := n.history.arrivals + [r],
                             gone := if r.fact.BlockAnnounce? then n.history.gone - {r.fact.hash} else n.history.gone))
  }

  function Advance(cursors: map<SiteId, nat>, peer: SiteId, position: nat): map<SiteId, nat> {
    if peer in cursors && position <= cursors[peer] then cursors else cursors[peer := position]
  }

  function StoreCursor(n: Node, peer: SiteId): Node {
    n.(site := n.site.(journal := n.site.journal.(cursors :=
         Advance(n.site.journal.cursors, peer, At(n.sync.reading, peer)))))
  }

  function Rewind(n: Node, peer: SiteId): Node {
    n.(sync := n.sync.(reading := n.sync.reading[peer := At(n.site.journal.cursors, peer)]))
  }

  function Deferred(queue: map<Hash, QueueRow>, h: Hash, now: int): map<Hash, QueueRow>
    requires h in queue
  {
    queue[h := queue[h].(nextAttemptAt := now + BackoffMs(queue[h].attempts), attempts := queue[h].attempts + 1)]
  }

  function Fetched(me: SiteId, n: Node, h: Hash, data: Bytes, fid: Bytes, ts: int): Node {
    KeepBlock(me, WithQueue(n, n.site.backlog.queue - {h}), h, data, fid, ts)
  }

  function SweepNode(cfg: Config, me: SiteId, n: Node, force: bool, now: int, stamp: Hash -> int): Node {
    n.(site := Swept(n.site, me, cfg.grace, force, now, stamp),
       history := n.history.(gone := n.history.gone + Reaped(n.site, me, cfg.grace, force, now)))
  }

  /** Blocks an unfinished upload has stored and no manifest names yet. */
  function InFlight(n: Node): set<Hash> {
    set w, h | w in n.writers && n.writers[w].Uploading? && h in n.writers[w].blocks :: h
  }

  // ── the step relation ─────────────────────────────────────────────────────

  ghost predicate CanFetch(c: Mesh, me: SiteId, h: Hash, from: SiteId) {
    from in c && from != me && h in c[from].site.index.blobs
  }

  ghost predicate Enabled(c: Mesh, me: SiteId, a: Action)
    requires me in c
  {
    var n := c[me];
    match a
    case BeginUpload(w) => w !in n.writers
    case StoreBlock(w, _, _, _) => w in n.writers && n.writers[w].Uploading?
    case BeginCopy(w, source) => w !in n.writers && IsLive(n.site.catalog, source)
    case BeginComplete(w, upload, numbers) => w !in n.writers && InPartOrder(PartsOf(n.site.staging, upload), numbers)
    case FinishObject(w, _, etag, _) => w in n.writers && (n.writers[w].Copying? ==> etag == n.writers[w].etag)
    case FinishPart(w, _, _, _) => w in n.writers && n.writers[w].Uploading?
    case Abandon(w) => w in n.writers
    case Pull(peer, _) => peer in c && peer != me && At(n.sync.reading, peer) < |c[peer].site.journal.log|
    case SaveCursor(peer) => peer in c && peer != me
    case RestartPull(peer) => peer in c && peer != me
    case ReadRepair(h, from, _, _) => !Holds(n.site.index.locations, me, h) && CanFetch(c, me, h, from)
    case Requeue(h, _) => exists p :: p != me && p in Holders(n.site.index.locations, h)
    case DrainDrop(h) => h in n.site.backlog.queue && PlanReplication(Holders(n.site.index.locations, h), me, []).Drop?
    case DrainDefer(h, _) => h in n.site.backlog.queue && !Holds(n.site.index.locations, me, h)
    case DrainFetch(h, from, _, _) =>
      h in n.site.backlog.queue && !Holds(n.site.index.locations, me, h) && CanFetch(c, me, h, from)
    case _ => true
  }

  ghost function Act(cfg: Config, c: Mesh, me: SiteId, a: Action): Node
    requires me in c && Enabled(c, me, a)
  {
    var n := c[me];
    match a
    case BeginUpload(w) => n.(writers := n.writers[w := Uploading([], 0)])
    case StoreBlock(w, data, fid, ts) => StoreInto(cfg, me, n, w, data, fid, ts)
    case BeginCopy(w, source) =>
      var m := n.site.catalog.objects[source].value;
      n.(writers := n.writers[w := Copying(m.blocks, m.size, m.etag)])
    case BeginComplete(w, upload, numbers) =>
      var (blocks, size) := Assemble(PartsOf(n.site.staging, upload), numbers);
      n.(writers := n.writers[w := Uploading(blocks, size)])
    case FinishObject(w, key, etag, ts) => WriteObject(n, w, key, etag, ts)
    case FinishPart(w, upload, number, etag) => WritePart(n, w, upload, number, etag)
    case Abandon(w) => n.(writers := n.writers - {w})
    case Delete(key, ts) => RemoveObject(n, key, ts)
    case AddUser(accessKey, credential, ts) => WriteUser(n, accessKey, credential, ts)
    case CreateUpload(upload, name) =>
      WithStaging(n, n.site.staging.(uploads := n.site.staging.uploads[upload := name]))
    case EndUpload(upload) => WithStaging(n, DropUpload(n.site.staging, upload))
    case Pull(peer, now) => PullOne(me, n, peer, c[peer].site.journal.log[At(n.sync.reading, peer)], now)
    case SaveCursor(peer) => StoreCursor(n, peer)
    case RestartPull(peer) => Rewind(n, peer)
    case ReadRepair(h, from, fid, ts) => KeepBlock(me, n, h, c[from].site.index.blobs[h], fid, ts)
    case Requeue(h, now) => WithQueue(n, Queued(n.site.backlog.queue, h, now))
    case DrainDrop(h) => WithQueue(n, n.site.backlog.queue - {h})
    case DrainDefer(h, now) => WithQueue(n, Deferred(n.site.backlog.queue, h, now))
    case DrainFetch(h, from, fid, ts) => Fetched(me, n, h, c[from].site.index.blobs[h], fid, ts)
    case Sweep(force, now, stamp) => SweepNode(cfg, me, n, force, now, stamp)
  }

  datatype Step = Step(at: SiteId, action: Action)

  ghost predicate Next(cfg: Config, c: Mesh, step: Step, c': Mesh) {
    step.at in c && Enabled(c, step.at, step.action) && c' == c[step.at := Act(cfg, c, step.at, step.action)]
  }

  ghost predicate StepAt(cfg: Config, states: seq<Mesh>, steps: seq<Step>, i: nat) {
    i < |steps| && i + 1 < |states| && Next(cfg, states[i], steps[i], states[i + 1])
  }

  /** One enabled step after another. */
  ghost predicate IsSegment(cfg: Config, states: seq<Mesh>, steps: seq<Step>) {
    |states| == |steps| + 1 && forall i :: 0 <= i < |steps| ==> StepAt(cfg, states, steps, i)
  }

  /** A run: a start with every site empty, then one enabled step after another. */
  ghost predicate IsRun(cfg: Config, states: seq<Mesh>, steps: seq<Step>) {
    IsSegment(cfg, states, steps) && forall s :: s in states[0] ==> states[0][s] == EMPTY_NODE
  }
}
