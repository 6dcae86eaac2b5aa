/** The tables of one site and the effect of each store operation on them.
    A table keyed by (a, b) in SQL is grouped here as a map of maps. */
module SiteModel {
  import opened Prelude
  import opened Lww

  datatype SiteId = SiteId(name: string)

  datatype Hash = Hash(digest: Bytes)

  datatype ObjectKey = ObjectKey(bucket: string, key: string)

  datatype UploadKey = UploadKey(bucket: string, uploadId: string)

  /** An object row without its timestamp; a tombstone names no blocks. */
  datatype Manifest = Manifest(blocks: seq<Hash>, size: int, etag: string, deleted: bool)

  const TOMBSTONE := Manifest([], 0, "", true)

  datatype PolicyStatement = PolicyStatement(effect: string, actions: seq<string>, resources: seq<string>)

  datatype Credential = Credential(secret: string, policy: seq<PolicyStatement>)

  datatype Part = Part(blocks: seq<Hash>, size: int, etag: string)

  datatype QueueRow = QueueRow(nextAttemptAt: int, attempts: int, enqueuedAt: int)

  datatype Fact =
    | ObjectPut(key: ObjectKey, blocks: seq<Hash>, size: int, etag: string)
    | ObjectDelete(key: ObjectKey)
    | BlockAnnounce(hash: Hash, location: SiteId, fid: Bytes, length: int)
    | UserPut(accessKey: string, credential: Credential)

  /** One fact_log row; its sequence number is its position plus one. */
  datatype Record = Record(ts: int, fact: Fact)

  type Locations = map<Hash, Table<SiteId, Bytes>>

  /** objects and users: the replicated last-write-wins tables. */
  datatype Catalog = Catalog(objects: Table<ObjectKey, Manifest>, users: Table<string, Credential>)

  /** blocks (sizes), block_locations, and the block bytes this site stores. */
  datatype BlockIndex = BlockIndex(sizes: Table<Hash, int>, locations: Locations, blobs: map<Hash, Bytes>)

  /** multipart_uploads and parts. */
  datatype Staging = Staging(uploads: map<UploadKey, string>, parts: map<UploadKey, map<int, Part>>)

  /** replication_queue rows targeting this site, and pending_deletions. */
  datatype Backlog = Backlog(queue: map<Hash, QueueRow>, pending: map<Hash, int>)

  /** fact_log and replication_cursors. */
  datatype Journal = Journal(log: seq<Record>, cursors: map<SiteId, nat>)

  datatype Site = Site(catalog: Catalog, index: BlockIndex, staging: Staging, backlog: Backlog, journal: Journal)

  const EMPTY_SITE :=
    Site(Catalog(map[], map[]), BlockIndex(map[], map[], map[]), Staging(map[], map[]),
         Backlog(map[], map[]), Journal([], map[]))

  function At(m: map<SiteId, nat>, p: SiteId): nat {
    if p in m then m[p] else 0
  }

  // ── block tables ──────────────────────────────────────────────────────────

  function Holders(locations: Locations, h: Hash): Table<SiteId, Bytes> {
    if h in locations then locations[h] else map[]
  }

  predicate Holds(locations: Locations, me: SiteId, h: Hash) {
    h in locations && me in locations[h]
  }

  function Held(locations: Locations, me: SiteId): set<Hash> {
    set h | h in locations && me in locations[h]
  }

  function NoteLocation(locations: Locations, h: Hash, loc: SiteId, fid: Bytes, ts: int): Locations {
    locations[h := Upsert(Holders(locations, h), Write(loc, fid, ts))]
  }

  function RecordLocation(ix: BlockIndex, h: Hash, loc: SiteId, fid: Bytes, length: int, ts: int): BlockIndex {
    ix.(sizes := Upsert(ix.sizes, Write(h, length, ts)), locations := NoteLocation(ix.locations, h, loc, fid, ts))
  }

  /** Drops one site's location entry; a hash without entries leaves the table. */
  function DropHolder(locations: Locations, me: SiteId, h: Hash): Locations {
    if h !in locations then locations
    else if locations[h] - {me} == map[] then locations - {h}
    else locations[h := locations[h] - {me}]
  }

  /** Drops this site's location entry, and the size row once no entry is left. */
  function DropLocal(ix: BlockIndex, me: SiteId, h: Hash): BlockIndex {
    var locations := DropHolder(ix.locations, me, h);
    ix.(locations := locations, sizes := if h in locations then ix.sizes else ix.sizes - {h})
  }

  // ── manifests, users and parts ────────────────────────────────────────────

  function Logged(j: Journal, ts: int, fact: Fact): Journal {
    j.(log := j.log + [Record(ts, fact)])
  }

  /** Persists the bytes, records this site as a holder and announces it. */
  function StoreLocal(s: Site, me: SiteId, h: Hash, data: Bytes, fid: Bytes, ts: int): Site {
    s.(index := RecordLocation(s.index, h, me, fid, |data|, ts).(blobs := s.index.blobs[h := data]),
       journal := Logged(s.journal, ts, BlockAnnounce(h, me, fid, |data|)))
  }

  function PutObjectRow(c: Catalog, key: ObjectKey, m: Manifest, ts: int): Catalog {
    c.(objects := Upsert(c.objects, Write(key, m, ts)))
  }

  function InsertObject(s: Site, key: ObjectKey, blocks: seq<Hash>, size: int, etag: string, ts: int): Site {
    s.(catalog := PutObjectRow(s.catalog, key, Manifest(blocks, size, etag, false), ts),
       journal := Logged(s.journal, ts, ObjectPut(key, blocks, size, etag)))
  }

  function DeleteObject(s: Site, key: ObjectKey, ts: int): Site {
    s.(catalog := PutObjectRow(s.catalog, key, TOMBSTONE, ts), journal := Logged(s.journal, ts, ObjectDelete(key)))
  }

  function PutUserRow(c: Catalog, accessKey: string, credential: Credential, ts: int): Catalog {
    c.(users := Upsert(c.users, Write(accessKey, credential, ts)))
  }

  function CreateUser(s: Site, accessKey: string, credential: Credential, ts: int): Site {
    s.(catalog := PutUserRow(s.catalog, accessKey, credential, ts),
       journal := Logged(s.journal, ts, UserPut(accessKey, credential)))
  }

  function PartsOf(st: Staging, u: UploadKey): map<int, Part> {
    if u in st.parts then st.parts[u] else map[]
  }

  function InsertPart(st: Staging, u: UploadKey, number: int, part: Part): Staging {
    st.(parts := st.parts[u := PartsOf(st, u)[number := part]])
  }

  function DropUpload(st: Staging, u: UploadKey): Staging {
    Staging(st.uploads - {u}, st.parts - {u})
  }

  predicate IsLive(c: Catalog, key: ObjectKey) {
    key in c.objects && !c.objects[key].value.deleted
  }

  function NamedByObjects(c: Catalog): set<Hash> {
    set k, h | k in c.objects && !c.objects[k].value.deleted && h in c.objects[k].value.blocks :: h
  }

  function NamedByParts(st: Staging): set<Hash> {
    set u, n, h | u in st.parts && n in st.parts[u] && h in st.parts[u][n].blocks :: h
  }

  /** Every hash a live manifest or an in-progress part names. */
  function LiveBlocks(s: Site): set<Hash> {
    NamedByObjects(s.catalog) + NamedByParts(s.staging)
  }

  // ── replication queue and fact application ────────────────────────────────

  /** A hash is queued at most once; queueing it again keeps the existing row. */
  function Queued(queue: map<Hash, QueueRow>, h: Hash, now: int): map<Hash, QueueRow> {
    if h in queue then queue else queue[h := QueueRow(0, 0, now)]
  }

  /** A peer announced a block: record the holder, and queue a pull of a block not held here. */
  function NoteHolder(s: Site, me: SiteId, h: Hash, loc: SiteId, fid: Bytes, length: int, ts: int, now: int): Site {
    var index := RecordLocation(s.index, h, loc, fid, length, ts);
    s.(index := index,
       backlog := s.backlog.(queue := if Holds(index.locations, me, h) || loc == me then s.backlog.queue
                                      else Queued(s.backlog.queue, h, now)))
  }

  /** Merges one peer-originated record, without logging it again. */
  function Apply(s: Site, me: SiteId, r: Record, now: int): Site {
    match r.fact
    case ObjectPut(key, blocks, size, etag) =>
      s.(catalog := PutObjectRow(s.catalog, key, Manifest(blocks, size, etag, false), r.ts))
    case ObjectDelete(key) => s.(catalog := PutObjectRow(s.catalog, key, TOMBSTONE, r.ts))
    case BlockAnnounce(h, loc, fid, length) => NoteHolder(s, me, h, loc, fid, length, r.ts, now)
    case UserPut(accessKey, credential) => s.(catalog := PutUserRow(s.catalog, accessKey, credential, r.ts))
  }

  // ── the catalog as a replay of arrivals ───────────────────────────────────

  function ObjectWrite(r: Record): seq<Write<ObjectKey, Manifest>> {
    match r.fact
    case ObjectPut(key, blocks, size, etag) => [Write(key, Manifest(blocks, size, etag, false), r.ts)]
    case ObjectDelete(key) => [Write(key, TOMBSTONE, r.ts)]
    case _ => []
  }

  function UserWrite(r: Record): seq<Write<string, Credential>> {
    match r.fact
    case UserPut(accessKey, credential) => [Write(accessKey, credential, r.ts)]
    case _ => []
  }

  function ObjectWrites(rs: seq<Record>): seq<Write<ObjectKey, Manifest>> {
    if rs == [] then [] else ObjectWrites(rs[..|rs| - 1]) + ObjectWrite(rs[|rs| - 1])
  }

  function UserWrites(rs: seq<Record>): seq<Write<string, Credential>> {
    if rs == [] then [] else UserWrites(rs[..|rs| - 1]) + UserWrite(rs[|rs| - 1])
  }

  /** The catalog a sequence of arriving records leaves behind. */
  function CatalogOf(rs: seq<Record>): Catalog {
    Catalog(Replay(ObjectWrites(rs)), Replay(UserWrites(rs)))
  }

  lemma {:induction false} WritesFromRecords(rs: seq<Record>)
    ensures forall w :: w in ObjectWrites(rs) <==> exists r :: r in rs && w in ObjectWrite(r)
    ensures forall w :: w in UserWrites(rs) <==> exists r :: r in rs && w in UserWrite(r)
  {
    if rs != [] {
      WritesFromRecords(rs[..|rs| - 1]);
      assert rs == rs[..|rs| - 1] + [rs[|rs| - 1]];
    }
  }

  /** One more arrival changes the catalog by exactly that record's writes. */
  lemma CatalogSnoc(rs: seq<Record>, r: Record)
    ensures CatalogOf(rs + [r]).objects == UpsertAny(CatalogOf(rs).objects, ObjectWrite(r))
    ensures CatalogOf(rs + [r]).users == UpsertAny(CatalogOf(rs).users, UserWrite(r))
  {
    assert (rs + [r])[..|rs|] == rs;
    ReplayAny(ObjectWrites(rs), ObjectWrite(r));
    ReplayAny(UserWrites(rs), UserWrite(r));
  }

  /** Merging a record extends the replay that the catalog is. */
  lemma ApplyReplays(s: Site, me: SiteId, r: Record, now: int, rs: seq<Record>)
    requires s.catalog == CatalogOf(rs)
    ensures Apply(s, me, r, now).catalog == CatalogOf(rs + [r])
  {
    CatalogSnoc(rs, r);
  }
}
