/** The store of one site as the source has it: tables updated in place. Each method is proved to
    have exactly the effect the site model gives it. */
module Store {
  import opened Prelude
  import opened Lww
  import opened SiteModel
  import opened Gc
  import opened Replication
  import opened Cluster
  import opened Pulling

  const LOCAL_FID: Bytes := [108, 111, 99, 97, 108]

  /** Stores a block unless this site already holds it. */
  function KeepSite(s: Site, me: SiteId, h: Hash, data: Bytes, fid: Bytes, ts: int): Site {
    if Holds(s.index.locations, me, h) then s else StoreLocal(s, me, h, data, fid, ts)
  }

  /** Stores the chunks in order; `clock(k)` is the reading taken for chunk k. */
  function StoreChunks(cfg: Config, s: Site, me: SiteId, chunks: seq<Bytes>, clock: nat -> int): Site {
    if chunks == [] then s
    else var k := |chunks| - 1;
         KeepSite(StoreChunks(cfg, s, me, chunks[..k], clock), me, cfg.digest(chunks[k]), chunks[k], LOCAL_FID,
                  clock(k))
  }

  class Store {
    const me: SiteId
    var objects: Table<ObjectKey, Manifest>
    var users: Table<string, Credential>
    var sizes: Table<Hash, int>
    var locations: Locations
    var blobs: map<Hash, Bytes>
    var uploads: map<UploadKey, string>
    var parts: map<UploadKey, map<int, Part>>
    var queue: map<Hash, QueueRow>
    var pending: map<Hash, int>
    var log: seq<Record>
    var cursors: map<SiteId, nat>

    ghost function View(): Site
      reads this
    {
      Site(Catalog(objects, users), BlockIndex(sizes, locations, blobs), Staging(uploads, parts),
           Backlog(queue, pending), Journal(log, cursors))
    }

    constructor (me: SiteId)
      ensures this.me == me && View() == EMPTY_SITE
    {
      this.me := me;
      objects, users, sizes, locations, blobs := map[], map[], map[], map[], map[];
      uploads, parts, queue, pending, log, cursors := map[], map[], map[], map[], [], map[];
    }

    // ── rows ────────────────────────────────────────────────────────────────

    method PutObjectRow(key: ObjectKey, m: Manifest, ts: int)
      modifies this`objects
      ensures View().catalog == SiteModel.PutObjectRow(old(View().catalog), key, m, ts)
    {
      if key !in objects || objects[key].updatedAt < ts {
        objects := objects[key := Versioned(m, ts)];
      }
    }

    method PutUserRow(accessKey: string, credential: Credential, ts: int)
      modifies this`users
      ensures View().catalog == SiteModel.PutUserRow(old(View().catalog), accessKey, credential, ts)
    {
      if accessKey !in users || users[accessKey].updatedAt < ts {
        users := users[accessKey := Versioned(credential, ts)];
      }
    }

    method UpsertBlockLocation(h: Hash, loc: SiteId, fid: Bytes, length: int, ts: int)
      modifies this`sizes, this`locations
      ensures View().index == RecordLocation(old(View().index), h, loc, fid, length, ts)
    {
      if h !in sizes || sizes[h].updatedAt < ts {
        sizes := sizes[h := Versioned(length, ts)];
      }
      var holders := if h in locations then locations[h] else map[];
      if loc !in holders || holders[loc].updatedAt < ts {
        holders := holders[loc := Versioned(fid, ts)];
      }
      locations := locations[h := holders];
    }

    method AppendFact(ts: int, fact: Fact)
      modifies this`log
      ensures View().journal == Logged(old(View().journal), ts, fact)
    {
      log := log + [Record(ts, fact)];
    }

    // ── mutators ────────────────────────────────────────────────────────────

    /** store_block and promote_block_locally: write the bytes, record the location, announce it. */
    method KeepBlock(h: Hash, data: Bytes, ts: int)
      modifies this`sizes, this`locations, this`blobs, this`log
      ensures View() == KeepSite(old(View()), me, h, data, LOCAL_FID, ts)
      ensures Holds(locations, me, h)
      ensures !old(Holds(locations, me, h)) ==>
                && h in blobs && blobs[h] == data
                && log == old(log) + [Record(ts, BlockAnnounce(h, me, LOCAL_FID, |data|))]
      ensures old(Holds(locations, me, h)) ==> View() == old(View())
    {
      if !(h in locations && me in locations[h]) {
        blobs := blobs[h := data];
        UpsertBlockLocation(h, me, LOCAL_FID, |data|, ts);
        AppendFact(ts, BlockAnnounce(h, me, LOCAL_FID, |data|));
      }
    }

    method InsertObject(key: ObjectKey, blocks: seq<Hash>, size: int, etag: string, ts: int)
      modifies this`objects, this`log
      ensures View() == SiteModel.InsertObject(old(View()), key, blocks, size, etag, ts)
      ensures log == old(log) + [Record(ts, ObjectPut(key, blocks, size, etag))]
      ensures key !in old(objects) || old(objects)[key].updatedAt < ts ==>
                key in objects && objects[key] == Versioned(Manifest(blocks, size, etag, false), ts)
      ensures forall k :: k != key ==> (k in objects <==> k in old(objects))
      ensures forall k :: k != key && k in objects && k in old(objects) ==> objects[k] == old(objects)[k]
    {
      PutObjectRow(key, Manifest(blocks, size, etag, false), ts);
      AppendFact(ts, ObjectPut(key, blocks, size, etag));
    }

    method DeleteObject(key: ObjectKey, ts: int)
      modifies this`objects, this`log
      ensures View() == SiteModel.DeleteObject(old(View()), key, ts)
      ensures log == old(log) + [Record(ts, ObjectDelete(key))]
      ensures key !in old(objects) || old(objects)[key].updatedAt < ts ==>
                && key in objects && objects[key].value.deleted
                && objects[key].value.blocks == [] && objects[key].updatedAt == ts
      ensures forall k :: k != key ==> (k in objects <==> k in old(objects))
      ensures forall k :: k != key && k in objects && k in old(objects) ==> objects[k] == old(objects)[k]
    {
      PutObjectRow(key, TOMBSTONE, ts);
      AppendFact(ts, ObjectDelete(key));
    }

    method CreateUser(accessKey: string, credential: Credential, ts: int)
      modifies this`users, this`log
      ensures View() == SiteModel.CreateUser(old(View()), accessKey, credential, ts)
      ensures log == old(log) + [Record(ts, UserPut(accessKey, credential))]
      ensures accessKey !in old(users) || old(users)[accessKey].updatedAt < ts ==>
                accessKey in users && users[accessKey] == Versioned(credential, ts)
    {
      PutUserRow(accessKey, credential, ts);
      AppendFact(ts, UserPut(accessKey, credential));
    }

    method ApplyFact(r: Record, now: int)
      modifies this`objects, this`users, this`sizes, this`locations, this`queue
      ensures View() == Apply(old(View()), me, r, now)
    {
      match r.fact
      case ObjectPut(key, blocks, size, etag) =>
        PutObjectRow(key, Manifest(blocks, size, etag, false), r.ts);
      case ObjectDelete(key) =>
        PutObjectRow(key, TOMBSTONE, r.ts);
      case BlockAnnounce(h, loc, fid, length) =>
        UpsertBlockLocation(h, loc, fid, length, r.ts);
        var haveLocal := h in locations && me in locations[h];
        if !haveLocal && loc != me {
          EnqueueReplication(h, now);
        }
      case UserPut(accessKey, credential) =>
        PutUserRow(accessKey, credential, r.ts);
    }

    method EnqueueReplication(h: Hash, now: int)
      modifies this`queue
      ensures queue == Queued(old(queue), h, now)
      ensures h in queue && (h in old(queue) ==> queue == old(queue))
    {
      if h !in queue {
        queue := queue[h := QueueRow(0, 0, now)];
      }
    }

    method DequeueReplication(h: Hash)
      modifies this`queue
      ensures queue == old(queue) - {h}
    {
      queue := queue - {h};
    }

    method DeferReplication(h: Hash, now: int)
      requires h in queue
      modifies this`queue
      ensures queue == Deferred(old(queue), h, now)
    {
      var row := queue[h];
      queue := queue[h := QueueRow(now + BackoffMs(row.attempts), row.attempts + 1, row.enqueuedAt)];
    }

    method InsertMultipart(upload: UploadKey, key: string)
      modifies this`uploads
      ensures upload in uploads && uploads[upload] == key
      ensures forall u :: u != upload ==> (u in uploads <==> u in old(uploads))
      ensures forall u :: u != upload && u in uploads && u in old(uploads) ==> uploads[u] == old(uploads)[u]
      ensures uploads == old(uploads)[upload := key]
    {
      uploads := uploads[upload := key];
    }

    /** A part uploaded again replaces its predecessor; every other part stays. */
    method InsertPart(upload: UploadKey, number: int, blocks: seq<Hash>, size: int, etag: string)
      modifies this`parts
      ensures View().staging == SiteModel.InsertPart(old(View().staging), upload, number, Part(blocks, size, etag))
      ensures upload in parts && number in parts[upload] && parts[upload][number] == Part(blocks, size, etag)
      ensures forall u, n :: u in old(parts) && n in old(parts)[u] && (u, n) != (upload, number) ==>
                u in parts && n in parts[u] && parts[u][n] == old(parts)[u][n]
    {
      if upload !in parts {
        parts := parts[upload := map[]];
      }
      parts := parts[upload := parts[upload][number := Part(blocks, size, etag)]];
    }

    method DeleteMultipartUpload(upload: UploadKey)
      modifies this`uploads, this`parts
      ensures View().staging == DropUpload(old(View().staging), upload)
      ensures upload !in uploads && upload !in parts
      ensures forall u :: u != upload ==> (u in uploads <==> u in old(uploads)) && (u in parts <==> u in old(parts))
      ensures forall u :: u in uploads ==> uploads[u] == old(uploads)[u]
      ensures forall u :: u in parts ==> parts[u] == old(parts)[u]
    {
      parts := parts - {upload};
      uploads := uploads - {upload};
    }

    // ── pulling a peer's log ────────────────────────────────────────────────

    /** A cursor moves to the later of where it was and where it is told to go; no other cursor moves. */
    method SetCursor(peer: SiteId, position: nat)
      modifies this`cursors
      ensures At(cursors, peer) == Max(old(At(cursors, peer)), position)
      ensures forall p :: p != peer ==> At(cursors, p) == old(At(cursors, p))
      ensures cursors == Advance(old(cursors), peer, position)
    {
      if peer !in cursors || cursors[peer] < position {
        cursors := cursors[peer := position];
      }
    }

    /** Merges one page of a peer's log, skipping the records whose merge fails; returns the sequence
        number the cursor moves to. */
    method MergePage(facts: seq<FactRecord>, after: nat, now: int, fails: set<nat>) returns (maxSeq: nat)
      modifies this`objects, this`users, this`sizes, this`locations, this`queue
      ensures maxSeq == PageCursor(facts, after, fails)
      ensures View() == ApplyAll(old(View()), me, Records(Merged(facts, fails)), now)
    {
      maxSeq := after;
      var i := 0;
      while i < |facts|
        invariant 0 <= i <= |facts| && maxSeq == PageCursor(facts[..i], after, fails)
        invariant View() == ApplyAll(old(View()), me, Records(Merged(facts[..i], fails)), now)
      {
        MergedNext(old(View()), me, facts, i, after, now, fails);
        if facts[i].number !in fails {
          ApplyFact(facts[i].record, now);
          maxSeq := Max(maxSeq, facts[i].number);
        }
        i := i + 1;
      }
      assert facts[..i] == facts;
    }

    /** Merges a page given as what it is, a range of sequence numbers. */
    method MergeRange(facts: seq<FactRecord>, after: nat, now: int, fails: set<nat>, ghost peerLog: seq<Record>)
      returns (maxSeq: nat)
      requires after <= |peerLog| && facts == FactPage(peerLog, after, FACT_SYNC_BATCH)
      modifies this`objects, this`users, this`sizes, this`locations, this`queue
      ensures after + |facts| <= |peerLog| && maxSeq == LastMerged(after, after + |facts|, fails)
      ensures View() == ApplyAll(old(View()), me, Merging(peerLog, after, after + |facts|, fails), now)
    {
      PageIsARange(peerLog, after, FACT_SYNC_BATCH, fails);
      maxSeq := MergePage(facts, after, now, fails);
    }

    /** Merges a non-empty page and saves the cursor. */
    method TakePage(peer: SiteId, peerLog: seq<Record>, facts: seq<FactRecord>, now: int, fails: set<nat>)
      requires facts != [] && facts == FactPage(peerLog, At(cursors, peer), FACT_SYNC_BATCH)
      modifies this`objects, this`users, this`sizes, this`locations, this`queue, this`cursors
      ensures View() == Pulled(old(View()), me, peer, peerLog, old(At(cursors, peer)) + |facts|, now, fails)
    {
      var after := At(cursors, peer);
      var maxSeq := MergeRange(facts, after, now, fails, peerLog);
      ApplyAllKeepsJournal(old(View()), me, Merging(peerLog, after, after + |facts|, fails), now);
      SetCursor(peer, maxSeq);
    }

    /** One pass of the drain loop: pulls the next page, merges what can be merged, and says whether the page
        was full, which means there may be more. */
    method PullPage(peer: SiteId, peerLog: seq<Record>, now: int, fails: set<nat>) returns (more: bool)
      modifies this`objects, this`users, this`sizes, this`locations, this`queue, this`cursors
      ensures var after := old(At(cursors, peer));
              && View() == Pulled(old(View()), me, peer, peerLog, Min(after + FACT_SYNC_BATCH, |peerLog|), now, fails)
              && DrainRound(|peerLog|, fails, after) == if more then Draining(At(cursors, peer))
                  else Stopped(At(cursors, peer))
    {
      var facts := FactPage(peerLog, At(cursors, peer), FACT_SYNC_BATCH);
      if facts == [] {
        return false;
      }
      TakePage(peer, peerLog, facts, now, fails);
      more := |facts| == FACT_SYNC_BATCH;
    }

    /** One pass of a drain that will end: it moves on and leaves the same site to be reached, or reaches it. */
    method SyncRound(peer: SiteId, peerLog: seq<Record>, now: int, fails: set<nat>) returns (more: bool)
      requires NoFailingPage(|peerLog|, fails, At(cursors, peer))
      modifies this`objects, this`users, this`sizes, this`locations, this`queue, this`cursors
      ensures more ==>
                CaughtUp(View(), me, peer, peerLog, now, fails) == CaughtUp(old(View()), me, peer, peerLog, now, fails)
      ensures more ==> NoFailingPage(|peerLog|, fails, At(cursors, peer))
      ensures more ==> old(At(cursors, peer)) < At(cursors, peer) <= |peerLog|
      ensures !more ==> View() == CaughtUp(old(View()), me, peer, peerLog, now, fails)
    {
      RoundLeads(View(), me, peer, peerLog, now, fails);
      more := PullPage(peer, peerLog, now, fails);
    }

    /** sync_facts_once for one peer: page after page until a short one. Where the drain ends at all, every
        record after the old cursor is merged once, in order, but for those whose merge fails, and the cursor
        ends at the last one merged. */
    method SyncPeer(peer: SiteId, peerLog: seq<Record>, now: int, fails: set<nat>)
      requires NoFailingPage(|peerLog|, fails, At(cursors, peer))
      modifies this`objects, this`users, this`sizes, this`locations, this`queue, this`cursors
      ensures View() == CaughtUp(old(View()), me, peer, peerLog, now, fails)
    {
      ghost var goal := CaughtUp(View(), me, peer, peerLog, now, fails);
      var draining := true;
      while draining
        invariant draining ==> CaughtUp(View(), me, peer, peerLog, now, fails) == goal
        invariant draining ==> NoFailingPage(|peerLog|, fails, At(cursors, peer))
        invariant !draining ==> View() == goal
        decreases draining, |peerLog| - At(cursors, peer)
      {
        draining := SyncRound(peer, peerLog, now, fails);
      }
    }

    // ── garbage collection ──────────────────────────────────────────────────

    method ComputeLiveBlockSet() returns (live: set<Hash>)
      ensures live == LiveBlocks(View())
    {
      live := {};
      var keys := objects.Keys;
      while keys != {}
        invariant keys <= objects.Keys
        invariant live == set k, h | k in objects && k !in keys && !objects[k].value.deleted
                                     && h in objects[k].value.blocks :: h
        decreases keys
      {
        var k :| k in keys;
        if !objects[k].value.deleted {
          live := live + set h | h in objects[k].value.blocks;
        }
        keys := keys - {k};
      }
      assert live == NamedByObjects(Catalog(objects, users));
      var named := NamedInParts();
      live := live + named;
    }

    method NamedInParts() returns (named: set<Hash>)
      ensures named == NamedByParts(View().staging)
    {
      named := {};
      var rows := set u, n | u in parts && n in parts[u] :: (u, n);
      while rows != {}
        invariant forall r :: r in rows ==> r.0 in parts && r.1 in parts[r.0]
        invariant named == set u, n, h | u in parts && n in parts[u] && (u, n) !in rows && h in parts[u][n].blocks :: h
        decreases rows
      {
        var r :| r in rows;
        named := named + set h | h in parts[r.0][r.1].blocks;
        rows := rows - {r};
      }
    }

    method DeleteLocalBlock(h: Hash) returns (removed: bool)
      modifies this`locations, this`sizes
      ensures View().index == DropLocal(old(View().index), me, h)
      ensures removed == Holds(old(locations), me, h)
    {
      removed := h in locations && me in locations[h];
      if h in locations {
        var rest := locations[h] - {me};
        locations := if rest == map[] then locations - {h} else locations[h := rest];
      }
      if h !in locations {
        sizes := sizes - {h};
      }
    }

    /** The sweep's treatment of one held block. */
    method SweepBlock(h: Hash, live: set<Hash>, snapshot: map<Hash, int>, grace: int, force: bool, now: int, stamp: int)
      requires Holds(locations, me, h)
      requires h in snapshot <==> h in pending
      requires h in pending ==> snapshot[h] == pending[h]
      modifies this`locations, this`sizes, this`blobs, this`pending
      ensures View() == SweepOne(old(View()), me, h, h in live, grace, force, now, stamp)
    {
      if h in live {
        pending := pending - {h};
        return;
      }
      var reapAt := now + grace;
      if h in snapshot {
        reapAt := snapshot[h];
      } else {
        pending := pending[h := stamp + grace];
      }
      if !force && now < reapAt {
        return;
      }
      var removed := DeleteLocalBlock(h);
      if removed {
        blobs := blobs - {h};
      }
      pending := pending - {h};
    }

    /** One pass over the held blocks, in any order. */
    method SweepHeld(local: set<Hash>, live: set<Hash>, snapshot: map<Hash, int>, grace: int, force: bool, now: int,
                     stamp: Hash -> int)
      requires local == Held(locations, me) && live == LiveBlocks(View()) && snapshot == pending
      modifies this`locations, this`sizes, this`blobs, this`pending
      ensures View() == SweptOf(old(View()), me, grace, force, now, stamp, local)
    {
      var todo := local;
      SweepStarts(View(), me, grace, force, now, stamp, local - todo);
      while todo != {}
        invariant todo <= local
        invariant View() == SweptOf(old(View()), me, grace, force, now, stamp, local - todo)
        decreases todo
      {
        var h :| h in todo;
        SweepAdvances(old(View()), me, grace, force, now, stamp, local - todo, h);
        SweepBlock(h, live, snapshot, grace, force, now, stamp(h));
        assert local - (todo - {h}) == local - todo + {h};
        todo := todo - {h};
      }
      assert local - todo == local;
    }

    /** Mark and sweep: the pass over the held blocks, then the stale pending entries. */
    method SweepOrphanedBlocks(grace: int, force: bool, now: int, stamp: Hash -> int)
      modifies this`locations, this`sizes, this`blobs, this`pending
      ensures View() == Swept(old(View()), me, grace, force, now, stamp)
    {
      var live := ComputeLiveBlockSet();
      var local := Held(locations, me);
      SweepHeld(local, live, pending, grace, force, now, stamp);
      DropStale(local);
      SweepEnds(old(View()), me, grace, force, now, stamp);
    }

    /** Drops the pending entries of blocks this site did not hold when the sweep began. */
    method DropStale(local: set<Hash>)
      modifies this`pending
      ensures pending == map h | h in old(pending) && h in local :: old(pending)[h]
    {
      var todo := pending.Keys;
      while todo != {}
        invariant todo <= old(pending).Keys
        invariant pending == map h | h in old(pending) && (h in local || h in todo) :: old(pending)[h]
        decreases todo
      {
        var h :| h in todo;
        if h !in local {
          pending := pending - {h};
        }
        todo := todo - {h};
      }
    }
  }

  // ── the sweep's loop ────────────────────────────────────────────────────────

  function SweepOne(s: Site, me: SiteId, h: Hash, live: bool, grace: int, force: bool, now: int, stamp: int): Site {
    var pending := s.backlog.pending;
    var doomed := !live && (force || ReapAt(s, h, now, grace) <= now);
    var dropped := DropLocal(s.index, me, h);
    s.(index := if doomed then dropped.(blobs := dropped.blobs - {h}) else s.index,
       backlog := s.backlog.(pending := if live || doomed then pending - {h}
                                        else if h in pending then pending else pending[h := stamp + grace]))
  }

  /** The pending table once the hashes of `done` have been swept. */
  function SweptPending(s: Site, me: SiteId, reaped: set<Hash>, grace: int, stamp: Hash -> int,
                        done: set<Hash>): map<Hash, int> {
    map h | h in s.backlog.pending.Keys + done && (h in done ==> h in Orphans(s, me) && h !in reaped) ::
      if h in s.backlog.pending then s.backlog.pending[h] else stamp(h) + grace
  }

  /** The site once the hashes of `done` have been swept. */
  function SweptOf(s: Site, me: SiteId, grace: int, force: bool, now: int, stamp: Hash -> int, done: set<Hash>): Site {
    var reaped := Reaped(s, me, grace, force, now);
    s.(index := Reap(s.index, me, reaped * done),
       backlog := s.backlog.(pending := SweptPending(s, me, reaped, grace, stamp, done)))
  }

  lemma SweepStarts(s: Site, me: SiteId, grace: int, force: bool, now: int, stamp: Hash -> int, none: set<Hash>)
    requires none == {}
    ensures SweptOf(s, me, grace, force, now, stamp, none) == s
  {
    var reaped := Reaped(s, me, grace, force, now);
    assert reaped * none == {};
    assert DropHolders(s.index.locations, me, reaped * none) == s.index.locations;
    assert SweptPending(s, me, reaped, grace, stamp, none) == s.backlog.pending;
  }

  lemma SweepAdvances(s: Site, me: SiteId, grace: int, force: bool, now: int, stamp: Hash -> int, done: set<Hash>,
                      h: Hash)
    requires h !in done && Holds(s.index.locations, me, h)
    ensures var t := SweptOf(s, me, grace, force, now, stamp, done);
            && Holds(t.index.locations, me, h)
            && (h in t.backlog.pending <==> h in s.backlog.pending)
            && (h in s.backlog.pending ==> t.backlog.pending[h] == s.backlog.pending[h])
            && SweepOne(t, me, h, h in LiveBlocks(s), grace, force, now, stamp(h))
               == SweptOf(s, me, grace, force, now, stamp, done + {h})
  {
    var reaped := Reaped(s, me, grace, force, now);
    ReapHolders(s.index.locations, me, reaped * done, h);
    PendingAdvances(s, me, reaped, grace, stamp, done, h);
    if h in reaped {
      assert reaped * (done + {h}) == reaped * done + {h};
      ReapOneMore(s.index, me, reaped * done, h);
    } else {
      assert reaped * (done + {h}) == reaped * done;
    }
  }

  lemma PendingAdvances(s: Site, me: SiteId, reaped: set<Hash>, grace: int, stamp: Hash -> int, done: set<Hash>,
                        h: Hash)
    requires h !in done
    ensures var pending := SweptPending(s, me, reaped, grace, stamp, done);
            && (h in pending <==> h in s.backlog.pending)
            && (h in pending ==> pending[h] == s.backlog.pending[h])
            && SweptPending(s, me, reaped, grace, stamp, done + {h})
               == if h in Orphans(s, me) && h !in reaped
                  then (if h in pending then pending else pending[h := stamp(h) + grace])
                  else pending - {h}
  {
  }

  lemma SweepEnds(s: Site, me: SiteId, grace: int, force: bool, now: int, stamp: Hash -> int)
    ensures var local := Held(s.index.locations, me);
            var t := SweptOf(s, me, grace, force, now, stamp, local);
            t.(backlog := t.backlog.(pending := map h | h in t.backlog.pending && h in local :: t.backlog.pending[h]))
            == Swept(s, me, grace, force, now, stamp)
  {
    var reaped := Reaped(s, me, grace, force, now);
    assert reaped * Held(s.index.locations, me) == reaped;
  }
}
