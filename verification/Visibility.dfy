/** What readers see: a put shows its manifest, a delete hides its key, a user's newest credential counts, at every
    site that has seen them. Everything here is said of records and rows alone. */
module Visibility {
  import opened Prelude
  import opened Lww
  import opened SiteModel
  import opened Cluster
  import opened Invariants
  import opened MeshPreservation
  import opened Convergence
  import opened Pulling
  import opened RangeRead
  import opened Store
  import opened Requests

  /** A write at time ts takes the row of the key. */
  predicate Takes<K, V>(t: Table<K, V>, k: K, ts: int) {
    k !in t || t[k].updatedAt < ts
  }

  // ── one record ────────────────────────────────────────────────────────────

  /** A delete that is newer than the row hides the key, logs itself and touches no other key. */
  lemma DeleteHides(s: Site, key: ObjectKey, ts: int)
    requires Takes(s.catalog.objects, key, ts)
    ensures var t := DeleteObject(s, key, ts);
            && !IsLive(t.catalog, key)
            && t.journal.log == s.journal.log + [Record(ts, ObjectDelete(key))]
            && forall k :: k != key ==> (IsLive(t.catalog, k) <==> IsLive(s.catalog, k))
  {
  }

  /** Merging a record has the effect it describes: a newer put shows exactly its manifest, a newer delete hides its
      key, a newer user counts, an announcement puts its site on record; an older record changes no row. */
  lemma MergeTakesEffect(s: Site, me: SiteId, r: Record, now: int)
    ensures var t := Apply(s, me, r, now);
            match r.fact
            case ObjectPut(key, blocks, size, etag) =>
              if Takes(s.catalog.objects, key, r.ts)
              then IsLive(t.catalog, key)
                   && t.catalog.objects[key] == Versioned(Manifest(blocks, size, etag, false), r.ts)
              else t == s
            case ObjectDelete(key) =>
              if Takes(s.catalog.objects, key, r.ts)
              then !IsLive(t.catalog, key) && key in t.catalog.objects && t.catalog.objects[key].updatedAt == r.ts
              else t == s
            case UserPut(accessKey, credential) =>
              if Takes(s.catalog.users, accessKey, r.ts)
              then accessKey in t.catalog.users && t.catalog.users[accessKey] == Versioned(credential, r.ts)
              else t == s
            case BlockAnnounce(h, loc, _, _) => OnRecord(t.index, loc, h, r.ts)
  {
  }

  // ── a whole drain ─────────────────────────────────────────────────────────

  /** The record's news has arrived: its row, or its announcement, is there and no older. */
  ghost predicate Arrived(s: Site, r: Record) {
    match r.fact
    case ObjectPut(key, _, _, _) => !Takes(s.catalog.objects, key, r.ts)
    case ObjectDelete(key) => !Takes(s.catalog.objects, key, r.ts)
    case UserPut(accessKey, _) => !Takes(s.catalog.users, accessKey, r.ts)
    case BlockAnnounce(h, loc, _, _) => OnRecord(s.index, loc, h, r.ts)
  }

  lemma ApplyArrives(s: Site, me: SiteId, r: Record, now: int, other: Record)
    ensures Arrived(Apply(s, me, r, now), r)
    ensures Arrived(s, other) ==> Arrived(Apply(s, me, r, now), other)
  {
    if r.fact.BlockAnnounce? && other.fact.BlockAnnounce? && Arrived(s, other) {
      var f, g := r.fact, other.fact;
      OnRecordStays(s.index, g.location, g.hash, other.ts, f.hash, f.location, f.fid, f.length, r.ts);
    }
  }

  lemma {:induction false} ApplyAllArrives(s: Site, me: SiteId, rs: seq<Record>, now: int, r: Record)
    requires r in rs
    ensures Arrived(ApplyAll(s, me, rs, now), r)
  {
    var init, last := rs[..|rs| - 1], rs[|rs| - 1];
    assert rs == init + [last];
    ApplyArrives(ApplyAll(s, me, init, now), me, last, now, r);
    if r != last {
      ApplyAllArrives(s, me, init, now, r);
    }
  }

  lemma {:induction false} MergingHas(log: seq<Record>, from: nat, upto: nat, fails: set<nat>, k: nat)
    requires from < k <= upto <= |log| && k !in fails
    ensures log[k - 1] in Merging(log, from, upto, fails)
    decreases upto
  {
    if k < upto {
      MergingHas(log, from, upto - 1, fails, k);
    }
  }

  /** Catching up with a peer leaves nothing out: the news of every record after the old cursor whose merge succeeds
      has arrived, and the cursor stands at the last of them. */
  lemma CatchingUpArrives(s: Site, me: SiteId, peer: SiteId, log: seq<Record>, now: int, fails: set<nat>, k: nat)
    requires At(s.journal.cursors, peer) < k <= |log| && k !in fails
    ensures var t := CaughtUp(s, me, peer, log, now, fails);
            && Arrived(t, log[k - 1])
            && k <= At(t.journal.cursors, peer) <= |log| && At(t.journal.cursors, peer) !in fails
            && forall j: nat :: At(t.journal.cursors, peer) < j <= |log| ==> j in fails
  {
    var after := At(s.journal.cursors, peer);
    MergingHas(log, after, |log|, fails, k);
    ApplyAllArrives(s, me, Merging(log, after, |log|, fails), now, log[k - 1]);
    assert k <= LastMerged(after, |log|, fails);
  }

  // ── over runs ─────────────────────────────────────────────────────────────

  /** The record puts or deletes the object. */
  predicate Concerns(r: Record, key: ObjectKey) {
    (r.fact.ObjectPut? && r.fact.key == key) || (r.fact.ObjectDelete? && r.fact.key == key)
  }

  lemma NewestSeen(cfg: Config, states: seq<Mesh>, steps: seq<Step>, i: nat, s: SiteId, r: Record, key: ObjectKey)
    returns (top: Record)
    requires IsRun(cfg, states, steps) && i < |states| && s in states[i]
    requires Sees(states[i], s, r) && Concerns(r, key)
    ensures Sees(states[i], s, top) && Concerns(top, key) && r.ts <= top.ts
    ensures key in states[i][s].site.catalog.objects
    ensures var row := states[i][s].site.catalog.objects[key];
            && row.updatedAt == top.ts
            && (top.fact.ObjectDelete? ==> row.value.deleted)
            && (top.fact.ObjectPut? ==>
                row.value == Manifest(top.fact.blocks, top.fact.size, top.fact.etag, false))
  {
    RowsAreNewestSeen(cfg, states, steps, i, s);
    var c, objects := states[i], states[i][s].site.catalog.objects;
    assert SeenWrite(c, s, r, ObjectWrite(r)[0]);
    top :| SeenWrite(c, s, top, Write(key, objects[key].value, objects[key].updatedAt));
  }

  /** In every state of every run: a delete that a site has seen, newer than every put of the key it has seen, hides
      the key there. */
  lemma NewestDeleteHides(cfg: Config, states: seq<Mesh>, steps: seq<Step>, i: nat, s: SiteId, r: Record)
    requires IsRun(cfg, states, steps) && i < |states| && s in states[i]
    requires r.fact.ObjectDelete? && Sees(states[i], s, r)
    requires forall p :: Sees(states[i], s, p) && p.fact.ObjectPut? && p.fact.key == r.fact.key ==> p.ts < r.ts
    ensures !IsLive(states[i][s].site.catalog, r.fact.key)
  {
    var top := NewestSeen(cfg, states, steps, i, s, r, r.fact.key);
  }

  /** A put that a site has seen, newer than everything else about the key it has seen, is what a reader gets there. */
  lemma NewestPutShows(cfg: Config, states: seq<Mesh>, steps: seq<Step>, i: nat, s: SiteId, r: Record)
    requires IsRun(cfg, states, steps) && i < |states| && s in states[i]
    requires r.fact.ObjectPut? && Sees(states[i], s, r)
    requires forall p :: Sees(states[i], s, p) && Concerns(p, r.fact.key) && p != r ==> p.ts < r.ts
    ensures StillCurrent(states[i][s].site.catalog, r) && IsLive(states[i][s].site.catalog, r.fact.key)
  {
    var top := NewestSeen(cfg, states, steps, i, s, r, r.fact.key);
  }

  /** A user's newest credential that a site has seen counts there. */
  lemma NewestCredentialCounts(cfg: Config, states: seq<Mesh>, steps: seq<Step>, i: nat, s: SiteId, r: Record)
    requires IsRun(cfg, states, steps) && i < |states| && s in states[i]
    requires r.fact.UserPut? && Sees(states[i], s, r)
    requires forall p :: Sees(states[i], s, p) && p.fact.UserPut? && p.fact.accessKey == r.fact.accessKey && p != r ==>
               p.ts < r.ts
    ensures r.fact.accessKey in states[i][s].site.catalog.users
    ensures states[i][s].site.catalog.users[r.fact.accessKey] == Versioned(r.fact.credential, r.ts)
  {
    UsersAreNewestSeen(cfg, states, steps, i, s);
    var c, users, k := states[i], states[i][s].site.catalog.users, r.fact.accessKey;
    assert SeenUser(c, s, r, UserWrite(r)[0]);
    var top :| SeenUser(c, s, top, Write(k, users[k].value, users[k].updatedAt));
  }

  // ── once synced ───────────────────────────────────────────────────────────

  lemma SyncedSees(cfg: Config, states: seq<Mesh>, steps: seq<Step>, i: nat, s: SiteId, r: Record)
    requires IsRun(cfg, states, steps) && i < |states| && s in states[i] && FullySynced(states[i])
    ensures Sees(states[i], s, r) <==> InSomeLog(states[i], r)
  {
    RunSound(cfg, states, steps, i);
    SyncedSeesEverything(cfg, states[i], s, r);
    assert Accounted(states[i], s);
  }

  /** Once synced, a delete newer than every put of its key anywhere hides the key at every site. */
  lemma DeletedEverywhere(cfg: Config, states: seq<Mesh>, steps: seq<Step>, i: nat, s: SiteId, r: Record)
    requires IsRun(cfg, states, steps) && i < |states| && s in states[i] && FullySynced(states[i])
    requires r.fact.ObjectDelete? && InSomeLog(states[i], r)
    requires forall p :: InSomeLog(states[i], p) && p.fact.ObjectPut? && p.fact.key == r.fact.key ==> p.ts < r.ts
    ensures !IsLive(states[i][s].site.catalog, r.fact.key)
  {
    SyncedSees(cfg, states, steps, i, s, r);
    forall p | Sees(states[i], s, p) && p.fact.ObjectPut? && p.fact.key == r.fact.key ensures p.ts < r.ts {
      SyncedSees(cfg, states, steps, i, s, p);
    }
    NewestDeleteHides(cfg, states, steps, i, s, r);
  }

  /** A read of it is refused at every site. */
  method ReadDeleted(store: Store, range: Option<Range>, peers: seq<SiteId>, fetch: Fetch, promotes: bool, now: int,
                     key: ObjectKey, ghost cfg: Config, ghost states: seq<Mesh>, ghost steps: seq<Step>, ghost i: nat,
                     ghost r: Record)
    returns (answer: Response)
    requires IsRun(cfg, states, steps) && i < |states| && store.me in states[i] && FullySynced(states[i])
    requires store.View() == states[i][store.me].site
    requires r.fact == ObjectDelete(key) && InSomeLog(states[i], r)
    requires forall p :: InSomeLog(states[i], p) && p.fact.ObjectPut? && p.fact.key == key ==> p.ts < r.ts
    modifies store
    ensures answer == NoSuchKey
  {
    DeletedEverywhere(cfg, states, steps, i, store.me, r);
    answer := GetObject(store, key, range, peers, fetch, promotes, now, []);
  }

  /** Delete, then get, at one store. */
  method DeleteThenGet(store: Store, key: ObjectKey, ts: int, range: Option<Range>, peers: seq<SiteId>, fetch: Fetch,
                       promotes: bool, now: int)
    returns (answer: Response)
    modifies store
    ensures Takes(old(store.objects), key, ts) ==> answer == NoSuchKey
  {
    store.DeleteObject(key, ts);
    answer := GetObject(store, key, range, peers, fetch, promotes, now, []);
  }
}
