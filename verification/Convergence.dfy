/** What the replicated catalog is in every state of every run, and that synced sites agree. */
module Convergence {
  import opened Lww
  import opened SiteModel
  import opened Gc
  import opened Cluster
  import opened Invariants
  import opened MeshPreservation

  ghost predicate FullySynced(c: Mesh) {
    forall s, p :: s in c && p in c && s != p ==> At(c[s].site.journal.cursors, p) == |c[p].site.journal.log|
  }

  ghost predicate InSomeLog(c: Mesh, r: Record) {
    exists p :: p in c && r in c[p].site.journal.log
  }

  ghost predicate WritesObject(c: Mesh, w: Write<ObjectKey, Manifest>) {
    exists r :: InSomeLog(c, r) && w in ObjectWrite(r)
  }

  ghost predicate WritesUser(c: Mesh, w: Write<string, Credential>) {
    exists r :: InSomeLog(c, r) && w in UserWrite(r)
  }

  ghost predicate TopObject(c: Mesh, w: Write<ObjectKey, Manifest>) {
    WritesObject(c, w) && forall v :: WritesObject(c, v) && v.key == w.key ==> v.ts <= w.ts
  }

  ghost predicate TopUser(c: Mesh, w: Write<string, Credential>) {
    WritesUser(c, w) && forall v :: WritesUser(c, v) && v.key == w.key ==> v.ts <= w.ts
  }

  /** No two logged writes of the object tie for newest with different values. */
  ghost predicate ObjectUntied(c: Mesh, k: ObjectKey) {
    forall v, w :: TopObject(c, v) && TopObject(c, w) && v.key == w.key == k ==> v.value == w.value
  }

  ghost predicate UserUntied(c: Mesh, k: string) {
    forall v, w :: TopUser(c, v) && TopUser(c, w) && v.key == w.key == k ==> v.value == w.value
  }

  ghost predicate NoTies(c: Mesh) {
    (forall k :: ObjectUntied(c, k)) && (forall k :: UserUntied(c, k))
  }

  /** r has reached s, through its own log or a pull, and writes key. */
  ghost predicate SeenWrite(c: Mesh, s: SiteId, r: Record, w: Write<ObjectKey, Manifest>)
    requires s in c
  {
    Sees(c, s, r) && w in ObjectWrite(r)
  }

  /** At every moment of every run, each site's row for a key is the newest write among its own log
      and the part of each peer's log it has merged; a key without a row was written by none of them. */
  lemma RowsAreNewestSeen(cfg: Config, states: seq<Mesh>, steps: seq<Step>, i: nat, s: SiteId)
    requires IsRun(cfg, states, steps) && i < |states| && s in states[i]
    ensures var c := states[i];
            var objects := c[s].site.catalog.objects;
            && (forall k :: k in objects ==>
                  exists r :: SeenWrite(c, s, r, Write(k, objects[k].value, objects[k].updatedAt)))
            && (forall r, w :: SeenWrite(c, s, r, w) ==> w.key in objects && w.ts <= objects[w.key].updatedAt)
  {
    RunSound(cfg, states, steps, i);
    var c := states[i];
    var objects := c[s].site.catalog.objects;
    var arrivals := c[s].history.arrivals;
    ReplayIsNewest(ObjectWrites(arrivals));
    WritesFromRecords(arrivals);
    forall k | k in objects ensures exists r :: SeenWrite(c, s, r, Write(k, objects[k].value, objects[k].updatedAt)) {
      var w := Write(k, objects[k].value, objects[k].updatedAt);
      assert Newest(ObjectWrites(arrivals), w);
      var r :| r in arrivals && w in ObjectWrite(r);
      assert SeenWrite(c, s, r, w);
    }
    forall r, w | SeenWrite(c, s, r, w) ensures w.key in objects && w.ts <= objects[w.key].updatedAt {
      assert r in arrivals;
      assert w in ObjectWrites(arrivals);
    }
  }

  ghost predicate SeenUser(c: Mesh, s: SiteId, r: Record, w: Write<string, Credential>)
    requires s in c
  {
    Sees(c, s, r) && w in UserWrite(r)
  }

  /** The same for user rows. */
  lemma UsersAreNewestSeen(cfg: Config, states: seq<Mesh>, steps: seq<Step>, i: nat, s: SiteId)
    requires IsRun(cfg, states, steps) && i < |states| && s in states[i]
    ensures var c := states[i];
            var users := c[s].site.catalog.users;
            && (forall k :: k in users ==>
                  exists r :: SeenUser(c, s, r, Write(k, users[k].value, users[k].updatedAt)))
            && (forall r, w :: SeenUser(c, s, r, w) ==> w.key in users && w.ts <= users[w.key].updatedAt)
  {
    RunSound(cfg, states, steps, i);
    var c := states[i];
    var users, arrivals := c[s].site.catalog.users, c[s].history.arrivals;
    forall k | k in users ensures exists r :: SeenUser(c, s, r, Write(k, users[k].value, users[k].updatedAt)) {
      var r := UserHasARecord(arrivals, k);
      assert SeenUser(c, s, r, Write(k, users[k].value, users[k].updatedAt));
    }
    forall r, w | SeenUser(c, s, r, w) ensures w.key in users && w.ts <= users[w.key].updatedAt {
      assert r in arrivals;
      UserIsNoOlder(arrivals, r, w);
    }
  }

  lemma UserHasARecord(arrivals: seq<Record>, k: string) returns (r: Record)
    requires k in CatalogOf(arrivals).users
    ensures r in arrivals
    ensures var row := CatalogOf(arrivals).users[k]; Write(k, row.value, row.updatedAt) in UserWrite(r)
  {
    var row := CatalogOf(arrivals).users[k];
    ReplayIsNewest(UserWrites(arrivals));
    WritesFromRecords(arrivals);
    assert Newest(UserWrites(arrivals), Write(k, row.value, row.updatedAt));
    r :| r in arrivals && Write(k, row.value, row.updatedAt) in UserWrite(r);
  }

  lemma UserIsNoOlder(arrivals: seq<Record>, r: Record, w: Write<string, Credential>)
    requires r in arrivals && w in UserWrite(r)
    ensures w.key in CatalogOf(arrivals).users && w.ts <= CatalogOf(arrivals).users[w.key].updatedAt
  {
    ReplayIsNewest(UserWrites(arrivals));
    WritesFromRecords(arrivals);
  }

  /** Every record below a saved cursor has been merged, however often the pull was cut short. */
  lemma SavedCursorIsMerged(cfg: Config, states: seq<Mesh>, steps: seq<Step>, i: nat, s: SiteId, p: SiteId, j: nat)
    requires IsRun(cfg, states, steps) && i < |states| && s in states[i] && p in states[i] && s != p
    requires j < At(states[i][s].site.journal.cursors, p)
    ensures j < |states[i][p].site.journal.log| && states[i][p].site.journal.log[j] in states[i][s].history.arrivals
  {
    RunSound(cfg, states, steps, i);
    var c := states[i];
    var log := c[p].site.journal.log;
    assert PairInv(c[s], p, log);
    assert log[j] == log[..At(c[s].sync.seen, p)][j];
    assert log[j] in log[..At(c[s].sync.seen, p)];
    assert Sees(c, s, log[j]);
  }

  /** No saved cursor ever moves back. */
  lemma {:induction false} CursorsOnlyAdvance(cfg: Config, states: seq<Mesh>, steps: seq<Step>, i: nat, k: nat,
                                              s: SiteId, p: SiteId)
    requires IsRun(cfg, states, steps) && i <= k < |states| && s in states[i] && s in states[k]
    ensures At(states[i][s].site.journal.cursors, p) <= At(states[k][s].site.journal.cursors, p)
  {
    if i < k {
      SitesStay(cfg, states, steps, i, k - 1);
      CursorsOnlyAdvance(cfg, states, steps, i, k - 1, s, p);
      assert StepAt(cfg, states, steps, k - 1);
      CursorAdvances(cfg, states[k - 1], steps[k - 1], states[k], s, p);
    }
  }

  lemma CursorAdvances(cfg: Config, c: Mesh, step: Step, c': Mesh, s: SiteId, p: SiteId)
    requires Next(cfg, c, step, c') && s in c
    ensures At(c[s].site.journal.cursors, p) <= At(c'[s].site.journal.cursors, p)
  {
  }

  /** Pulling a record again, after a crash before the cursor was saved, leaves every table as it was,
      except that an announced block neither held nor queued is queued: the tables change if and only if
      the record announces such a block. */
  lemma RepullChangesNothing(cfg: Config, states: seq<Mesh>, steps: seq<Step>, i: nat, s: SiteId, p: SiteId, j: nat,
                             now: int)
    requires IsRun(cfg, states, steps) && i < |states| && s in states[i] && p in states[i] && s != p
    requires j < At(states[i][s].sync.seen, p)
    ensures j < |states[i][p].site.journal.log|
    ensures var site, r := states[i][s].site, states[i][p].site.journal.log[j];
            var swept := r.fact.BlockAnnounce? && r.fact.hash !in site.index.blobs
                && r.fact.hash !in site.backlog.queue;
            && Apply(site, s, r, now) == (if swept then Requeued(site, r.fact.hash, now) else site)
            && (Apply(site, s, r, now) != site <==> swept)
  {
    RunSound(cfg, states, steps, i);
    var n, log := states[i][s], states[i][p].site.journal.log;
    assert PairInv(n, p, log);
    var r := log[j];
    assert Kept(n, p, r);
    assert log[j] == log[..At(n.sync.seen, p)][j];
    assert Sees(states[i], s, r);
    RepullChangesNoRow(cfg, states[i], s, r, now);
    if r.fact.BlockAnnounce? {
      assert r.fact.location == p by { assert NodeInv(cfg, p, states[i][p]); }
      assert r.fact.hash in n.site.index.blobs <==> Holds(n.site.index.locations, s, r.fact.hash) by {
        assert NodeInv(cfg, s, n);
      }
      RepeatedAnnouncement(n.site, s, r, now);
    }
  }

  function Requeued(site: Site, h: Hash, now: int): Site {
    site.(backlog := site.backlog.(queue := Queued(site.backlog.queue, h, now)))
  }

  /** An announcement on record is no news to the block tables. */
  lemma RepeatedAnnouncement(site: Site, me: SiteId, r: Record, now: int)
    requires r.fact.BlockAnnounce? && r.fact.location != me
    requires OnRecord(site.index, r.fact.location, r.fact.hash, r.ts)
    ensures Apply(site, me, r, now)
            == if Holds(site.index.locations, me, r.fact.hash) then site else Requeued(site, r.fact.hash, now)
  {
    var f, ix := r.fact, site.index;
    var holders := ix.locations[f.hash];
    assert ix.locations[f.hash := holders] == ix.locations;
    assert NoteLocation(ix.locations, f.hash, f.location, f.fid, r.ts) == ix.locations;
    assert RecordLocation(ix, f.hash, f.location, f.fid, f.length, r.ts) == ix;
  }

  lemma RepullChangesNoRow(cfg: Config, c: Mesh, s: SiteId, r: Record, now: int)
    requires Inv(cfg, c) && s in c && Sees(c, s, r)
    ensures Apply(c[s].site, s, r, now).catalog == c[s].site.catalog
  {
    var arrivals := c[s].history.arrivals;
    assert r in arrivals by { assert Accounted(c, s); }
    ApplyReplays(c[s].site, s, r, now, arrivals);
    SeenAgain(arrivals, r);
  }

  lemma SeenAgain(rs: seq<Record>, r: Record)
    requires r in rs
    ensures CatalogOf(rs + [r]) == CatalogOf(rs)
  {
    WritesFromRecords(rs);
    CatalogSnoc(rs, r);
    UpsertSeen(ObjectWrites(rs), ObjectWrite(r));
    UpsertSeen(UserWrites(rs), UserWrite(r));
  }

  lemma SyncedSeesEverything(cfg: Config, c: Mesh, s: SiteId, r: Record)
    requires Inv(cfg, c) && FullySynced(c) && s in c
    ensures r in c[s].history.arrivals <==> InSomeLog(c, r)
  {
    assert Accounted(c, s);
    forall p | p in c && p != s
      ensures At(c[s].sync.seen, p) == |c[p].site.journal.log|
      ensures c[p].site.journal.log[..At(c[s].sync.seen, p)] == c[p].site.journal.log
    {
      assert PairInv(c[s], p, c[p].site.journal.log);
    }
    if InSomeLog(c, r) {
      var p :| p in c && r in c[p].site.journal.log;
      if p != s {
        assert r in c[p].site.journal.log[..At(c[s].sync.seen, p)];
      }
    }
  }

  lemma SyncedWrites(cfg: Config, c: Mesh, s: SiteId)
    requires Inv(cfg, c) && FullySynced(c) && s in c
    ensures forall w :: w in ObjectWrites(c[s].history.arrivals) <==> WritesObject(c, w)
    ensures forall w :: w in UserWrites(c[s].history.arrivals) <==> WritesUser(c, w)
  {
    WritesFromRecords(c[s].history.arrivals);
    forall r ensures r in c[s].history.arrivals <==> InSomeLog(c, r) {
      SyncedSeesEverything(cfg, c, s, r);
    }
  }

  lemma ObjectRowsAgree(c: Mesh, a: seq<Record>, b: seq<Record>, k: ObjectKey)
    requires forall w :: w in ObjectWrites(a) <==> WritesObject(c, w)
    requires forall w :: w in ObjectWrites(b) <==> WritesObject(c, w)
    ensures var x, y := CatalogOf(a).objects, CatalogOf(b).objects;
            && (k in x <==> k in y)
            && (k in x ==> x[k].updatedAt == y[k].updatedAt)
            && (k in x && ObjectUntied(c, k) ==> x[k] == y[k])
  {
    assert forall w :: Newest(ObjectWrites(a), w) ==> TopObject(c, w);
    SameWritesSameRow(ObjectWrites(a), ObjectWrites(b), k);
  }

  lemma UserRowsAgree(c: Mesh, a: seq<Record>, b: seq<Record>, k: string)
    requires forall w :: w in UserWrites(a) <==> WritesUser(c, w)
    requires forall w :: w in UserWrites(b) <==> WritesUser(c, w)
    ensures var x, y := CatalogOf(a).users, CatalogOf(b).users;
            && (k in x <==> k in y)
            && (k in x ==> x[k].updatedAt == y[k].updatedAt)
            && (k in x && UserUntied(c, k) ==> x[k] == y[k])
  {
    assert forall w :: Newest(UserWrites(a), w) ==> TopUser(c, w);
    SameWritesSameRow(UserWrites(a), UserWrites(b), k);
  }

  lemma CatalogsAgree(c: Mesh, a: seq<Record>, b: seq<Record>)
    requires NoTies(c)
    requires forall w :: w in ObjectWrites(a) <==> WritesObject(c, w)
    requires forall w :: w in ObjectWrites(b) <==> WritesObject(c, w)
    requires forall w :: w in UserWrites(a) <==> WritesUser(c, w)
    requires forall w :: w in UserWrites(b) <==> WritesUser(c, w)
    ensures CatalogOf(a) == CatalogOf(b)
  {
    forall k ensures k in CatalogOf(a).objects <==> k in CatalogOf(b).objects
             ensures k in CatalogOf(a).objects ==> CatalogOf(a).objects[k] == CatalogOf(b).objects[k]
    {
      assert ObjectUntied(c, k);
      ObjectRowsAgree(c, a, b, k);
    }
    forall k ensures k in CatalogOf(a).users <==> k in CatalogOf(b).users
             ensures k in CatalogOf(a).users ==> CatalogOf(a).users[k] == CatalogOf(b).users[k]
    {
      assert UserUntied(c, k);
      UserRowsAgree(c, a, b, k);
    }
  }

  /** Convergence: after any run, once every cursor has reached the end of its peer's log, all sites have a row for
      the same objects and users, of the same age, and the same row wherever no two writes tie for newest. */
  lemma Converges(cfg: Config, states: seq<Mesh>, steps: seq<Step>, i: nat, s: SiteId, q: SiteId, k: ObjectKey,
                  u: string)
    requires IsRun(cfg, states, steps) && i < |states| && s in states[i] && q in states[i] && FullySynced(states[i])
    ensures var c, x, y := states[i], states[i][s].site.catalog.objects, states[i][q].site.catalog.objects;
            && (k in x <==> k in y)
            && (k in x ==> x[k].updatedAt == y[k].updatedAt)
            && (k in x && ObjectUntied(c, k) ==> x[k] == y[k])
    ensures var c, x, y := states[i], states[i][s].site.catalog.users, states[i][q].site.catalog.users;
            && (u in x <==> u in y)
            && (u in x ==> x[u].updatedAt == y[u].updatedAt)
            && (u in x && UserUntied(c, u) ==> x[u] == y[u])
  {
    RunSound(cfg, states, steps, i);
    var c := states[i];
    SyncedWrites(cfg, c, s);
    SyncedWrites(cfg, c, q);
    ObjectRowsAgree(c, c[s].history.arrivals, c[q].history.arrivals, k);
    UserRowsAgree(c, c[s].history.arrivals, c[q].history.arrivals, u);
  }

  /** Without a tie anywhere, fully synced sites hold the same objects and users. */
  lemma ConvergesWholly(cfg: Config, states: seq<Mesh>, steps: seq<Step>, i: nat, s: SiteId, q: SiteId)
    requires IsRun(cfg, states, steps) && i < |states| && s in states[i] && q in states[i]
    requires FullySynced(states[i]) && NoTies(states[i])
    ensures states[i][s].site.catalog == states[i][q].site.catalog
  {
    RunSound(cfg, states, steps, i);
    var c := states[i];
    SyncedWrites(cfg, c, s);
    SyncedWrites(cfg, c, q);
    CatalogsAgree(c, c[s].history.arrivals, c[q].history.arrivals);
  }

  /** Last-copy safety: once synced, a sweep at any site, forced or not, removes no block that a live manifest
      without a tie names at any site, and none that this site's parts name. */
  lemma SyncedSweepSparesReferenced(cfg: Config, states: seq<Mesh>, steps: seq<Step>, i: nat,
                                    s: SiteId, q: SiteId, k: ObjectKey, force: bool, now: int)
    requires IsRun(cfg, states, steps) && i < |states| && s in states[i] && q in states[i] && FullySynced(states[i])
    ensures var c := states[i];
            var reaped := Reaped(c[s].site, s, cfg.grace, force, now);
            && (IsLive(c[q].site.catalog, k) && ObjectUntied(c, k) ==>
                forall h :: h in c[q].site.catalog.objects[k].value.blocks ==> h !in reaped)
            && reaped !! NamedByParts(c[s].site.staging)
  {
    Converges(cfg, states, steps, i, s, q, k, "");
    var c := states[i];
    if IsLive(c[q].site.catalog, k) && ObjectUntied(c, k) {
      assert c[s].site.catalog.objects[k] == c[q].site.catalog.objects[k];
      forall h | h in c[q].site.catalog.objects[k].value.blocks ensures h in NamedByObjects(c[s].site.catalog) {
      }
    }
  }
}
