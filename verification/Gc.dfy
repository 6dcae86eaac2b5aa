/** Mark-and-sweep collection of one site, as a function on its tables.
    `now` is the clock reading the sweep compares with; `stamp(h)` is the later
    reading taken when h is first recorded as an orphan. */
module Gc {
  import opened SiteModel

  function Orphans(s: Site, me: SiteId): set<Hash> {
    Held(s.index.locations, me) - LiveBlocks(s)
  }

  function ReapAt(s: Site, h: Hash, now: int, grace: int): int {
    if h in s.backlog.pending then s.backlog.pending[h] else now + grace
  }

  function Reaped(s: Site, me: SiteId, grace: int, force: bool, now: int): set<Hash> {
    set h | h in Orphans(s, me) && (force || ReapAt(s, h, now, grace) <= now)
  }

  /** The hashes of hs that nobody but this site holds. */
  function LastCopies(locations: Locations, me: SiteId, hs: set<Hash>): set<Hash> {
    set h | h in hs && h in locations && locations[h] - {me} == map[]
  }

  function DropHolders(locations: Locations, me: SiteId, hs: set<Hash>): Locations {
    map h | h in locations && h !in LastCopies(locations, me, hs) ::
      if h in hs then locations[h] - {me} else locations[h]
  }

  /** Drops this site's copy of every hash in hs. */
  function Reap(ix: BlockIndex, me: SiteId, hs: set<Hash>): BlockIndex {
    BlockIndex(ix.sizes - LastCopies(ix.locations, me, hs), DropHolders(ix.locations, me, hs), ix.blobs - hs)
  }

  function Swept(s: Site, me: SiteId, grace: int, force: bool, now: int, stamp: Hash -> int): Site {
    var reaped := Reaped(s, me, grace, force, now);
    s.(index := Reap(s.index, me, reaped),
       backlog := s.backlog.(pending :=
         map h | h in Orphans(s, me) - reaped ::
           if h in s.backlog.pending then s.backlog.pending[h] else stamp(h) + grace))
  }

  /** Reaping one more held block is exactly the store's delete of that block and of its bytes. */
  lemma ReapOneMore(ix: BlockIndex, me: SiteId, hs: set<Hash>, h: Hash)
    requires h !in hs && h in ix.locations
    ensures var dropped := DropLocal(Reap(ix, me, hs), me, h);
            dropped.(blobs := dropped.blobs - {h}) == Reap(ix, me, hs + {h})
  {
    var dropped := DropLocal(Reap(ix, me, hs), me, h);
    var all := Reap(ix, me, hs + {h});
    assert dropped.locations == all.locations;
    assert dropped.sizes == all.sizes;
    assert dropped.blobs - {h} == all.blobs;
  }

  /** A reaped hash keeps every other holder; everything else keeps its whole row. */
  lemma ReapHolders(locations: Locations, me: SiteId, hs: set<Hash>, h: Hash)
    ensures Holders(DropHolders(locations, me, hs), h)
            == if h in hs then Holders(locations, h) - {me} else Holders(locations, h)
    ensures Holds(DropHolders(locations, me, hs), me, h) <==> Holds(locations, me, h) && h !in hs
  {
  }

  /** The sweep keeps exactly the referenced blocks and the orphans still in grace, changes no
      reference, and leaves a pending entry for exactly the orphans it kept. */
  lemma SweepMeetsItsSpecification(s: Site, me: SiteId, grace: int, force: bool, now: int, stamp: Hash -> int)
    ensures var t := Swept(s, me, grace, force, now, stamp);
            && LiveBlocks(t) == LiveBlocks(s)
            && Held(t.index.locations, me) == (Held(s.index.locations, me) * LiveBlocks(s))
                                    + (set h | h in Orphans(s, me) && !force && now < ReapAt(s, h, now, grace))
            && t.backlog.pending.Keys == Held(t.index.locations, me) - LiveBlocks(t)
  {
    var t := Swept(s, me, grace, force, now, stamp);
    var reaped := Reaped(s, me, grace, force, now);
    forall h ensures Holds(t.index.locations, me, h) <==> Holds(s.index.locations, me, h) && h !in reaped {
      ReapHolders(s.index.locations, me, reaped, h);
    }
  }

  /** A live manifest or a part names the block. */
  ghost predicate Named(s: Site, h: Hash) {
    || (exists k :: IsLive(s.catalog, k) && h in s.catalog.objects[k].value.blocks)
    || (exists u, n :: u in s.staging.parts && n in s.staging.parts[u] && h in s.staging.parts[u][n].blocks)
  }

  /** A forced sweep keeps exactly the held blocks that a live manifest or a part names, and drops the bytes of the
      others; an unforced one also keeps those whose time has not come. */
  lemma SweepKeepsExactly(s: Site, me: SiteId, grace: int, force: bool, now: int, stamp: Hash -> int, h: Hash)
    ensures var t := Swept(s, me, grace, force, now, stamp);
            var due := if h in s.backlog.pending then s.backlog.pending[h] else now + grace;
            && (Holds(t.index.locations, me, h) <==>
                Holds(s.index.locations, me, h) && (Named(s, h) || (!force && now < due)))
            && (Holds(s.index.locations, me, h) ==>
                (h in t.index.blobs <==> h in s.index.blobs && Holds(t.index.locations, me, h)))
  {
    ReapHolders(s.index.locations, me, Reaped(s, me, grace, force, now), h);
    assert h in LiveBlocks(s) <==> Named(s, h);
  }

  /** Sweeping again at the same time changes nothing, unless an orphan this sweep first recorded
      was stamped by a clock that had fallen back a whole grace period. */
  lemma SweepIdempotentIff(s: Site, me: SiteId, grace: int, force: bool, now: int, stamp: Hash -> int,
                           stamp': Hash -> int)
    ensures var t := Swept(s, me, grace, force, now, stamp);
            Swept(t, me, grace, force, now, stamp') == t <==>
            force || grace <= 0 || forall h :: h in Orphans(s, me) && h !in s.backlog.pending ==> now < stamp(h) + grace
  {
    var t := Swept(s, me, grace, force, now, stamp);
    var u := Swept(t, me, grace, force, now, stamp');
    var reaped := Reaped(s, me, grace, force, now);
    SweepMeetsItsSpecification(s, me, grace, force, now, stamp);
    assert Orphans(t, me) == Orphans(s, me) - reaped;
    var again := Reaped(t, me, grace, force, now);
    if again == {} {
      assert u.index.locations == t.index.locations;
      assert u.index == t.index;
      assert u.backlog.pending == t.backlog.pending;
      assert u == t;
    } else {
      var h :| h in again;
      assert h in t.backlog.pending && h !in u.backlog.pending;
    }
    if !force && grace > 0 {
      forall h ensures h in again <==> h in Orphans(s, me) && h !in s.backlog.pending && stamp(h) + grace <= now {
      }
    }
  }
}
