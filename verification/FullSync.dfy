/** Full synchronisation is always within reach: from any state, pulling alone gets every site to the end of every
    peer's log. */
module FullSync {
  import opened SiteModel
  import opened Cluster
  import opened Invariants
  import opened Pulling
  import opened MeshPreservation
  import opened Convergence
  import opened Handlers

  type Pair = (SiteId, SiteId)

  function PairsOf(c: Mesh): set<Pair> {
    set s, p | s in c && p in c && s != p :: (s, p)
  }

  ghost predicate Synced(c: Mesh, pair: Pair)
    requires pair.0 in c && pair.1 in c
  {
    At(c[pair.0].site.journal.cursors, pair.1) == |c[pair.1].site.journal.log|
  }

  ghost predicate CursorsInLogs(c: Mesh) {
    forall s, p :: s in c && p in c && s != p ==> At(c[s].site.journal.cursors, p) <= |c[p].site.journal.log|
  }

  /** The same sites with the same logs. */
  ghost predicate SameLogs(c: Mesh, d: Mesh) {
    c.Keys == d.Keys && forall s :: s in c && s in d ==> c[s].site.journal.log == d[s].site.journal.log
  }

  lemma CaughtUpJournal(s: Site, me: SiteId, peer: SiteId, log: seq<Record>, now: int)
    requires At(s.journal.cursors, peer) < |log|
    ensures CaughtUp(s, me, peer, log, now, {}).journal == s.journal.(cursors := s.journal.cursors[peer := |log|])
  {
    MergingEverything(log, At(s.journal.cursors, peer), |log|);
  }

  /** Catching up with one peer settles that pair, disturbs no other, and logs nothing. */
  lemma CatchingUp(c: Mesh, me: SiteId, peer: SiteId, n: Node)
    requires me in c && peer in c && me != peer && CursorsInLogs(c)
    requires n.site.journal
             == c[me].site.journal.(cursors := c[me].site.journal.cursors[peer := |c[peer].site.journal.log|])
    ensures SameLogs(c, c[me := n]) && CursorsInLogs(c[me := n]) && Synced(c[me := n], (me, peer))
    ensures forall pair :: pair in PairsOf(c) && Synced(c, pair) ==> Synced(c[me := n], pair)
  {
  }

  /** Settling the pairs that are left, one after another. */
  lemma {:induction false} SyncPairs(cfg: Config, c: Mesh, left: set<Pair>)
    returns (states: seq<Mesh>, steps: seq<Step>)
    requires left <= PairsOf(c) && CursorsInLogs(c)
    requires forall pair :: pair in PairsOf(c) - left ==> Synced(c, pair)
    ensures IsSegment(cfg, states, steps) && OnlySyncs(steps) && states[0] == c
    ensures SameLogs(c, states[|steps|]) && FullySynced(states[|steps|])
    decreases left, 1
  {
    if left == {} {
      states, steps := [c], [];
      forall s, p | s in c && p in c && s != p
        ensures At(c[s].site.journal.cursors, p) == |c[p].site.journal.log|
      {
        assert (s, p) in PairsOf(c) - left;
        assert Synced(c, (s, p));
      }
    } else {
      var pair: Pair :| pair in left;
      if Synced(c, pair) {
        states, steps := SyncPairs(cfg, c, left - {pair});
      } else {
        states, steps := SyncOneThenRest(cfg, c, left, pair);
      }
    }
  }

  lemma {:induction false} SyncOneThenRest(cfg: Config, c: Mesh, left: set<Pair>, pair: Pair)
    returns (states: seq<Mesh>, steps: seq<Step>)
    requires left <= PairsOf(c) && CursorsInLogs(c) && pair in left && !Synced(c, pair)
    requires forall other :: other in PairsOf(c) - left ==> Synced(c, other)
    ensures IsSegment(cfg, states, steps) && OnlySyncs(steps) && states[0] == c
    ensures SameLogs(c, states[|steps|]) && FullySynced(states[|steps|])
    decreases left, 0
  {
    var first, firstSteps, n := SyncIsASegment(cfg, c, pair.0, pair.1, 0);
    var d := c[pair.0 := n];
    CaughtUpJournal(c[pair.0].site, pair.0, pair.1, c[pair.1].site.journal.log, 0);
    CatchingUp(c, pair.0, pair.1, n);
    assert PairsOf(d) == PairsOf(c);
    var rest, restSteps := SyncPairs(cfg, d, left - {pair});
    SegmentsJoin(cfg, first, firstSteps, rest, restSteps);
    states, steps := first + rest[1..], firstSteps + restSteps;
  }

  lemma LogsDecideTies(c: Mesh, d: Mesh)
    requires SameLogs(c, d) && NoTies(c)
    ensures NoTies(d)
  {
    forall r ensures InSomeLog(c, r) <==> InSomeLog(d, r) {
    }
    forall w ensures WritesObject(c, w) <==> WritesObject(d, w) {
    }
    forall w ensures WritesUser(c, w) <==> WritesUser(d, w) {
    }
    forall w ensures TopObject(c, w) <==> TopObject(d, w) {
    }
    forall w ensures TopUser(c, w) <==> TopUser(d, w) {
    }
    forall k ensures ObjectUntied(d, k) {
      assert ObjectUntied(c, k);
    }
    forall k ensures UserUntied(d, k) {
      assert UserUntied(c, k);
    }
  }

  /** Every run extends, by restarts, pulls and saved cursors alone, to one that ends fully synced with the same logs;
      if no two writes tied for newest, all sites then hold the same objects and users. */
  lemma EveryRunCanSync(cfg: Config, states: seq<Mesh>, steps: seq<Step>)
    returns (more: seq<Mesh>, moreSteps: seq<Step>)
    requires IsRun(cfg, states, steps)
    ensures IsRun(cfg, states + more, steps + moreSteps) && OnlySyncs(moreSteps)
    ensures var last := (states + more)[|steps + moreSteps|];
            && SameLogs(states[|steps|], last) && FullySynced(last)
            && (NoTies(states[|steps|]) ==>
                forall s, q :: s in last && q in last ==> last[s].site.catalog == last[q].site.catalog)
  {
    var c := states[|steps|];
    RunSound(cfg, states, steps, |steps|);
    assert CursorsInLogs(c) by {
      forall s, p | s in c && p in c && s != p ensures At(c[s].site.journal.cursors, p) <= |c[p].site.journal.log| {
        assert PairInv(c[s], p, c[p].site.journal.log);
      }
    }
    var segment;
    segment, moreSteps := SyncPairs(cfg, c, PairsOf(c));
    more := segment[1..];
    SegmentExtendsRun(cfg, states, steps, segment, moreSteps);
    var last := (states + more)[|steps + moreSteps|];
    assert last == segment[|moreSteps|];
    if NoTies(c) {
      LogsDecideTies(c, last);
      forall s, q | s in last && q in last ensures last[s].site.catalog == last[q].site.catalog {
        ConvergesWholly(cfg, states + more, steps + moreSteps, |steps + moreSteps|, s, q);
      }
    }
  }
}
