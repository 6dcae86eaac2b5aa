/** Merging a peer's log page by page. `fails` holds the sequence numbers of the records whose merge fails. */
module Pulling {
  import opened Prelude
  import opened SiteModel
  import opened Cluster

  const FACT_SYNC_BATCH := 500

  /** A record as served to a peer, with its sequence number. */
  datatype FactRecord = FactRecord(number: nat, record: Record)

  /** The records after sequence number `after`, at most `limit` of them. */
  function FactPage(log: seq<Record>, after: nat, limit: nat): seq<FactRecord> {
    var n := if |log| <= after then 0 else Min(limit, |log| - after);
    seq(n, i requires 0 <= i < n => FactRecord(after + i + 1, log[after + i]))
  }

  function ApplyAll(s: Site, me: SiteId, rs: seq<Record>, now: int): Site {
    if rs == [] then s else Apply(ApplyAll(s, me, rs[..|rs| - 1], now), me, rs[|rs| - 1], now)
  }

  // ── the reference: ranges of sequence numbers ─────────────────────────────

  /** The records numbered after `from` up to `upto` whose merge succeeds, in order. */
  function Merging(log: seq<Record>, from: nat, upto: nat, fails: set<nat>): seq<Record>
    requires upto <= |log|
  {
    if upto <= from then []
    else Merging(log, from, upto - 1, fails) + if upto in fails then [] else [log[upto - 1]]
  }

  /** The last number after `from` up to `upto` whose merge succeeds, or `from`. */
  function LastMerged(from: nat, upto: nat, fails: set<nat>): (c: nat)
    ensures from <= c && (from <= upto ==> c <= upto)
    ensures c == from || c !in fails
    ensures forall k: nat :: c < k <= upto ==> k in fails
  {
    if upto <= from then from else if upto in fails then LastMerged(from, upto - 1, fails) else upto
  }

  /** The site after merging the records after its cursor up to `upto`. */
  function Pulled(s: Site, me: SiteId, peer: SiteId, log: seq<Record>, upto: nat, now: int, fails: set<nat>): Site
    requires upto <= |log|
  {
    var after := At(s.journal.cursors, peer);
    if upto <= after then s
    else ApplyAll(s, me, Merging(log, after, upto, fails), now).(
           journal := s.journal.(cursors := Advance(s.journal.cursors, peer, LastMerged(after, upto, fails))))
  }

  /** The site after merging a peer's whole log from its cursor on. */
  function CaughtUp(s: Site, me: SiteId, peer: SiteId, log: seq<Record>, now: int, fails: set<nat>): Site {
    Pulled(s, me, peer, log, |log|, now, fails)
  }

  lemma {:induction false} MergingSplit(log: seq<Record>, from: nat, mid: nat, upto: nat, fails: set<nat>)
    requires from <= mid <= upto <= |log|
    ensures Merging(log, from, upto, fails) == Merging(log, from, mid, fails) + Merging(log, mid, upto, fails)
    decreases upto
  {
    if mid < upto {
      MergingSplit(log, from, mid, upto - 1, fails);
    }
  }

  lemma {:induction false} MergingNothing(log: seq<Record>, from: nat, upto: nat, fails: set<nat>)
    requires upto <= |log| && forall k: nat :: from < k <= upto ==> k in fails
    ensures Merging(log, from, upto, fails) == []
    decreases upto
  {
    if from < upto {
      MergingNothing(log, from, upto - 1, fails);
    }
  }

  lemma {:induction false} MergingEverything(log: seq<Record>, from: nat, upto: nat)
    requires from <= upto <= |log|
    ensures Merging(log, from, upto, {}) == log[from..upto] && LastMerged(from, upto, {}) == upto
    decreases upto
  {
    if from < upto {
      MergingEverything(log, from, upto - 1);
      assert log[from..upto] == log[from..upto - 1] + [log[upto - 1]];
    }
  }

  /** The cursor of a page, restarted from, leads to the same end. */
  lemma {:induction false} LastMergedSplit(from: nat, mid: nat, upto: nat, fails: set<nat>)
    requires from <= mid <= upto
    ensures LastMerged(LastMerged(from, mid, fails), upto, fails) == LastMerged(from, upto, fails)
    decreases upto
  {
    var c := LastMerged(from, mid, fails);
    if mid < upto {
      LastMergedSplit(from, mid, upto - 1, fails);
    } else {
      assert LastMerged(c, upto, fails) == c;
    }
  }

  // ── merging sequences of records ──────────────────────────────────────────

  lemma ApplyIgnoresJournal(s: Site, me: SiteId, r: Record, now: int, j: Journal)
    ensures Apply(s.(journal := j), me, r, now) == Apply(s, me, r, now).(journal := j)
  {
    match r.fact
    case ObjectPut(_, _, _, _) =>
    case ObjectDelete(_) =>
    case BlockAnnounce(_, _, _, _) =>
    case UserPut(_, _) =>
  }

  lemma {:induction false} ApplyAllIgnoresJournal(s: Site, me: SiteId, rs: seq<Record>, now: int, j: Journal)
    ensures ApplyAll(s.(journal := j), me, rs, now) == ApplyAll(s, me, rs, now).(journal := j)
  {
    if rs != [] {
      ApplyAllIgnoresJournal(s, me, rs[..|rs| - 1], now, j);
      ApplyIgnoresJournal(ApplyAll(s, me, rs[..|rs| - 1], now), me, rs[|rs| - 1], now, j);
    }
  }

  lemma ApplyAllKeepsJournal(s: Site, me: SiteId, rs: seq<Record>, now: int)
    ensures ApplyAll(s, me, rs, now).journal == s.journal
  {
    assert s.(journal := s.journal) == s;
    ApplyAllIgnoresJournal(s, me, rs, now, s.journal);
  }

  lemma {:induction false} ApplyAllAppend(s: Site, me: SiteId, a: seq<Record>, b: seq<Record>, now: int)
    ensures ApplyAll(s, me, a + b, now) == ApplyAll(ApplyAll(s, me, a, now), me, b, now)
  {
    if b == [] {
      assert a + b == a;
    } else {
      ApplyAllAppend(s, me, a, b[..|b| - 1], now);
      assert (a + b)[..|a + b| - 1] == a + b[..|b| - 1];
    }
  }

  lemma ApplyAllSnoc(s: Site, me: SiteId, rs: seq<Record>, r: Record, now: int)
    ensures ApplyAll(s, me, rs + [r], now) == Apply(ApplyAll(s, me, rs, now), me, r, now)
  {
    assert (rs + [r])[..|rs|] == rs;
  }

  /** After a page that moved the cursor, what is left to catch up with leads to the same site. */
  lemma PageThenRest(s: Site, me: SiteId, peer: SiteId, log: seq<Record>, upto: nat, now: int, fails: set<nat>)
    requires At(s.journal.cursors, peer) < LastMerged(At(s.journal.cursors, peer), upto, fails) && upto <= |log|
    ensures CaughtUp(Pulled(s, me, peer, log, upto, now, fails), me, peer, log, now, fails)
            == CaughtUp(s, me, peer, log, now, fails)
  {
    var after, n := At(s.journal.cursors, peer), |log|;
    var c := LastMerged(after, upto, fails);
    var page := ApplyAll(s, me, Merging(log, after, upto, fails), now);
    var moved := s.journal.(cursors := s.journal.cursors[peer := c]);
    LastMergedSplit(after, upto, n, fails);
    MergingSplit(log, after, upto, n, fails);
    MergingSplit(log, c, upto, n, fails);
    MergingNothing(log, c, upto, fails);
    var rest := Merging(log, upto, n, fails);
    assert Merging(log, c, n, fails) == rest;
    ApplyAllAppend(s, me, Merging(log, after, upto, fails), rest, now);
    ApplyAllIgnoresJournal(page, me, rest, now, moved);
    CursorsTwice(s.journal.cursors, peer, c, LastMerged(after, n, fails));
    if n <= c {
      assert rest == [] && LastMerged(after, n, fails) == c;
    }
  }

  lemma CursorsTwice(cursors: map<SiteId, nat>, peer: SiteId, c: nat, d: nat)
    requires At(cursors, peer) < c <= d
    ensures Advance(Advance(cursors, peer, c), peer, d) == Advance(cursors, peer, d) == cursors[peer := d]
  {
    assert cursors[peer := c][peer := d] == cursors[peer := d];
  }

  // ── a page as a list of records ───────────────────────────────────────────

  function Records(facts: seq<FactRecord>): seq<Record> {
    seq(|facts|, i requires 0 <= i < |facts| => facts[i].record)
  }

  /** The page's records whose merge succeeds, in order. */
  function Merged(facts: seq<FactRecord>, fails: set<nat>): seq<FactRecord> {
    if facts == [] then []
    else Merged(facts[..|facts| - 1], fails)
         + if facts[|facts| - 1].number in fails then [] else [facts[|facts| - 1]]
  }

  /** The highest sequence number merged, or the old cursor. */
  function PageCursor(facts: seq<FactRecord>, after: nat, fails: set<nat>): nat {
    if facts == [] then after
    else var rest := PageCursor(facts[..|facts| - 1], after, fails);
         if facts[|facts| - 1].number in fails then rest else Max(rest, facts[|facts| - 1].number)
  }

  /** One more record of a page: merged and counted, or skipped. */
  lemma MergedNext(s: Site, me: SiteId, facts: seq<FactRecord>, i: nat, after: nat, now: int, fails: set<nat>)
    requires i < |facts|
    ensures var before := ApplyAll(s, me, Records(Merged(facts[..i], fails)), now);
            ApplyAll(s, me, Records(Merged(facts[..i + 1], fails)), now)
            == if facts[i].number in fails then before else Apply(before, me, facts[i].record, now)
    ensures PageCursor(facts[..i + 1], after, fails)
            == var c := PageCursor(facts[..i], after, fails);
               if facts[i].number in fails then c else Max(c, facts[i].number)
  {
    assert facts[..i + 1][..i] == facts[..i] && facts[..i + 1][i] == facts[i];
    var merged := Merged(facts[..i], fails);
    if facts[i].number in fails {
      assert merged + [] == merged;
    } else {
      assert Records(merged + [facts[i]]) == Records(merged) + [facts[i].record];
      ApplyAllSnoc(s, me, Records(merged), facts[i].record, now);
    }
  }

  lemma FactPageInit(log: seq<Record>, after: nat, limit: nat)
    requires FactPage(log, after, limit) != []
    ensures var facts := FactPage(log, after, limit); FactPage(log, after, |facts| - 1) == facts[..|facts| - 1]
  {
  }

  /** A page is a range of sequence numbers. */
  lemma {:induction false} PageIsARange(log: seq<Record>, after: nat, limit: nat, fails: set<nat>)
    requires after <= |log|
    ensures var facts := FactPage(log, after, limit);
            var upto := after + |facts|;
            && upto <= |log|
            && Records(Merged(facts, fails)) == Merging(log, after, upto, fails)
            && PageCursor(facts, after, fails) == LastMerged(after, upto, fails)
    decreases limit
  {
    var facts := FactPage(log, after, limit);
    if facts != [] {
      var n := |facts| - 1;
      FactPageInit(log, after, limit);
      PageIsARange(log, after, n, fails);
      var merged := Merged(facts[..n], fails);
      if facts[n].number in fails {
        assert merged + [] == merged;
      } else {
        assert Records(merged + [facts[n]]) == Records(merged) + [facts[n].record];
      }
    }
  }

  /** A failed merge is passed over for good exactly when a later record of the page succeeds: the
      cursor steps over no failed record if and only if every failure follows every success. */
  lemma CursorSkipsNothingIff(log: seq<Record>, after: nat, limit: nat, fails: set<nat>)
    requires after <= |log|
    ensures var facts := FactPage(log, after, limit);
            (forall k: nat :: after < k <= PageCursor(facts, after, fails) ==> k !in fails) <==>
            (forall j: nat, k: nat :: after < j < k <= after + |facts| && j in fails ==> k in fails)
  {
    var facts := FactPage(log, after, limit);
    PageIsARange(log, after, limit, fails);
    var c := PageCursor(facts, after, fails);
    if j: nat :| after < j <= c && j in fails {
      assert c !in fails;
    }
  }

  /** Of two records the first fails and the second does not: the cursor ends past both. */
  lemma SkippedRecord(a: Record, b: Record)
    ensures PageCursor(FactPage([a, b], 0, FACT_SYNC_BATCH), 0, {1}) == 2
    ensures Records(Merged(FactPage([a, b], 0, FACT_SYNC_BATCH), {1})) == [b]
  {
    PageIsARange([a, b], 0, FACT_SYNC_BATCH, {1});
    assert LastMerged(0, 2, {1}) == 2;
    assert Merging([a, b], 0, 2, {1}) == [b] by {
      assert Merging([a, b], 0, 1, {1}) == [];
    }
  }

  // ── when the drain of a peer ends ─────────────────────────────────────────

  datatype Drain = Draining(cursor: nat) | Stopped(cursor: nat)

  /** One pass of the drain loop over a log of this length: an empty or a short page ends it. */
  function DrainRound(length: nat, fails: set<nat>, cursor: nat): Drain {
    if length <= cursor then Stopped(cursor)
    else if length - cursor < FACT_SYNC_BATCH then Stopped(LastMerged(cursor, length, fails))
    else Draining(LastMerged(cursor, cursor + FACT_SYNC_BATCH, fails))
  }

  function Rounds(length: nat, fails: set<nat>, cursor: nat, n: nat): Drain {
    if n == 0 then Draining(cursor)
    else match Rounds(length, fails, cursor, n - 1)
      case Draining(c) => DrainRound(length, fails, c)
      case Stopped(c) => Stopped(c)
  }

  /** Every record of the full page after a fails. */
  ghost predicate PageFails(fails: set<nat>, a: nat) {
    forall k: nat :: a < k <= a + FACT_SYNC_BATCH ==> k in fails
  }

  /** No full page's worth of consecutive records after the cursor fails as a whole. */
  ghost predicate NoFailingPage(length: nat, fails: set<nat>, cursor: nat) {
    forall a: nat :: cursor <= a && a + FACT_SYNC_BATCH <= length ==> !PageFails(fails, a)
  }

  /** The cursor stays put on a full page exactly when all of it fails. */
  lemma StaysPutIff(fails: set<nat>, a: nat)
    ensures LastMerged(a, a + FACT_SYNC_BATCH, fails) == a <==> PageFails(fails, a)
  {
  }

  /** A whole failing page at a or later holds every round at or before a. */
  lemma {:induction false} StuckBelow(length: nat, fails: set<nat>, cursor: nat, a: nat, n: nat)
    requires cursor <= a && a + FACT_SYNC_BATCH <= length && PageFails(fails, a)
    ensures Rounds(length, fails, cursor, n).Draining? && Rounds(length, fails, cursor, n).cursor <= a
  {
    if n != 0 {
      StuckBelow(length, fails, cursor, a, n - 1);
      var c := Rounds(length, fails, cursor, n - 1).cursor;
      assert LastMerged(c, c + FACT_SYNC_BATCH, fails) <= a;
    }
  }

  /** Without one, each round moves the cursor on. */
  lemma {:induction false} EndsWithin(length: nat, fails: set<nat>, cursor: nat, n: nat)
    requires NoFailingPage(length, fails, cursor)
    ensures var d := Rounds(length, fails, cursor, n);
            d.Stopped? || cursor + n <= d.cursor <= Max(cursor, length)
  {
    if n != 0 {
      EndsWithin(length, fails, cursor, n - 1);
      StaysPutIff(fails, Rounds(length, fails, cursor, n - 1).cursor);
    }
  }

  /** One pass moves on and leaves the same site to be reached, or reaches it. */
  lemma RoundLeads(s: Site, me: SiteId, peer: SiteId, log: seq<Record>, now: int, fails: set<nat>)
    requires NoFailingPage(|log|, fails, At(s.journal.cursors, peer))
    ensures var after := At(s.journal.cursors, peer);
            var t := Pulled(s, me, peer, log, Min(after + FACT_SYNC_BATCH, |log|), now, fails);
            match DrainRound(|log|, fails, after)
            case Draining(c) =>
              after < c <= |log| && NoFailingPage(|log|, fails, c)
              && CaughtUp(t, me, peer, log, now, fails) == CaughtUp(s, me, peer, log, now, fails)
            case Stopped(_) => t == CaughtUp(s, me, peer, log, now, fails)
  {
    var after := At(s.journal.cursors, peer);
    if FACT_SYNC_BATCH <= |log| - after {
      StaysPutIff(fails, after);
      PageThenRest(s, me, peer, log, after + FACT_SYNC_BATCH, now, fails);
    }
  }

  /** The drain of a peer ends if and only if no five hundred consecutive records after the cursor all fail. */
  lemma DrainEndsIff(length: nat, fails: set<nat>, cursor: nat)
    ensures (exists n: nat :: Rounds(length, fails, cursor, n).Stopped?) <==> NoFailingPage(length, fails, cursor)
  {
    if NoFailingPage(length, fails, cursor) {
      EndsWithin(length, fails, cursor, length + 1);
      assert Rounds(length, fails, cursor, length + 1).Stopped?;
    } else {
      var a: nat :| cursor <= a && a + FACT_SYNC_BATCH <= length && PageFails(fails, a);
      forall n: nat ensures !Rounds(length, fails, cursor, n).Stopped? {
        StuckBelow(length, fails, cursor, a, n);
      }
    }
  }

  function FirstNumbers(n: nat): (ks: set<nat>)
    ensures forall k: nat :: k in ks <==> 1 <= k <= n
  {
    if n == 0 then {} else FirstNumbers(n - 1) + {n}
  }

  /** A log of five hundred records that all fail is fetched again and again. */
  lemma FailingPageSpins(n: nat)
    ensures Rounds(FACT_SYNC_BATCH, FirstNumbers(FACT_SYNC_BATCH), 0, n) == Draining(0)
  {
    StuckBelow(FACT_SYNC_BATCH, FirstNumbers(FACT_SYNC_BATCH), 0, 0, n);
  }
}
