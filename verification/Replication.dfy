/** The replication drainer's decision for one queue entry, and its retry schedule. */
module Replication {
  import opened Prelude
  import opened Lww
  import opened SiteModel

  datatype Plan = Drop | Defer | FetchFrom(candidates: seq<SiteId>)

  function Candidates(holders: Table<SiteId, Bytes>, peers: seq<SiteId>): seq<SiteId> {
    if peers == [] then []
    else (if peers[0] in holders then [peers[0]] else []) + Candidates(holders, peers[1..])
  }

  function PlanReplication(holders: Table<SiteId, Bytes>, me: SiteId, peers: seq<SiteId>): Plan {
    if holders == map[] || me in holders then Drop
    else var candidates := Candidates(holders, peers);
         if candidates == [] then Defer else FetchFrom(candidates)
  }

  lemma {:induction false} CandidatesAreHolders(holders: Table<SiteId, Bytes>, peers: seq<SiteId>)
    ensures forall p :: p in Candidates(holders, peers) <==> p in peers && p in holders
  {
    if peers != [] {
      CandidatesAreHolders(holders, peers[1..]);
      assert peers == [peers[0]] + peers[1..];
    }
  }

  /** With a remote holder on record, only a local copy makes the drainer drop an entry, and it
      defers exactly when no known peer is a holder. */
  lemma PlanCharacterised(holders: Table<SiteId, Bytes>, me: SiteId, peers: seq<SiteId>, p: SiteId)
    requires p != me && p in holders
    ensures PlanReplication(holders, me, peers).Drop? <==> me in holders
    ensures PlanReplication(holders, me, peers).Defer? <==> me !in holders && forall q :: q in peers ==> q !in holders
    ensures p in peers && me !in holders ==> p in Candidates(holders, peers)
                                             && PlanReplication(holders, me, peers).FetchFrom?
  {
    CandidatesAreHolders(holders, peers);
    var candidates := Candidates(holders, peers);
    if candidates != [] {
      assert candidates[0] in candidates;
    }
  }

  // ── backoff ───────────────────────────────────────────────────────────────

  const BACKOFF_BASE_MS := 60_000
  const BACKOFF_CAP_MS := 6 * 60 * 60 * 1000

  function Pow2(n: nat): nat {
    if n == 0 then 1 else 2 * Pow2(n - 1)
  }

  /** A 64-bit two's-complement left shift: bits shifted out are lost. */
  function ShiftLeft64(x: int, shift: nat): int {
    var low := (x * Pow2(shift)) % 0x1_0000_0000_0000_0000;
    if low < 0x8000_0000_0000_0000 then low else low - 0x1_0000_0000_0000_0000
  }

  function BackoffMs(attempts: int): int {
    if attempts <= 0 then BACKOFF_BASE_MS
    else Min(ShiftLeft64(BACKOFF_BASE_MS, Min(attempts, 40)), BACKOFF_CAP_MS)
  }

  lemma {:induction false} Pow2Grows(m: nat, n: nat)
    requires m <= n
    ensures Pow2(m) <= Pow2(n)
  {
    if m < n {
      Pow2Grows(m, n - 1);
    }
  }

  lemma Pow2Of40()
    ensures Pow2(9) == 512 && Pow2(40) == 0x100_0000_0000
  {
    assert Pow2(9) == 512;
    assert Pow2(18) == 512 * 512;
    assert Pow2(27) == 512 * 512 * 512;
    assert Pow2(36) == 512 * 512 * 512 * 512;
  }

  /** After n failures the delay is min(base * 2^n, cap) for every n: no shift ever overflows. */
  lemma BackoffIsCappedDoubling(attempts: nat)
    ensures BackoffMs(attempts) == Min(BACKOFF_BASE_MS * Pow2(attempts), BACKOFF_CAP_MS)
    ensures BACKOFF_BASE_MS * Pow2(Min(attempts, 40)) < 0x8000_0000_0000_0000
  {
    Pow2Of40();
    Pow2Grows(Min(attempts, 40), 40);
    if attempts > 40 {
      Pow2Grows(40, attempts);
    }
  }
}
