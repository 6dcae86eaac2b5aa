/** The replication queue's retry schedule over whole runs. */
module QueueRuns {
  import opened Prelude
  import opened SiteModel
  import opened Replication
  import opened Cluster
  import opened GcRuns

  /** Step j puts off the entry of h at s. */
  ghost predicate DefersAt(steps: seq<Step>, j: nat, s: SiteId, h: Hash) {
    j < |steps| && steps[j].at == s && steps[j].action.DrainDefer? && steps[j].action.h == h
  }

  /** How often the entry of h was put off in steps [k, i). */
  ghost function Deferrals(steps: seq<Step>, s: SiteId, h: Hash, k: nat, i: nat): nat {
    if i <= k then 0
    else Deferrals(steps, s, h, k, i - 1) + if DefersAt(steps, i - 1, s, h) then 1 else 0
  }

  lemma RowStep(cfg: Config, c: Mesh, step: Step, c': Mesh, s: SiteId, h: Hash)
    requires Next(cfg, c, step, c') && s in c && h in c'[s].site.backlog.queue
    ensures var queue, row' := c[s].site.backlog.queue, c'[s].site.backlog.queue[h];
            if h !in queue then row'.attempts == 0 && row'.nextAttemptAt == 0
            else if DefersAt([step], 0, s, h) then row' == Deferred(queue, h, step.action.now)[h]
            else row' == queue[h]
  {
  }

  lemma RowStepAt(cfg: Config, states: seq<Mesh>, steps: seq<Step>, j: nat, s: SiteId, h: Hash)
    requires IsRun(cfg, states, steps) && j < |steps| && Present(states, s) && h in states[j + 1][s].site.backlog.queue
    ensures var queue, row' := states[j][s].site.backlog.queue, states[j + 1][s].site.backlog.queue[h];
            if h !in queue then row'.attempts == 0 && row'.nextAttemptAt == 0
            else if DefersAt(steps, j, s, h) then
              row'.attempts == queue[h].attempts + 1
              && row'.nextAttemptAt == steps[j].action.now + BackoffMs(queue[h].attempts)
            else row' == queue[h]
  {
    assert StepAt(cfg, states, steps, j);
    RowStep(cfg, states[j], steps[j], states[j + 1], s, h);
  }

  /** An entry queued at step k has been tried and put off as many times as it says, and its next attempt is
      the last deferral's clock plus min(base * 2^(n - 1), cap) for its n-th failure. */
  lemma {:induction false} AttemptsAreDeferrals(cfg: Config, states: seq<Mesh>, steps: seq<Step>, i: nat, s: SiteId,
                                                h: Hash)
    returns (k: nat, last: nat)
    requires IsRun(cfg, states, steps) && i < |states| && s in states[i] && h in states[i][s].site.backlog.queue
    ensures Present(states, s)
    ensures k < i && h !in states[k][s].site.backlog.queue
    ensures forall j :: k < j <= i ==> h in states[j][s].site.backlog.queue
    ensures var row := states[i][s].site.backlog.queue[h];
            && row.attempts == Deferrals(steps, s, h, k + 1, i)
            && (if row.attempts == 0 then row.nextAttemptAt == 0
                else && k < last < i && DefersAt(steps, last, s, h)
                     && (forall j :: last < j < i ==> !DefersAt(steps, j, s, h))
                     && row.nextAttemptAt == steps[last].action.now
                                             + Min(BACKOFF_BASE_MS * Pow2(row.attempts - 1), BACKOFF_CAP_MS))
  {
    PresentThroughout(cfg, states, steps, i, s);
    if i == 0 {
      assert false;
    } else {
      RowStepAt(cfg, states, steps, i - 1, s, h);
      if h !in states[i - 1][s].site.backlog.queue {
        k, last := i - 1, i - 1;
      } else {
        k, last := AttemptsAreDeferrals(cfg, states, steps, i - 1, s, h);
        if DefersAt(steps, i - 1, s, h) {
          BackoffIsCappedDoubling(states[i - 1][s].site.backlog.queue[h].attempts);
          last := i - 1;
        }
      }
    }
  }
}
