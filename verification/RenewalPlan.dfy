/** When the next renewal is planned, in every state of every run. */
module RenewalPlan {
  import opened Fleet
  import opened Renewal
  import opened RenewalSafety

  /** A bundle is to be renewed a third of its life before its end, though not less than ten minutes and
      not more than six hours before, and `jitter` seconds earlier. */
  predicate OpensAt(c: Config, jitter: nat, at: int) {
    var third := (c.expiresAt - c.issuedAt) / 3;
    && (third <= 600 ==> at == c.expiresAt - 600 - jitter)
    && (600 <= third <= 21600 ==> at == c.expiresAt - third - jitter)
    && (21600 <= third ==> at == c.expiresAt - 21600 - jitter)
  }

  lemma WindowIs(c: Config, jitter: nat, at: int)
    ensures OpensAt(c, jitter, at) <==> at == WindowStart(c, jitter)
  {
  }

  /** A journal that calls `c` complete has drawn its jitter in range and plans for `c`. */
  predicate Plans(j: Journal, c: Config) {
    j.jitter <= 300 && (j.complete ==> OpensAt(c, j.jitter, j.windowStart))
  }

  ghost predicate PlanInv(s: System) {
    && (s.journal.Some? ==>
          s.journal.value.currentGeneration in s.store
          && Plans(s.journal.value, s.store[s.journal.value.currentGeneration]))
    && (s.memory.Active? ==> Plans(s.memory.journal, s.memory.tip))
  }

  lemma PlansAnew(c: Config, j: Journal, k: Journal)
    requires j.jitter <= 300 && k.jitter == j.jitter && k.windowStart == WindowStart(c, j.jitter)
    ensures Plans(k, c)
  {
    WindowIs(c, k.jitter, k.windowStart);
  }

  lemma StepKeepsPlan(s: System, a: Action)
    requires Inv(s) && Enabled(s, a) && PlanInv(s)
    ensures PlanInv(Next(s, a))
  {
    if a.Load? {
      var j := LoadedJournal(s, a.jitter);
      PlansAnew(s.store[CurrentGeneration(s)], j, j);
    } else if a.Complete? {
      PlansAnew(s.memory.tip, s.memory.journal, Completed(s.memory.journal, s.memory.tip));
    }
  }

  lemma {:induction false} RunKeepsPlan(trace: seq<System>, i: nat)
    requires IsRun(trace) && Initial(trace[0]) && i < |trace|
    ensures PlanInv(trace[i])
  {
    if i > 0 {
      RunKeepsPlan(trace, i - 1);
      InitialHasInv(trace[0]);
      RunKeepsInv(trace, i - 1);
      assert Step(trace[i - 1], trace[i - 1 + 1]);
      var a :| Enabled(trace[i - 1], a) && trace[i] == Next(trace[i - 1], a);
      StepKeepsPlan(trace[i - 1], a);
    }
  }

  /** In no run is a bundle succeeded before its window has opened, unless it has expired. */
  lemma SignedOnlyWhenDue(trace: seq<System>, i: nat, nonce: seq<int>) returns (opening: int)
    requires IsRun(trace) && Initial(trace[0]) && i < |trace| && Enabled(trace[i], Sign(nonce))
    ensures var m := trace[i].memory;
            && OpensAt(m.tip, m.journal.jitter, opening) && m.journal.jitter <= 300
            && ((m.journal.complete && opening <= m.now) || m.tip.expiresAt <= m.now)
  {
    RunKeepsPlan(trace, i);
    var m := trace[i].memory;
    opening := WindowStart(m.tip, m.journal.jitter);
    WindowIs(m.tip, m.journal.jitter, opening);
    if m.journal.complete { WindowIs(m.tip, m.journal.jitter, m.journal.windowStart); }
  }

  /** From six hours of life on, the plan lies behind the issue and two hours before the end. */
  lemma OpensInTime(c: Config, jitter: nat, at: int)
    requires c.expiresAt - c.issuedAt >= 6 * 3600 && jitter <= 300 && OpensAt(c, jitter, at)
    ensures c.issuedAt < at <= c.expiresAt - 2 * 3600
  {
  }

  /** Every later load opens the window at the same time, whatever it draws. */
  ghost predicate PlannedAgain(s: System)
    requires Loadable(s) && s.journal.Some?
  {
    forall drawn: nat :: LoadedJournal(s, drawn).windowStart == s.journal.value.windowStart
  }

  /** The first eight failures in a row, and all further ones as the eighth, wait this long. */
  const DELAYS: seq<int> := [30, 60, 120, 240, 480, 960, 1800, 1800]

  /** The failure is counted, and the next attempt is a delay and a random fifth of it away. */
  predicate Retries(failures: nat, now: int, j: Journal) {
    && 1 <= j.failures <= 8 && (failures < 8 ==> j.failures == failures + 1) && (failures >= 8 ==> j.failures == 8)
    && DELAYS[j.failures - 1] <= j.nextRetry - now < DELAYS[j.failures - 1] + DELAYS[j.failures - 1] / 5
  }

  /** A number drawn in range is added as it is. */
  predicate RetriesAt(now: int, spread: nat, j: Journal) {
    1 <= j.failures <= 8 && (spread < DELAYS[j.failures - 1] / 5 ==> j.nextRetry == now + DELAYS[j.failures - 1] + spread)
  }

  lemma DelayIs(f: nat)
    requires 1 <= f <= 8
    ensures Delay(f) == DELAYS[f - 1]
  {
    assert Pow2(0) == 1 && Pow2(1) == 2 && Pow2(2) == 4 && Pow2(3) == 8;
    assert Pow2(4) == 16 && Pow2(5) == 32 && Pow2(6) == 64 && Pow2(7) == 128;
  }

  lemma FailedRetries(j: Journal, now: int, spread: nat)
    requires spread < Max(1, Delay(NextFailures(j)) / 5)
    ensures Retries(j.failures, now, Failed(j, now, spread))
    ensures RetriesAt(now, spread, Failed(j, now, spread))
    ensures Max(1, Delay(NextFailures(j)) / 5) == DELAYS[Failed(j, now, spread).failures - 1] / 5
  {
    DelayIs(NextFailures(j));
  }

  lemma Remainder(n: nat, limit: int)
    requires limit >= 1
    ensures 0 <= n % limit < limit && (n < limit ==> n % limit == n)
  {
  }

  /** The draw of the except block, whatever number it starts from. */
  lemma DrawnRetries(j: Journal, now: int, spread: nat, limit: int)
    requires limit == Max(1, Delay(NextFailures(j)) / 5)
    ensures 0 <= spread % limit < limit
    ensures Retries(j.failures, now, Failed(j, now, spread % limit))
    ensures RetriesAt(now, spread, Failed(j, now, spread % limit))
  {
    Remainder(spread, limit);
    FailedRetries(j, now, spread % limit);
  }
}
