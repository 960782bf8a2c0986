/** When renewal is attempted, and how long what it signs may live. */
module RenewalTiming {
  import opened Fleet
  import opened Renewal

  const SIX_HOURS := 6 * 3600

  /** After a failure the next attempt is 30 to 2159 seconds away. */
  lemma FailureDelay(j: Journal, now: int, spread: nat)
    requires spread < Max(1, Delay(NextFailures(j)) / 5)
    ensures 30 <= Failed(j, now, spread).nextRetry - now <= 2159
  {
  }

  /** A bundle of six hours or more becomes due after it was issued and two hours before it ends. */
  lemma WindowLeavesTwoHours(c: Config, jitter: nat)
    requires c.expiresAt - c.issuedAt >= SIX_HOURS && jitter < 301
    ensures c.issuedAt < WindowStart(c, jitter) <= c.expiresAt - 7200
  {
  }

  function Shortest(descriptors: seq<int>): (least: int)
    requires descriptors != []
    ensures least in descriptors
    ensures forall d :: d in descriptors ==> least <= d
  {
    if |descriptors| == 1 then descriptors[0]
    else
      assert descriptors == [descriptors[0]] + descriptors[1..];
      Min(descriptors[0], Shortest(descriptors[1..]))
  }

  /** What gets signed lives at least six and at most twenty-four hours, and never longer than any
      router descriptor it lists. */
  lemma SignedNeverOutlivesDescriptors(s: System, nonce: seq<int>, descriptors: seq<int>)
    requires Enabled(s, Sign(nonce)) && descriptors != []
    requires s.memory.phase.shortest == Shortest(descriptors)
    ensures var c := Next(s, Sign(nonce)).memory.phase.signed;
            && c.issuedAt == s.clock
            && SIX_HOURS <= c.expiresAt - c.issuedAt <= 24 * 3600
            && forall d :: d in descriptors ==> c.expiresAt <= d
  {
  }

  // ----- The watch loop -----------------------------------------------------------------------

  function MaxReal(a: real, b: real): real { if a < b then b else a }
  function MinReal(a: real, b: real): real { if a < b then a else b }

  /** One turn of `time.sleep(max(5, min(300, nextRetry - now)))`. */
  function Sleep(now: real, nextRetry: int): real {
    MaxReal(5.0, MinReal(300.0, nextRetry as real - now))
  }

  /** The time that is left, but five seconds at least and five minutes at most. */
  lemma SleepIs(now: real, nextRetry: int)
    ensures var left := nextRetry as real - now;
            && (left <= 5.0 ==> Sleep(now, nextRetry) == 5.0)
            && (5.0 <= left <= 300.0 ==> Sleep(now, nextRetry) == left)
            && (300.0 <= left ==> Sleep(now, nextRetry) == 300.0)
  {
  }

  /** The loop wakes and goes back to sleep until the retry time is reached: never before it, and at
      most five seconds after it. */
  method SleepUntilDue(wake: real, nextRetry: int) returns (now: real)
    requires wake < nextRetry as real
    ensures nextRetry as real <= now < nextRetry as real + 5.0
  {
    now := wake;
    while now < nextRetry as real
      invariant now < nextRetry as real + 5.0
      decreases (nextRetry as real - now).Floor + 1000
    {
      now := now + Sleep(now, nextRetry);
    }
  }

  /** Attempt `k + 1` follows a failed attempt `k` that started at `start`. */
  ghost predicate Follows(k: nat, start: real, next: real) {
    exists spread: nat :: Drawn(k, start, next, spread)
  }

  predicate Drawn(k: nat, start: real, next: real, spread: nat) {
    var retry := start.Floor + Delay(Min(8, k + 1)) + spread;
    && spread < Max(1, Delay(Min(8, k + 1)) / 5)
    && retry as real <= next < retry as real + 5.0
  }

  /** That is what the journal of the failed attempt and the watch loop make of it. */
  lemma DrawnIff(k: nat, start: real, next: real, j: Journal, spread: nat)
    requires j.failures == Min(8, k)
    ensures var retry := Failed(j, start.Floor, spread).nextRetry;
            Drawn(k, start, next, spread) <==>
              spread < Max(1, Delay(NextFailures(j)) / 5) && retry as real <= next < retry as real + 5.0
  {
  }

  /** Starts of successive failing attempts of a watched coordinator, from a fresh failure count. */
  ghost predicate Attempts(c: Config, jitter: nat, starts: seq<real>) {
    && |starts| > 0
    && WindowStart(c, jitter) as real <= starts[0] < WindowStart(c, jitter) as real + 5.0
    && forall k :: 0 <= k < |starts| - 1 ==> Follows(k, starts[k], starts[k + 1])
  }

  /** Latest start of attempt `k`, counted from the start of the window. */
  function Latest(k: nat): int {
    if k == 0 then 5
    else Latest(k - 1) + 5 + Delay(Min(8, k)) + Max(1, Delay(Min(8, k)) / 5) - 1
  }

  lemma {:induction false} StartsByLatest(c: Config, jitter: nat, starts: seq<real>, k: nat)
    requires Attempts(c, jitter, starts) && k < |starts|
    ensures starts[k] < (WindowStart(c, jitter) + Latest(k)) as real
  {
    if k > 0 {
      StartsByLatest(c, jitter, starts, k - 1);
      assert Follows(k - 1, starts[k - 1], starts[k - 1 + 1]);
    }
  }

  lemma LatestNinth()
    ensures Latest(8) == 6625
  {
    assert Pow2(0) == 1 && Pow2(1) == 2 && Pow2(2) == 4 && Pow2(3) == 8;
    assert Pow2(4) == 16 && Pow2(5) == 32 && Pow2(6) == 64 && Pow2(7) == 128;
    assert Latest(4) == 561;
    assert Latest(6) == 2297;
  }

  lemma {:induction false} LatestGrows(k: nat, l: nat)
    requires k <= l
    ensures Latest(k) <= Latest(l)
  {
    if k < l {
      LatestGrows(k, l - 1);
      assert Pow2(Min(8, l) - 1) >= 1;
    }
  }

  /** Nine instantly failing attempts start before a bundle of six hours or more expires, however
      the random delays and the sleeping fall out. */
  lemma NineAttemptsBeforeExpiry(c: Config, jitter: nat, starts: seq<real>, k: nat)
    requires c.expiresAt - c.issuedAt >= SIX_HOURS && jitter < 301
    requires Attempts(c, jitter, starts) && k < |starts| && k < 9
    ensures starts[k] < c.expiresAt as real
  {
    WindowLeavesTwoHours(c, jitter);
    StartsByLatest(c, jitter, starts, k);
    LatestNinth();
    LatestGrows(k, 8);
  }
}
