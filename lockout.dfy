/**
 * The brute-force lockout of the admin page: one attempt record per client
 * address, counting failures inside a window and locking the address once
 * the count reaches a threshold. Timestamps are integer milliseconds; each
 * request reads the clock once and passes that reading as `now`.
 */
module Lockout {
  import opened Wrappers

  /** The record `{fails, first, lockUntil}` kept for one address. */
  datatype Attempt = Attempt(fails: nat, first: int, lockUntil: int)

  /** MAX_FAILS, WINDOW_MS and LOCK_MS. */
  datatype Policy = Policy(maxFails: int, windowMs: int, lockMs: int)

  /** The values used when the environment does not override them. */
  const DefaultPolicy := Policy(8, 15 * 60 * 1000, 30 * 60 * 1000)

  /** `authAttempts.get(ip)`. */
  function Lookup(table: map<string, Attempt>, ip: string): (r: Option<Attempt>)
    ensures r.Some? <==> ip in table
    ensures r.Some? ==> r.value == table[ip]
  {
    if ip in table then Some(table[ip]) else None
  }

  /** A failure starts a fresh record: none exists, or its window has expired. */
  function Restarts(prior: Option<Attempt>, now: int, policy: Policy): (b: bool)
    ensures prior.None? ==> b
    ensures prior.Some? && now - prior.value.first <= policy.windowMs ==> !b
  {
    prior.None? || now - prior.value.first > policy.windowMs
  }

  /**
   * The record registerFail leaves for an address whose record was `prior`:
   * a fresh or expired record restarts at one failure with the window opening
   * now and no lock; otherwise the count grows by one inside the same window.
   * Reaching the threshold (re)sets the lock to end LOCK_MS from now; below
   * it the lock is the one the record already had (none after a restart).
   */
  function AfterFail(prior: Option<Attempt>, now: int, policy: Policy): (e: Attempt)
    ensures Restarts(prior, now, policy) ==> e.fails == 1 && e.first == now
    ensures !Restarts(prior, now, policy) ==>
      e.fails == prior.value.fails + 1 && e.first == prior.value.first
    ensures e.fails >= policy.maxFails ==> e.lockUntil == now + policy.lockMs
    ensures e.fails < policy.maxFails ==>
      e.lockUntil == if Restarts(prior, now, policy) then 0 else prior.value.lockUntil
  {
    var entry := if prior.Some? then prior.value else Attempt(0, now, 0);
    var entry := if now - entry.first > policy.windowMs then Attempt(0, now, 0) else entry;
    var entry := entry.(fails := entry.fails + 1);
    if entry.fails >= policy.maxFails then entry.(lockUntil := now + policy.lockMs) else entry
  }

  /** The lock check of requireAdmin: a non-zero lockUntil that lies in the future. */
  function IsLocked(entry: Option<Attempt>, now: int): (b: bool)
    ensures b ==> entry.Some? && entry.value.lockUntil > now
    ensures now >= 0 && entry.Some? && entry.value.lockUntil > now ==> b
  {
    entry.Some? && entry.value.lockUntil != 0 && entry.value.lockUntil > now
  }

  /** `Math.ceil((lockUntil - now) / 1000)`: the whole seconds, rounded up, until the lock ends. */
  function RetryAfterSeconds(lockUntil: int, now: int): (r: int)
    requires lockUntil > now
    ensures r > 0
    ensures (r - 1) * 1000 < lockUntil - now <= r * 1000
  {
    (lockUntil - now + 999) / 1000
  }

  /** `Math.max(0, MAX_FAILS - fails)`: the attempts left before the lock. */
  function Remaining(policy: Policy, fails: nat): (r: nat)
    ensures r == 0 <==> fails >= policy.maxFails
    ensures r > 0 ==> fails + r == policy.maxFails
  {
    if policy.maxFails - fails > 0 then policy.maxFails - fails else 0
  }

  /** The failure reported with no attempt left is the one that locks the address. */
  lemma NoneRemainingMeansLocked(prior: Option<Attempt>, now: int, policy: Policy)
    requires now >= 0 && policy.lockMs > 0
    ensures var e := AfterFail(prior, now, policy);
      Remaining(policy, e.fails) == 0 ==> e.lockUntil == now + policy.lockMs && IsLocked(Some(e), now)
  {
  }

  /** registerSuccess deletes the record, so the next failure counts from one again. */
  lemma {:induction false} SuccessRestartsCount(table: map<string, Attempt>, ip: string, now: int, policy: Policy)
    ensures Lookup(table - {ip}, ip) == None
    ensures AfterFail(Lookup(table - {ip}, ip), now, policy).fails == 1
    ensures AfterFail(Lookup(table - {ip}, ip), now, policy).first == now
  {
  }

  /** Repeated registerFail calls for one address, at the given times. */
  function FailSeries(prior: Option<Attempt>, times: seq<int>, policy: Policy): (r: Option<Attempt>)
    ensures times != [] ==> r.Some?
    decreases |times|
  {
    if times == [] then prior
    else FailSeries(Some(AfterFail(prior, times[0], policy)), times[1..], policy)
  }

  /**
   * Failures that all fall inside the window opened by `prior` add up one by
   * one; the window start is kept; once the count reaches the threshold the
   * lock ends LOCK_MS after the last failure.
   */
  lemma {:induction false} FailuresAccumulate(prior: Attempt, times: seq<int>, policy: Policy)
    requires forall i :: 0 <= i < |times| ==> times[i] - prior.first <= policy.windowMs
    ensures var r := FailSeries(Some(prior), times, policy);
      && r.Some?
      && r.value.fails == prior.fails + |times|
      && r.value.first == prior.first
      && (times != [] && r.value.fails >= policy.maxFails ==>
            r.value.lockUntil == times[|times| - 1] + policy.lockMs)
      && (r.value.fails < policy.maxFails ==> r.value.lockUntil == prior.lockUntil)
    decreases |times|
  {
    if times != [] {
      var next := AfterFail(Some(prior), times[0], policy);
      assert !Restarts(Some(prior), times[0], policy);
      var rest := times[1..];
      forall i | 0 <= i < |rest| ensures rest[i] - next.first <= policy.windowMs {
        assert rest[i] == times[i + 1];
      }
      FailuresAccumulate(next, rest, policy);
      if rest != [] {
        assert rest[|rest| - 1] == times[|times| - 1];
      }
    }
  }

  /**
   * From no record, n failures within the window opened by the first one
   * leave a count of n; n at or above the threshold leave the address locked
   * until LOCK_MS after the last failure.
   */
  lemma {:induction false} ConsecutiveFailuresLock(times: seq<int>, policy: Policy)
    requires times != []
    requires forall i :: 0 <= i < |times| ==> times[i] - times[0] <= policy.windowMs
    ensures var r := FailSeries(None, times, policy);
      && r.Some?
      && r.value.fails == |times|
      && r.value.first == times[0]
      && (|times| >= policy.maxFails ==> r.value.lockUntil == times[|times| - 1] + policy.lockMs)
      && (|times| < policy.maxFails ==> r.value.lockUntil == 0)
  {
    var first := AfterFail(None, times[0], policy);
    var rest := times[1..];
    forall i | 0 <= i < |rest| ensures rest[i] - first.first <= policy.windowMs {
      assert rest[i] == times[i + 1];
    }
    FailuresAccumulate(first, rest, policy);
    if rest != [] {
      assert rest[|rest| - 1] == times[|times| - 1];
    }
  }

  /**
   * A failure registered after the window has expired restarts the record
   * and, below a threshold of two, drops a lock that was still running.
   */
  lemma ExpiredWindowDropsLock(e: Attempt, now: int, policy: Policy)
    requires IsLocked(Some(e), now)
    requires now - e.first > policy.windowMs
    requires policy.maxFails > 1
    ensures AfterFail(Some(e), now, policy) == Attempt(1, now, 0)
    ensures !IsLocked(Some(AfterFail(Some(e), now, policy)), now)
  {
  }

  /**
   * With the default settings, eight failures within fifteen minutes lock
   * the address for thirty minutes after the eighth; seven leave it unlocked.
   */
  lemma DefaultPolicyLocksAfterEight(times: seq<int>)
    requires 7 <= |times| <= 8
    requires forall i :: 0 <= i < |times| ==> times[i] - times[0] <= 15 * 60 * 1000
    ensures var r := FailSeries(None, times, DefaultPolicy);
      && r.Some?
      && (|times| == 8 ==> r.value.fails == 8 && r.value.lockUntil == times[7] + 30 * 60 * 1000)
      && (|times| == 7 ==> !IsLocked(r, times[6]))
  {
    ConsecutiveFailuresLock(times, DefaultPolicy);
  }
}
