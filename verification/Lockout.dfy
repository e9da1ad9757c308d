/** Login lockout: a failure counter per email, and a lock written when it reaches the maximum. */
module Lockout {
  import opened Types
  import opened Counters

  /** `max` attempts, and a lockout in milliseconds that also sets the counter's window. */
  datatype Policy = Policy(max: int, lockout: nat)

  datatype Guard = Guard(fails: Counts, locks: map<string, Time>)

  const NO_GUARD: Guard := Guard(map[], map[])

  predicate Locked(g: Guard, email: string, now: Time)
  {
    email in g.locks && now < g.locks[email]
  }

  /** A count from which RecordFailure writes the lock; a maximum below one acts like one. */
  function Threshold(policy: Policy): nat
  {
    if policy.max < 1 then 1 else policy.max
  }

  function Record(g: Guard, policy: Policy, email: string, now: Time, incr: Fault, lock: Fault): Guard
  {
    if !incr.Applied() then g
    else
      var c := Hit(g.fails, email, policy.lockout, now);
      Guard(g.fails[email := c],
            if incr.NoFault? && c.count >= policy.max && lock.Applied()
            then g.locks[email := now + policy.lockout] else g.locks)
  }

  function Forget(g: Guard, email: string): Guard
  {
    Guard(g.fails - {email}, g.locks - {email})
  }

  /**
   * One Login as far as the guard sees it: whether the credentials were right, and what became of
   * the lock check (or the user lookup), the counter script, the lock write and the clearing.
   */
  datatype Attempt = Attempt(email: string, now: Time, good: bool, check: Fault, incr: Fault, lock: Fault, clear: Fault)

  /** The attempt gets past the lock check. */
  predicate Admitted(g: Guard, a: Attempt)
  {
    a.check.NoFault? && !Locked(g, a.email, a.now)
  }

  function Try(g: Guard, policy: Policy, a: Attempt): Guard
  {
    if !Admitted(g, a) then g
    else if a.good then (if a.clear.Applied() then Forget(g, a.email) else g)
    else Record(g, policy, a.email, a.now, a.incr, a.lock)
  }

  /** The attempt adds a failure for `email`. */
  predicate Records(g: Guard, a: Attempt, email: string)
  {
    a.email == email && Admitted(g, a) && !a.good && a.incr.Applied()
  }

  /** The attempt adds a failure at or above the maximum, and no lock is written. */
  predicate Misses(g: Guard, policy: Policy, a: Attempt, email: string)
  {
    && Records(g, a, email)
    && Hit(g.fails, email, policy.lockout, a.now).count >= policy.max
    && !(a.incr.NoFault? && a.lock.Applied())
  }

  predicate Clears(g: Guard, a: Attempt, email: string)
  {
    a.email == email && Admitted(g, a) && a.good && a.clear.Applied()
  }

  function AfterTries(g: Guard, policy: Policy, tries: seq<Attempt>): Guard
    decreases |tries|
  {
    if tries == [] then g else AfterTries(Try(g, policy, tries[0]), policy, tries[1..])
  }

  lemma {:induction false} TriesSnoc(g: Guard, policy: Policy, tries: seq<Attempt>, a: Attempt)
    ensures AfterTries(g, policy, tries + [a]) == Try(AfterTries(g, policy, tries), policy, a)
    decreases |tries|
  {
    if tries == [] {
      assert [] + [a] == [a] && [a][1..] == [];
    } else {
      assert (tries + [a])[0] == tries[0] && (tries + [a])[1..] == tries[1..] + [a];
      TriesSnoc(Try(g, policy, tries[0]), policy, tries[1..], a);
    }
  }

  function Recorded(g: Guard, policy: Policy, tries: seq<Attempt>, email: string): nat
    decreases |tries|
  {
    if tries == [] then 0
    else
      var rest := Recorded(Try(g, policy, tries[0]), policy, tries[1..], email);
      if Records(g, tries[0], email) then rest + 1 else rest
  }

  function Missed(g: Guard, policy: Policy, tries: seq<Attempt>, email: string): nat
    decreases |tries|
  {
    if tries == [] then 0
    else
      var rest := Missed(Try(g, policy, tries[0]), policy, tries[1..], email);
      if Misses(g, policy, tries[0], email) then rest + 1 else rest
  }

  predicate NeverClears(g: Guard, policy: Policy, tries: seq<Attempt>, email: string)
    decreases |tries|
  {
    tries == [] || (!Clears(g, tries[0], email) && NeverClears(Try(g, policy, tries[0]), policy, tries[1..], email))
  }

  ghost predicate Within(tries: seq<Attempt>, email: string, from: Time, to: Time)
  {
    forall i | 0 <= i < |tries| && tries[i].email == email :: from <= tries[i].now < to
  }

  ghost predicate InTime(tries: seq<Attempt>, now: Time)
  {
    && (forall i | 0 <= i < |tries| :: tries[i].now <= now)
    && (forall i, j | 0 <= i < j < |tries| :: tries[i].now <= tries[j].now)
  }

  // ---- how many failures fit in one window ---------------------------------------------------------

  /** Failures the open counter can still take before it reaches the maximum. */
  function Below(g: Guard, policy: Policy, email: string): nat
  {
    if email in g.fails && g.fails[email].count < Threshold(policy) then Threshold(policy) - 1 - g.fails[email].count
    else 0
  }

  lemma BelowBounded(g: Guard, policy: Policy, email: string)
    ensures Below(g, policy, email) <= if Threshold(policy) == 1 then 0 else Threshold(policy) - 2
  {
  }

  /**
   * If no lock can be written before `free`, and at most `slots` can between then and `to`, and the same
   * for `next` and `windows` and new counter windows: every failure is one below the maximum of some
   * window, or writes a lock, or misses its lock.
   */
  lemma {:induction false} RecordedWithin(g: Guard, policy: Policy, tries: seq<Attempt>, email: string,
                                          from: Time, to: Time, free: Time, slots: nat, next: Time, windows: nat)
    requires policy.lockout > 0 && Within(tries, email, from, to) && NeverClears(g, policy, tries, email)
    requires to <= free + Steps(slots, policy.lockout)
    requires free <= from || (email in g.locks && free <= g.locks[email])
    requires to <= next + Steps(windows, WholeSeconds(policy.lockout))
    requires next <= from || (email in g.fails && next <= g.fails[email].expires)
    ensures Recorded(g, policy, tries, email)
         <= Missed(g, policy, tries, email) + slots + Below(g, policy, email) + Steps(windows, Threshold(policy) - 1)
    decreases |tries|
  {
    if tries == [] {
    } else {
      var a, rest := tries[0], tries[1..];
      var g' := Try(g, policy, a);
      var free', slots', next', windows' := free, slots, next, windows;
      assert Within(rest, email, from, to);
      if Records(g, a, email) {
        if !LiveCount(g.fails, email, a.now) {
          next', windows' := a.now + WholeSeconds(policy.lockout), windows - 1;
        }
        if g'.fails[email].count >= Threshold(policy) && !Misses(g, policy, a, email) {
          free', slots' := a.now + policy.lockout, slots - 1;
        }
      }
      RecordedWithin(g', policy, rest, email, from, to, free', slots', next', windows');
    }
  }

  /**
   * Whatever happened before, and however short the lockout: the failures recorded for one email in a
   * half-open interval of length `span`, with no successful login among them, are at most one for each
   * lock that fits, max - 1 for each counter window that can open, what the open window still takes
   * below the maximum, and the failures whose lock write was lost.
   */
  lemma FailuresBounded(policy: Policy, before: seq<Attempt>, tries: seq<Attempt>, email: string, from: Time, span: nat)
    requires policy.lockout > 0 && Within(tries, email, from, from + span)
    requires NeverClears(AfterTries(NO_GUARD, policy, before), policy, tries, email)
    ensures var g := AfterTries(NO_GUARD, policy, before);
            Recorded(g, policy, tries, email)
            <= Missed(g, policy, tries, email) + CeilDiv(span, policy.lockout) + Below(g, policy, email)
               + Steps(CeilDiv(span, WholeSeconds(policy.lockout)), Threshold(policy) - 1)
  {
    var slots, windows := CeilDiv(span, policy.lockout), CeilDiv(span, WholeSeconds(policy.lockout));
    CeilDivCovers(span, policy.lockout);
    CeilDivCovers(span, WholeSeconds(policy.lockout));
    RecordedWithin(AfterTries(NO_GUARD, policy, before), policy, tries, email, from, from + span,
                   from, slots, from, windows);
  }

  lemma OneFits(a: nat, b: nat)
    requires 0 < a <= b
    ensures CeilDiv(a, b) == 1
  {
  }

  lemma TwoFit(a: nat, b: nat)
    requires 0 < a <= 2 * b
    ensures CeilDiv(a, b) <= 2
  {
  }

  /** For a lockout of a second or more, and an interval as long as the counter window: 2 * max - 2, or 1 if max is 1. */
  lemma WindowFailuresBounded(policy: Policy, before: seq<Attempt>, tries: seq<Attempt>, email: string, from: Time)
    requires SECOND <= policy.lockout && Within(tries, email, from, from + WholeSeconds(policy.lockout))
    requires NeverClears(AfterTries(NO_GUARD, policy, before), policy, tries, email)
    ensures var g := AfterTries(NO_GUARD, policy, before);
            Recorded(g, policy, tries, email)
            <= Missed(g, policy, tries, email) + if Threshold(policy) == 1 then 1 else 2 * Threshold(policy) - 2
  {
    WholeSecondsBounds(policy.lockout);
    OneFits(WholeSeconds(policy.lockout), policy.lockout);
    OneFits(WholeSeconds(policy.lockout), WholeSeconds(policy.lockout));
    BelowBounded(AfterTries(NO_GUARD, policy, before), policy, email);
    FailuresBounded(policy, before, tries, email, from, WholeSeconds(policy.lockout));
  }

  // ---- what a lock takes, and when it ends ----------------------------------------------------------------

  /** From a guard that holds nothing against an email, fewer failures than the maximum never lock it. */
  lemma {:induction false} FewFailuresNeverLock(g: Guard, policy: Policy, tries: seq<Attempt>, email: string)
    requires email !in g.locks
    requires (if email in g.fails then g.fails[email].count else 0) + Recorded(g, policy, tries, email) < policy.max
    ensures email !in AfterTries(g, policy, tries).locks
    decreases |tries|
  {
    if tries == [] {
    } else {
      FewFailuresNeverLock(Try(g, policy, tries[0]), policy, tries[1..], email);
    }
  }

  /** A successful login whose clearing takes effect starts the count anew: max - 1 more failures do not lock. */
  lemma SuccessStartsAnew(g: Guard, policy: Policy, a: Attempt, tries: seq<Attempt>)
    requires a.good && a.check.NoFault? && !(a.email in g.locks && a.now < g.locks[a.email]) && !a.clear.Refused?
    requires Recorded(Try(g, policy, a), policy, tries, a.email) < policy.max
    ensures a.email !in AfterTries(Try(g, policy, a), policy, tries).locks
  {
    FewFailuresNeverLock(Try(g, policy, a), policy, tries, a.email);
  }

  /** No lock lasts longer than the lockout: `lockout` after the last attempt nobody is locked. */
  lemma {:induction false} LocksEnd(g: Guard, policy: Policy, tries: seq<Attempt>, end: Time, email: string)
    requires forall i | 0 <= i < |tries| :: tries[i].now <= end
    requires email in g.locks ==> g.locks[email] <= end + policy.lockout
    ensures var g' := AfterTries(g, policy, tries); email in g'.locks ==> g'.locks[email] <= end + policy.lockout
    decreases |tries|
  {
    if tries == [] {
    } else {
      LocksEnd(Try(g, policy, tries[0]), policy, tries[1..], end, email);
    }
  }

  // ---- how often the bound is reached ------------------------------------------------------------------

  function Failure(email: string, now: Time): Attempt
  {
    Attempt(email, now, false, NoFault, NoFault, NoFault, NoFault)
  }

  function Repeated(email: string, now: Time, n: nat): seq<Attempt>
  {
    seq(n, _ => Failure(email, now))
  }

  function LiveFails(g: Guard, email: string, now: Time): nat
  {
    if LiveCount(g.fails, email, now) then g.fails[email].count else 0
  }

  /** The guard after `n` failures at one moment that do not exceed the maximum. */
  function Burnt(g: Guard, policy: Policy, email: string, now: Time, n: nat): Guard
  {
    if n == 0 then g
    else
      var count := LiveFails(g, email, now) + n;
      var expires := if LiveCount(g.fails, email, now) then g.fails[email].expires else now + WholeSeconds(policy.lockout);
      Guard(g.fails[email := Counter(count, expires)],
            if count >= policy.max then g.locks[email := now + policy.lockout] else g.locks)
  }

  lemma BurntSplit(g: Guard, policy: Policy, email: string, now: Time, n: nat)
    requires policy.lockout > 0 && n > 1 && !Locked(g, email, now) && LiveFails(g, email, now) + n <= Threshold(policy)
    ensures var g1 := Burnt(g, policy, email, now, 1);
            && !Locked(g1, email, now) && LiveFails(g1, email, now) == LiveFails(g, email, now) + 1
            && Burnt(g1, policy, email, now, n - 1) == Burnt(g, policy, email, now, n)
  {
    assert Burnt(g, policy, email, now, 1).locks == g.locks;
  }

  /** One failure, up to and including the one that reaches the maximum. */
  lemma Fails(g: Guard, policy: Policy, email: string, now: Time, rest: seq<Attempt>)
    requires policy.lockout > 0 && !Locked(g, email, now)
    ensures var tries, g' := [Failure(email, now)] + rest, Burnt(g, policy, email, now, 1);
            && Recorded(g, policy, tries, email) == 1 + Recorded(g', policy, rest, email)
            && AfterTries(g, policy, tries) == AfterTries(g', policy, rest)
            && (NeverClears(g, policy, tries, email) <==> NeverClears(g', policy, rest, email))
            && (forall other :: Missed(g, policy, tries, other) == Missed(g', policy, rest, other))
  {
    var tries := [Failure(email, now)] + rest;
    assert tries[1..] == rest;
    assert Try(g, policy, tries[0]) == Burnt(g, policy, email, now, 1);
  }

  /** Failures at one moment, none of them faulty, all count until the maximum is reached. */
  lemma {:induction false} Burst(g: Guard, policy: Policy, email: string, now: Time, n: nat, rest: seq<Attempt>)
    requires policy.lockout > 0 && !Locked(g, email, now) && LiveFails(g, email, now) + n <= Threshold(policy)
    ensures var tries, g' := Repeated(email, now, n) + rest, Burnt(g, policy, email, now, n);
            && Recorded(g, policy, tries, email) == n + Recorded(g', policy, rest, email)
            && AfterTries(g, policy, tries) == AfterTries(g', policy, rest)
            && (NeverClears(g, policy, tries, email) <==> NeverClears(g', policy, rest, email))
            && (forall other :: Missed(g, policy, tries, other) == Missed(g', policy, rest, other))
    decreases n
  {
    if n == 0 {
      assert Repeated(email, now, n) + rest == rest;
    } else {
      var others := Repeated(email, now, n - 1) + rest;
      assert Repeated(email, now, n) + rest == [Failure(email, now)] + others;
      Fails(g, policy, email, now, others);
      if n > 1 {
        BurntSplit(g, policy, email, now, n);
        Burst(Burnt(g, policy, email, now, 1), policy, email, now, n - 1, rest);
      } else {
        assert others == rest;
      }
    }
  }

  /** The run, in order and from the first attempt ever on, keeps to 2 * max - 1 failures in one counter window. */
  ghost predicate KeepsTo(policy: Policy, before: seq<Attempt>, tries: seq<Attempt>, email: string, from: Time)
  {
    var g := AfterTries(NO_GUARD, policy, before);
    && InTime(before + tries, from + WholeSeconds(policy.lockout))
    && Within(tries, email, from, from + WholeSeconds(policy.lockout))
    && NeverClears(g, policy, tries, email)
    ==>
      Recorded(g, policy, tries, email) <= 2 * Threshold(policy) - 1 + Missed(g, policy, tries, email)
  }

  lemma OneTooManyAtOnce(policy: Policy)
    requires 0 < policy.lockout < SECOND && Threshold(policy) == 1
    ensures !KeepsTo(policy, [], [Failure("a", 0), Failure("a", policy.lockout)], "a", 0)
  {
    var last := [Failure("a", policy.lockout)];
    Burst(NO_GUARD, policy, "a", 0, 1, last);
    assert Repeated("a", 0, 1) + last == [Failure("a", 0), Failure("a", policy.lockout)];
    Fails(Burnt(NO_GUARD, policy, "a", 0, 1), policy, "a", policy.lockout, []);
    assert last + [] == last;
  }

  /** max - 2 failures at the end of one counter, max at the start of the next, and two more after the locks. */
  function Straddling(policy: Policy): seq<Attempt>
    requires Threshold(policy) >= 2
  {
    Repeated("a", 999, Threshold(policy) - 2) + (Repeated("a", 1000, Threshold(policy)) + AfterLocks(policy))
  }

  function AfterLocks(policy: Policy): seq<Attempt>
  {
    [Failure("a", 1000 + policy.lockout)] + ([Failure("a", 1000 + 2 * policy.lockout)] + [])
  }

  lemma AfterLocksCount(g: Guard, policy: Policy)
    requires 0 < policy.lockout < SECOND / 2
    requires g.fails == map["a" := Counter(Threshold(policy), 2000)] && g.locks == map["a" := 1000 + policy.lockout]
    ensures Recorded(g, policy, AfterLocks(policy), "a") == 2 && Missed(g, policy, AfterLocks(policy), "a") == 0
    ensures NeverClears(g, policy, AfterLocks(policy), "a")
  {
    var l := policy.lockout;
    Fails(g, policy, "a", 1000 + l, [Failure("a", 1000 + 2 * l)] + []);
    Fails(Burnt(g, policy, "a", 1000 + l, 1), policy, "a", 1000 + 2 * l, []);
  }

  lemma StraddlingCount(g: Guard, policy: Policy)
    requires 0 < policy.lockout < SECOND / 2 && Threshold(policy) >= 2
    requires g == Guard(map["a" := Counter(1, 1000)], map[])
    ensures var tries := Straddling(policy);
            && Recorded(g, policy, tries, "a") == 2 * Threshold(policy) && Missed(g, policy, tries, "a") == 0
            && NeverClears(g, policy, tries, "a")
  {
    var max := Threshold(policy);
    var g1 := Burnt(g, policy, "a", 999, max - 2);
    Burst(g, policy, "a", 999, max - 2, Repeated("a", 1000, max) + AfterLocks(policy));
    Burst(g1, policy, "a", 1000, max, AfterLocks(policy));
    AfterLocksCount(Burnt(g1, policy, "a", 1000, max), policy);
  }

  lemma OneTooManyAcross(policy: Policy)
    requires 0 < policy.lockout < SECOND / 2 && Threshold(policy) >= 2
    ensures !KeepsTo(policy, [Failure("a", 0)], Straddling(policy), "a", 999)
  {
    assert WholeSeconds(policy.lockout) == SECOND;
    Fails(NO_GUARD, policy, "a", 0, []);
    assert [Failure("a", 0)] + [] == [Failure("a", 0)];
    StraddlingCount(Burnt(NO_GUARD, policy, "a", 0, 1), policy);
  }

  /**
   * No run has more than 2 * max - 1 failures in one counter window, missed lock writes aside, exactly if
   * the lockout is at least a second, or at least half a second where max is 2 or more: below that, enough
   * locks expire within the counter's window, which is never shorter than a second.
   */
  lemma FailuresKeepIff(policy: Policy)
    requires policy.lockout > 0
    ensures (forall before, tries, email, from :: KeepsTo(policy, before, tries, email, from))
            <==> policy.lockout >= if Threshold(policy) == 1 then SECOND else SECOND / 2
  {
    if policy.lockout < if Threshold(policy) == 1 then SECOND else SECOND / 2 {
      if Threshold(policy) == 1 { OneTooManyAtOnce(policy); } else { OneTooManyAcross(policy); }
    } else {
      forall before, tries, email, from ensures KeepsTo(policy, before, tries, email, from) {
        TwoLocksFit(policy, before, tries, email, from);
      }
    }
  }

  lemma TwoLocksFit(policy: Policy, before: seq<Attempt>, tries: seq<Attempt>, email: string, from: Time)
    requires policy.lockout >= if Threshold(policy) == 1 then SECOND else SECOND / 2
    ensures KeepsTo(policy, before, tries, email, from)
  {
    var g := AfterTries(NO_GUARD, policy, before);
    if Within(tries, email, from, from + WholeSeconds(policy.lockout)) && NeverClears(g, policy, tries, email) {
      if SECOND <= policy.lockout {
        WindowFailuresBounded(policy, before, tries, email, from);
      } else {
        FailuresBounded(policy, before, tries, email, from, SECOND);
        BelowBounded(g, policy, email);
        OneFits(SECOND, SECOND);
        TwoFit(SECOND, policy.lockout);
      }
    }
  }

  // ---- the lock outlives the counter ------------------------------------------------------------------

  ghost predicate NothingMissed(policy: Policy, tries: seq<Attempt>)
  {
    forall email :: Missed(NO_GUARD, policy, tries, email) == 0
  }

  /** A live count at the maximum has a live lock that expires no earlier. */
  ghost predicate Guarded(g: Guard, policy: Policy, now: Time)
  {
    forall email | email in g.fails && LiveCount(g.fails, email, now) && g.fails[email].count >= Threshold(policy) ::
      Locked(g, email, now) && g.fails[email].expires <= g.locks[email]
  }

  ghost predicate CountersBounded(g: Guard, policy: Policy, now: Time)
  {
    forall email | email in g.fails :: g.fails[email].expires <= now + WholeSeconds(policy.lockout)
  }

  lemma TryKeepsGuarded(g: Guard, policy: Policy, a: Attempt)
    requires SECOND <= policy.lockout && Guarded(g, policy, a.now) && CountersBounded(g, policy, a.now)
    requires !Misses(g, policy, a, a.email)
    ensures Guarded(Try(g, policy, a), policy, a.now) && CountersBounded(Try(g, policy, a), policy, a.now)
  {
  }

  lemma {:induction false} TriesKeepGuarded(g: Guard, policy: Policy, tries: seq<Attempt>, now: Time, end: Time)
    requires SECOND <= policy.lockout && Guarded(g, policy, now) && CountersBounded(g, policy, now)
    requires InTime(tries, end) && (tries == [] || now <= tries[0].now) && now <= end
    requires forall email :: Missed(g, policy, tries, email) == 0
    ensures Guarded(AfterTries(g, policy, tries), policy, end)
    decreases |tries|
  {
    if tries == [] {
    } else {
      var a, rest := tries[0], tries[1..];
      assert Missed(g, policy, tries, a.email) == 0;
      TryKeepsGuarded(g, policy, a);
      forall email ensures Missed(Try(g, policy, a), policy, rest, email) == 0 {
        assert Missed(g, policy, tries, email) == 0;
      }
      TriesKeepGuarded(Try(g, policy, a), policy, rest, a.now, end);
    }
  }

  /**
   * While no lock write is lost, an email that is not locked always has a live count below the
   * maximum - for every run exactly when the lockout is at least one second, because the counter's
   * window is rounded to whole seconds and the lock is not.
   */
  lemma LockOutlivesCounterIff(policy: Policy)
    requires policy.lockout > 0
    ensures (forall tries, now | InTime(tries, now) && NothingMissed(policy, tries) ::
               Guarded(AfterTries(NO_GUARD, policy, tries), policy, now))
            <==> SECOND <= policy.lockout
  {
    if SECOND <= policy.lockout {
      forall tries, now | InTime(tries, now) && NothingMissed(policy, tries)
        ensures Guarded(AfterTries(NO_GUARD, policy, tries), policy, now)
      {
        TriesKeepGuarded(NO_GUARD, policy, tries, 0, now);
      }
    } else {
      var tries := Repeated("a", 0, Threshold(policy));
      Burst(NO_GUARD, policy, "a", 0, Threshold(policy), []);
      assert tries + [] == tries;
      WholeSecondsBounds(policy.lockout);
      assert InTime(tries, policy.lockout) && NothingMissed(policy, tries);
      assert !Guarded(AfterTries(NO_GUARD, policy, tries), policy, policy.lockout);
    }
  }

  // ---- the store --------------------------------------------------------------------------------------

  class LoginLockout {
    const counters: CounterStore
    var locks: map<string, Time>

    constructor ()
      ensures fresh(counters) && View() == NO_GUARD
    {
      counters := new CounterStore();
      locks := map[];
    }

    function View(): Guard
      reads this, counters
    {
      Guard(counters.counts, locks)
    }

    method IsLocked(email: string, now: Time, fault: Fault) returns (locked: Result<bool>)
      ensures locked == if fault.NoFault? then Ok(Locked(View(), email, now)) else Err(Internal)
      ensures locked == Ok(true) <==> fault.NoFault? && email in locks && now < locks[email]
    {
      locked := if fault.NoFault? then Ok(email in locks && now < locks[email]) else Err(Internal);
    }

    method RecordFailure(email: string, policy: Policy, now: Time, incr: Fault, lock: Fault)
      modifies this, counters
      ensures View() == Record(old(View()), policy, email, now, incr, lock)
      ensures var open := email in old(counters.counts) && now < old(counters.counts)[email].expires;
              var count := if open then old(counters.counts)[email].count + 1 else 1;
              && (!incr.Refused? ==> email in counters.counts && counters.counts[email].count == count)
              && locks == if incr.NoFault? && count >= policy.max && !lock.Refused?
                          then old(locks)[email := now + policy.lockout] else old(locks)
    {
      var count := counters.IncrExpire(email, policy.lockout, now, incr);
      if count.None? {
        return;
      }
      if count.value >= policy.max {
        if lock.Applied() {
          locks := locks[email := now + policy.lockout];
        }
      }
    }

    method Clear(email: string, fault: Fault)
      modifies this, counters
      ensures View() == if fault.Applied() then Forget(old(View()), email) else old(View())
      ensures !fault.Refused? ==> email !in counters.counts && email !in locks
    {
      if fault.Applied() {
        locks := locks - {email};
        counters.Delete(email);
      }
    }
  }
}
