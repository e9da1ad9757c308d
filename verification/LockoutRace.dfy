/**
 * Logins that overlap: the lock check, the counter script and the lock write are steps of their own, so
 * that attempts can pass the check before another one's lock is written.
 */
module LockoutRace {
  import opened Types
  import opened Counters
  import opened Lockout

  /** Past the lock check with wrong credentials, past it with right ones, or past the counter script and about to lock. */
  datatype Stage = Wrong | Right | Locking

  datatype Login = Login(email: string, stage: Stage)

  datatype Sys = Sys(guard: Guard, logins: map<Id, Login>)

  const START: Sys := Sys(NO_GUARD, map[])

  datatype Event =
    | Check(id: Id, now: Time, email: string, good: bool, fault: Fault)
    | Count(id: Id, now: Time, fault: Fault)
    | Write(id: Id, now: Time, fault: Fault)
    | Clear(id: Id, now: Time, fault: Fault)

  predicate At(s: Sys, id: Id, stage: Stage)
  {
    id in s.logins && s.logins[id].stage == stage
  }

  /** The count that a failure of login `id` reaches. */
  function Reached(s: Sys, policy: Policy, id: Id, now: Time): nat
    requires id in s.logins
  {
    Hit(s.guard.fails, s.logins[id].email, policy.lockout, now).count
  }

  function Counted(s: Sys, policy: Policy, id: Id, now: Time, fault: Fault): Sys
    requires id in s.logins
  {
    var email := s.logins[id].email;
    Sys(if fault.Applied()
        then s.guard.(fails := s.guard.fails[email := Hit(s.guard.fails, email, policy.lockout, now)]) else s.guard,
        if fault.NoFault? && Reached(s, policy, id, now) >= policy.max then s.logins[id := Login(email, Locking)]
        else s.logins - {id})
  }

  /** Events that are not possible in `s` leave it as it is. */
  function Apply(s: Sys, policy: Policy, e: Event): Sys
  {
    match e
    case Check(id, now, email, good, fault) =>
      if id in s.logins || !fault.NoFault? || Locked(s.guard, email, now) then s
      else s.(logins := s.logins[id := Login(email, if good then Right else Wrong)])
    case Count(id, now, fault) => if At(s, id, Wrong) then Counted(s, policy, id, now, fault) else s
    case Write(id, now, fault) =>
      if !At(s, id, Locking) then s
      else Sys(if fault.Applied() then s.guard.(locks := s.guard.locks[s.logins[id].email := now + policy.lockout])
               else s.guard, s.logins - {id})
    case Clear(id, now, fault) =>
      if !At(s, id, Right) then s
      else Sys(if fault.Applied() then Forget(s.guard, s.logins[id].email) else s.guard, s.logins - {id})
  }

  function Exec(s: Sys, policy: Policy, events: seq<Event>): Sys
    decreases |events|
  {
    if events == [] then s else Exec(Apply(s, policy, events[0]), policy, events[1..])
  }

  // ---- what is counted -----------------------------------------------------------------------------------

  /** The event adds a failure for `email`. */
  predicate Records(s: Sys, e: Event, email: string)
  {
    e.Count? && At(s, e.id, Wrong) && s.logins[e.id].email == email && e.fault.Applied()
  }

  /** A login has reached the maximum for `email`, and its lock is still to be written. */
  predicate LockDue(s: Sys, email: string)
  {
    exists id | id in s.logins :: s.logins[id] == Login(email, Locking)
  }

  /**
   * A failure at or above the maximum whose login was past its check when the lock was written, or fell
   * due: at its count the email is already locked, or about to be.
   */
  predicate Races(s: Sys, policy: Policy, e: Event, email: string)
  {
    && Records(s, e, email) && Reached(s, policy, e.id, e.now) >= policy.max
    && (Locked(s.guard, email, e.now) || LockDue(s, email))
  }

  /** A lock for `email` that is due and not written: the counter's answer is lost, or the write has no effect. */
  predicate Misses(s: Sys, policy: Policy, e: Event, email: string)
  {
    || (Records(s, e, email) && Reached(s, policy, e.id, e.now) >= policy.max && !e.fault.NoFault?)
    || (e.Write? && At(s, e.id, Locking) && s.logins[e.id].email == email && !e.fault.Applied())
  }

  predicate Clears(s: Sys, e: Event, email: string)
  {
    e.Clear? && At(s, e.id, Right) && s.logins[e.id].email == email && e.fault.Applied()
  }

  function Recorded(s: Sys, policy: Policy, events: seq<Event>, email: string): nat
    decreases |events|
  {
    if events == [] then 0
    else Recorded(Apply(s, policy, events[0]), policy, events[1..], email) + if Records(s, events[0], email) then 1 else 0
  }

  function Raced(s: Sys, policy: Policy, events: seq<Event>, email: string): nat
    decreases |events|
  {
    if events == [] then 0
    else Raced(Apply(s, policy, events[0]), policy, events[1..], email)
         + if Races(s, policy, events[0], email) then 1 else 0
  }

  function Missed(s: Sys, policy: Policy, events: seq<Event>, email: string): nat
    decreases |events|
  {
    if events == [] then 0
    else Missed(Apply(s, policy, events[0]), policy, events[1..], email)
         + if Misses(s, policy, events[0], email) then 1 else 0
  }

  predicate NeverClears(s: Sys, policy: Policy, events: seq<Event>, email: string)
    decreases |events|
  {
    events == [] || (!Clears(s, events[0], email) && NeverClears(Apply(s, policy, events[0]), policy, events[1..], email))
  }

  /** The events come in the order of the clock, from `from` on and before `to`. */
  predicate InOrder(events: seq<Event>, from: Time, to: Time)
    decreases |events|
  {
    events == [] || (from <= events[0].now < to && InOrder(events[1..], events[0].now, to))
  }

  // ---- the law -------------------------------------------------------------------------------------------

  ghost predicate LocksBounded(s: Sys, policy: Policy, now: Time)
  {
    forall email | email in s.guard.locks :: s.guard.locks[email] <= now + policy.lockout
  }

  lemma {:induction false} RunKeepsLocks(s: Sys, policy: Policy, events: seq<Event>, from: Time, to: Time)
    requires InOrder(events, from, to) && from <= to && LocksBounded(s, policy, from)
    ensures LocksBounded(Exec(s, policy, events), policy, to)
    decreases |events|
  {
    if events == [] {
    } else {
      RunKeepsLocks(Apply(s, policy, events[0]), policy, events[1..], events[0].now, to);
    }
  }

  /** What may hold a lock of `email` off until `free`: the clock, a lock, or a lock that is due. */
  predicate HeldOff(s: Sys, email: string, free: Time, now: Time)
  {
    free <= now || (email in s.guard.locks && free <= s.guard.locks[email]) || LockDue(s, email)
  }

  predicate WindowOpen(s: Sys, email: string, next: Time, now: Time)
  {
    next <= now || (email in s.guard.fails && next <= s.guard.fails[email].expires)
  }

  /** The failure that makes a lock due while none is there or due. */
  predicate TakesSlot(s: Sys, policy: Policy, e: Event, email: string)
  {
    && Records(s, e, email) && Reached(s, policy, e.id, e.now) >= policy.max
    && !Races(s, policy, e, email) && !Misses(s, policy, e, email)
  }

  /** The moment and the number of locks that can still be written after the event. */
  function NextLock(s: Sys, policy: Policy, e: Event, email: string, free: Time, slots: nat): (Time, int)
  {
    if e.Write? && Misses(s, policy, e, email) && free > e.now then (e.now, slots + 1)
    else if TakesSlot(s, policy, e, email) then (e.now + policy.lockout, slots - 1)
    else (free, slots)
  }

  lemma LockStep(s: Sys, policy: Policy, e: Event, email: string, last: Time, to: Time, free: Time, slots: nat)
    requires policy.lockout > 0 && last <= e.now < to && LocksBounded(s, policy, last) && !Clears(s, e, email)
    requires to <= free + Steps(slots, policy.lockout) && free <= last + policy.lockout && HeldOff(s, email, free, last)
    ensures var (free', slots') := NextLock(s, policy, e, email, free, slots);
            && slots' >= 0 && to <= free' + Steps(slots', policy.lockout) && free' <= e.now + policy.lockout
            && HeldOff(Apply(s, policy, e), email, free', e.now)
  {
    var s' := Apply(s, policy, e);
    if LockDue(s, email) {
      var id :| id in s.logins && s.logins[id] == Login(email, Locking);
      assert !(e.Write? && e.id == id) ==> id in s'.logins && s'.logins[id] == Login(email, Locking);
    }
    if TakesSlot(s, policy, e, email) {
      assert s'.logins[e.id] == Login(email, Locking);
    }
  }

  lemma WindowStep(s: Sys, policy: Policy, e: Event, email: string, last: Time, to: Time, next: Time, windows: nat)
    requires last <= e.now < to && !Clears(s, e, email)
    requires to <= next + Steps(windows, WholeSeconds(policy.lockout)) && WindowOpen(s, email, next, last)
    ensures WindowOpen(Apply(s, policy, e), email, next, e.now)
    ensures OpensWindow(s, e, email) ==>
              && windows > 0 && WindowOpen(Apply(s, policy, e), email, e.now + WholeSeconds(policy.lockout), e.now)
              && to <= e.now + WholeSeconds(policy.lockout) + Steps(windows - 1, WholeSeconds(policy.lockout))
  {
  }

  predicate OpensWindow(s: Sys, e: Event, email: string)
  {
    Records(s, e, email) && !LiveCount(s.guard.fails, email, e.now)
  }

  /** A failure is below the maximum, takes a slot, races or misses. */
  lemma StepPays(s: Sys, policy: Policy, e: Event, email: string, free: Time, slots: nat, windows: nat)
    requires !Clears(s, e, email) && (OpensWindow(s, e, email) ==> windows > 0)
    ensures var windows' := if OpensWindow(s, e, email) then windows - 1 else windows;
            (if Records(s, e, email) then 1 else 0) + NextLock(s, policy, e, email, free, slots).1
            + Below(Apply(s, policy, e).guard, policy, email) + Steps(windows', Threshold(policy) - 1)
            <= (if Misses(s, policy, e, email) then 1 else 0) + (if Races(s, policy, e, email) then 1 else 0)
               + slots + Below(s.guard, policy, email) + Steps(windows, Threshold(policy) - 1)
  {
  }

  lemma {:induction false} RecordedWithin(s: Sys, policy: Policy, events: seq<Event>, email: string, last: Time, to: Time,
                                          free: Time, slots: nat, next: Time, windows: nat)
    requires policy.lockout > 0 && InOrder(events, last, to) && NeverClears(s, policy, events, email)
    requires LocksBounded(s, policy, last)
    requires to <= free + Steps(slots, policy.lockout) && free <= last + policy.lockout && HeldOff(s, email, free, last)
    requires to <= next + Steps(windows, WholeSeconds(policy.lockout)) && WindowOpen(s, email, next, last)
    ensures Recorded(s, policy, events, email)
         <= Missed(s, policy, events, email) + Raced(s, policy, events, email) + slots
            + Below(s.guard, policy, email) + Steps(windows, Threshold(policy) - 1)
    decreases |events|
  {
    if events == [] {
    } else {
      var e, rest := events[0], events[1..];
      var s' := Apply(s, policy, e);
      LockStep(s, policy, e, email, last, to, free, slots);
      WindowStep(s, policy, e, email, last, to, next, windows);
      var (free', slots') := NextLock(s, policy, e, email, free, slots);
      StepPays(s, policy, e, email, free, slots, windows);
      if OpensWindow(s, e, email) {
        RecordedWithin(s', policy, rest, email, e.now, to, free', slots', e.now + WholeSeconds(policy.lockout), windows - 1);
      } else {
        RecordedWithin(s', policy, rest, email, e.now, to, free', slots', next, windows);
      }
    }
  }

  /**
   * In every interleaving: the failures counted for one email in a half-open interval of length `span`
   * exceed what logins one at a time can reach by no more than the failures that raced with a lock.
   */
  lemma FailuresBounded(policy: Policy, before: seq<Event>, events: seq<Event>, email: string, from: Time, span: nat)
    requires policy.lockout > 0 && InOrder(before, 0, from) && InOrder(events, from, from + span)
    requires NeverClears(Exec(START, policy, before), policy, events, email)
    ensures var s := Exec(START, policy, before);
            Recorded(s, policy, events, email)
            <= Missed(s, policy, events, email) + Raced(s, policy, events, email) + CeilDiv(span, policy.lockout)
               + Below(s.guard, policy, email) + Steps(CeilDiv(span, WholeSeconds(policy.lockout)), Threshold(policy) - 1)
  {
    RunKeepsLocks(START, policy, before, 0, from);
    var slots, windows := CeilDiv(span, policy.lockout), CeilDiv(span, WholeSeconds(policy.lockout));
    CeilDivCovers(span, policy.lockout);
    CeilDivCovers(span, WholeSeconds(policy.lockout));
    RecordedWithin(Exec(START, policy, before), policy, events, email, from, from + span, from, slots, from, windows);
  }

  /** For a lockout of a second or more, and an interval as long as the counter window. */
  lemma WindowFailuresBounded(policy: Policy, before: seq<Event>, events: seq<Event>, email: string, from: Time)
    requires SECOND <= policy.lockout
    requires InOrder(before, 0, from) && InOrder(events, from, from + WholeSeconds(policy.lockout))
    requires NeverClears(Exec(START, policy, before), policy, events, email)
    ensures var s := Exec(START, policy, before);
            Recorded(s, policy, events, email)
            <= Missed(s, policy, events, email) + Raced(s, policy, events, email)
               + if Threshold(policy) == 1 then 1 else 2 * Threshold(policy) - 2
  {
    WholeSecondsBounds(policy.lockout);
    OneFits(WholeSeconds(policy.lockout), policy.lockout);
    OneFits(WholeSeconds(policy.lockout), WholeSeconds(policy.lockout));
    BelowBounded(Exec(START, policy, before).guard, policy, email);
    FailuresBounded(policy, before, events, email, from, WholeSeconds(policy.lockout));
  }

  // ---- what overlap costs ---------------------------------------------------------------------------------

  /** Logins one at a time: the four steps of an attempt, in which the impossible ones do nothing. */
  lemma AttemptAlone(g: Guard, policy: Policy, id: Id, a: Attempt)
    ensures var s1 := Apply(Sys(g, map[]), policy, Check(id, a.now, a.email, a.good, a.check));
            var s2 := Apply(Apply(s1, policy, Clear(id, a.now, a.clear)), policy, Count(id, a.now, a.incr));
            Apply(s2, policy, Write(id, a.now, a.lock)) == Sys(Try(g, policy, a), map[])
  {
  }

  /** A login that counts before anything else happens does not race, unless a lock was due when it checked. */
  lemma AloneNeverRaces(s: Sys, policy: Policy, id: Id, now: Time, later: Time, email: string, good: bool, fault: Fault)
    requires id !in s.logins && !LockDue(s, email) && now <= later
    ensures !Races(Apply(s, policy, Check(id, now, email, good, NoFault)), policy, Count(id, later, fault), email)
  {
  }

  /** The logins of `email` that are past their check and about to count. */
  function PastCheck(s: Sys, email: string): set<Id>
  {
    set id | id in s.logins && s.logins[id] == Login(email, Wrong)
  }

  /** Everything happens at `now`, no failure count of `email` is cleared, and more than `m` failures are recorded. */
  predicate Overshoots(s: Sys, policy: Policy, events: seq<Event>, email: string, now: Time, m: nat)
  {
    InOrder(events, now, now + 1) && NeverClears(s, policy, events, email) && Recorded(s, policy, events, email) > m
  }

  ghost predicate CanOvershoot(s: Sys, policy: Policy, email: string, now: Time, m: nat)
  {
    exists events :: Overshoots(s, policy, events, email, now, m)
  }

  /** Logins past their check are all recorded. */
  lemma {:induction false} AllCount(s: Sys, policy: Policy, ids: set<Id>, email: string, now: Time)
    returns (events: seq<Event>)
    requires ids <= PastCheck(s, email)
    ensures InOrder(events, now, now + 1) && NeverClears(s, policy, events, email)
    ensures Recorded(s, policy, events, email) == |ids| && Missed(s, policy, events, email) == 0
    decreases ids
  {
    events := [];
    if ids != {} {
      var id :| id in ids;
      var e := Count(id, now, NoFault);
      var rest := AllCount(Apply(s, policy, e), policy, ids - {id}, email, now);
      events := [e] + rest;
      assert events[1..] == rest;
    }
  }

  /** `n` more logins check, while the email is not locked, before all of them count. */
  lemma {:induction false} AllCheck(s: Sys, policy: Policy, ids: set<Id>, email: string, now: Time, n: nat)
    returns (events: seq<Event>)
    requires ids <= PastCheck(s, email) && (n > 0 ==> !Locked(s.guard, email, now))
    ensures InOrder(events, now, now + 1) && NeverClears(s, policy, events, email)
    ensures Recorded(s, policy, events, email) == |ids| + n && Missed(s, policy, events, email) == 0
    decreases n
  {
    if n == 0 {
      events := AllCount(s, policy, ids, email, now);
    } else {
      var id := Bounded(s.logins.Keys);
      var e := Check(id, now, email, false, NoFault);
      var rest := AllCheck(Apply(s, policy, e), policy, ids + {id}, email, now, n - 1);
      events := [e] + rest;
      assert events[1..] == rest;
    }
  }

  /** Logins that all check before any of them counts are all recorded, at one moment, from any state without a lock. */
  lemma AnyNumberOverlaps(s: Sys, policy: Policy, email: string, now: Time, n: nat) returns (events: seq<Event>)
    requires !Locked(s.guard, email, now)
    ensures InOrder(events, now, now + 1) && NeverClears(s, policy, events, email)
    ensures Recorded(s, policy, events, email) == n && Missed(s, policy, events, email) == 0
  {
    events := AllCheck(s, policy, {}, email, now, n);
  }

  lemma LockedStep(s: Sys, policy: Policy, e: Event, email: string)
    requires policy.lockout > 0 && Locked(s.guard, email, e.now) && !Clears(s, e, email)
    ensures Locked(Apply(s, policy, e).guard, email, e.now)
    ensures |PastCheck(Apply(s, policy, e), email)| + (if Records(s, e, email) then 1 else 0) <= |PastCheck(s, email)|
  {
    var s' := Apply(s, policy, e);
    var before, after := PastCheck(s, email), PastCheck(s', email);
    assert after <= if Records(s, e, email) then before - {e.id} else before;
    SubsetSize(after, if Records(s, e, email) then before - {e.id} else before);
  }

  /** Behind a lock nobody checks, so only those past their check are recorded. */
  lemma {:induction false} LockedRun(s: Sys, policy: Policy, events: seq<Event>, email: string, now: Time)
    requires policy.lockout > 0 && Locked(s.guard, email, now)
    requires InOrder(events, now, now + 1) && NeverClears(s, policy, events, email)
    ensures Recorded(s, policy, events, email) <= |PastCheck(s, email)|
    decreases |events|
  {
    if events == [] {
    } else {
      LockedStep(s, policy, events[0], email);
      LockedRun(Apply(s, policy, events[0]), policy, events[1..], email, now);
    }
  }

  /**
   * In any state, as long as no time passes and nothing is cleared: more than `m` failures of an email can
   * be recorded exactly if it is not locked, or more than `m` logins of it are already past their check. So
   * what bounds failures is the lock alone, and the logins it comes too late for.
   */
  lemma OvershootsIff(s: Sys, policy: Policy, email: string, now: Time, m: nat)
    requires policy.lockout > 0
    ensures CanOvershoot(s, policy, email, now, m)
            <==> !Locked(s.guard, email, now) || |PastCheck(s, email)| > m
  {
    if !Locked(s.guard, email, now) {
      var events := AnyNumberOverlaps(s, policy, email, now, m + 1);
      assert Overshoots(s, policy, events, email, now, m);
    } else if |PastCheck(s, email)| > m {
      var events := AllCount(s, policy, PastCheck(s, email), email, now);
      assert Overshoots(s, policy, events, email, now, m);
    } else {
      forall events ensures !Overshoots(s, policy, events, email, now, m) {
        if Overshoots(s, policy, events, email, now, m) { LockedRun(s, policy, events, email, now); }
      }
    }
  }
}
