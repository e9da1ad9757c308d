/** Runs built one event at a time. */
module Reach {
  import opened Types
  import opened Machine

  /** Some schedule leads from `s` to `s'`. */
  ghost predicate Reaches(s: Sys, s': Sys)
  {
    exists events :: Exec(s, events) == s'
  }

  lemma ReachesBy(s: Sys, e: Event, s': Sys)
    requires Apply(s, e) == s'
    ensures Reaches(s, s')
  {
    ExecCons(s, e, []);
    assert [e] + [] == [e];
    assert Exec(s, [e]) == s';
  }

  lemma ReachesItself(s: Sys)
    ensures Reaches(s, s)
  {
    assert Exec(s, []) == s;
  }

  lemma ReachesThen(s0: Sys, s1: Sys, s2: Sys)
    requires Reaches(s0, s1) && Reaches(s1, s2)
    ensures Reaches(s0, s2)
  {
    var first :| Exec(s0, first) == s1;
    var rest :| Exec(s1, rest) == s2;
    ExecSplit(s0, first, rest);
  }

  lemma Wait(s: Sys, now: Time) returns (s': Sys)
    requires s.now <= now
    ensures s' == s.(now := now) && Reaches(s, s')
  {
    s' := s.(now := now);
    ReachesBy(s, Tick(now - s.now), s');
  }

  lemma Call(s: Sys, pid: Id, p: Proc) returns (s': Sys)
    requires pid !in s.procs && Entry(s, p)
    ensures s' == s.(procs := s.procs[pid := p]) && Reaches(s, s')
  {
    s' := s.(procs := s.procs[pid := p]);
    ReachesBy(s, Start(pid, p), s');
  }

  /** The state after process `pid` has made the move `m`. */
  function After(s: Sys, pid: Id, m: Move): Sys
    requires m.Move?
  {
    s.(db := m.db, hist := m.hist, procs := Put(s.procs, pid, m.next))
  }

  lemma TakeIssue(s: Sys, pid: Id, fault: Fault, a: Id, b: Id) returns (s': Sys)
    requires pid in s.procs && (Issuing(s.procs[pid]) || s.procs[pid].LoginDraw?)
    requires IssueStep(s.cfg, s.now, s.db, s.hist, s.procs[pid], fault, a, b).Move?
    ensures s' == After(s, pid, IssueStep(s.cfg, s.now, s.db, s.hist, s.procs[pid], fault, a, b)) && Reaches(s, s')
  {
    s' := After(s, pid, IssueStep(s.cfg, s.now, s.db, s.hist, s.procs[pid], fault, a, b));
    ReachesBy(s, Step(pid, fault, a, b), s');
  }

  lemma TakeRefresh(s: Sys, pid: Id, fault: Fault) returns (s': Sys)
    requires pid in s.procs && Refreshing(s.procs[pid])
    requires RefreshStep(s.now, s.db, s.hist, s.procs[pid], fault).Move?
    ensures s' == After(s, pid, RefreshStep(s.now, s.db, s.hist, s.procs[pid], fault)) && Reaches(s, s')
  {
    s' := After(s, pid, RefreshStep(s.now, s.db, s.hist, s.procs[pid], fault));
    ReachesBy(s, Step(pid, fault, 0, 0), s');
  }

  lemma TakeLogout(s: Sys, pid: Id, fault: Fault) returns (s': Sys)
    requires pid in s.procs && LoggingOut(s.procs[pid])
    requires LogoutStep(s.now, s.db, s.hist, s.procs[pid], fault).Move?
    ensures s' == After(s, pid, LogoutStep(s.now, s.db, s.hist, s.procs[pid], fault)) && Reaches(s, s')
  {
    s' := After(s, pid, LogoutStep(s.now, s.db, s.hist, s.procs[pid], fault));
    ReachesBy(s, Step(pid, fault, 0, 0), s');
  }

  lemma TakeReset(s: Sys, pid: Id, fault: Fault, a: Id) returns (s': Sys)
    requires pid in s.procs && !Issuing(s.procs[pid]) && !s.procs[pid].LoginDraw?
    requires !Refreshing(s.procs[pid]) && !LoggingOut(s.procs[pid])
    requires ResetStep(s.cfg, s.now, s.db, s.hist, s.procs[pid], fault, a).Move?
    ensures s' == After(s, pid, ResetStep(s.cfg, s.now, s.db, s.hist, s.procs[pid], fault, a)) && Reaches(s, s')
  {
    s' := After(s, pid, ResetStep(s.cfg, s.now, s.db, s.hist, s.procs[pid], fault, a));
    ReachesBy(s, Step(pid, fault, a, 0), s');
  }
}
