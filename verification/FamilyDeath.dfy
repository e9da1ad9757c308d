/** Once a family has neither a live token nor a call that could save one, it stays so. */
module FamilyDeath {
  import opened Types
  import opened RefreshTable
  import opened Machine
  import opened Slices
  import opened Lineage

  /** Every family drawn so far for `user` is dead. */
  ghost predicate SignedOut(s: Sys, user: Id)
  {
    forall family | family in s.hist.born && s.hist.born[family].user == user :: Dead(s, family)
  }

  /** The process can still save a token: it is not about to insert one that exists. */
  predicate CanSave(rows: Rows, p: Proc)
  {
    Holding(p) && (p.IssueSave? ==> p.hash !in rows)
  }

  /** Some process can still save a token of the family. */
  ghost predicate Held(s: Sys, family: Id)
  {
    exists pid :: pid in s.procs && CanSave(s.db.rows, s.procs[pid]) && s.procs[pid].grant.family == family
  }

  ghost predicate Dead(s: Sys, family: Id)
  {
    && family in s.hist.born
    && (forall h | h in s.db.rows && s.db.rows[h].grant.family == family :: !Live(s.db.rows, h, s.now))
    && !Held(s, family)
  }

  lemma StepStaysDead(s: Sys, pid: Id, fault: Fault, a: Id, b: Id, m: Move, s': Sys, family: Id)
    requires Inv(s) && Dead(s, family) && pid in s.procs && Sliced(s, s.procs[pid], fault, a, b, m)
    requires s' == s.(db := m.db, hist := m.hist, procs := Put(s.procs, pid, m.next))
    ensures Dead(s', family)
  {
  }

  lemma ApplyStaysDead(s: Sys, e: Event, family: Id)
    requires Inv(s) && Dead(s, family)
    ensures Dead(Apply(s, e), family)
  {
    if e.Step? && e.pid in s.procs {
      var m := React(s.cfg, s.now, s.db, s.hist, s.procs[e.pid], e.fault, e.a, e.b);
      if m.Move? {
        StepSlices(s, s.procs[e.pid], e.fault, e.a, e.b, m);
        StepStaysDead(s, e.pid, e.fault, e.a, e.b, m, Apply(s, e), family);
      }
    }
  }

  lemma {:induction false} RunStaysDead(s: Sys, events: seq<Event>, family: Id)
    requires Inv(s) && Dead(s, family)
    ensures Dead(Exec(s, events), family)
    decreases |events|
  {
    if events != [] {
      ApplyKeeps(s, events[0]);
      ApplyStaysDead(s, events[0], family);
      RunStaysDead(Apply(s, events[0]), events[1..], family);
    }
  }

  /** Family death is permanent, in every interleaving. */
  lemma DeathIsPermanent(cfg: Config, before: seq<Event>, after: seq<Event>, family: Id)
    requires Dead(Exec(Init(cfg), before), family)
    ensures Dead(Exec(Init(cfg), before + after), family)
  {
    InitKeeps(cfg);
    RunKeeps(Init(cfg), before);
    ExecSplit(Init(cfg), before, after);
    RunStaysDead(Exec(Init(cfg), before), after, family);
  }

  /** The four events of a Refresh that finds its token revoked. */
  function Replay(pid: Id, hash: Hash, lookup: Fault, kill: Fault): seq<Event>
  {
    [Start(pid, RefreshLookup(hash))] + ([Step(pid, lookup, 0, 0)] + ([Step(pid, NoFault, 0, 0)] + [Step(pid, kill, 0, 0)]))
  }

  lemma ReplayRun(s: Sys, pid: Id, hash: Hash, lookup: Fault, kill: Fault)
    requires pid !in s.procs && hash in s.db.rows && s.db.rows[hash].revoked.Some? && kill.Applied()
    ensures var rows := s.db.rows;
            var s' := Exec(s, Replay(pid, hash, lookup, kill));
            && s'.procs == s.procs && s'.hist == s.hist && s'.now == s.now
            && s'.db.rows == RevokeAll(rows, OfFamily(rows, rows[hash].grant.family), s.now)
  {
    var s1 := Apply(s, Start(pid, RefreshLookup(hash)));
    var s2 := Apply(s1, Step(pid, lookup, 0, 0));
    assert s2 == s1.(procs := s1.procs[pid := RefreshReplay(hash)]);
    var s3 := Apply(s2, Step(pid, NoFault, 0, 0));
    assert s3 == s2.(procs := s2.procs[pid := RefreshKill(s.db.rows[hash].grant.family)]);
    var s4 := Apply(s3, Step(pid, kill, 0, 0));
    ExecCons(s3, Step(pid, kill, 0, 0), []);
    assert [Step(pid, kill, 0, 0)] + [] == [Step(pid, kill, 0, 0)];
    ExecCons(s2, Step(pid, NoFault, 0, 0), [Step(pid, kill, 0, 0)]);
    ExecCons(s1, Step(pid, lookup, 0, 0), [Step(pid, NoFault, 0, 0)] + [Step(pid, kill, 0, 0)]);
    ExecCons(s, Start(pid, RefreshLookup(hash)),
             [Step(pid, lookup, 0, 0)] + ([Step(pid, NoFault, 0, 0)] + [Step(pid, kill, 0, 0)]));
    assert s4.procs == s.procs;
  }

  /**
   * Replay detection. When a Refresh presents a revoked token and its family-wide revocation takes
   * effect while no call holds a record of the family, the family is dead for ever.
   */
  lemma ReplayEndsFamily(cfg: Config, before: seq<Event>, pid: Id, hash: Hash, lookup: Fault, kill: Fault, after: seq<Event>)
    requires var s := Exec(Init(cfg), before);
             && pid !in s.procs && hash in s.db.rows && s.db.rows[hash].revoked.Some?
             && !Held(s, s.db.rows[hash].grant.family)
    requires kill.Applied()
    ensures Dead(Exec(Init(cfg), before + Replay(pid, hash, lookup, kill) + after),
                 Exec(Init(cfg), before).db.rows[hash].grant.family)
  {
    var s := Exec(Init(cfg), before);
    var family := s.db.rows[hash].grant.family;
    InitKeeps(cfg);
    RunKeeps(Init(cfg), before);
    assert RowOk(s.now, s.db.rows, s.hist, hash);
    ReplayRun(s, pid, hash, lookup, kill);
    ExecSplit(Init(cfg), before, Replay(pid, hash, lookup, kill));
    assert Dead(Exec(s, Replay(pid, hash, lookup, kill)), family);
    DeathIsPermanent(cfg, before + Replay(pid, hash, lookup, kill), after, family);
  }

  lemma RevokeUserKills(s: Sys, pid: Id, user: Id, fault: Fault, family: Id)
    requires Inv(s) && pid in s.procs && s.procs[pid] == RevokeUser(user) && fault.Applied()
    requires family in s.hist.born && s.hist.born[family].user == user && !Held(s, family)
    ensures Dead(Apply(s, Step(pid, fault, 0, 0)), family)
  {
    var s' := Apply(s, Step(pid, fault, 0, 0));
    assert s'.procs == s.procs[pid := ListSessions(user)];
    forall q | q in s'.procs && CanSave(s'.db.rows, s'.procs[q]) ensures s'.procs[q].grant.family != family {
      assert q != pid && q in s.procs && CanSave(s.db.rows, s.procs[q]);
    }
    forall h | h in s'.db.rows && s'.db.rows[h].grant.family == family ensures !Live(s'.db.rows, h, s'.now) {
      assert RowOk(s.now, s.db.rows, s.hist, h);
    }
  }

  /**
   * Revoking all tokens of a user (ResetPassword, LogoutAll). Whatever runs before and after, a
   * refresh token of that user that is accepted later belongs to a family drawn by a later login, or
   * to one that a call was holding a record of when the revocation ran.
   */
  lemma RevokeUserEndsFamilies(cfg: Config, before: seq<Event>, pid: Id, user: Id, fault: Fault, after: seq<Event>,
                               hash: Hash)
    requires var s := Exec(Init(cfg), before); pid in s.procs && s.procs[pid] == RevokeUser(user) && fault.Applied()
    requires Accepted(Exec(Init(cfg), before + [Step(pid, fault, 0, 0)] + after), hash)
    ensures var s := Exec(Init(cfg), before);
            var row := Exec(Init(cfg), before + [Step(pid, fault, 0, 0)] + after).db.rows[hash];
            row.grant.user == user ==> row.grant.family !in s.hist.born || Held(s, row.grant.family)
  {
    var s := Exec(Init(cfg), before);
    var e := Step(pid, fault, 0, 0);
    InitKeeps(cfg);
    RunKeeps(Init(cfg), before);
    ApplyKeeps(s, e);
    ExecCons(s, e, after);
    ExecSplit(Init(cfg), before, [e] + after);
    assert before + [e] + after == before + ([e] + after);
    var end := Exec(Apply(s, e), after);
    var g := end.db.rows[hash].grant;
    RunKeeps(Apply(s, e), after);
    assert RowOk(end.now, end.db.rows, end.hist, hash);
    if g.user == user && g.family in s.hist.born && !Held(s, g.family) {
      RevokeUserKills(s, pid, user, fault, g.family);
      RunStaysDead(Apply(s, e), after, g.family);
      assert false;
    }
  }

  /**
   * Once a user is signed out, whatever runs next, every refresh token accepted for that user belongs
   * to a family drawn by a later login.
   */
  lemma SignedOutNeedsLogin(cfg: Config, before: seq<Event>, after: seq<Event>, user: Id, hash: Hash)
    requires SignedOut(Exec(Init(cfg), before), user)
    requires Accepted(Exec(Init(cfg), before + after), hash)
    requires Exec(Init(cfg), before + after).db.rows[hash].grant.user == user
    ensures Exec(Init(cfg), before + after).db.rows[hash].grant.family !in Exec(Init(cfg), before).hist.born
  {
    var s, end := Exec(Init(cfg), before), Exec(Init(cfg), before + after);
    InitKeeps(cfg);
    RunKeeps(Init(cfg), before);
    ExecSplit(Init(cfg), before, after);
    RunKeeps(s, after);
    assert RowOk(end.now, end.db.rows, end.hist, hash);
    var family := end.db.rows[hash].grant.family;
    if family in s.hist.born {
      DeathIsPermanent(cfg, before, after, family);
      assert false;
    }
  }
}
