/** Access tokens after logout, and single use of password-reset tokens. */
module TokenSafety {
  import opened Types
  import opened OneTimeTokens
  import opened Machine
  import opened Slices
  import opened Lineage

  // ---- access tokens -------------------------------------------------------------------------

  /**
   * At every moment of every run an access token is accepted exactly when it was signed here, has
   * not expired, and no Logout has banned its jti.
   */
  lemma AcceptedIffNotBanned(cfg: Config, events: seq<Event>, jti: Id)
    ensures var s := Exec(Init(cfg), events);
            Accepts(s, jti) <==> jti in s.hist.access && s.now < s.hist.access[jti].exp && jti !in s.hist.banned
  {
    var s := Exec(Init(cfg), events);
    InitKeeps(cfg);
    RunKeeps(Init(cfg), events);
    assert BanOk(s.db.blacklist, s.hist, jti);
  }

  lemma BannedStaysOut(s: Sys, events: seq<Event>, jti: Id)
    requires Inv(s) && jti in s.hist.banned
    ensures !Accepts(Exec(s, events), jti)
  {
    RunKeeps(s, events);
    var end := Exec(s, events);
    assert BanOk(end.db.blacklist, end.hist, jti);
  }

  lemma BanTakesEffect(s: Sys, pid: Id, fault: Fault)
    requires pid in s.procs && s.procs[pid].LogoutBan? && fault.Applied()
    ensures s.procs[pid].jti in Apply(s, Step(pid, fault, 0, 0)).hist.banned
  {
  }

  /** Once the blacklist write of a Logout has taken effect, its jti is rejected at every later moment. */
  lemma LoggedOutStaysOut(cfg: Config, before: seq<Event>, pid: Id, fault: Fault, after: seq<Event>, jti: Id)
    requires var s := Exec(Init(cfg), before);
             && pid in s.procs && s.procs[pid].LogoutBan? && s.procs[pid].jti == jti && fault.Applied()
    ensures !Accepts(Exec(Init(cfg), before + [Step(pid, fault, 0, 0)] + after), jti)
  {
    var s := Exec(Init(cfg), before);
    var e := Step(pid, fault, 0, 0);
    InitKeeps(cfg);
    RunKeeps(Init(cfg), before);
    ApplyKeeps(s, e);
    BanTakesEffect(s, pid, fault);
    BannedStaysOut(Apply(s, e), after, jti);
    ExecCons(s, e, after);
    ExecSplit(Init(cfg), before, [e] + after);
    assert before + [e] + after == before + ([e] + after);
  }

  // ---- reset tokens --------------------------------------------------------------------------

  /** The update was made with a token issued to that user and used before it expired. */
  predicate UpdateOk(resets: Tokens, u: Update)
  {
    && u.token in resets && resets[u.token].user == u.user
    && resets[u.token].used.Some? && resets[u.token].used.value < resets[u.token].expires
  }

  ghost predicate UpdatesOk(s: Sys)
  {
    && (forall i | 0 <= i < |s.hist.updates| :: UpdateOk(s.db.resets, s.hist.updates[i]))
    && (forall i, j | 0 <= i < j < |s.hist.updates| :: s.hist.updates[i].token != s.hist.updates[j].token)
    && (forall pid | pid in s.procs && s.procs[pid].ResetUpdate? ::
          && UpdateOk(s.db.resets, Update(s.procs[pid].token, s.procs[pid].user))
          && (forall i | 0 <= i < |s.hist.updates| :: s.hist.updates[i].token != s.procs[pid].token))
    && (forall pid, qid | pid in s.procs && qid in s.procs && pid != qid
          && s.procs[pid].ResetUpdate? && s.procs[qid].ResetUpdate? :: s.procs[pid].token != s.procs[qid].token)
  }

  lemma StepKeepsUpdates(s: Sys, pid: Id, fault: Fault, a: Id, m: Move, s': Sys)
    requires UpdatesOk(s) && pid in s.procs && m.Move? && Grows(s, s')
    requires ResetSlice(s, s.procs[pid], fault, a, m) && NextSlice(s, s.procs[pid], fault, m)
    requires s' == s.(db := m.db, hist := m.hist, procs := Put(s.procs, pid, m.next))
    ensures UpdatesOk(s')
  {
  }

  lemma ApplyKeepsUpdates(s: Sys, e: Event)
    requires Inv(s) && UpdatesOk(s)
    ensures UpdatesOk(Apply(s, e))
  {
    ApplyKeeps(s, e);
    if e.Step? && e.pid in s.procs {
      var m := React(s.cfg, s.now, s.db, s.hist, s.procs[e.pid], e.fault, e.a, e.b);
      if m.Move? {
        ResetSliceHolds(s, s.procs[e.pid], e.fault, e.a, e.b, m);
        NextSliceHolds(s, s.procs[e.pid], e.fault, e.a, e.b, m);
        StepKeepsUpdates(s, e.pid, e.fault, e.a, m, Apply(s, e));
      }
    }
  }

  lemma {:induction false} RunKeepsUpdates(s: Sys, events: seq<Event>)
    requires Inv(s) && UpdatesOk(s)
    ensures UpdatesOk(Exec(s, events))
    decreases |events|
  {
    if events != [] {
      ApplyKeeps(s, events[0]);
      ApplyKeepsUpdates(s, events[0]);
      RunKeepsUpdates(Apply(s, events[0]), events[1..]);
    }
  }

  lemma {:induction false} DistinctFit(updates: seq<Update>, keys: set<Hash>)
    requires forall i | 0 <= i < |updates| :: updates[i].token in keys
    requires forall i, j | 0 <= i < j < |updates| :: updates[i].token != updates[j].token
    ensures |updates| <= |keys|
    decreases |updates|
  {
    if updates != [] {
      var last := |updates| - 1;
      DistinctFit(updates[..last], keys - {updates[last].token});
    }
  }

  /**
   * In every interleaving each password update uses up its own reset token, which was issued to the
   * user whose password changes and was consumed before it expired; so updates never outnumber tokens.
   */
  lemma ResetTokensSingleUse(cfg: Config, events: seq<Event>)
    ensures var s := Exec(Init(cfg), events);
            && (forall i | 0 <= i < |s.hist.updates| :: UpdateOk(s.db.resets, s.hist.updates[i]))
            && (forall i, j | 0 <= i < j < |s.hist.updates| :: s.hist.updates[i].token != s.hist.updates[j].token)
            && |s.hist.updates| <= |s.db.resets|
  {
    var s := Exec(Init(cfg), events);
    InitKeeps(cfg);
    RunKeepsUpdates(Init(cfg), events);
    DistinctFit(s.hist.updates, s.db.resets.Keys);
  }
}
