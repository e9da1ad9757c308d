/** A family that is not dead can still have a token accepted: death is exactly the end of a family. */
module Revival {
  import opened Types
  import opened RefreshTable
  import opened Machine
  import opened Lineage
  import opened Reach
  import opened Race
  import opened FamilyDeath

  /** The process goes on without a fault and saves a token of its family. */
  lemma SaverSaves(s: Sys, pid: Id) returns (s': Sys, hash: Hash)
    requires pid in s.procs && CanSave(s.db.rows, s.procs[pid]) && Issuing(s.procs[pid])
    ensures Reaches(s, s') && s'.now == s.now && hash in s'.db.rows
    ensures s'.db.rows[hash] == Row(s.procs[pid].grant, s.now, s.now + s.cfg.refreshTtl, None)
  {
    var p := s.procs[pid];
    var jti := Bounded(s.hist.access.Keys);
    hash := Bounded(s.db.rows.Keys);
    match p
    case IssueProfile(g, parent) => s' := IssueRuns(s, pid, g, parent, jti, hash);
    case IssueSession(g, parent) =>
      var s1 := SessionRuns(s, pid, g, parent);
      var s2 := AccessRuns(s1, pid, g, parent, jti, hash);
      ReachesThen(s, s1, s2);
      s' := SaveRuns(s2, pid, g, parent, hash);
      ReachesThen(s, s2, s');
    case IssueAccess(g, parent) =>
      var s1 := AccessRuns(s, pid, g, parent, jti, hash);
      s' := SaveRuns(s1, pid, g, parent, hash);
      ReachesThen(s, s1, s');
    case IssueSave(g, parent, h) =>
      hash := h;
      s' := SaveRuns(s, pid, g, parent, h);
  }

  lemma HolderSaves(s: Sys, pid: Id) returns (s': Sys, hash: Hash)
    requires pid in s.procs && CanSave(s.db.rows, s.procs[pid])
    ensures Reaches(s, s') && s'.now == s.now && hash in s'.db.rows
    ensures s'.db.rows[hash] == Row(s.procs[pid].grant, s.now, s.now + s.cfg.refreshTtl, None)
  {
    if Issuing(s.procs[pid]) {
      s', hash := SaverSaves(s, pid);
    } else {
      var s1 := TakeRefresh(s, pid, NoFault);
      s', hash := SaverSaves(s1, pid);
      ReachesThen(s, s1, s');
    }
  }

  lemma UndeadAccepted(s: Sys, family: Id) returns (after: seq<Event>, hash: Hash)
    requires s.cfg.refreshTtl > 0 && family in s.hist.born && !Dead(s, family)
    ensures Accepted(Exec(s, after), hash) && Exec(s, after).db.rows[hash].grant.family == family
  {
    if Held(s, family) {
      var pid :| pid in s.procs && CanSave(s.db.rows, s.procs[pid]) && s.procs[pid].grant.family == family;
      var s';
      s', hash := HolderSaves(s, pid);
      after :| Exec(s, after) == s';
    } else {
      hash :| hash in s.db.rows && s.db.rows[hash].grant.family == family && Live(s.db.rows, hash, s.now);
      after := [];
      assert Exec(s, after) == s;
    }
  }

  /**
   * In every reachable state, a family that some login drew is dead exactly if no continuation ever has
   * one of its tokens accepted.
   */
  lemma DeadIffNeverAccepted(cfg: Config, before: seq<Event>, family: Id)
    requires cfg.refreshTtl > 0 && family in Exec(Init(cfg), before).hist.born
    ensures Dead(Exec(Init(cfg), before), family)
            <==> (forall after, hash | Accepted(Exec(Exec(Init(cfg), before), after), hash) ::
                    Exec(Exec(Init(cfg), before), after).db.rows[hash].grant.family != family)
  {
    var s := Exec(Init(cfg), before);
    InitKeeps(cfg);
    RunKeeps(Init(cfg), before);
    if Dead(s, family) {
      forall after, hash | Accepted(Exec(s, after), hash) ensures Exec(s, after).db.rows[hash].grant.family != family {
        RunStaysDead(s, after, family);
      }
    } else {
      var after, hash := UndeadAccepted(s, family);
    }
  }

  // ---- two tokens at once ------------------------------------------------------------------------------

  predicate TwoAccepted(s: Sys, family: Id, h: Hash, k: Hash)
  {
    && h != k && Accepted(s, h) && Accepted(s, k)
    && s.db.rows[h].grant.family == family && s.db.rows[k].grant.family == family
  }

  /** Some continuation ends with two tokens of the family accepted at once. */
  ghost predicate CanDouble(s: Sys, family: Id)
  {
    exists after, h, k :: TwoAccepted(Exec(s, after), family, h, k)
  }

  lemma AcceptedDoubles(s: Sys, hash: Hash) returns (after: seq<Event>, h: Hash, k: Hash)
    requires s.cfg.refreshTtl > 0 && Accepted(s, hash)
    ensures TwoAccepted(Exec(s, after), s.db.rows[hash].grant.family, h, k)
  {
    var p := Bounded(s.procs.Keys);
    var jti := Bounded(s.hist.access.Keys);
    h := Bounded(s.db.rows.Keys);
    k := h + 1;
    var s' := BothRotate(s, p, p + 1, hash, jti, jti + 1, h, k);
    after :| Exec(s, after) == s';
  }

  lemma UndeadDoubles(s: Sys, family: Id)
    requires s.cfg.refreshTtl > 0 && family in s.hist.born && !Dead(s, family)
    ensures CanDouble(s, family)
  {
    var first, hash := UndeadAccepted(s, family);
    RunKeepsConfig(s, first);
    var rest, h, k := AcceptedDoubles(Exec(s, first), hash);
    ExecSplit(s, first, rest);
    assert TwoAccepted(Exec(s, first + rest), family, h, k);
  }

  /**
   * In every reachable state: no continuation ever has two tokens of the family accepted at once exactly
   * if the family is dead. So long as one token is accepted, or one call can still save one, the promise of
   * a single token can be broken.
   */
  lemma TwoAcceptedIffUndead(cfg: Config, before: seq<Event>, family: Id)
    requires cfg.refreshTtl > 0 && family in Exec(Init(cfg), before).hist.born
    ensures CanDouble(Exec(Init(cfg), before), family) <==> !Dead(Exec(Init(cfg), before), family)
  {
    var s := Exec(Init(cfg), before);
    InitKeeps(cfg);
    RunKeeps(Init(cfg), before);
    if Dead(s, family) {
      forall after, h, k ensures !TwoAccepted(Exec(s, after), family, h, k) {
        RunStaysDead(s, after, family);
      }
    } else {
      UndeadDoubles(s, family);
    }
  }
}
