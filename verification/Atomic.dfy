/** What each API call does to the machine when it runs alone: its steps, one after the other. */
module Atomic {
  import opened Types
  import opened RefreshTable
  import opened OneTimeTokens
  import S = Sessions
  import opened Machine
  import opened Reach

  /** The fate of each statement of `issueTokens`. */
  datatype IssueFaults = IssueFaults(profile: Fault, session: Fault, access: Fault, save: Fault) {
    predicate Signs() { profile.NoFault? && session.NoFault? && access.NoFault? }
  }

  function IssuedRows(rows: Rows, cfg: Config, now: Time, g: Grant, f: IssueFaults, hash: Hash): Rows
  {
    if f.Signs() && f.save.Applied() && hash !in rows
    then rows[hash := Row(g, now, now + cfg.refreshTtl, None)] else rows
  }

  function IssuedStore(st: S.Store, cfg: Config, now: Time, g: Grant, f: IssueFaults): S.Store
  {
    if f.profile.NoFault? && f.session.Applied() then S.Save(st, g.session, g.user, g.family, cfg.refreshTtl, now) else st
  }

  function IssuedAccess(access: map<Id, Claims>, cfg: Config, now: Time, g: Grant, f: IssueFaults, jti: Id): map<Id, Claims>
  {
    if f.Signs() then access[jti := Claims(g.user, g.session, AccessExpiry(now, cfg.accessTtl))] else access
  }

  /** A lone process changes no history but the tokens signed and the lineage of what it saved. */
  ghost predicate SameHistory(h: History, h': History)
  {
    && h'.born == h.born && h'.owner == h.owner
    && h'.wastedIn == h.wastedIn && h'.wastedOn == h.wastedOn && h'.banned == h.banned && h'.updates == h.updates
  }

  lemma IssueStart(s: Sys, pid: Id, g: Grant, parent: Option<Hash>, f: IssueFaults) returns (s': Sys)
    requires pid in s.procs && s.procs[pid] == IssueProfile(g, parent)
    ensures Reaches(s, s') && s'.cfg == s.cfg && s'.now == s.now && s'.hist == s.hist
    ensures s'.db == s.db.(store := IssuedStore(s.db.store, s.cfg, s.now, g, f))
    ensures s'.procs == if f.profile.NoFault? && f.session.NoFault?
                        then s.procs[pid := IssueAccess(g, parent)] else s.procs - {pid}
  {
    s' := TakeIssue(s, pid, f.profile, 0, 0);
    if f.profile.NoFault? {
      var s1 := s';
      s' := TakeIssue(s1, pid, f.session, 0, 0);
      ReachesThen(s, s1, s');
    }
  }

  lemma IssueSign(s: Sys, pid: Id, g: Grant, parent: Option<Hash>, fault: Fault, jti: Id, hash: Hash) returns (s': Sys)
    requires pid in s.procs && s.procs[pid] == IssueAccess(g, parent) && jti !in s.hist.access
    ensures Reaches(s, s') && s'.cfg == s.cfg && s'.now == s.now && s'.db == s.db && SameHistory(s.hist, s'.hist)
    ensures s'.procs == if fault.NoFault? then s.procs[pid := IssueSave(g, parent, hash)] else s.procs - {pid}
    ensures s'.hist.access == if fault.NoFault?
                              then s.hist.access[jti := Claims(g.user, g.session, AccessExpiry(s.now, s.cfg.accessTtl))]
                              else s.hist.access
  {
    s' := TakeIssue(s, pid, fault, jti, hash);
  }

  lemma IssueEnd(s: Sys, pid: Id, g: Grant, parent: Option<Hash>, fault: Fault, hash: Hash) returns (s': Sys)
    requires pid in s.procs && s.procs[pid] == IssueSave(g, parent, hash)
    ensures Reaches(s, s') && s'.cfg == s.cfg && s'.now == s.now && SameHistory(s.hist, s'.hist)
    ensures s'.procs == s.procs - {pid} && s'.hist.access == s.hist.access
    ensures s'.db == if fault.Applied() && hash !in s.db.rows
                     then s.db.(rows := s.db.rows[hash := Row(g, s.now, s.now + s.cfg.refreshTtl, None)]) else s.db
  {
    s' := TakeIssue(s, pid, fault, 0, 0);
  }

  /** `issueTokens`, run to its end. */
  lemma IssueAlone(s: Sys, pid: Id, g: Grant, parent: Option<Hash>, f: IssueFaults, jti: Id, hash: Hash) returns (s': Sys)
    requires pid in s.procs && s.procs[pid] == IssueProfile(g, parent) && jti !in s.hist.access
    ensures Reaches(s, s') && s'.cfg == s.cfg && s'.now == s.now && SameHistory(s.hist, s'.hist)
    ensures s'.procs == s.procs - {pid}
    ensures s'.db == s.db.(rows := IssuedRows(s.db.rows, s.cfg, s.now, g, f, hash),
                           store := IssuedStore(s.db.store, s.cfg, s.now, g, f))
    ensures s'.hist.access == IssuedAccess(s.hist.access, s.cfg, s.now, g, f, jti)
  {
    s' := IssueStart(s, pid, g, parent, f);
    if f.profile.NoFault? && f.session.NoFault? {
      var s1 := s';
      s' := IssueSign(s1, pid, g, parent, f.access, jti, hash);
      ReachesThen(s, s1, s');
      if f.access.NoFault? {
        var s2 := s';
        s' := IssueEnd(s2, pid, g, parent, f.save, hash);
        ReachesThen(s, s2, s');
      }
    }
  }

  /** A login, from the draw of its ids on. */
  lemma LoginAlone(s: Sys, pid: Id, g: Grant, f: IssueFaults, jti: Id, hash: Hash) returns (s': Sys)
    requires pid !in s.procs && jti !in s.hist.access
    requires g.session !in s.hist.owner && g.family !in s.hist.born && g.family != NIL_ID
    ensures Reaches(s, s') && s'.cfg == s.cfg && s'.now == s.now && s'.procs == s.procs
    ensures s'.db == s.db.(rows := IssuedRows(s.db.rows, s.cfg, s.now, g, f, hash),
                           store := IssuedStore(s.db.store, s.cfg, s.now, g, f))
    ensures s'.hist.access == IssuedAccess(s.hist.access, s.cfg, s.now, g, f, jti)
    ensures SameHistory(s.hist.(born := s.hist.born[g.family := g], owner := s.hist.owner[g.session := g.user]), s'.hist)
  {
    var s1 := Call(s, pid, LoginDraw(g.user));
    var s2 := TakeIssue(s1, pid, NoFault, g.session, g.family);
    ReachesThen(s, s1, s2);
    s' := IssueAlone(s2, pid, g, None, f, jti, hash);
    ReachesThen(s, s2, s');
  }

  /** The fate of each statement of Refresh. */
  datatype RefreshFaults = RefreshFaults(lookup: Fault, replay: Fault, kill: Fault, revoke: Fault, issue: IssueFaults)

  function SpentRows(rows: Rows, now: Time, hash: Hash, fault: Fault): Rows
  {
    if fault.Applied() then RevokeAll(rows, {hash}, now) else rows
  }

  /** A rotation gets to its insert, and the insert takes effect. */
  predicate Inserts(rows: Rows, f: RefreshFaults, hash: Hash)
  {
    f.revoke.NoFault? && f.issue.Signs() && f.issue.save.Applied() && hash !in rows
  }

  /** The table after a Refresh whose lookup found `hash`. */
  function RotatedRows(rows: Rows, cfg: Config, now: Time, hash: Hash, f: RefreshFaults, hash': Hash): Rows
    requires hash in rows
  {
    var spent := SpentRows(rows, now, hash, f.revoke);
    if f.revoke.NoFault? then IssuedRows(spent, cfg, now, rows[hash].grant, f.issue, hash') else spent
  }

  function RotatedStore(st: S.Store, cfg: Config, now: Time, g: Grant, f: RefreshFaults): S.Store
  {
    if f.revoke.NoFault? then IssuedStore(st, cfg, now, g, f.issue) else st
  }

  function RotatedAccess(access: map<Id, Claims>, cfg: Config, now: Time, g: Grant, f: RefreshFaults, jti: Id)
    : map<Id, Claims>
  {
    if f.revoke.NoFault? then IssuedAccess(access, cfg, now, g, f.issue, jti) else access
  }

  /** What a rotation leaves of the family: the old token, its successor, or nothing. */
  lemma RotationLeaves(rows: Rows, cfg: Config, now: Time, hash: Hash, f: RefreshFaults, hash': Hash)
    requires hash in rows && UnrevokedIn(rows, rows[hash].grant.family) == {hash}
    ensures UnrevokedIn(RotatedRows(rows, cfg, now, hash, f, hash'), rows[hash].grant.family)
         == if f.revoke.Refused? then {hash} else if Inserts(rows, f, hash') then {hash'} else {}
  {
  }

  /** The table after a Refresh whose lookup found nothing, or failed. */
  function ReplayedRows(rows: Rows, now: Time, hash: Hash, f: RefreshFaults): Rows
  {
    if hash in rows && rows[hash].revoked.Some? && f.replay.NoFault? && f.kill.Applied()
    then RevokeAll(rows, OfFamily(rows, rows[hash].grant.family), now) else rows
  }

  function RefreshedRows(rows: Rows, cfg: Config, now: Time, hash: Hash, f: RefreshFaults, hash': Hash): Rows
  {
    if f.lookup.NoFault? && Live(rows, hash, now) then RotatedRows(rows, cfg, now, hash, f, hash')
    else ReplayedRows(rows, now, hash, f)
  }

  /** A Refresh touches no family but that of the token presented. */
  lemma RefreshIsLocal(rows: Rows, cfg: Config, now: Time, hash: Hash, f: RefreshFaults, hash': Hash, family: Id)
    requires !(hash in rows && rows[hash].grant.family == family)
    ensures UnrevokedIn(RefreshedRows(rows, cfg, now, hash, f, hash'), family) == UnrevokedIn(rows, family)
  {
  }

  /** A rotation takes tokens away, or exchanges one. */
  lemma RotatedUnrevoked(rows: Rows, cfg: Config, now: Time, hash: Hash, f: RefreshFaults, hash': Hash, family: Id)
    requires Unrevoked(rows, hash)
    ensures var before, after := UnrevokedIn(rows, family), UnrevokedIn(RotatedRows(rows, cfg, now, hash, f, hash'), family);
            after <= before || (hash in before && after == before - {hash} + {hash'})
  {
  }

  lemma NoMore<T>(before: set<T>, after: set<T>, old': T, new': T)
    requires after <= before || (old' in before && after == before - {old'} + {new'})
    ensures |after| <= |before|
  {
    if after <= before {
      assert before == after + (before - after);
    }
  }

  /** A Refresh run alone never leaves a family with more unrevoked tokens, whatever the table and its faults. */
  lemma RefreshNeverAdds(rows: Rows, cfg: Config, now: Time, hash: Hash, f: RefreshFaults, hash': Hash, family: Id)
    ensures |UnrevokedIn(RefreshedRows(rows, cfg, now, hash, f, hash'), family)| <= |UnrevokedIn(rows, family)|
  {
    var after := UnrevokedIn(RefreshedRows(rows, cfg, now, hash, f, hash'), family);
    if f.lookup.NoFault? && Live(rows, hash, now) {
      RotatedUnrevoked(rows, cfg, now, hash, f, hash', family);
    } else {
      assert after <= UnrevokedIn(rows, family);
    }
    NoMore(UnrevokedIn(rows, family), after, hash, hash');
  }

  lemma RevokeAlone(s: Sys, pid: Id, hash: Hash, f: RefreshFaults) returns (s': Sys)
    requires pid !in s.procs && f.lookup.NoFault? && Accepted(s, hash)
    ensures Reaches(s, s') && s'.cfg == s.cfg && s'.now == s.now && s'.hist == s.hist
    ensures s'.db == s.db.(rows := SpentRows(s.db.rows, s.now, hash, f.revoke))
    ensures s'.procs == if f.revoke.NoFault?
                        then s.procs[pid := IssueProfile(s.db.rows[hash].grant, Some(hash))] else s.procs
  {
    var s1 := Call(s, pid, RefreshLookup(hash));
    var s2 := TakeRefresh(s1, pid, f.lookup);
    s' := TakeRefresh(s2, pid, f.revoke);
    ReachesThen(s, s1, s2);
    ReachesThen(s, s2, s');
  }

  /** A Refresh whose lookup finds its token. */
  lemma RotateAlone(s: Sys, pid: Id, hash: Hash, f: RefreshFaults, jti: Id, hash': Hash) returns (s': Sys)
    requires pid !in s.procs && f.lookup.NoFault? && Accepted(s, hash) && jti !in s.hist.access
    ensures Reaches(s, s') && s'.cfg == s.cfg && s'.now == s.now && s'.procs == s.procs && SameHistory(s.hist, s'.hist)
    ensures s'.db == s.db.(rows := RotatedRows(s.db.rows, s.cfg, s.now, hash, f, hash'),
                           store := RotatedStore(s.db.store, s.cfg, s.now, s.db.rows[hash].grant, f))
    ensures s'.hist.access == RotatedAccess(s.hist.access, s.cfg, s.now, s.db.rows[hash].grant, f, jti)
  {
    s' := RevokeAlone(s, pid, hash, f);
    if f.revoke.NoFault? {
      var s1 := s';
      s' := IssueAlone(s1, pid, s.db.rows[hash].grant, Some(hash), f.issue, jti, hash');
      ReachesThen(s, s1, s');
    }
  }

  /** The family a Refresh that found no token goes on to revoke. */
  function KilledFamily(rows: Rows, hash: Hash, fault: Fault): Option<Id>
  {
    if !fault.NoFault? then Some(NIL_ID)
    else if hash in rows && rows[hash].revoked.Some? then Some(rows[hash].grant.family) else None
  }

  /** A Refresh whose lookup finds nothing, or fails. */
  lemma ReplayAlone(s: Sys, pid: Id, hash: Hash, f: RefreshFaults) returns (s': Sys)
    requires pid !in s.procs && !(f.lookup.NoFault? && Accepted(s, hash))
    ensures Reaches(s, s') && s'.cfg == s.cfg && s'.now == s.now && s'.procs == s.procs && s'.hist == s.hist
    ensures var family := KilledFamily(s.db.rows, hash, f.replay);
            s'.db == if family.Some? && f.kill.Applied()
                     then s.db.(rows := RevokeAll(s.db.rows, OfFamily(s.db.rows, family.value), s.now)) else s.db
  {
    var s1 := Call(s, pid, RefreshLookup(hash));
    var s2 := TakeRefresh(s1, pid, f.lookup);
    ReachesThen(s, s1, s2);
    s' := TakeRefresh(s2, pid, f.replay);
    ReachesThen(s, s2, s');
    if KilledFamily(s.db.rows, hash, f.replay).Some? {
      var s3 := s';
      s' := TakeRefresh(s3, pid, f.kill);
      ReachesThen(s, s3, s');
    }
  }

  /** The fate of each statement of Logout. */
  datatype LogoutFaults = LogoutFaults(ban: Fault, revoke: Fault, session: Fault)

  /** The blacklist write happens, and takes effect. */
  predicate Bans(s: Sys, jti: Id, fault: Fault)
  {
    jti in s.hist.access && s.now < s.hist.access[jti].exp && fault.Applied()
  }

  lemma LogoutBans(s: Sys, pid: Id, jti: Id, cookie: Option<Hash>, fault: Fault) returns (s': Sys)
    requires pid in s.procs && jti in s.hist.access && s.now < s.hist.access[jti].exp
    requires s.procs[pid] == LogoutBan(jti, s.hist.access[jti].exp - s.now, cookie)
    ensures Reaches(s, s') && s'.cfg == s.cfg && s'.now == s.now && s'.procs == s.procs[pid := LogoutRevoke(jti, cookie)]
    ensures s'.hist == if fault.Applied() then s.hist.(banned := s.hist.banned + {jti}) else s.hist
    ensures s'.db == if fault.Applied() then s.db.(blacklist := s.db.blacklist[jti := s.hist.access[jti].exp]) else s.db
  {
    s' := TakeLogout(s, pid, fault);
  }

  lemma LogoutBegins(s: Sys, pid: Id, jti: Id, cookie: Option<Hash>) returns (s': Sys)
    requires pid !in s.procs && jti in s.hist.access
    ensures Reaches(s, s') && s'.cfg == s.cfg && s'.now == s.now && s'.hist == s.hist && s'.db == s.db
    ensures s'.procs == s.procs[pid := if s.now < s.hist.access[jti].exp
                                       then LogoutBan(jti, s.hist.access[jti].exp - s.now, cookie)
                                       else LogoutRevoke(jti, cookie)]
  {
    var s1 := Call(s, pid, LogoutBegin(jti, cookie));
    s' := TakeLogout(s1, pid, NoFault);
    ReachesThen(s, s1, s');
  }

  lemma LogoutHead(s: Sys, pid: Id, jti: Id, cookie: Option<Hash>, fault: Fault) returns (s': Sys)
    requires pid !in s.procs && jti in s.hist.access
    ensures Reaches(s, s') && s'.cfg == s.cfg && s'.now == s.now && s'.procs == s.procs[pid := LogoutRevoke(jti, cookie)]
    ensures s'.hist == if Bans(s, jti, fault) then s.hist.(banned := s.hist.banned + {jti}) else s.hist
    ensures s'.db == if Bans(s, jti, fault) then s.db.(blacklist := s.db.blacklist[jti := s.hist.access[jti].exp])
                     else s.db
  {
    s' := LogoutBegins(s, pid, jti, cookie);
    if s.now < s.hist.access[jti].exp {
      var s2 := s';
      s' := LogoutBans(s2, pid, jti, cookie, fault);
      ReachesThen(s, s2, s');
    }
  }

  lemma LogoutAlone(s: Sys, pid: Id, jti: Id, cookie: Option<Hash>, f: LogoutFaults) returns (s': Sys)
    requires pid !in s.procs && jti in s.hist.access
    ensures Reaches(s, s') && s'.cfg == s.cfg && s'.now == s.now && s'.procs == s.procs
    ensures s'.hist == if Bans(s, jti, f.ban) then s.hist.(banned := s.hist.banned + {jti}) else s.hist
    ensures var c := s.hist.access[jti];
            && s'.db.rows == (if cookie.Some? then SpentRows(s.db.rows, s.now, cookie.value, f.revoke) else s.db.rows)
            && s'.db.store == (if f.session.Applied() then S.Delete(s.db.store, c.session, c.user) else s.db.store)
            && s'.db.resets == s.db.resets
            && s'.db.blacklist == if Bans(s, jti, f.ban) then s.db.blacklist[jti := c.exp] else s.db.blacklist
  {
    var s1 := LogoutHead(s, pid, jti, cookie, f.ban);
    s' := LogoutTail(s1, pid, jti, cookie, f);
    ReachesThen(s, s1, s');
  }

  lemma LogoutTail(s: Sys, pid: Id, jti: Id, cookie: Option<Hash>, f: LogoutFaults) returns (s': Sys)
    requires pid in s.procs && s.procs[pid] == LogoutRevoke(jti, cookie) && jti in s.hist.access
    ensures Reaches(s, s') && s'.cfg == s.cfg && s'.now == s.now && s'.procs == s.procs - {pid} && s'.hist == s.hist
    ensures var c := s.hist.access[jti];
            s'.db == s.db.(
              rows := if cookie.Some? then SpentRows(s.db.rows, s.now, cookie.value, f.revoke) else s.db.rows,
              store := if f.session.Applied() then S.Delete(s.db.store, c.session, c.user) else s.db.store)
  {
    var s1 := TakeLogout(s, pid, f.revoke);
    s' := TakeLogout(s1, pid, f.session);
    ReachesThen(s, s1, s');
  }

  /** The fate of each statement of `revokeAllSessions`. */
  datatype RevokeFaults = RevokeFaults(rows: Fault, listing: Fault, deleting: Fault)

  function ClearedRows(rows: Rows, now: Time, user: Id, fault: Fault): Rows
  {
    if fault.Applied() then RevokeAll(rows, OfUser(rows, user), now) else rows
  }

  function ClearedStore(st: S.Store, now: Time, user: Id, f: RevokeFaults): S.Store
  {
    if f.listing.NoFault? && f.deleting.Applied() then S.DeleteAll(st, user, now) else st
  }

  /** `revokeAllSessions`, run to its end. */
  lemma RevokeAllAlone(s: Sys, pid: Id, user: Id, f: RevokeFaults) returns (s': Sys)
    requires pid in s.procs && s.procs[pid] == RevokeUser(user)
    ensures Reaches(s, s') && s'.cfg == s.cfg && s'.now == s.now && s'.procs == s.procs - {pid} && s'.hist == s.hist
    ensures s'.db == s.db.(rows := ClearedRows(s.db.rows, s.now, user, f.rows),
                           store := ClearedStore(s.db.store, s.now, user, f))
  {
    var s1 := TakeReset(s, pid, f.rows, 0);
    s' := TakeReset(s1, pid, f.listing, 0);
    ReachesThen(s, s1, s');
    if f.listing.NoFault? && S.Members(s.db.store, user, s.now) != {} {
      var s2 := s';
      s' := TakeReset(s2, pid, f.deleting, 0);
      ReachesThen(s, s2, s');
    }
  }

  /** ResetPassword up to and including its password update. */
  lemma ConsumeAlone(s: Sys, pid: Id, token: Hash, consume: Fault, update: Fault) returns (s': Sys)
    requires pid !in s.procs
    ensures Reaches(s, s') && s'.cfg == s.cfg && s'.now == s.now
    ensures var usable := Usable(s.db.resets, token, s.now);
            && s'.db == (if consume.Applied() && usable then s.db.(resets := Use(s.db.resets, token, s.now)) else s.db)
            && SameHistory(s.hist.(updates := s'.hist.updates), s'.hist) && s'.hist.access == s.hist.access
            && s'.procs == (if consume.NoFault? && usable && update.NoFault?
                            then s.procs[pid := RevokeUser(s.db.resets[token].user)] else s.procs)
            && s'.hist.updates == if consume.NoFault? && usable && update.Applied()
                                  then s.hist.updates + [Update(token, s.db.resets[token].user)] else s.hist.updates
  {
    var s1 := Call(s, pid, ResetConsume(token));
    s' := TakeReset(s1, pid, consume, 0);
    ReachesThen(s, s1, s');
    if consume.NoFault? && Usable(s.db.resets, token, s.now) {
      var s2 := s';
      s' := TakeReset(s2, pid, update, 0);
      ReachesThen(s, s2, s');
    }
  }

  /** The insert of ForgotPassword. */
  lemma ForgotAlone(s: Sys, pid: Id, user: Id, fault: Fault, hash: Hash) returns (s': Sys)
    requires pid !in s.procs
    ensures Reaches(s, s') && s'.cfg == s.cfg && s'.now == s.now && s'.procs == s.procs && s'.hist == s.hist
    ensures s'.db == if fault.Applied() && hash !in s.db.resets
                     then s.db.(resets := s.db.resets[hash := OneTime(user, s.now + RESET_TTL, None)]) else s.db
  {
    var s1 := Call(s, pid, ForgotCreate(user));
    s' := TakeReset(s1, pid, fault, hash);
    ReachesThen(s, s1, s');
  }
}
