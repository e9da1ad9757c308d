/**
 * A step of the machine seen component by component: what it does to the token table, the families,
 * the sessions, the access tokens, the reset tokens and its own process. Every invariant is proved
 * from these views.
 */
module Slices {
  import opened Types
  import opened RefreshTable
  import opened OneTimeTokens
  import opened Machine

  /** The grant is one that some login drew. */
  predicate Drawn(hist: History, g: Grant)
  {
    g.family in hist.born && hist.born[g.family] == g
  }

  /** The move `m` is a step of `p` in `s`. */
  ghost predicate Moves(s: Sys, p: Proc, fault: Fault, a: Id, b: Id, m: Move)
  {
    m.Move? && React(s.cfg, s.now, s.db, s.hist, p, fault, a, b) == m
  }

  /** The tokens a revoking statement names. */
  function Targets(rows: Rows, p: Proc): set<Hash>
  {
    match p
    case RefreshKill(family) => OfFamily(rows, family)
    case RefreshRevoke(hash, _) => {hash}
    case LogoutRevoke(_, Some(hash)) => {hash}
    case RevokeUser(user) => OfUser(rows, user)
    case _ => {}
  }

  /** The step inserts a refresh token. */
  predicate Saves(s: Sys, p: Proc, fault: Fault)
  {
    p.IssueSave? && fault.Applied() && p.hash !in s.db.rows
  }

  /** How a step changes the token table and its lineage: by one insert, one revocation, or not at all. */
  ghost predicate RowSlice(s: Sys, p: Proc, fault: Fault, m: Move)
    requires m.Move?
  {
    if Saves(s, p, fault) then
      && m.db.rows == s.db.rows[p.hash := Row(p.grant, s.now, s.now + s.cfg.refreshTtl, None)]
      && m.hist.links == s.hist.links[p.hash := Link(p.parent, |s.hist.links|)]
      && m.hist.roots == if p.parent.None? then s.hist.roots[p.grant.family := p.hash] else s.hist.roots
    else
      && (m.db.rows == s.db.rows || m.db.rows == RevokeAll(s.db.rows, Targets(s.db.rows, p), s.now))
      && (p.RefreshRevoke? && fault.NoFault? ==> m.db.rows == RevokeAll(s.db.rows, {p.hash}, s.now))
      && m.hist.links == s.hist.links && m.hist.roots == s.hist.roots
  }

  ghost predicate FamilySlice(s: Sys, p: Proc, a: Id, b: Id, m: Move)
    requires m.Move?
  {
    if p.LoginDraw? then
      && a !in s.hist.owner && b !in s.hist.born && b != NIL_ID
      && m.hist.born == s.hist.born[b := Grant(p.user, a, b)]
      && m.hist.owner == s.hist.owner[a := p.user] && m.hist.familyOf == s.hist.familyOf[a := b]
    else
      m.hist.born == s.hist.born && m.hist.owner == s.hist.owner && m.hist.familyOf == s.hist.familyOf
  }

  ghost predicate SessionSlice(s: Sys, p: Proc, m: Move)
    requires m.Move?
  {
    forall id | id in m.db.store.blobs && !(id in s.db.store.blobs && m.db.store.blobs[id] == s.db.store.blobs[id]) ::
      && p.IssueSession? && id == p.grant.session
      && m.db.store.blobs[id].user == p.grant.user && m.db.store.blobs[id].family == p.grant.family
  }

  ghost predicate AccessSlice(s: Sys, p: Proc, m: Move)
    requires m.Move?
  {
    && (forall j | j in s.hist.access :: j in m.hist.access && m.hist.access[j] == s.hist.access[j])
    && ((m.db.blacklist == s.db.blacklist && m.hist.banned == s.hist.banned)
        || (p.LogoutBan? && m.hist.banned == s.hist.banned + {p.jti}
            && m.db.blacklist == s.db.blacklist[p.jti := s.now + p.ttl]))
  }

  ghost predicate ResetSlice(s: Sys, p: Proc, fault: Fault, a: Id, m: Move)
    requires m.Move?
  {
    && (m.db.resets == s.db.resets
        || (p.ForgotCreate? && a !in s.db.resets
            && m.db.resets == s.db.resets[a := OneTime(p.user, s.now + RESET_TTL, None)])
        || (p.ResetConsume? && Usable(s.db.resets, p.token, s.now) && m.db.resets == Use(s.db.resets, p.token, s.now)))
    && m.hist.updates ==
       if p.ResetUpdate? && fault.Applied() then s.hist.updates + [Update(p.token, p.user)] else s.hist.updates
  }

  /** A Revoke of Refresh that ran and changed no row is the only step that is wasted. */
  ghost predicate WasteSlice(s: Sys, p: Proc, fault: Fault, m: Move)
    requires m.Move?
  {
    if p.RefreshRevoke? && fault.NoFault? && !Unrevoked(s.db.rows, p.hash) then
      && m.hist.wastedOn == s.hist.wastedOn + multiset{p.hash}
      && m.hist.wastedIn == s.hist.wastedIn + multiset{p.grant.family}
    else
      m.hist.wastedOn == s.hist.wastedOn && m.hist.wastedIn == s.hist.wastedIn
  }

  /** What the process goes on to do, as far as anything rests on it. */
  ghost predicate NextSlice(s: Sys, p: Proc, fault: Fault, m: Move)
    requires m.Move?
  {
    m.next.Some? ==>
      var q := m.next.value;
      && (Issuing(q) ==>
            || (p.LoginDraw? && q.parent.None? && Drawn(m.hist, q.grant) && q.grant.family !in s.hist.born)
            || (Issuing(p) && !p.IssueSave? && q.parent == p.parent && q.grant == p.grant)
            || (p.RefreshRevoke? && fault.NoFault? && q.parent == Some(p.hash) && q.grant == p.grant))
      && (q.RefreshRevoke? ==> p.RefreshLookup? && Live(s.db.rows, q.hash, s.now) && q.grant == s.db.rows[q.hash].grant)
      && (q.LogoutBan? ==> q.jti in s.hist.access && s.hist.access[q.jti].exp <= s.now + q.ttl)
      && (q.ResetUpdate? ==>
            && p.ResetConsume? && Usable(s.db.resets, p.token, s.now) && m.db.resets == Use(s.db.resets, p.token, s.now)
            && q.token == p.token && q.user == s.db.resets[p.token].user)
  }

  lemma RowSliceHolds(s: Sys, p: Proc, fault: Fault, a: Id, b: Id, m: Move)
    requires Moves(s, p, fault, a, b, m)
    ensures RowSlice(s, p, fault, m)
  {
  }

  lemma FamilySliceHolds(s: Sys, p: Proc, fault: Fault, a: Id, b: Id, m: Move)
    requires Moves(s, p, fault, a, b, m)
    ensures FamilySlice(s, p, a, b, m)
  {
  }

  lemma SessionSliceHolds(s: Sys, p: Proc, fault: Fault, a: Id, b: Id, m: Move)
    requires Moves(s, p, fault, a, b, m)
    ensures SessionSlice(s, p, m)
  {
  }

  lemma AccessSliceHolds(s: Sys, p: Proc, fault: Fault, a: Id, b: Id, m: Move)
    requires Moves(s, p, fault, a, b, m)
    ensures AccessSlice(s, p, m)
  {
  }

  lemma ResetSliceHolds(s: Sys, p: Proc, fault: Fault, a: Id, b: Id, m: Move)
    requires Moves(s, p, fault, a, b, m)
    ensures ResetSlice(s, p, fault, a, m)
  {
  }

  lemma WasteSliceHolds(s: Sys, p: Proc, fault: Fault, a: Id, b: Id, m: Move)
    requires Moves(s, p, fault, a, b, m)
    ensures WasteSlice(s, p, fault, m)
  {
  }

  lemma NextSliceHolds(s: Sys, p: Proc, fault: Fault, a: Id, b: Id, m: Move)
    requires Moves(s, p, fault, a, b, m)
    ensures NextSlice(s, p, fault, m)
  {
  }

  /** All of the above. */
  ghost predicate Sliced(s: Sys, p: Proc, fault: Fault, a: Id, b: Id, m: Move)
  {
    && m.Move?
    && RowSlice(s, p, fault, m) && FamilySlice(s, p, a, b, m) && SessionSlice(s, p, m)
    && AccessSlice(s, p, m) && ResetSlice(s, p, fault, a, m)
    && WasteSlice(s, p, fault, m) && NextSlice(s, p, fault, m)
  }

  lemma StepSlices(s: Sys, p: Proc, fault: Fault, a: Id, b: Id, m: Move)
    requires Moves(s, p, fault, a, b, m)
    ensures Sliced(s, p, fault, a, b, m)
  {
    RowSliceHolds(s, p, fault, a, b, m);
    FamilySliceHolds(s, p, fault, a, b, m);
    SessionSliceHolds(s, p, fault, a, b, m);
    AccessSliceHolds(s, p, fault, a, b, m);
    ResetSliceHolds(s, p, fault, a, b, m);
    WasteSliceHolds(s, p, fault, a, b, m);
    NextSliceHolds(s, p, fault, a, b, m);
  }
}
