/** A session saved while a bulk delete of its user is between its two commands. */
module SessionRace {
  import opened Types
  import opened RefreshTable
  import S = Sessions
  import opened Machine
  import opened Reach
  import opened Slices
  import opened Lineage

  /** The three statements, with time passing between them. */
  function Overlap(p: Id, q: Id, d1: nat, d2: nat): seq<Event>
  {
    [Step(p, NoFault, 0, 0), Tick(d1), Step(q, NoFault, 0, 0), Tick(d2), Step(p, NoFault, 0, 0)]
  }

  /** The bulk delete is about to list the sessions, and the other call is about to save one for the same user. */
  predicate Overlapping(s: Sys, p: Id, q: Id)
  {
    && p in s.procs && s.procs[p].ListSessions?
    && q in s.procs && s.procs[q].IssueSession? && s.procs[q].grant.user == s.procs[p].user
    && S.Members(s.db.store, s.procs[p].user, s.now) != {}
  }

  lemma Unroll(s: Sys, events: seq<Event>)
    requires events != []
    ensures Exec(s, events) == Exec(Apply(s, events[0]), events[1..])
  {
  }

  lemma ExecFive(s: Sys, events: seq<Event>)
    requires |events| == 5
    ensures Exec(s, events)
         == Apply(Apply(Apply(Apply(Apply(s, events[0]), events[1]), events[2]), events[3]), events[4])
  {
    var s1 := Apply(s, events[0]);
    var s2 := Apply(s1, events[1]);
    var s3 := Apply(s2, events[2]);
    Unroll(s, events);
    Unroll(s1, events[1..]);
    Unroll(s2, events[1..][1..]);
    Unroll(s3, events[1..][1..][1..]);
    Unroll(Apply(s3, events[3]), events[1..][1..][1..][1..]);
  }

  /** The sessions have been listed, and `d` has passed. */
  function AfterList(s: Sys, p: Id, d: nat): Sys
    requires p in s.procs && s.procs[p].ListSessions?
  {
    var user := s.procs[p].user;
    s.(now := s.now + d, procs := s.procs[p := DropSessions(user, S.Members(s.db.store, user, s.now))])
  }

  /** The session has been saved, and `d` has passed. */
  function AfterSave(s: Sys, q: Id, d: nat): Sys
    requires q in s.procs && s.procs[q].IssueSession?
  {
    var g := s.procs[q].grant;
    s.(now := s.now + d,
       db := s.db.(store := S.Save(s.db.store, g.session, g.user, g.family, s.cfg.refreshTtl, s.now)),
       procs := s.procs[q := IssueAccess(g, s.procs[q].parent)])
  }

  lemma ListStep(s: Sys, p: Id, d: nat)
    requires p in s.procs && s.procs[p].ListSessions?
    requires S.Members(s.db.store, s.procs[p].user, s.now) != {}
    ensures Apply(Apply(s, Step(p, NoFault, 0, 0)), Tick(d)) == AfterList(s, p, d)
  {
  }

  lemma SaveStep(s: Sys, q: Id, d: nat)
    requires q in s.procs && s.procs[q].IssueSession?
    ensures Apply(Apply(s, Step(q, NoFault, 0, 0)), Tick(d)) == AfterSave(s, q, d)
  {
  }

  lemma DropStep(s: Sys, p: Id)
    requires p in s.procs && s.procs[p].DropSessions?
    ensures var s' := Apply(s, Step(p, NoFault, 0, 0));
            && s'.now == s.now && s'.cfg == s.cfg && s'.hist == s.hist && s'.procs == s.procs - {p}
            && s'.db.store == S.Drop(s.db.store, s.procs[p].user, s.procs[p].ids)
  {
  }

  lemma OverlapExec(s: Sys, p: Id, q: Id, d1: nat, d2: nat)
    requires Overlapping(s, p, q)
    ensures Exec(s, Overlap(p, q, d1, d2)) == Apply(AfterSave(AfterList(s, p, d1), q, d2), Step(p, NoFault, 0, 0))
  {
    ExecFive(s, Overlap(p, q, d1, d2));
    ListStep(s, p, d1);
    SaveStep(AfterList(s, p, d1), q, d2);
  }

  lemma AfterBoth(s: Sys, p: Id, q: Id, d1: nat, d2: nat)
    requires Overlapping(s, p, q)
    ensures var g, s' := s.procs[q].grant, AfterSave(AfterList(s, p, d1), q, d2);
            && s'.now == s.now + d1 + d2 && s'.cfg == s.cfg && s'.hist == s.hist
            && p in s'.procs && s'.procs[p] == DropSessions(g.user, S.Members(s.db.store, g.user, s.now))
            && s'.db.store == S.Save(s.db.store, g.session, g.user, g.family, s.cfg.refreshTtl, s.now + d1)
  {
  }

  lemma OverlapRun(s: Sys, p: Id, q: Id, d1: nat, d2: nat)
    requires Overlapping(s, p, q)
    ensures var g, end := s.procs[q].grant, Exec(s, Overlap(p, q, d1, d2));
            && end.now == s.now + d1 + d2 && end.cfg == s.cfg && end.hist == s.hist && p !in end.procs
            && end.db.store == S.Drop(S.Save(s.db.store, g.session, g.user, g.family, s.cfg.refreshTtl, s.now + d1),
                                      g.user, S.Members(s.db.store, g.user, s.now))
  {
    OverlapExec(s, p, q, d1, d2);
    AfterBoth(s, p, q, d1, d2);
    DropStep(AfterSave(AfterList(s, p, d1), q, d2), p);
  }

  // ---- who lists a session -------------------------------------------------------------------------------

  ghost predicate Lists(st: S.Store, user: Id, session: Id)
  {
    user in st.index && session in st.index[user].ids
  }

  /** A bulk delete of `user` has listed the session and not dropped it yet. */
  predicate Dropping(p: Proc, user: Id, session: Id)
  {
    p.DropSessions? && p.user == user && session in p.ids
  }

  /** Only sessions of a user are listed for that user. */
  ghost predicate ListedOwned(s: Sys)
  {
    && (forall u, id | Lists(s.db.store, u, id) :: id in s.hist.owner && s.hist.owner[id] == u)
    && (forall pid, u, id | pid in s.procs && Dropping(s.procs[pid], u, id) :: id in s.hist.owner && s.hist.owner[id] == u)
  }

  /** What a step does to the session store. */
  lemma StoreSlice(s: Sys, p: Proc, fault: Fault, a: Id, b: Id, m: Move)
    requires Moves(s, p, fault, a, b, m)
    ensures m.db.store == s.db.store
            || (p.IssueSession?
                && m.db.store == S.Save(s.db.store, p.grant.session, p.grant.user, p.grant.family, s.cfg.refreshTtl, s.now))
            || (p.LogoutSession? && p.jti in s.hist.access
                && m.db.store == S.Delete(s.db.store, s.hist.access[p.jti].session, s.hist.access[p.jti].user))
            || (p.DropSessions? && m.db.store == S.Drop(s.db.store, p.user, p.ids))
  {
  }

  lemma NextDrops(s: Sys, p: Proc, fault: Fault, a: Id, b: Id, m: Move)
    requires Moves(s, p, fault, a, b, m)
    ensures m.next.Some? && m.next.value.DropSessions? ==>
              p.ListSessions? && m.next.value == DropSessions(p.user, S.Members(s.db.store, p.user, s.now))
  {
  }

  /** How a step comes to list a session, or to hold it listed. */
  lemma StepLists(s: Sys, p: Proc, fault: Fault, a: Id, b: Id, m: Move, u: Id, id: Id)
    requires Moves(s, p, fault, a, b, m)
    ensures Lists(m.db.store, u, id) && !Lists(s.db.store, u, id) ==>
              p.IssueSession? && u == p.grant.user && id == p.grant.session
    ensures m.next.Some? && Dropping(m.next.value, u, id) ==> p.ListSessions? && Lists(s.db.store, u, id)
  {
    StoreSlice(s, p, fault, a, b, m);
    NextDrops(s, p, fault, a, b, m);
  }

  lemma StepKeepsListed(s: Sys, pid: Id, fault: Fault, a: Id, b: Id, m: Move, s': Sys)
    requires Inv(s) && ListedOwned(s) && pid in s.procs && Moves(s, s.procs[pid], fault, a, b, m)
    requires s' == s.(db := m.db, hist := m.hist, procs := Put(s.procs, pid, m.next)) && HistGrows(s.hist, s'.hist)
    ensures ListedOwned(s')
  {
    var p := s.procs[pid];
    if p.IssueSession? { assert ProcOk(s.now, s.db, s.hist, p) && FamilyOk(s.hist, p.grant.family); }
    forall u, id | Lists(s'.db.store, u, id) ensures id in s.hist.owner && s.hist.owner[id] == u {
      StepLists(s, p, fault, a, b, m, u, id);
    }
    forall q, u, id | q in s'.procs && Dropping(s'.procs[q], u, id) ensures id in s.hist.owner && s.hist.owner[id] == u {
      StepLists(s, p, fault, a, b, m, u, id);
    }
  }

  lemma ApplyKeepsListed(s: Sys, e: Event)
    requires Inv(s) && ListedOwned(s)
    ensures ListedOwned(Apply(s, e))
  {
    ApplyKeeps(s, e);
    if e.Step? && e.pid in s.procs {
      var m := React(s.cfg, s.now, s.db, s.hist, s.procs[e.pid], e.fault, e.a, e.b);
      if m.Move? { StepKeepsListed(s, e.pid, e.fault, e.a, e.b, m, Apply(s, e)); }
    }
  }

  lemma {:induction false} RunKeepsListed(s: Sys, events: seq<Event>)
    requires Inv(s) && ListedOwned(s)
    ensures ListedOwned(Exec(s, events))
    decreases |events|
  {
    if events != [] {
      ApplyKeeps(s, events[0]);
      ApplyKeepsListed(s, events[0]);
      RunKeepsListed(Apply(s, events[0]), events[1..]);
    }
  }

  // ---- a session that no bulk delete can reach -----------------------------------------------------------

  /** The step neither saves nor logs out the session. */
  predicate Leaves(s: Sys, e: Event, session: Id)
  {
    e.Step? && e.pid in s.procs ==>
      var p := s.procs[e.pid];
      && (p.IssueSession? ==> p.grant.session != session)
      && (p.LogoutSession? && p.jti in s.hist.access ==> s.hist.access[p.jti].session != session)
  }

  predicate AllLeave(s: Sys, events: seq<Event>, session: Id)
    decreases |events|
  {
    events == [] || (Leaves(s, events[0], session) && AllLeave(Apply(s, events[0]), events[1..], session))
  }

  ghost predicate Unlisted(s: Sys, session: Id)
  {
    && (forall u :: !Lists(s.db.store, u, session))
    && (forall pid, u | pid in s.procs :: !Dropping(s.procs[pid], u, session))
  }

  lemma StepLeaves(s: Sys, p: Proc, fault: Fault, a: Id, b: Id, m: Move, session: Id)
    requires Moves(s, p, fault, a, b, m) && session in s.db.store.blobs
    requires p.IssueSession? ==> p.grant.session != session
    requires p.LogoutSession? ==> p.jti in s.hist.access && s.hist.access[p.jti].session != session
    requires p.DropSessions? ==> session !in p.ids
    ensures session in m.db.store.blobs && m.db.store.blobs[session] == s.db.store.blobs[session]
  {
    StoreSlice(s, p, fault, a, b, m);
  }

  lemma ApplyLeaves(s: Sys, e: Event, session: Id)
    requires Unlisted(s, session) && session in s.db.store.blobs && Leaves(s, e, session)
    ensures var s' := Apply(s, e);
            && Unlisted(s', session) && session in s'.db.store.blobs
            && s'.db.store.blobs[session] == s.db.store.blobs[session]
  {
    if e.Step? && e.pid in s.procs {
      var p := s.procs[e.pid];
      var m := React(s.cfg, s.now, s.db, s.hist, p, e.fault, e.a, e.b);
      if m.Move? {
        assert p.DropSessions? ==> !Dropping(p, p.user, session);
        StepLeaves(s, p, e.fault, e.a, e.b, m, session);
        forall u ensures !Lists(m.db.store, u, session) && (m.next.Some? ==> !Dropping(m.next.value, u, session)) {
          StepLists(s, p, e.fault, e.a, e.b, m, u, session);
        }
      }
    }
  }

  lemma {:induction false} RunLeaves(s: Sys, events: seq<Event>, session: Id)
    requires Unlisted(s, session) && session in s.db.store.blobs && AllLeave(s, events, session)
    ensures var end := Exec(s, events);
            session in end.db.store.blobs && end.db.store.blobs[session] == s.db.store.blobs[session]
    decreases |events|
  {
    if events != [] {
      ApplyLeaves(s, events[0], session);
      RunLeaves(Apply(s, events[0]), events[1..], session);
    }
  }

  /** Whatever runs next, bulk deletes included, the session lives to `until`, unless saved again or logged out itself. */
  ghost predicate OutOfReach(s: Sys, session: Id, until: Time)
  {
    forall after | AllLeave(s, after, session) && Exec(s, after).now < until ::
      S.LiveBlob(Exec(s, after).db.store, session, Exec(s, after).now)
  }

  ghost predicate DropPending(s: Sys, session: Id)
  {
    exists pid, u :: pid in s.procs && Dropping(s.procs[pid], u, session)
  }

  lemma UnlistedIsOutOfReach(s: Sys, session: Id, until: Time)
    requires Unlisted(s, session) && session in s.db.store.blobs && until <= s.db.store.blobs[session].expires
    ensures OutOfReach(s, session, until)
  {
    forall after | AllLeave(s, after, session) && Exec(s, after).now < until
      ensures S.LiveBlob(Exec(s, after).db.store, session, Exec(s, after).now)
    {
      RunLeaves(s, after, session);
    }
  }

  /** A bulk delete that has listed the session reaches it in one step. */
  lemma PendingReaches(s: Sys, session: Id, until: Time)
    requires s.now < until && DropPending(s, session)
    ensures !OutOfReach(s, session, until)
  {
    var pid, u :| pid in s.procs && Dropping(s.procs[pid], u, session);
    var e := Step(pid, NoFault, 0, 0);
    Unroll(s, [e]);
    assert Exec(s, [e]) == Apply(s, e) && AllLeave(s, [e], session);
    assert !S.LiveBlob(Exec(s, [e]).db.store, session, Exec(s, [e]).now);
  }

  lemma OverlapProcs(s: Sys, p: Id, q: Id, d1: nat, d2: nat)
    requires Overlapping(s, p, q)
    ensures var end := Exec(s, Overlap(p, q, d1, d2));
            forall pid | pid in end.procs ::
              (pid == q && end.procs[pid].IssueAccess?) || (pid in s.procs && pid != p && end.procs[pid] == s.procs[pid])
  {
    OverlapExec(s, p, q, d1, d2);
    DropStep(AfterSave(AfterList(s, p, d1), q, d2), p);
  }

  lemma AfterOverlap(s: Sys, p: Id, q: Id, d1: nat, d2: nat)
    requires Overlapping(s, p, q) && ListedOwned(s) && ListedOwned(Exec(s, Overlap(p, q, d1, d2)))
    requires var g := s.procs[q].grant; g.session in s.hist.owner && s.hist.owner[g.session] == g.user
    ensures var g, end := s.procs[q].grant, Exec(s, Overlap(p, q, d1, d2));
            && (forall u :: !Lists(end.db.store, u, g.session))
            && (g.session in end.db.store.blobs <==> g.session !in S.Members(s.db.store, g.user, s.now))
            && (g.session in end.db.store.blobs ==>
                  end.db.store.blobs[g.session].expires == s.now + d1 + s.cfg.refreshTtl)
  {
    OverlapRun(s, p, q, d1, d2);
  }

  lemma OverlapEscapesIff(s: Sys, p: Id, q: Id, d1: nat, d2: nat)
    requires Overlapping(s, p, q) && ListedOwned(s) && ListedOwned(Exec(s, Overlap(p, q, d1, d2)))
    requires var g := s.procs[q].grant; g.session in s.hist.owner && s.hist.owner[g.session] == g.user
    requires d2 < s.cfg.refreshTtl && Exec(s, Overlap(p, q, d1, d2)).now == s.now + d1 + d2
    ensures var g, end := s.procs[q].grant, Exec(s, Overlap(p, q, d1, d2));
            OutOfReach(end, g.session, s.now + d1 + s.cfg.refreshTtl)
            <==> g.session !in S.Members(s.db.store, g.user, s.now) && !DropPending(end, g.session)
  {
    var end := Exec(s, Overlap(p, q, d1, d2));
    var session, until := s.procs[q].grant.session, s.now + d1 + s.cfg.refreshTtl;
    AfterOverlap(s, p, q, d1, d2);
    if DropPending(end, session) {
      PendingReaches(end, session, until);
    } else if session in end.db.store.blobs {
      UnlistedIsOutOfReach(end, session, until);
    } else {
      assert AllLeave(end, [], session) && Exec(end, []) == end;
    }
  }

  /** The state of a run has listed only what belongs to the user, and so has it after the overlap. */
  lemma OverlapKeepsListed(cfg: Config, before: seq<Event>, p: Id, q: Id, d1: nat, d2: nat)
    ensures ListedOwned(Exec(Init(cfg), before))
    ensures ListedOwned(Exec(Exec(Init(cfg), before), Overlap(p, q, d1, d2)))
  {
    InitKeeps(cfg);
    RunKeepsListed(Init(cfg), before);
    RunKeepsListed(Init(cfg), before + Overlap(p, q, d1, d2));
    ExecSplit(Init(cfg), before, Overlap(p, q, d1, d2));
  }

  /**
   * In every run in which the two overlap like this, the saved session is out of the reach of everything
   * that runs afterwards, until it expires, exactly if it was not listed, nor by any other bulk delete
   * that is still to drop what it listed.
   */
  lemma SaveEscapesIffUnlisted(cfg: Config, before: seq<Event>, p: Id, q: Id, d1: nat, d2: nat)
    requires Overlapping(Exec(Init(cfg), before), p, q) && d2 < cfg.refreshTtl
    ensures var s, end := Exec(Init(cfg), before), Exec(Init(cfg), before + Overlap(p, q, d1, d2));
            var g := s.procs[q].grant;
            && p !in end.procs
            && (OutOfReach(end, g.session, s.now + d1 + cfg.refreshTtl)
                <==> g.session !in S.Members(s.db.store, g.user, s.now) && !DropPending(end, g.session))
  {
    ExecSplit(Init(cfg), before, Overlap(p, q, d1, d2));
    OverlapKeepsListed(cfg, before, p, q, d1, d2);
    OwnsItsSession(cfg, before, q);
    OverlapRun(Exec(Init(cfg), before), p, q, d1, d2);
    OverlapEscapesIff(Exec(Init(cfg), before), p, q, d1, d2);
  }

  lemma OwnsItsSession(cfg: Config, before: seq<Event>, q: Id)
    requires var s := Exec(Init(cfg), before); q in s.procs && s.procs[q].IssueSession?
    ensures var s := Exec(Init(cfg), before);
            var g := s.procs[q].grant;
            s.cfg == cfg && g.session in s.hist.owner && s.hist.owner[g.session] == g.user
  {
    var s := Exec(Init(cfg), before);
    InitKeeps(cfg);
    RunKeeps(Init(cfg), before);
    assert ProcOk(s.now, s.db, s.hist, s.procs[q]);
    assert FamilyOk(s.hist, s.procs[q].grant.family);
  }

  lemma DroppedAgrees(st: S.Store, owner: map<Id, Id>, ttl: nat, now: Time, d1: nat, d2: nat, g: Grant)
    requires S.IndexAgrees(st, owner, ttl, now) && S.Untruncated(ttl) && S.Members(st, g.user, now) != {}
    requires g.session in owner && owner[g.session] == g.user && d2 < ttl
    ensures var ids := S.Members(st, g.user, now);
            S.IndexAgrees(S.Drop(S.Save(st, g.session, g.user, g.family, ttl, now + d1), g.user, ids), owner, ttl,
                          now + d1 + d2)
            <==> g.session in ids
  {
    S.SaveDuringBulkDelete(st, owner, ttl, now, now + d1, now + d1 + d2, g.session, g.user, g.family);
  }

  /** `end` is a state with the store, the clock and the history that the overlap leaves. */
  lemma EndAgrees(s: Sys, end: Sys, d1: nat, d2: nat, g: Grant)
    requires S.IndexAgrees(s.db.store, s.hist.owner, s.cfg.refreshTtl, s.now) && S.Untruncated(s.cfg.refreshTtl)
    requires S.Members(s.db.store, g.user, s.now) != {} && d2 < s.cfg.refreshTtl
    requires g.session in s.hist.owner && s.hist.owner[g.session] == g.user
    requires end.now == s.now + d1 + d2 && end.hist == s.hist
    requires end.db.store == S.Drop(S.Save(s.db.store, g.session, g.user, g.family, s.cfg.refreshTtl, s.now + d1),
                                    g.user, S.Members(s.db.store, g.user, s.now))
    ensures S.IndexAgrees(end.db.store, end.hist.owner, s.cfg.refreshTtl, end.now)
            <==> g.session in S.Members(s.db.store, g.user, s.now)
  {
    DroppedAgrees(s.db.store, s.hist.owner, s.cfg.refreshTtl, s.now, d1, d2, g);
  }

  /** The same for the agreement of the index, where the bulk delete began with it. */
  lemma IndexSurvivesIffListed(cfg: Config, before: seq<Event>, p: Id, q: Id, d1: nat, d2: nat)
    requires Overlapping(Exec(Init(cfg), before), p, q)
    requires S.Untruncated(cfg.refreshTtl) && d2 < cfg.refreshTtl
    requires var s := Exec(Init(cfg), before); S.IndexAgrees(s.db.store, s.hist.owner, cfg.refreshTtl, s.now)
    ensures var s, end := Exec(Init(cfg), before), Exec(Init(cfg), before + Overlap(p, q, d1, d2));
            S.IndexAgrees(end.db.store, end.hist.owner, cfg.refreshTtl, end.now)
            <==> s.procs[q].grant.session in S.Members(s.db.store, s.procs[q].grant.user, s.now)
  {
    var s := Exec(Init(cfg), before);
    OwnsItsSession(cfg, before, q);
    ExecSplit(Init(cfg), before, Overlap(p, q, d1, d2));
    OverlapRun(s, p, q, d1, d2);
    EndAgrees(s, Exec(s, Overlap(p, q, d1, d2)), d1, d2, s.procs[q].grant);
  }

  /** A login up to its session save. */
  lemma LoginBegins(s: Sys, q: Id, g: Grant) returns (s': Sys)
    requires q !in s.procs && g.session !in s.hist.owner && g.family !in s.hist.born && g.family != NIL_ID
    ensures Reaches(s, s') && s'.procs == s.procs[q := IssueSession(g, None)]
    ensures s'.now == s.now && s'.cfg == s.cfg && s'.db == s.db
  {
    var s1 := Call(s, q, LoginDraw(g.user));
    var s2 := TakeIssue(s1, q, NoFault, g.session, g.family);
    s' := TakeIssue(s2, q, NoFault, 0, 0);
    ReachesThen(s, s1, s2);
    ReachesThen(s, s2, s');
  }

  /** A LogoutAll up to its listing, and a login up to its session save. */
  lemma BothBegin(s: Sys, p: Id, q: Id, g: Grant) returns (s': Sys)
    requires p != q && p !in s.procs && q !in s.procs
    requires g.session !in s.hist.owner && g.family !in s.hist.born && g.family != NIL_ID
    ensures Reaches(s, s') && s'.procs == s.procs[p := ListSessions(g.user)][q := IssueSession(g, None)]
    ensures s'.now == s.now && s'.cfg == s.cfg && s'.db.store == s.db.store
  {
    var s1 := Call(s, p, RevokeUser(g.user));
    var s2 := TakeReset(s1, p, NoFault, 0);
    s' := LoginBegins(s2, q, g);
    ReachesThen(s, s1, s2);
    ReachesThen(s, s2, s');
  }

  /** A session nobody has listed is not listed, nor about to be dropped, after the overlap. */
  lemma FreshEscapes(s: Sys, s': Sys, p: Id, q: Id, g: Grant)
    requires ListedOwned(s) && g.session !in s.hist.owner && S.Members(s.db.store, g.user, s.now) != {}
    requires p != q && s'.procs == s.procs[p := ListSessions(g.user)][q := IssueSession(g, None)]
    requires s'.db.store == s.db.store && s'.now == s.now && s'.cfg.refreshTtl > 0
    ensures var end := Exec(s', Overlap(p, q, 0, 0));
            && end.now == s.now && p !in end.procs
            && g.session in end.db.store.blobs && end.db.store.blobs[g.session].user == g.user
            && g.session !in S.Members(s'.db.store, g.user, s'.now) && !DropPending(end, g.session)
  {
    assert g.session in S.Members(s.db.store, g.user, s.now) ==> Lists(s.db.store, g.user, g.session);
    OverlapRun(s', p, q, 0, 0);
    OverlapProcs(s', p, q, 0, 0);
    var end := Exec(s', Overlap(p, q, 0, 0));
    forall pid, u | pid in end.procs ensures !Dropping(end.procs[pid], u, g.session) {
      assert pid in s.procs && pid != q ==> !Dropping(s.procs[pid], u, g.session);
    }
  }

  /**
   * From every reachable state in which a user has a listed session, a LogoutAll of that user and a login
   * overlap so that the LogoutAll runs to its end without an error and leaves the login's session live and
   * out of the reach of everything that runs afterwards, until it expires.
   */
  lemma LoginEscapesLogoutAll(cfg: Config, before: seq<Event>, p: Id, q: Id, g: Grant) returns (events: seq<Event>)
    requires cfg.refreshTtl > 0
    requires var s := Exec(Init(cfg), before);
             && p != q && p !in s.procs && q !in s.procs && S.Members(s.db.store, g.user, s.now) != {}
             && g.session !in s.hist.owner && g.family !in s.hist.born && g.family != NIL_ID
    ensures var s, end := Exec(Init(cfg), before), Exec(Init(cfg), before + events);
            && end.now == s.now && p !in end.procs && g.session in end.db.store.blobs
            && end.db.store.blobs[g.session].user == g.user
            && OutOfReach(end, g.session, end.now + cfg.refreshTtl)
  {
    var s := Exec(Init(cfg), before);
    OverlapKeepsListed(cfg, before, p, q, 0, 0);
    RunKeepsConfig(Init(cfg), before);
    var s' := BothBegin(s, p, q, g);
    var start :| Exec(s, start) == s';
    ExecSplit(Init(cfg), before, start);
    SaveEscapesIffUnlisted(cfg, before + start, p, q, 0, 0);
    events := start + Overlap(p, q, 0, 0);
    assert before + events == before + start + Overlap(p, q, 0, 0);
    ExecSplit(Init(cfg), before + start, Overlap(p, q, 0, 0));
    FreshEscapes(s, s', p, q, g);
  }
}
