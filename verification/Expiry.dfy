/** How long tokens last, in every run: refresh tokens, access tokens and reset tokens. */
module Expiry {
  import opened Types
  import opened RefreshTable
  import opened OneTimeTokens
  import opened Machine
  import opened Slices
  import opened Lineage

  /** A refresh token expires one refresh TTL after it was saved. */
  ghost predicate RowTerms(s: Sys)
  {
    forall h | h in s.db.rows :: s.db.rows[h].expires == s.db.rows[h].created + s.cfg.refreshTtl
  }

  /** An access token is for the owner of its session, and outlasts no more than the access TTL. */
  ghost predicate AccessTerms(s: Sys)
  {
    forall j | j in s.hist.access ::
      var c := s.hist.access[j];
      && c.session in s.hist.owner && s.hist.owner[c.session] == c.user
      && c.exp % 1000 == 0 && c.exp <= s.now + s.cfg.accessTtl
  }

  lemma StepKeepsRowTerms(s: Sys, p: Proc, fault: Fault, m: Move)
    requires RowTerms(s) && m.Move? && RowSlice(s, p, fault, m)
    ensures RowTerms(s.(db := m.db, hist := m.hist))
  {
  }

  /** The step that signs. */
  lemma SignStep(s: Sys, p: Proc, fault: Fault, a: Id, b: Id, m: Move)
    requires Moves(s, p, fault, a, b, m)
    ensures if p.IssueAccess? && fault.NoFault? then
              && a !in s.hist.access && m.hist.access.Keys == s.hist.access.Keys + {a}
              && (forall j | j in s.hist.access :: m.hist.access[j] == s.hist.access[j])
              && m.hist.access[a].user == p.grant.user && m.hist.access[a].session == p.grant.session
              && m.hist.access[a].exp % 1000 == 0
              && m.hist.access[a].exp <= s.now + s.cfg.accessTtl < m.hist.access[a].exp + 1000
            else m.hist.access == s.hist.access
  {
    AccessExpiryBounds(s.now, s.cfg.accessTtl);
  }

  lemma StepKeepsAccessTerms(s: Sys, pid: Id, fault: Fault, a: Id, b: Id, m: Move, s': Sys)
    requires Inv(s) && AccessTerms(s) && pid in s.procs && Moves(s, s.procs[pid], fault, a, b, m)
    requires s' == s.(db := m.db, hist := m.hist, procs := Put(s.procs, pid, m.next)) && HistGrows(s.hist, s'.hist)
    ensures AccessTerms(s')
  {
    var p := s.procs[pid];
    SignStep(s, p, fault, a, b, m);
    if p.IssueAccess? { assert ProcOk(s.now, s.db, s.hist, p) && FamilyOk(s.hist, p.grant.family); }
  }

  lemma ApplyKeepsTerms(s: Sys, e: Event)
    requires Inv(s) && RowTerms(s) && AccessTerms(s)
    ensures RowTerms(Apply(s, e)) && AccessTerms(Apply(s, e))
  {
    ApplyKeeps(s, e);
    if e.Step? && e.pid in s.procs {
      var m := React(s.cfg, s.now, s.db, s.hist, s.procs[e.pid], e.fault, e.a, e.b);
      if m.Move? {
        RowSliceHolds(s, s.procs[e.pid], e.fault, e.a, e.b, m);
        StepKeepsRowTerms(s, s.procs[e.pid], e.fault, m);
        StepKeepsAccessTerms(s, e.pid, e.fault, e.a, e.b, m, Apply(s, e));
      }
    }
  }

  lemma {:induction false} RunKeepsTerms(s: Sys, events: seq<Event>)
    requires Inv(s) && RowTerms(s) && AccessTerms(s)
    ensures RowTerms(Exec(s, events)) && AccessTerms(Exec(s, events))
    decreases |events|
  {
    if events != [] {
      ApplyKeeps(s, events[0]);
      ApplyKeepsTerms(s, events[0]);
      RunKeepsTerms(Apply(s, events[0]), events[1..]);
    }
  }

  /** In every run a Refresh goes on with the token presented exactly within one refresh TTL of its save. */
  lemma RefreshGoesOnIff(cfg: Config, before: seq<Event>, pid: Id, hash: Hash, fault: Fault)
    requires var s := Exec(Init(cfg), before); pid in s.procs && s.procs[pid] == RefreshLookup(hash)
    ensures var s := Exec(Init(cfg), before);
            var s' := Apply(s, Step(pid, fault, 0, 0));
            pid in s'.procs
            && (s'.procs[pid].RefreshRevoke?
                <==> (fault.NoFault? && hash in s.db.rows && s.db.rows[hash].revoked.None?
                      && s.now < s.db.rows[hash].created + cfg.refreshTtl))
  {
    InitKeeps(cfg);
    RunKeepsTerms(Init(cfg), before);
    RunKeepsConfig(Init(cfg), before);
  }

  /** In every run an access token names the user who owns its session, and expires within the access TTL. */
  lemma AccessTokensBounded(cfg: Config, events: seq<Event>, jti: Id)
    requires jti in Exec(Init(cfg), events).hist.access
    ensures var s := Exec(Init(cfg), events);
            var c := s.hist.access[jti];
            && c.session in s.hist.owner && s.hist.owner[c.session] == c.user
            && c.exp % 1000 == 0 && c.exp <= s.now + cfg.accessTtl
  {
    InitKeeps(cfg);
    RunKeepsTerms(Init(cfg), events);
    RunKeepsConfig(Init(cfg), events);
  }

  /** A reset token that is stored lasts one hour. */
  lemma ResetTokenIssued(s: Sys, pid: Id, fault: Fault, hash: Hash)
    requires pid in s.procs && s.procs[pid].ForgotCreate? && !fault.Refused? && hash !in s.db.resets
    ensures var resets := Apply(s, Step(pid, fault, hash, 0)).db.resets;
            hash in resets && resets[hash] == OneTime(s.procs[pid].user, s.now + 3600000, None)
  {
  }

  /** A ResetPassword goes on to its update exactly with an unused token that has not expired. */
  lemma ResetGoesOnIff(s: Sys, pid: Id, fault: Fault)
    requires pid in s.procs && s.procs[pid].ResetConsume?
    ensures var t := s.procs[pid].token;
            var s' := Apply(s, Step(pid, fault, 0, 0));
            pid in s'.procs <==>
              (fault.NoFault? && t in s.db.resets && s.db.resets[t].used.None? && s.now < s.db.resets[t].expires)
  {
  }
}
