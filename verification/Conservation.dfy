/**
 * Counting refresh tokens. `Revoke` does not say how many rows it changed, so two Refresh calls
 * can both go on after presenting one token; what is conserved is the number of tokens and of
 * calls about to save one, up to the Revoke statements that changed no row.
 */
module Conservation {
  import opened Types
  import opened RefreshTable
  import opened Machine
  import opened Slices
  import opened Lineage

  // ---- counting processes and tokens --------------------------------------------------------

  function IssuesIn(p: Option<Proc>, family: Id): nat
  {
    if p.Some? && Issuing(p.value) && p.value.grant.family == family then 1 else 0
  }

  function IssuesFrom(p: Option<Proc>, hash: Hash): nat
  {
    if p.Some? && Issuing(p.value) && p.value.parent == Some(hash) then 1 else 0
  }

  lemma InFlightPut(procs: map<Id, Proc>, pid: Id, next: Option<Proc>, family: Id)
    requires pid in procs
    ensures |InFlight(Put(procs, pid, next), family)| + IssuesIn(Some(procs[pid]), family)
         == |InFlight(procs, family)| + IssuesIn(next, family)
  {
    var rest := InFlight(procs - {pid}, family);
    assert InFlight(procs, family) == if IssuesIn(Some(procs[pid]), family) == 1 then rest + {pid} else rest;
    assert InFlight(Put(procs, pid, next), family) == if IssuesIn(next, family) == 1 then rest + {pid} else rest;
  }

  lemma InFlightFromPut(procs: map<Id, Proc>, pid: Id, next: Option<Proc>, hash: Hash)
    requires pid in procs
    ensures |InFlightFrom(Put(procs, pid, next), hash)| + IssuesFrom(Some(procs[pid]), hash)
         == |InFlightFrom(procs, hash)| + IssuesFrom(next, hash)
  {
    var rest := InFlightFrom(procs - {pid}, hash);
    assert InFlightFrom(procs, hash) == if IssuesFrom(Some(procs[pid]), hash) == 1 then rest + {pid} else rest;
    assert InFlightFrom(Put(procs, pid, next), hash) == if IssuesFrom(next, hash) == 1 then rest + {pid} else rest;
  }

  // ---- tokens per family ---------------------------------------------------------------------

  predicate Balanced(s: Sys, family: Id)
  {
    |UnrevokedIn(s.db.rows, family)| + |InFlight(s.procs, family)| <= 1 + s.hist.wastedIn[family]
  }

  lemma SaveCount(rows: Rows, hash: Hash, row: Row, family: Id)
    requires hash !in rows && row.revoked.None?
    ensures |UnrevokedIn(rows[hash := row], family)|
         == |UnrevokedIn(rows, family)| + (if row.grant.family == family then 1 else 0)
  {
    var before := UnrevokedIn(rows, family);
    assert UnrevokedIn(rows[hash := row], family) == if row.grant.family == family then before + {hash} else before;
  }

  lemma RevokeCount(rows: Rows, hashes: set<Hash>, now: Time, family: Id)
    ensures var after := UnrevokedIn(RevokeAll(rows, hashes, now), family);
            && |after| <= |UnrevokedIn(rows, family)|
            && (forall h | hashes == {h} && h in UnrevokedIn(rows, family) :: |after| + 1 == |UnrevokedIn(rows, family)|)
  {
    var before, after := UnrevokedIn(rows, family), UnrevokedIn(RevokeAll(rows, hashes, now), family);
    assert after == before - hashes;
    SubsetSize(after, before);
  }

  lemma ChildCount(links: map<Hash, Link>, hash: Hash, link: Link, parent: Hash)
    requires hash !in links
    ensures |Children(links[hash := link], parent)|
         == |Children(links, parent)| + (if link.parent == Some(parent) then 1 else 0)
  {
    var before := Children(links, parent);
    assert Children(links[hash := link], parent) == if link.parent == Some(parent) then before + {hash} else before;
  }

  /** What one step does to the number of unrevoked tokens of a family. */
  lemma TokensStep(s: Sys, p: Proc, fault: Fault, m: Move, family: Id)
    requires m.Move? && RowSlice(s, p, fault, m) && ProcOk(s.now, s.db, s.hist, p)
    ensures |UnrevokedIn(m.db.rows, family)|
         <= |UnrevokedIn(s.db.rows, family)| + (if Saves(s, p, fault) && p.grant.family == family then 1 else 0)
    ensures p.RefreshRevoke? && fault.NoFault? && Unrevoked(s.db.rows, p.hash) && p.grant.family == family ==>
              |UnrevokedIn(m.db.rows, family)| + 1 == |UnrevokedIn(s.db.rows, family)|
  {
    if Saves(s, p, fault) {
      SaveCount(s.db.rows, p.hash, Row(p.grant, s.now, s.now + s.cfg.refreshTtl, None), family);
    } else if m.db.rows != s.db.rows {
      RevokeCount(s.db.rows, Targets(s.db.rows, p), s.now, family);
    } else if p.RefreshRevoke? && fault.NoFault? {
      RevokeCount(s.db.rows, {p.hash}, s.now, family);
    }
  }

  /** A step starts to issue in a family only by drawing it or by a Revoke. */
  lemma IssuesStep(s: Sys, p: Proc, fault: Fault, m: Move, family: Id)
    requires m.Move? && NextSlice(s, p, fault, m) && IssuesIn(m.next, family) == 1
    ensures || (p.LoginDraw? && family !in s.hist.born)
            || (Issuing(p) && !p.IssueSave? && p.grant.family == family)
            || (p.RefreshRevoke? && fault.NoFault? && p.grant.family == family)
  {
  }

  lemma StepBalances(s: Sys, pid: Id, fault: Fault, a: Id, b: Id, m: Move, s': Sys, family: Id)
    requires Inv(s) && Balanced(s, family) && pid in s.procs && Sliced(s, s.procs[pid], fault, a, b, m)
    requires s' == s.(db := m.db, hist := m.hist, procs := Put(s.procs, pid, m.next))
    ensures Balanced(s', family)
  {
    InFlightPut(s.procs, pid, m.next, family);
    TokensStep(s, s.procs[pid], fault, m, family);
    if IssuesIn(m.next, family) == 1 { IssuesStep(s, s.procs[pid], fault, m, family); }
    if family !in s.hist.born {
      forall h | h in s.db.rows ensures s.db.rows[h].grant.family != family {
        assert RowOk(s.now, s.db.rows, s.hist, h);
      }
      assert UnrevokedIn(s.db.rows, family) == {};
      assert InFlight(s.procs, family) == {};
    }
  }

  lemma ApplyBalances(s: Sys, e: Event, family: Id)
    requires Inv(s) && Balanced(s, family)
    ensures Balanced(Apply(s, e), family)
  {
    match e
    case Tick(_) =>
    case Start(pid, p) =>
      assert InFlight(Apply(s, e).procs, family) == InFlight(s.procs, family);
    case Step(pid, fault, a, b) =>
      if pid in s.procs {
        var m := React(s.cfg, s.now, s.db, s.hist, s.procs[pid], fault, a, b);
        if m.Move? {
          StepSlices(s, s.procs[pid], fault, a, b, m);
          StepBalances(s, pid, fault, a, b, m, Apply(s, e), family);
        }
      }
  }

  lemma {:induction false} RunBalances(s: Sys, events: seq<Event>, family: Id)
    requires Inv(s) && Balanced(s, family)
    ensures Balanced(Exec(s, events), family)
    decreases |events|
  {
    if events != [] {
      ApplyKeeps(s, events[0]);
      ApplyBalances(s, events[0], family);
      RunBalances(Apply(s, events[0]), events[1..], family);
    }
  }

  /**
   * In every run: unrevoked tokens of a family, plus calls that will still save one, never exceed
   * one by more than the Refresh-issued Revoke statements that changed no row.
   */
  lemma TokensConserved(cfg: Config, events: seq<Event>, family: Id)
    ensures var s := Exec(Init(cfg), events);
            |UnrevokedIn(s.db.rows, family)| + |InFlight(s.procs, family)| <= 1 + s.hist.wastedIn[family]
  {
    InitKeeps(cfg);
    RunBalances(Init(cfg), events, family);
  }

  /** Without a wasted Revoke, no two unrevoked tokens share a family. */
  lemma AtMostOneToken(cfg: Config, events: seq<Event>, h: Hash, k: Hash)
    requires var s := Exec(Init(cfg), events);
             && Unrevoked(s.db.rows, h) && Unrevoked(s.db.rows, k)
             && s.db.rows[h].grant.family == s.db.rows[k].grant.family
             && s.hist.wastedIn[s.db.rows[h].grant.family] == 0
    ensures h == k
  {
    var s := Exec(Init(cfg), events);
    var family := s.db.rows[h].grant.family;
    TokensConserved(cfg, events, family);
    var pair := {h, k};
    assert h != k ==> |pair| == 2;
    assert pair <= UnrevokedIn(s.db.rows, family);
    SubsetSize(pair, UnrevokedIn(s.db.rows, family));
  }

  // ---- children per token --------------------------------------------------------------------

  predicate Breeds(s: Sys, hash: Hash)
  {
    |Children(s.hist.links, hash)| + |InFlightFrom(s.procs, hash)|
      <= (if hash in s.db.rows && s.db.rows[hash].revoked.Some? then 1 else 0) + s.hist.wastedOn[hash]
  }

  /** A step starts to issue from a token only by revoking it. */
  lemma IssuesFromStep(s: Sys, p: Proc, fault: Fault, m: Move, hash: Hash)
    requires m.Move? && NextSlice(s, p, fault, m) && IssuesFrom(m.next, hash) == 1
    ensures || (Issuing(p) && !p.IssueSave? && p.parent == Some(hash))
            || (p.RefreshRevoke? && fault.NoFault? && p.hash == hash)
  {
  }

  lemma StepBreeds(s: Sys, pid: Id, fault: Fault, a: Id, b: Id, m: Move, s': Sys, hash: Hash)
    requires Inv(s) && Breeds(s, hash) && pid in s.procs && Sliced(s, s.procs[pid], fault, a, b, m)
    requires s' == s.(db := m.db, hist := m.hist, procs := Put(s.procs, pid, m.next))
    ensures Breeds(s', hash)
  {
    var p := s.procs[pid];
    InFlightFromPut(s.procs, pid, m.next, hash);
    if Saves(s, p, fault) {
      ChildCount(s.hist.links, p.hash, Link(p.parent, |s.hist.links|), hash);
    }
    if IssuesFrom(m.next, hash) == 1 { IssuesFromStep(s, p, fault, m, hash); }
  }

  lemma ApplyBreeds(s: Sys, e: Event, hash: Hash)
    requires Inv(s) && Breeds(s, hash)
    ensures Breeds(Apply(s, e), hash)
  {
    if e.Step? && e.pid in s.procs {
      var m := React(s.cfg, s.now, s.db, s.hist, s.procs[e.pid], e.fault, e.a, e.b);
      if m.Move? {
        StepSlices(s, s.procs[e.pid], e.fault, e.a, e.b, m);
        StepBreeds(s, e.pid, e.fault, e.a, e.b, m, Apply(s, e), hash);
      }
    } else {
      assert InFlightFrom(Apply(s, e).procs, hash) == InFlightFrom(s.procs, hash);
    }
  }

  lemma {:induction false} RunBreeds(s: Sys, events: seq<Event>, hash: Hash)
    requires Inv(s) && Breeds(s, hash)
    ensures Breeds(Exec(s, events), hash)
    decreases |events|
  {
    if events != [] {
      ApplyKeeps(s, events[0]);
      ApplyBreeds(s, events[0], hash);
      RunBreeds(Apply(s, events[0]), events[1..], hash);
    }
  }

  /**
   * In every run a token has at most one child for its revocation and one more for each wasted
   * Revoke on it: where no Revoke is wasted, every family's tree is a chain.
   */
  lemma ChildrenBounded(cfg: Config, events: seq<Event>, hash: Hash)
    ensures var s := Exec(Init(cfg), events);
            && |Children(s.hist.links, hash)| + |InFlightFrom(s.procs, hash)| <= 1 + s.hist.wastedOn[hash]
            && (s.hist.wastedOn[hash] == 0 ==> |Children(s.hist.links, hash)| <= 1)
  {
    InitKeeps(cfg);
    RunBreeds(Init(cfg), events, hash);
  }
}
