/** The bound of the conservation law is reached: two Refresh calls can both rotate one token. */
module Race {
  import opened Types
  import opened RefreshTable
  import opened Machine
  import opened Reach
  import opened Conservation

  lemma ProfileRuns(s: Sys, pid: Id, g: Grant, parent: Option<Hash>) returns (s': Sys)
    requires pid in s.procs && s.procs[pid] == IssueProfile(g, parent)
    ensures Reaches(s, s') && s' == s.(procs := s.procs[pid := IssueSession(g, parent)])
  {
    s' := TakeIssue(s, pid, NoFault, 0, 0);
  }

  lemma SessionRuns(s: Sys, pid: Id, g: Grant, parent: Option<Hash>) returns (s': Sys)
    requires pid in s.procs && s.procs[pid] == IssueSession(g, parent)
    ensures Reaches(s, s') && s'.cfg == s.cfg && s'.now == s.now && s'.hist == s.hist
    ensures s'.procs == s.procs[pid := IssueAccess(g, parent)] && s'.db.rows == s.db.rows
  {
    s' := TakeIssue(s, pid, NoFault, 0, 0);
  }

  lemma AccessRuns(s: Sys, pid: Id, g: Grant, parent: Option<Hash>, jti: Id, hash: Hash) returns (s': Sys)
    requires pid in s.procs && s.procs[pid] == IssueAccess(g, parent) && jti !in s.hist.access
    ensures Reaches(s, s') && s'.cfg == s.cfg && s'.now == s.now && s'.db == s.db
    ensures s'.procs == s.procs[pid := IssueSave(g, parent, hash)]
    ensures s'.hist.access.Keys == s.hist.access.Keys + {jti} && s'.hist.wastedIn == s.hist.wastedIn
  {
    s' := TakeIssue(s, pid, NoFault, jti, hash);
  }

  lemma SaveRuns(s: Sys, pid: Id, g: Grant, parent: Option<Hash>, hash: Hash) returns (s': Sys)
    requires pid in s.procs && s.procs[pid] == IssueSave(g, parent, hash) && hash !in s.db.rows
    ensures Reaches(s, s') && s'.cfg == s.cfg && s'.now == s.now && s'.procs == s.procs - {pid}
    ensures s'.db.rows == s.db.rows[hash := Row(g, s.now, s.now + s.cfg.refreshTtl, None)]
    ensures s'.hist.access == s.hist.access && s'.hist.wastedIn == s.hist.wastedIn
  {
    s' := TakeIssue(s, pid, NoFault, 0, 0);
  }

  /** `issueTokens` runs to its end without a fault: `jti` is signed and `hash` is saved. */
  lemma IssueRuns(s: Sys, pid: Id, g: Grant, parent: Option<Hash>, jti: Id, hash: Hash) returns (s': Sys)
    requires pid in s.procs && s.procs[pid] == IssueProfile(g, parent)
    requires jti !in s.hist.access && hash !in s.db.rows
    ensures Reaches(s, s') && s'.cfg == s.cfg && s'.now == s.now && s'.procs == s.procs - {pid}
    ensures s'.db.rows == s.db.rows[hash := Row(g, s.now, s.now + s.cfg.refreshTtl, None)]
    ensures s'.hist.access.Keys == s.hist.access.Keys + {jti} && s'.hist.wastedIn == s.hist.wastedIn
  {
    var s1 := ProfileRuns(s, pid, g, parent);
    var s2 := SessionRuns(s1, pid, g, parent);
    ReachesThen(s, s1, s2);
    var s3 := AccessRuns(s2, pid, g, parent, jti, hash);
    ReachesThen(s, s2, s3);
    s' := SaveRuns(s3, pid, g, parent, hash);
    ReachesThen(s, s3, s');
  }

  /** Both calls look the token up before either revokes it. */
  lemma BothRevoke(s: Sys, p: Id, q: Id, hash: Hash) returns (s': Sys)
    requires p != q && p !in s.procs && q !in s.procs && Accepted(s, hash)
    ensures Reaches(s, s') && s'.cfg == s.cfg && s'.now == s.now
    ensures var next := IssueProfile(s.db.rows[hash].grant, Some(hash)); s'.procs == s.procs[p := next][q := next]
    ensures s'.db.rows == RevokeAll(s.db.rows, {hash}, s.now) && s'.hist.access == s.hist.access
    ensures s'.hist.wastedIn == s.hist.wastedIn + multiset{s.db.rows[hash].grant.family}
  {
    var s1 := Call(s, p, RefreshLookup(hash));
    var s2 := Call(s1, q, RefreshLookup(hash));
    var s3 := TakeRefresh(s2, p, NoFault);
    var s4 := TakeRefresh(s3, q, NoFault);
    var s5 := TakeRefresh(s4, p, NoFault);
    s' := TakeRefresh(s5, q, NoFault);
    ReachesThen(s, s1, s2);
    ReachesThen(s, s2, s3);
    ReachesThen(s, s3, s4);
    ReachesThen(s, s4, s5);
    ReachesThen(s, s5, s');
  }

  /** Two calls issue one after the other. */
  lemma BothIssue(s: Sys, p: Id, q: Id, g: Grant, parent: Option<Hash>, jti: Id, jti': Id, h: Hash, h': Hash)
    returns (s': Sys)
    requires p != q && p in s.procs && q in s.procs
    requires s.procs[p] == IssueProfile(g, parent) && s.procs[q] == IssueProfile(g, parent)
    requires jti != jti' && jti !in s.hist.access && jti' !in s.hist.access
    requires h != h' && h !in s.db.rows && h' !in s.db.rows
    ensures Reaches(s, s') && s'.procs == s.procs - {p} - {q} && s'.now == s.now
    ensures var row := Row(g, s.now, s.now + s.cfg.refreshTtl, None); s'.db.rows == s.db.rows[h := row][h' := row]
    ensures s'.hist.wastedIn == s.hist.wastedIn
  {
    var s1 := IssueRuns(s, p, g, parent, jti, h);
    s' := IssueRuns(s1, q, g, parent, jti', h');
    ReachesThen(s, s1, s');
  }

  lemma BothRotate(s: Sys, p: Id, q: Id, hash: Hash, jti: Id, jti': Id, h: Hash, h': Hash) returns (s': Sys)
    requires p != q && p !in s.procs && q !in s.procs && Accepted(s, hash)
    requires jti != jti' && jti !in s.hist.access && jti' !in s.hist.access
    requires h != h' && h !in s.db.rows && h' !in s.db.rows
    ensures Reaches(s, s') && s'.procs == s.procs && s'.now == s.now
    ensures var g := s.db.rows[hash].grant;
            var row := Row(g, s.now, s.now + s.cfg.refreshTtl, None);
            && s'.db.rows == RevokeAll(s.db.rows, {hash}, s.now)[h := row][h' := row]
            && s'.hist.wastedIn == s.hist.wastedIn + multiset{g.family}
  {
    var s1 := BothRevoke(s, p, q, hash);
    s' := BothIssue(s1, p, q, s.db.rows[hash].grant, Some(hash), jti, jti', h, h');
    ReachesThen(s, s1, s');
    assert s1.procs - {p} - {q} == s.procs;
  }

  /** One token revoked and two inserted is one more. */
  lemma OneMore(rows: Rows, now: Time, hash: Hash, h: Hash, h': Hash, row: Row)
    requires Unrevoked(rows, hash) && h !in rows && h' !in rows && h != h'
    requires row.grant == rows[hash].grant && row.revoked.None?
    ensures var family := row.grant.family;
            |UnrevokedIn(RevokeAll(rows, {hash}, now)[h := row][h' := row], family)| == |UnrevokedIn(rows, family)| + 1
  {
    var family := row.grant.family;
    var spent := RevokeAll(rows, {hash}, now);
    RevokeCount(rows, {hash}, now, family);
    SaveCount(spent, h, row, family);
    SaveCount(spent[h := row], h', row, family);
  }

  /**
   * From any state in which a refresh token is accepted, two overlapping Refresh calls can end with
   * one unrevoked token more in its family, at the price of one wasted Revoke. So the bound of the
   * conservation law is reached again after every race, whatever was wasted before.
   */
  lemma TwoTokensPossible(s: Sys, p: Id, q: Id, hash: Hash, jti: Id, jti': Id, h: Hash, h': Hash) returns (s': Sys)
    requires p != q && p !in s.procs && q !in s.procs && Accepted(s, hash)
    requires jti != jti' && jti !in s.hist.access && jti' !in s.hist.access
    requires h != h' && h !in s.db.rows && h' !in s.db.rows
    ensures Reaches(s, s') && s'.procs == s.procs
    ensures var family := s.db.rows[hash].grant.family;
            && {h, h'} <= UnrevokedIn(s'.db.rows, family)
            && |UnrevokedIn(s'.db.rows, family)| == |UnrevokedIn(s.db.rows, family)| + 1
            && s'.hist.wastedIn[family] == s.hist.wastedIn[family] + 1
  {
    s' := BothRotate(s, p, q, hash, jti, jti', h, h');
    OneMore(s.db.rows, s.now, hash, h, h', Row(s.db.rows[hash].grant, s.now, s.now + s.cfg.refreshTtl, None));
  }
}
