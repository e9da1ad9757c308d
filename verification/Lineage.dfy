/** What every run keeps: who a record belongs to, and where a refresh token comes from. */
module Lineage {
  import opened Types
  import opened RefreshTable
  import opened OneTimeTokens
  import S = Sessions
  import opened Machine
  import opened Slices

  // ---- the inductive invariant ------------------------------------------------------------

  predicate FamilyOk(hist: History, family: Id)
  {
    family in hist.born ==>
      var g := hist.born[family];
      && g.family == family && family != NIL_ID
      && g.session in hist.owner && hist.owner[g.session] == g.user
      && g.session in hist.familyOf && hist.familyOf[g.session] == family
  }

  predicate BlobOk(blobs: map<Id, S.Blob>, hist: History, session: Id)
  {
    session in blobs ==> Drawn(hist, Grant(blobs[session].user, session, blobs[session].family))
  }

  /** `parent` is a token of the same grant, revoked no later than `time`. */
  predicate Spent(rows: Rows, parent: Hash, g: Grant, time: Time)
  {
    && parent in rows && rows[parent].grant == g
    && rows[parent].revoked.Some? && rows[parent].revoked.value <= time
  }

  /** A root is its family's only root; any other token was saved after its parent was revoked. */
  predicate RowOk(now: Time, rows: Rows, hist: History, hash: Hash)
  {
    hash in rows ==>
      && Drawn(hist, rows[hash].grant)
      && rows[hash].created <= now
      && (rows[hash].revoked.Some? ==> rows[hash].created <= rows[hash].revoked.value <= now)
      && hash in hist.links && hist.links[hash].birth < |hist.links|
      && match hist.links[hash].parent
         case None =>
           var f := rows[hash].grant.family;
           f in hist.roots && hist.roots[f] == hash
         case Some(p) =>
           && Spent(rows, p, rows[hash].grant, rows[hash].created)
           && p in hist.links && hist.links[p].birth < hist.links[hash].birth
  }

  predicate BanOk(blacklist: map<Id, Time>, hist: History, jti: Id)
  {
    && (jti in hist.banned <==> jti in blacklist)
    && (jti in blacklist ==> jti in hist.access && hist.access[jti].exp <= blacklist[jti])
  }

  /** What a process may rely on between its steps. */
  predicate ProcOk(now: Time, db: Db, hist: History, p: Proc)
  {
    && (Issuing(p) ==>
          Drawn(hist, p.grant) && (p.parent.Some? ==> Spent(db.rows, p.parent.value, p.grant, now)))
    && (p.RefreshRevoke? ==> p.hash in db.rows && db.rows[p.hash].grant == p.grant)
    && (p.LogoutBan? ==> p.jti in hist.access && hist.access[p.jti].exp <= now + p.ttl)
    && (p.ResetUpdate? ==> p.token in db.resets && db.resets[p.token].used.Some? && db.resets[p.token].user == p.user)
  }

  ghost predicate RecordsOk(now: Time, db: Db, hist: History)
  {
    && hist.links.Keys == db.rows.Keys
    && (forall f {:trigger FamilyOk(hist, f)} :: FamilyOk(hist, f))
    && (forall h {:trigger RowOk(now, db.rows, hist, h)} :: RowOk(now, db.rows, hist, h))
    && (forall id {:trigger BlobOk(db.store.blobs, hist, id)} :: BlobOk(db.store.blobs, hist, id))
    && (forall j {:trigger BanOk(db.blacklist, hist, j)} :: BanOk(db.blacklist, hist, j))
  }

  /** A login that has not saved its token yet. */
  predicate FirstIssue(p: Proc)
  {
    Issuing(p) && p.parent.None?
  }

  /** The family's root is saved once, by the one process that drew the family. */
  ghost predicate RootsOk(s: Sys)
  {
    && (forall pid | pid in s.procs && FirstIssue(s.procs[pid]) :: s.procs[pid].grant.family !in s.hist.roots)
    && (forall pid, qid | pid in s.procs && qid in s.procs && FirstIssue(s.procs[pid]) && FirstIssue(s.procs[qid])
          && s.procs[pid].grant.family == s.procs[qid].grant.family :: pid == qid)
    && (forall f | f in s.hist.roots :: f in s.hist.born)
  }

  ghost predicate Inv(s: Sys)
  {
    && RecordsOk(s.now, s.db, s.hist)
    && RootsOk(s)
    && (forall pid | pid in s.procs :: ProcOk(s.now, s.db, s.hist, s.procs[pid]))
  }

  // ---- one step only adds -----------------------------------------------------------------

  /** The history only gains entries. */
  ghost predicate HistGrows(hist: History, hist': History)
  {
    && (forall f | f in hist.born :: f in hist'.born && hist'.born[f] == hist.born[f])
    && (forall id | id in hist.owner :: id in hist'.owner && hist'.owner[id] == hist.owner[id])
    && (forall h | h in hist.links :: h in hist'.links && hist'.links[h] == hist.links[h])
    && (forall j | j in hist.access :: j in hist'.access && hist'.access[j] == hist.access[j])
    && hist.banned <= hist'.banned
  }

  /** A reset token keeps its user and expiry, and is marked used once. */
  ghost predicate ResetsGrow(resets: Tokens, resets': Tokens)
  {
    forall t | t in resets ::
      && t in resets' && resets'[t].(used := None) == resets[t].(used := None)
      && (resets[t].used.Some? ==> resets'[t] == resets[t])
  }

  /** Records, once made, stay as they are; the clock does not go back. */
  ghost predicate Grows(s: Sys, s': Sys)
  {
    && s'.cfg == s.cfg && s.now <= s'.now
    && RowsGrow(s.db.rows, s'.db.rows)
    && HistGrows(s.hist, s'.hist)
    && ResetsGrow(s.db.resets, s'.db.resets)
  }

  lemma RowsOnlyGrow(s: Sys, p: Proc, fault: Fault, m: Move)
    requires m.Move? && RowSlice(s, p, fault, m)
    ensures RowsGrow(s.db.rows, m.db.rows)
  {
  }

  lemma SlicesGrow(s: Sys, p: Proc, fault: Fault, a: Id, b: Id, m: Move, s': Sys)
    requires Sliced(s, p, fault, a, b, m) && s.hist.links.Keys == s.db.rows.Keys
    requires s'.db == m.db && s'.hist == m.hist && s'.cfg == s.cfg && s'.now == s.now
    ensures Grows(s, s')
  {
    RowsOnlyGrow(s, p, fault, m);
  }

  lemma GrowsTrans(s0: Sys, s1: Sys, s2: Sys)
    requires Grows(s0, s1) && Grows(s1, s2)
    ensures Grows(s0, s2)
  {
  }

  // ---- one step keeps the invariant -------------------------------------------------------

  lemma ProcStable(s: Sys, s': Sys, p: Proc)
    requires Grows(s, s') && ProcOk(s.now, s.db, s.hist, p)
    ensures ProcOk(s'.now, s'.db, s'.hist, p)
  {
  }

  lemma SlicesKeepKeys(s: Sys, p: Proc, a: Id, b: Id, m: Move)
    requires m.Move? && FamilySlice(s, p, a, b, m) && SessionSlice(s, p, m) && AccessSlice(s, p, m)
    requires RecordsOk(s.now, s.db, s.hist) && ProcOk(s.now, s.db, s.hist, p)
    ensures forall f :: FamilyOk(m.hist, f)
    ensures forall id :: BlobOk(m.db.store.blobs, m.hist, id)
    ensures forall j :: BanOk(m.db.blacklist, m.hist, j)
  {
    forall f ensures FamilyOk(m.hist, f) { assert FamilyOk(s.hist, f); }
    forall id ensures BlobOk(m.db.store.blobs, m.hist, id) { assert BlobOk(s.db.store.blobs, s.hist, id); }
    forall j ensures BanOk(m.db.blacklist, m.hist, j) { assert BanOk(s.db.blacklist, s.hist, j); }
  }

  lemma SlicesKeepRows(s: Sys, p: Proc, fault: Fault, a: Id, b: Id, m: Move)
    requires m.Move? && FamilySlice(s, p, a, b, m) && RowSlice(s, p, fault, m)
    requires RecordsOk(s.now, s.db, s.hist) && ProcOk(s.now, s.db, s.hist, p)
    requires FirstIssue(p) ==> p.grant.family !in s.hist.roots
    ensures m.hist.links.Keys == m.db.rows.Keys
    ensures forall h :: RowOk(s.now, m.db.rows, m.hist, h)
  {
    if Saves(s, p, fault) && p.parent.Some? { assert RowOk(s.now, s.db.rows, s.hist, p.parent.value); }
    forall h ensures RowOk(s.now, m.db.rows, m.hist, h) { assert RowOk(s.now, s.db.rows, s.hist, h); }
  }

  lemma SlicesKeepNext(s: Sys, p: Proc, fault: Fault, a: Id, b: Id, m: Move)
    requires Sliced(s, p, fault, a, b, m)
    requires RecordsOk(s.now, s.db, s.hist) && ProcOk(s.now, s.db, s.hist, p)
    requires RowsGrow(s.db.rows, m.db.rows) && HistGrows(s.hist, m.hist)
    ensures m.next.Some? ==> ProcOk(s.now, m.db, m.hist, m.next.value)
  {
    if p.RefreshRevoke? { assert RowOk(s.now, s.db.rows, s.hist, p.hash); }
  }

  lemma ApplyKeeps(s: Sys, e: Event)
    requires Inv(s)
    ensures Inv(Apply(s, e)) && Grows(s, Apply(s, e))
  {
    var s' := Apply(s, e);
    match e
    case Tick(_) =>
      forall h ensures RowOk(s'.now, s'.db.rows, s'.hist, h) { assert RowOk(s.now, s.db.rows, s.hist, h); }
      forall pid | pid in s'.procs ensures ProcOk(s'.now, s'.db, s'.hist, s'.procs[pid]) {
        ProcStable(s, s', s.procs[pid]);
      }
    case Start(pid, p) =>
    case Step(pid, fault, a, b) =>
      if pid in s.procs {
        var p := s.procs[pid];
        var m := React(s.cfg, s.now, s.db, s.hist, p, fault, a, b);
        if m.Move? {
          StepSlices(s, p, fault, a, b, m);
          StepKeeps(s, pid, fault, a, b, m, s');
        }
      }
  }

  lemma StepKeeps(s: Sys, pid: Id, fault: Fault, a: Id, b: Id, m: Move, s': Sys)
    requires Inv(s) && pid in s.procs && Sliced(s, s.procs[pid], fault, a, b, m)
    requires s' == s.(db := m.db, hist := m.hist, procs := Put(s.procs, pid, m.next))
    ensures Inv(s') && Grows(s, s')
  {
    var p := s.procs[pid];
    SlicesGrow(s, p, fault, a, b, m, s');
    SlicesKeepKeys(s, p, a, b, m);
    SlicesKeepRows(s, p, fault, a, b, m);
    SlicesKeepNext(s, p, fault, a, b, m);
    forall q | q in s'.procs ensures ProcOk(s'.now, s'.db, s'.hist, s'.procs[q]) {
      if q != pid { ProcStable(s, s', s.procs[q]); }
    }
    StepKeepsRoots(s, pid, fault, a, b, m, s');
  }

  lemma StepKeepsRoots(s: Sys, pid: Id, fault: Fault, a: Id, b: Id, m: Move, s': Sys)
    requires RootsOk(s) && pid in s.procs && Sliced(s, s.procs[pid], fault, a, b, m)
    requires s' == s.(db := m.db, hist := m.hist, procs := Put(s.procs, pid, m.next))
    requires forall q | q in s.procs :: ProcOk(s.now, s.db, s.hist, s.procs[q])
    ensures RootsOk(s')
  {
  }

  lemma InitKeeps(cfg: Config)
    ensures Inv(Init(cfg))
  {
  }

  lemma {:induction false} RunKeeps(s: Sys, events: seq<Event>)
    requires Inv(s)
    ensures Inv(Exec(s, events)) && Grows(s, Exec(s, events))
    decreases |events|
  {
    if events != [] {
      ApplyKeeps(s, events[0]);
      RunKeeps(Apply(s, events[0]), events[1..]);
      GrowsTrans(s, Apply(s, events[0]), Exec(s, events));
    }
  }

  // ---- what it means ----------------------------------------------------------------------

  /** The user, session and family of every refresh token and of every session blob. */
  function Stored(s: Sys): set<Grant>
  {
    (set h | h in s.db.rows :: s.db.rows[h].grant) +
    (set id | id in s.db.store.blobs :: Grant(s.db.store.blobs[id].user, id, s.db.store.blobs[id].family))
  }

  /** Session and family determine each other, and both determine the user, across both stores. */
  lemma SessionAndFamilyAgree(cfg: Config, events: seq<Event>, g: Grant, k: Grant)
    requires g in Stored(Exec(Init(cfg), events)) && k in Stored(Exec(Init(cfg), events))
    ensures g.family == k.family <==> g.session == k.session
    ensures g.family == k.family ==> g == k
  {
    var s := Exec(Init(cfg), events);
    InitKeeps(cfg);
    RunKeeps(Init(cfg), events);
    forall r | r in Stored(s) ensures Drawn(s.hist, r) && FamilyOk(s.hist, r.family) {
      if h :| h in s.db.rows && r == s.db.rows[h].grant {
        assert RowOk(s.now, s.db.rows, s.hist, h);
      } else {
        assert BlobOk(s.db.store.blobs, s.hist, r.session);
      }
    }
  }

  /** `ancestor` is `hash`, or its parent, or its parent's parent, and so on. */
  ghost predicate Descends(links: map<Hash, Link>, hash: Hash, ancestor: Hash)
    requires hash in links
    decreases links[hash].birth
  {
    || hash == ancestor
    || (links[hash].parent.Some?
        && var p := links[hash].parent.value;
           p in links && links[p].birth < links[hash].birth && Descends(links, p, ancestor))
  }

  /**
   * The tokens of a family are a tree rooted at the token its login saved: every token descends
   * from that root, and everything above it was spent before it was created.
   */
  lemma {:induction false} FamilyIsTree(s: Sys, hash: Hash)
    requires Inv(s) && hash in s.db.rows
    ensures s.db.rows[hash].grant.family in s.hist.roots
    ensures var root := s.hist.roots[s.db.rows[hash].grant.family];
            && root in s.hist.links && s.hist.links[root].parent.None?
            && Descends(s.hist.links, hash, root)
    ensures forall up | Descends(s.hist.links, hash, up) && up != hash ::
              Spent(s.db.rows, up, s.db.rows[hash].grant, s.db.rows[hash].created)
    decreases s.hist.links[hash].birth
  {
    assert RowOk(s.now, s.db.rows, s.hist, hash);
    if s.hist.links[hash].parent.Some? {
      var p := s.hist.links[hash].parent.value;
      FamilyIsTree(s, p);
      forall up | Descends(s.hist.links, hash, up) && up != hash
        ensures Spent(s.db.rows, up, s.db.rows[hash].grant, s.db.rows[hash].created)
      {
        assert RowOk(s.now, s.db.rows, s.hist, p);
        assert up == p || Descends(s.hist.links, p, up);
      }
    }
  }

  /** The tree, its order in time and its leaves, in every run. */
  lemma TokensFormATree(cfg: Config, events: seq<Event>, hash: Hash)
    requires hash in Exec(Init(cfg), events).db.rows
    ensures var s := Exec(Init(cfg), events);
            var g := s.db.rows[hash].grant;
            && hash in s.hist.links && g.family in s.hist.roots
            && s.hist.roots[g.family] in s.hist.links
            && Descends(s.hist.links, hash, s.hist.roots[g.family])
            && (forall up | Descends(s.hist.links, hash, up) && up != hash ::
                  Spent(s.db.rows, up, g, s.db.rows[hash].created))
            && (s.hist.links[hash].parent.None? ==> hash == s.hist.roots[g.family])
            && (Unrevoked(s.db.rows, hash) ==> Children(s.hist.links, hash) == {})
  {
    var s := Exec(Init(cfg), events);
    InitKeeps(cfg);
    RunKeeps(Init(cfg), events);
    FamilyIsTree(s, hash);
    assert RowOk(s.now, s.db.rows, s.hist, hash);
    forall child | child in Children(s.hist.links, hash) ensures !Unrevoked(s.db.rows, hash) {
      assert RowOk(s.now, s.db.rows, s.hist, child);
    }
  }

  /** A revocation, once made, is never undone or re-dated, whatever runs next. */
  lemma RevocationIsFinal(cfg: Config, before: seq<Event>, after: seq<Event>, hash: Hash)
    requires hash in Exec(Init(cfg), before).db.rows && Exec(Init(cfg), before).db.rows[hash].revoked.Some?
    ensures var rows := Exec(Init(cfg), before + after).db.rows;
            hash in rows && rows[hash] == Exec(Init(cfg), before).db.rows[hash]
  {
    InitKeeps(cfg);
    RunKeeps(Init(cfg), before);
    RunKeeps(Exec(Init(cfg), before), after);
    ExecSplit(Init(cfg), before, after);
  }
}
