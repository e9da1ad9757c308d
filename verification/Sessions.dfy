/** Session blobs in Redis and the per-user index used for bulk revocation. */
module Sessions {
  import opened Types

  datatype Blob = Blob(user: Id, family: Id, expires: Time)

  /** A set without expiry is what SADD makes of a missing key. */
  datatype Index = Index(ids: set<Id>, expires: Option<Time>)

  /** Expired keys stay in the maps; every read compares with the clock. */
  datatype Store = Store(blobs: map<Id, Blob>, index: map<Id, Index>)

  const EMPTY: Store := Store(map[], map[])

  predicate LiveBlob(st: Store, session: Id, now: Time)
  {
    session in st.blobs && now < st.blobs[session].expires
  }

  /** The live sessions, by a full scan of the key space. */
  function LiveSessions(st: Store, now: Time): set<Id>
  {
    set id | id in st.blobs && LiveBlob(st, id, now)
  }

  /** The live sessions of one user, by a full scan of the key space. */
  function LiveSessionsOf(st: Store, user: Id, now: Time): set<Id>
  {
    set id | id in st.blobs && LiveBlob(st, id, now) && st.blobs[id].user == user
  }

  /** The key exists: it has not expired, and a set that becomes empty is removed. */
  predicate Present(st: Store, user: Id, now: Time)
  {
    && user in st.index && st.index[user].ids != {}
    && (st.index[user].expires.None? || now < st.index[user].expires.value)
  }

  predicate Outlasts(ix: Index, time: Time)
  {
    ix.expires.None? || time <= ix.expires.value
  }

  /** SMEMBERS: a missing index reads as empty. */
  function Members(st: Store, user: Id, now: Time): set<Id>
  {
    if Present(st, user, now) then st.index[user].ids else {}
  }

  /** SET, SADD and EXPIRE in one pipeline. */
  function Save(st: Store, session: Id, user: Id, family: Id, ttl: nat, now: Time): Store
  {
    Store(st.blobs[session := Blob(user, family, now + ttl)],
          st.index[user := Index(Members(st, user, now) + {session}, Some(now + WholeSeconds(ttl)))])
  }

  /** DEL and SREM in one pipeline. */
  function Delete(st: Store, session: Id, user: Id): Store
  {
    Store(st.blobs - {session},
          if user in st.index
          then st.index[user := Index(st.index[user].ids - {session}, st.index[user].expires)]
          else st.index)
  }

  /** DEL of every listed session and of the index itself, in one pipeline. */
  function Drop(st: Store, user: Id, ids: set<Id>): Store
  {
    Store(st.blobs - ids, st.index - {user})
  }

  /** SMEMBERS followed at once by the pipeline; an empty index leaves the store alone. */
  function DeleteAll(st: Store, user: Id, now: Time): Store
  {
    var ids := Members(st, user, now);
    if ids == {} then st else Drop(st, user, ids)
  }

  /**
   * The index agrees with a scan. `owner` says which user a session was opened for;
   * `ttl` is the one TTL every session is saved with.
   */
  ghost predicate IndexAgrees(st: Store, owner: map<Id, Id>, ttl: nat, now: Time)
  {
    && (forall id | LiveBlob(st, id, now) ::
          && id in owner && st.blobs[id].user == owner[id]
          && id in Members(st, owner[id], now)
          && Outlasts(st.index[owner[id]], st.blobs[id].expires)
          && st.blobs[id].expires <= now + ttl)
    && (forall user, id | user in st.index && id in st.index[user].ids :: id in owner && owner[id] == user)
  }

  /** The TTLs that EXPIRE does not shorten. */
  predicate Untruncated(ttl: nat)
  {
    ttl % SECOND == 0 || ttl < SECOND
  }

  lemma SaveKeepsIndex(st: Store, owner: map<Id, Id>, ttl: nat, now: Time, session: Id, user: Id, family: Id)
    requires IndexAgrees(st, owner, ttl, now) && Untruncated(ttl)
    requires session in owner && owner[session] == user
    ensures IndexAgrees(Save(st, session, user, family, ttl, now), owner, ttl, now)
  {
  }

  lemma DeleteKeepsIndex(st: Store, owner: map<Id, Id>, ttl: nat, now: Time, session: Id, user: Id)
    requires IndexAgrees(st, owner, ttl, now)
    ensures IndexAgrees(Delete(st, session, user), owner, ttl, now)
    ensures LiveSessions(Delete(st, session, user), now) == LiveSessions(st, now) - {session}
  {
  }

  /** Bulk delete removes exactly the sessions a scan would: those of `user`, and no others, now or later. */
  lemma DeleteAllIsScan(st: Store, owner: map<Id, Id>, ttl: nat, now: Time, user: Id, later: Time)
    requires IndexAgrees(st, owner, ttl, now) && now <= later
    ensures LiveSessions(DeleteAll(st, user, now), later) == LiveSessions(st, later) - LiveSessionsOf(st, user, later)
    ensures IndexAgrees(DeleteAll(st, user, now), owner, ttl, now)
  {
  }

  lemma TimeKeepsIndex(st: Store, owner: map<Id, Id>, ttl: nat, now: Time, later: Time)
    requires IndexAgrees(st, owner, ttl, now) && now <= later
    ensures IndexAgrees(st, owner, ttl, later)
  {
  }

  lemma NewOwnerKeepsIndex(st: Store, owner: map<Id, Id>, ttl: nat, now: Time, session: Id, user: Id)
    requires IndexAgrees(st, owner, ttl, now) && session !in owner
    ensures IndexAgrees(st, owner[session := user], ttl, now)
  {
  }

  /**
   * The one-session store can outlive its index, so that bulk delete misses the session,
   * exactly when EXPIRE truncates the TTL.
   */
  lemma DeleteAllMissesIffTruncated(session: Id, user: Id, family: Id, ttl: nat, now: Time)
    ensures (exists later | now <= later ::
               var st := Save(EMPTY, session, user, family, ttl, now);
               LiveBlob(DeleteAll(st, user, later), session, later))
            <==> !Untruncated(ttl)
  {
    WholeSecondsBounds(ttl);
    var st := Save(EMPTY, session, user, family, ttl, now);
    if !Untruncated(ttl) {
      var later := now + WholeSeconds(ttl);
      assert now <= later && LiveBlob(DeleteAll(st, user, later), session, later);
    } else {
      forall later | now <= later ensures !LiveBlob(DeleteAll(st, user, later), session, later) {
        if LiveBlob(st, session, later) {
          assert session in Members(st, user, later);
        }
      }
    }
  }

  /**
   * SMEMBERS and the pipeline built from its answer are two commands. A session saved for the user in
   * between breaks the agreement, and outlives the index until it expires, exactly if it was not listed.
   */
  lemma SaveDuringBulkDelete(st: Store, owner: map<Id, Id>, ttl: nat, listed: Time, saved: Time, dropped: Time,
                             session: Id, user: Id, family: Id)
    requires IndexAgrees(st, owner, ttl, listed) && Untruncated(ttl) && Members(st, user, listed) != {}
    requires session in owner && owner[session] == user
    requires listed <= saved <= dropped < saved + ttl
    ensures var ids := Members(st, user, listed);
            var st' := Drop(Save(st, session, user, family, ttl, saved), user, ids);
            && (IndexAgrees(st', owner, ttl, dropped) <==> session in ids)
            && (forall later | dropped <= later < saved + ttl ::
                  LiveBlob(DeleteAll(st', user, later), session, later) <==> session !in ids)
  {
    var ids := Members(st, user, listed);
    var st1 := Save(st, session, user, family, ttl, saved);
    var st' := Drop(st1, user, ids);
    TimeKeepsIndex(st, owner, ttl, listed, saved);
    SaveKeepsIndex(st, owner, ttl, saved, session, user, family);
    TimeKeepsIndex(st1, owner, ttl, saved, dropped);
    if session in ids {
      forall id | LiveBlob(st', id, dropped) ensures owner[id] != user && LiveBlob(st1, id, dropped) {
        if id != session { assert LiveBlob(st, id, listed); }
      }
    } else {
      assert LiveBlob(st', session, dropped) && Members(st', user, dropped) == {};
    }
  }

  // ---- pipelines that take effect in part ---------------------------------------------------------------

  function AfterAdd(st: Store, session: Id, user: Id, now: Time): Store
  {
    st.(index := st.index[user := if Present(st, user, now)
                                  then Index(st.index[user].ids + {session}, st.index[user].expires)
                                  else Index({session}, None)])
  }

  /** EXPIRE of a missing key does nothing. */
  function AfterExpire(st: Store, user: Id, ttl: nat, now: Time): Store
  {
    if Present(st, user, now)
    then st.(index := st.index[user := Index(st.index[user].ids, Some(now + WholeSeconds(ttl)))]) else st
  }

  /** SET, SADD and EXPIRE, each with a fate of its own. */
  function SaveParts(st: Store, session: Id, user: Id, family: Id, ttl: nat, now: Time,
                     setting: Fault, add: Fault, expire: Fault): Store
  {
    var st1 := if setting.Applied() then st.(blobs := st.blobs[session := Blob(user, family, now + ttl)]) else st;
    var st2 := if add.Applied() then AfterAdd(st1, session, user, now) else st1;
    if expire.Applied() then AfterExpire(st2, user, ttl, now) else st2
  }

  /** DEL and SREM. */
  function DeleteParts(st: Store, session: Id, user: Id, del: Fault, rem: Fault): Store
  {
    Store(if del.Applied() then st.blobs - {session} else st.blobs,
          if rem.Applied() && user in st.index
          then st.index[user := Index(st.index[user].ids - {session}, st.index[user].expires)] else st.index)
  }

  /** DEL of those in `gone`, and of the index. */
  function DropParts(st: Store, user: Id, gone: set<Id>, index: Fault): Store
  {
    Store(st.blobs - gone, if index.Applied() then st.index - {user} else st.index)
  }

  /** Commands with one fate are the whole pipeline, or nothing. */
  lemma SamePartsAreWhole(st: Store, session: Id, user: Id, family: Id, ttl: nat, now: Time, fault: Fault)
    ensures SaveParts(st, session, user, family, ttl, now, fault, fault, fault)
         == if fault.Applied() then Save(st, session, user, family, ttl, now) else st
    ensures DeleteParts(st, session, user, fault, fault) == if fault.Applied() then Delete(st, session, user) else st
  {
    if fault.Applied() {
      var st' := SaveParts(st, session, user, family, ttl, now, fault, fault, fault);
      assert st'.index[user] == Index(Members(st, user, now) + {session}, Some(now + WholeSeconds(ttl)));
      assert st'.index == Save(st, session, user, family, ttl, now).index;
    }
  }

  /** Behind SET, the index must list the session and last as long as it. */
  predicate IndexKeepsUp(st: Store, session: Id, user: Id, ttl: nat, now: Time, add: Fault, expire: Fault)
  {
    && (add.Applied() || session in Members(st, user, now))
    && (expire.Applied() || !Present(st, user, now) || Outlasts(st.index[user], now + ttl))
  }

  /** What the commands do to the index of the user; the blobs are those of SET alone. */
  lemma IndexAfterParts(st: Store, session: Id, user: Id, family: Id, ttl: nat, now: Time,
                        setting: Fault, add: Fault, expire: Fault)
    ensures var st' := SaveParts(st, session, user, family, ttl, now, setting, add, expire);
            && st'.blobs == (if setting.Applied() then st.blobs[session := Blob(user, family, now + ttl)] else st.blobs)
            && (forall u | u != user ::
                  (u in st'.index <==> u in st.index) && (u in st.index ==> st'.index[u] == st.index[u]))
            && Members(st', user, now) == Members(st, user, now) + (if add.Applied() then {session} else {})
            && (Present(st', user, now) ==>
                  st'.index[user].expires == if expire.Applied() then Some(now + WholeSeconds(ttl))
                                             else if Present(st, user, now) then st.index[user].expires else None)
            && (user in st'.index && !Present(st', user, now) ==> user in st.index && st'.index[user] == st.index[user])
  {
  }

  /** Save in part keeps the agreement exactly if SET has no effect or the index keeps up with it. */
  lemma SavePartsKeepIff(st: Store, owner: map<Id, Id>, ttl: nat, now: Time, session: Id, user: Id, family: Id,
                         setting: Fault, add: Fault, expire: Fault)
    requires IndexAgrees(st, owner, ttl, now) && Untruncated(ttl)
    requires session in owner && owner[session] == user
    ensures IndexAgrees(SaveParts(st, session, user, family, ttl, now, setting, add, expire), owner, ttl, now)
            <==> (setting.Applied() && ttl > 0 ==> IndexKeepsUp(st, session, user, ttl, now, add, expire))
  {
    WholeSecondsBounds(ttl);
    var st' := SaveParts(st, session, user, family, ttl, now, setting, add, expire);
    IndexAfterParts(st, session, user, family, ttl, now, setting, add, expire);
    if setting.Applied() && ttl > 0 {
      assert LiveBlob(st', session, now);
    }
    forall id | id != session && LiveBlob(st', id, now)
      ensures id in owner && id in Members(st', owner[id], now) && Outlasts(st'.index[owner[id]], st'.blobs[id].expires)
    {
      assert LiveBlob(st, id, now);
    }
    if !setting.Applied() && LiveBlob(st', session, now) {
      assert LiveBlob(st, session, now);
    }
  }

  ghost predicate SaveKeeps(st: Store, owner: map<Id, Id>, ttl: nat, now: Time, session: Id, user: Id, family: Id,
                            setting: Fault, add: Fault, expire: Fault)
  {
    IndexAgrees(st, owner, ttl, now) && session in owner && owner[session] == user
    ==> IndexAgrees(SaveParts(st, session, user, family, ttl, now, setting, add, expire), owner, ttl, now)
  }

  /** Without regard to the store: exactly if SET takes effect only together with both others. */
  lemma FatesKeepIff(ttl: nat, setting: Fault, add: Fault, expire: Fault)
    requires ttl > 1 && Untruncated(ttl)
    ensures (forall st, owner, now, session, user, family ::
               SaveKeeps(st, owner, ttl, now, session, user, family, setting, add, expire))
            <==> (setting.Applied() ==> add.Applied() && expire.Applied())
  {
    WholeSecondsBounds(ttl);
    if setting.Applied() && !add.Applied() {
      SavePartsKeepIff(EMPTY, map[1 := 2], ttl, 0, 1, 2, 3, setting, add, expire);
      assert !SaveKeeps(EMPTY, map[1 := 2], ttl, 0, 1, 2, 3, setting, add, expire);
    } else if setting.Applied() && !expire.Applied() {
      var late := WholeSeconds(ttl) - 1;
      var st := Store(map[], map[2 := Index({1}, Some(late + 1))]);
      SavePartsKeepIff(st, map[1 := 2], ttl, late, 1, 2, 3, setting, add, expire);
      assert !SaveKeeps(st, map[1 := 2], ttl, late, 1, 2, 3, setting, add, expire);
    } else {
      forall st, owner, now, session, user, family
        ensures SaveKeeps(st, owner, ttl, now, session, user, family, setting, add, expire)
      {
        if IndexAgrees(st, owner, ttl, now) && session in owner && owner[session] == user {
          SavePartsKeepIff(st, owner, ttl, now, session, user, family, setting, add, expire);
        }
      }
    }
  }

  /** Delete in part breaks the agreement exactly if SREM takes effect without DEL on a live session of the user. */
  lemma DeletePartsKeepIff(st: Store, owner: map<Id, Id>, ttl: nat, now: Time, session: Id, user: Id,
                           del: Fault, rem: Fault)
    requires IndexAgrees(st, owner, ttl, now)
    ensures IndexAgrees(DeleteParts(st, session, user, del, rem), owner, ttl, now)
            <==> !(rem.Applied() && !del.Applied() && LiveBlob(st, session, now) && st.blobs[session].user == user)
  {
    var st' := DeleteParts(st, session, user, del, rem);
    if rem.Applied() && !del.Applied() && LiveBlob(st, session, now) && st.blobs[session].user == user {
      assert LiveBlob(st', session, now);
    } else {
      forall id | LiveBlob(st', id, now)
        ensures id in owner && id in Members(st', owner[id], now)
      {
        assert LiveBlob(st, id, now);
      }
    }
  }

  /** Bulk delete in part keeps the agreement exactly if the index goes only after all live sessions of the user. */
  lemma DropPartsKeepIff(st: Store, owner: map<Id, Id>, ttl: nat, now: Time, user: Id, gone: set<Id>, index: Fault)
    requires IndexAgrees(st, owner, ttl, now)
    ensures IndexAgrees(DropParts(st, user, gone, index), owner, ttl, now)
            <==> (index.Applied() ==> LiveSessionsOf(st, user, now) <= gone)
  {
    var st' := DropParts(st, user, gone, index);
    if index.Applied() && !(LiveSessionsOf(st, user, now) <= gone) {
      var id :| id in LiveSessionsOf(st, user, now) && id !in gone;
      assert LiveBlob(st', id, now);
    } else {
      forall id | LiveBlob(st', id, now)
        ensures id in owner && id in Members(st', owner[id], now)
      {
        assert LiveBlob(st, id, now);
      }
    }
  }

  class SessionStore {
    var st: Store

    constructor ()
      ensures st == EMPTY
    {
      st := EMPTY;
    }

    /** Each command of the pipeline has a fate of its own; one error is the call's error. */
    method SaveSession(session: Id, user: Id, family: Id, ttl: nat, now: Time, setting: Fault, add: Fault, expire: Fault)
      returns (ok: bool)
      modifies this
      ensures ok <==> setting.NoFault? && add.NoFault? && expire.NoFault?
      ensures st == SaveParts(old(st), session, user, family, ttl, now, setting, add, expire)
    {
      if setting.Applied() {
        st := st.(blobs := st.blobs[session := Blob(user, family, now + ttl)]);
      }
      if add.Applied() {
        var ix := if Present(st, user, now) then st.index[user] else Index({}, None);
        st := st.(index := st.index[user := Index(ix.ids + {session}, ix.expires)]);
        assert {} + {session} == {session};
      }
      if expire.Applied() && Present(st, user, now) {
        st := st.(index := st.index[user := Index(st.index[user].ids, Some(now + WholeSeconds(ttl)))]);
      }
      ok := setting.NoFault? && add.NoFault? && expire.NoFault?;
    }

    method DeleteSession(session: Id, user: Id, del: Fault, rem: Fault)
      modifies this
      ensures st == DeleteParts(old(st), session, user, del, rem)
      ensures del.Applied() ==> session !in st.blobs
    {
      if del.Applied() {
        st := st.(blobs := st.blobs - {session});
      }
      if rem.Applied() && user in st.index {
        st := st.(index := st.index[user := Index(st.index[user].ids - {session}, st.index[user].expires)]);
      }
    }

    /** `listing` is the fate of SMEMBERS, `del` that of the DEL of each session, `index` that of the index. */
    method DeleteAllForUser(user: Id, now: Time, listing: Fault, del: Id -> Fault, index: Fault)
      modifies this
      ensures var ids := Members(old(st), user, now);
              st == if listing.NoFault? && ids != {}
                    then DropParts(old(st), user, (set id | id in ids && del(id).Applied()), index) else old(st)
    {
      var ids := Members(st, user, now);
      if !listing.NoFault? || ids == {} {
        return;
      }
      var todo := ids;
      while todo != {}
        invariant todo <= ids && st.index == old(st.index)
        invariant st.blobs == old(st.blobs) - (set id | id in ids - todo && del(id).Applied())
        decreases todo
      {
        var id :| id in todo;
        if del(id).Applied() {
          st := st.(blobs := st.blobs - {id});
        }
        todo := todo - {id};
      }
      assert ids - todo == ids;
      if index.Applied() {
        st := st.(index := st.index - {user});
      }
    }
  }
}
