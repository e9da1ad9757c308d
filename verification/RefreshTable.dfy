/** The `refresh_tokens` table and the statements that touch it. */
module RefreshTable {
  import opened Types

  /** The user, session and family a refresh token is issued for. */
  datatype Grant = Grant(user: Id, session: Id, family: Id)

  datatype Row = Row(grant: Grant, created: Time, expires: Time, revoked: Option<Time>)

  type Rows = map<Hash, Row>

  predicate Unrevoked(rows: Rows, hash: Hash)
  {
    hash in rows && rows[hash].revoked.None?
  }

  /** The rows `GetByHash` can return at time `now`. */
  predicate Live(rows: Rows, hash: Hash, now: Time)
  {
    Unrevoked(rows, hash) && now < rows[hash].expires
  }

  function OfFamily(rows: Rows, family: Id): set<Hash>
  {
    set h | h in rows && rows[h].grant.family == family
  }

  function OfUser(rows: Rows, user: Id): set<Hash>
  {
    set h | h in rows && rows[h].grant.user == user
  }

  function UnrevokedIn(rows: Rows, family: Id): set<Hash>
  {
    set h | h in rows && rows[h].grant.family == family && rows[h].revoked.None?
  }

  /** `UPDATE ... SET revoked_at = NOW() WHERE <hash in hashes> AND revoked_at IS NULL`. */
  function RevokeAll(rows: Rows, hashes: set<Hash>, now: Time): Rows
  {
    map h | h in rows ::
      if h in hashes && rows[h].revoked.None? then rows[h].(revoked := Some(now)) else rows[h]
  }

  /** Rows are never deleted, only the first revocation changes one, and it is never undone. */
  ghost predicate RowsGrow(rows: Rows, rows': Rows)
  {
    forall h | h in rows ::
      && h in rows'
      && rows'[h].(revoked := None) == rows[h].(revoked := None)
      && (rows[h].revoked.Some? ==> rows'[h].revoked == rows[h].revoked)
  }

  class RefreshRepo {
    var rows: Rows

    constructor ()
      ensures rows == map[]
    {
      rows := map[];
    }

    /** INSERT under the UNIQUE constraint on `token_hash`. */
    method Save(hash: Hash, row: Row, fault: Fault) returns (ok: bool)
      modifies this
      ensures ok <==> fault.NoFault? && hash !in old(rows)
      ensures fault.Lost? && hash !in old(rows) ==> hash in rows
      ensures rows == if fault.Applied() && hash !in old(rows) then old(rows)[hash := row] else old(rows)
      ensures RowsGrow(old(rows), rows)
    {
      if fault.Applied() && hash !in rows {
        rows := rows[hash := row];
        ok := fault.NoFault?;
      } else {
        ok := false;
      }
    }

    method GetByHash(hash: Hash, now: Time, fault: Fault) returns (rec: Option<Grant>)
      ensures rec.Some? <==> fault.NoFault? && hash in rows && rows[hash].revoked.None? && now < rows[hash].expires
      ensures rec.Some? ==> rec.value == rows[hash].grant
    {
      if fault.NoFault? && hash in rows && rows[hash].revoked.None? && now < rows[hash].expires {
        rec := Some(rows[hash].grant);
      } else {
        rec := None;
      }
    }

    /** On a failed query the source still returns a pointer, to the zero UUID. */
    method GetRevokedFamily(hash: Hash, fault: Fault) returns (family: Option<Id>)
      ensures !fault.NoFault? ==> family == Some(NIL_ID)
      ensures fault.NoFault? ==> (family.Some? <==> hash in rows && rows[hash].revoked.Some?)
      ensures fault.NoFault? && family.Some? ==> family.value == rows[hash].grant.family
    {
      if !fault.NoFault? {
        family := Some(NIL_ID);
      } else if hash in rows && rows[hash].revoked.Some? {
        family := Some(rows[hash].grant.family);
      } else {
        family := None;
      }
    }

    /** The caller learns that the statement ran, not how many rows it changed. */
    method Revoke(hash: Hash, now: Time, fault: Fault) returns (ok: bool)
      modifies this
      ensures ok <==> fault.NoFault?
      ensures rows == if fault.Applied() then RevokeAll(old(rows), {hash}, now) else old(rows)
      ensures !fault.Refused? && hash in old(rows) ==>
                hash in rows && rows[hash].revoked == if old(rows)[hash].revoked.None? then Some(now)
                                                      else old(rows)[hash].revoked
      ensures forall h | h in old(rows) && h != hash :: h in rows && rows[h] == old(rows)[h]
    {
      if fault.Applied() {
        rows := RevokeAll(rows, {hash}, now);
      }
      ok := fault.NoFault?;
    }

    method RevokeFamily(family: Id, now: Time, fault: Fault)
      modifies this
      ensures rows == if fault.Applied() then RevokeAll(old(rows), OfFamily(old(rows), family), now) else old(rows)
      ensures !fault.Refused? ==> forall h | h in rows && rows[h].grant.family == family :: rows[h].revoked.Some?
      ensures forall h | h in old(rows) && old(rows)[h].grant.family != family :: h in rows && rows[h] == old(rows)[h]
    {
      if fault.Applied() {
        rows := RevokeAll(rows, OfFamily(rows, family), now);
      }
    }

    method RevokeAllForUser(user: Id, now: Time, fault: Fault)
      modifies this
      ensures rows == if fault.Applied() then RevokeAll(old(rows), OfUser(old(rows), user), now) else old(rows)
      ensures !fault.Refused? ==> forall h | h in rows && rows[h].grant.user == user :: rows[h].revoked.Some?
      ensures forall h | h in old(rows) && old(rows)[h].grant.user != user :: h in rows && rows[h] == old(rows)[h]
    {
      if fault.Applied() {
        rows := RevokeAll(rows, OfUser(rows, user), now);
      }
    }
  }
}
