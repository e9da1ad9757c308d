/** Vocabulary shared by every store: clock, identifiers, results and infrastructure faults. */
module Types {

  /** Milliseconds on one monotone clock. A row or key with expiry `e` is live at `now` iff `now < e`. */
  type Time = nat

  /** A UUID (user, session, family, jti) or a process number. */
  type Id = nat

  /** A stored token digest; a raw token is represented by its digest. */
  type Hash = nat

  /** The all-zero UUID, which `uuid.New` never returns. */
  const NIL_ID: Id := 0

  datatype Option<+T> = None | Some(value: T)

  datatype Error =
    | NotFound
    | Conflict
    | Unauthorized
    | InvalidInput
    | TokenInvalid
    | AccountLocked
    | RateLimited
    | Internal

  datatype Result<+T> = Ok(value: T) | Err(error: Error)

  /**
   * What happens to one SQL statement or Redis command: it succeeds, it fails without
   * effect, or it takes effect and only the answer is lost.
   */
  datatype Fault = NoFault | Refused | Lost {
    predicate Applied() { !Refused? }
  }

  const SECOND: nat := 1000

  /** The TTL that EXPIRE receives for `ttl`: whole seconds, never less than one. */
  function WholeSeconds(ttl: nat): nat
  {
    var secs := ttl / SECOND;
    (if secs < 1 then 1 else secs) * SECOND
  }

  /** Truncation to seconds never lengthens a TTL of a second or more, and is exact on whole seconds only. */
  lemma WholeSecondsBounds(ttl: nat)
    ensures SECOND <= WholeSeconds(ttl)
    ensures SECOND <= ttl <==> WholeSeconds(ttl) <= ttl
    ensures ttl <= WholeSeconds(ttl) <==> (ttl % SECOND == 0 || ttl < SECOND)
  {
  }

  /** A number above all those in use. */
  lemma {:induction false} Bounded(used: set<nat>) returns (bound: nat)
    ensures forall n | n in used :: n < bound
    decreases used
  {
    if used == {} {
      bound := 0;
    } else {
      var n :| n in used;
      var b := Bounded(used - {n});
      bound := if n < b then b else n + 1;
      forall x | x in used ensures x < bound {
        assert x != n ==> x in used - {n};
      }
    }
  }

  lemma SubsetSize<T>(small: set<T>, big: set<T>)
    requires small <= big
    ensures |small| <= |big|
  {
    assert big == small + (big - small);
  }
}
