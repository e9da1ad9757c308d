/** Single-use tokens: the `password_resets` and `email_verifications` tables. */
module OneTimeTokens {
  import opened Types

  datatype OneTime = OneTime(user: Id, expires: Time, used: Option<Time>)

  type Tokens = map<Hash, OneTime>

  predicate Usable(tokens: Tokens, hash: Hash, now: Time)
  {
    hash in tokens && tokens[hash].used.None? && now < tokens[hash].expires
  }

  /** `UPDATE ... SET used_at = NOW()`, the effect of a successful Consume. */
  function Use(tokens: Tokens, hash: Hash, now: Time): Tokens
    requires hash in tokens
  {
    tokens[hash := tokens[hash].(used := Some(now))]
  }

  class OneTimeRepo {
    var tokens: Tokens

    constructor ()
      ensures tokens == map[]
    {
      tokens := map[];
    }

    /** INSERT under the UNIQUE constraint on `token_hash`. */
    method Create(user: Id, hash: Hash, expires: Time, fault: Fault) returns (ok: bool)
      modifies this
      ensures ok <==> fault.NoFault? && hash !in old(tokens)
      ensures tokens == if fault.Applied() && hash !in old(tokens)
                        then old(tokens)[hash := OneTime(user, expires, None)] else old(tokens)
    {
      ok := false;
      if fault.Applied() && hash !in tokens {
        tokens := tokens[hash := OneTime(user, expires, None)];
        ok := fault.NoFault?;
      }
    }

    /** One UPDATE ... RETURNING: the guard and the mark are a single statement. */
    method Consume(hash: Hash, now: Time, fault: Fault) returns (owner: Result<Id>)
      modifies this
      ensures owner.Ok? <==> fault.NoFault? && hash in old(tokens) && old(tokens)[hash].used.None?
                             && now < old(tokens)[hash].expires
      ensures owner.Ok? ==> owner.value == old(tokens)[hash].user && hash in tokens && tokens[hash].used == Some(now)
      ensures fault.NoFault? && owner.Err? ==> owner.error == TokenInvalid
      ensures tokens == if fault.Applied() && Usable(old(tokens), hash, now)
                        then Use(old(tokens), hash, now) else old(tokens)
      ensures fault.Applied() ==> !Usable(tokens, hash, now)
    {
      var hit := hash in tokens && tokens[hash].used.None? && now < tokens[hash].expires;
      if fault.Applied() && hit {
        tokens := tokens[hash := tokens[hash].(used := Some(now))];
      }
      owner := if !fault.NoFault? then Err(Internal)
               else if hit then Ok(tokens[hash].user)
               else Err(TokenInvalid);
    }
  }
}
