/** `RunIdempotent` as one request runs it, against the store it shares with the others. */
module IdempotentRequest {
  import opened Types
  import opened Idempotency
  import K = IdempotencyKeys

  class IdempotencyStore {
    var entries: map<string, Cell>

    constructor ()
      ensures entries == map[]
    {
      entries := map[];
    }

    /** What the key stands for at time `now`. */
    function Value(key: string, now: Time): Option<string>
      reads this
    {
      if key in entries && now < entries[key].expires then Some(entries[key].body) else None
    }

    method Get(key: string, now: Time, fault: Fault) returns (body: Option<string>)
      ensures body == if fault.NoFault? then Value(key, now) else None
    {
      body := if fault.NoFault? && key in entries && now < entries[key].expires then Some(entries[key].body) else None;
    }

    method SetNX(key: string, body: string, ttl: nat, now: Time, fault: Fault) returns (acquired: bool)
      modifies this
      ensures acquired <==> fault.NoFault? && old(Value(key, now)).None?
      ensures fault.Applied() && old(Value(key, now)).None? ==>
                forall later: Time :: Value(key, later) == if later < now + ttl then Some(body) else None
      ensures entries == if fault.Applied() && old(Value(key, now)).None?
                         then old(entries)[key := Cell(body, now + ttl)] else old(entries)
    {
      var free := key !in entries || entries[key].expires <= now;
      if fault.Applied() && free {
        entries := entries[key := Cell(body, now + ttl)];
      }
      acquired := fault.NoFault? && free;
    }

    /** The body is found for `ttl` and no longer, and no other key is touched. */
    method Set(key: string, body: string, ttl: nat, now: Time, fault: Fault)
      modifies this
      ensures fault.Applied() ==>
                forall later: Time :: Value(key, later) == if later < now + ttl then Some(body) else None
      ensures forall other, at: Time | other != key || !fault.Applied() :: Value(other, at) == old(Value(other, at))
      ensures entries == if fault.Applied() then old(entries)[key := Cell(body, now + ttl)] else old(entries)
    {
      if fault.Applied() {
        entries := entries[key := Cell(body, now + ttl)];
      }
    }

    method Delete(key: string, fault: Fault)
      modifies this
      ensures fault.Applied() ==> forall at: Time :: Value(key, at) == None
      ensures forall other, at: Time | other != key || !fault.Applied() :: Value(other, at) == old(Value(other, at))
      ensures entries == if fault.Applied() then old(entries) - {key} else old(entries)
    {
      if fault.Applied() {
        entries := entries - {key};
      }
    }
  }

  /** The machine's view of the two keys one cache key stands for. */
  function CacheAt(entries: map<string, Cell>, cacheKey: string): Option<Cell>
  {
    if cacheKey in entries then Some(entries[cacheKey]) else None
  }

  function LockAt(entries: map<string, Cell>, cacheKey: string): Option<Time>
  {
    if K.LockKey(cacheKey) in entries then Some(entries[K.LockKey(cacheKey)].expires) else None
  }

  method WriteCached(store: IdempotencyStore, key: string, now: Time, fault: Fault) returns (response: Option<Response>)
    ensures response == if fault.NoFault? && Hits(CacheAt(store.entries, key), now)
                        then Some(Created(store.entries[key].body)) else None
  {
    var body := store.Get(key, now, fault);
    response := if body.None? || |body.value| == 0 || body.value[0] != '{' then None else Some(Created(body.value));
  }

  datatype Faults = Faults(first: Fault, lock: Fault, second: Fault, put: Fault, release: Fault)

  /**
   * What the function did: its insert, for a registration that got so far, and what it returned.
   */
  datatype Ran = Ran(create: Option<Fault>, outcome: Option<string>)

  /** An arbitrary function makes no insert; Register returns a body only after its own insert. */
  predicate Possible(kind: Kind, taken: bool, ran: Ran)
  {
    match kind
    case Arbitrary => ran.create.None?
    case Register => ran.outcome.Some? ==> ran.create == Some(NoFault) && !taken
  }

  /** A client that runs alone, up to its call of the function or its answer without one. */
  function Head(s: Sys, id: Id, f: Faults): Sys
  {
    var s1 := Apply(Apply(s, Arrive(id)), Step(id, f.first));
    if !(id in s1.clients && s1.clients[id].TakeLock?) then s1
    else
      var s2 := Apply(s1, Step(id, f.lock));
      if id in s2.clients && s2.clients[id].SecondGet? then Apply(s2, Step(id, f.second)) else s2
  }

  /** The call of the function. */
  function Body(s: Sys, id: Id, ran: Ran): Sys
  {
    Apply(if ran.create.Some? then Apply(s, Create(id, ran.create.value)) else s, Return(id, ran.outcome))
  }

  /** The call of the function and what follows it. */
  function Tail(s: Sys, id: Id, ran: Ran, f: Faults): Sys
  {
    var s1 := Body(s, id, ran);
    Apply(if ran.outcome.Some? then Apply(s1, Step(id, f.put)) else s1, Step(id, f.release))
  }

  /** The events of a client that runs alone to its answer. */
  function Alone(s: Sys, id: Id, ran: Ran, f: Faults): Sys
  {
    var s1 := Head(s, id, f);
    if id in s1.clients && s1.clients[id].Running? then Tail(s1, id, ran, f) else s1
  }

  /** What a lone client answers. */
  function Answer(s: Sys, outcome: Option<string>, f: Faults): Response
  {
    if f.first.NoFault? && Hits(s.cache, s.now) then Created(s.cache.value.body)
    else if !(f.lock.NoFault? && Free(s.lock, s.now))
    then (if f.second.NoFault? && Hits(s.cache, s.now) then Created(s.cache.value.body) else Failed)
    else if outcome.Some? then Created(outcome.value) else Failed
  }

  /** The lone client called the function. */
  predicate Called(s: Sys, f: Faults)
  {
    !(f.first.NoFault? && Hits(s.cache, s.now)) && f.lock.NoFault? && Free(s.lock, s.now)
  }

  /** What a lone client leaves behind. */
  predicate EndTaken(s: Sys, ran: Ran, f: Faults)
  {
    s.taken || (Called(s, f) && ran.create.Some? && ran.create.value.Applied())
  }

  function EndCache(s: Sys, ran: Ran, f: Faults): Option<Cell>
  {
    if Called(s, f) && ran.outcome.Some? && f.put.Applied() then Some(Cell(ran.outcome.value, s.now + IDEM_TTL))
    else s.cache
  }

  function EndLock(s: Sys, f: Faults): Option<Time>
  {
    if Called(s, f) && f.release.Applied() then None
    else if !(f.first.NoFault? && Hits(s.cache, s.now)) && f.lock.Applied() && Free(s.lock, s.now)
    then Some(s.now + IDEM_TTL)
    else s.lock
  }

  lemma HeadAlone(s: Sys, f: Faults)
    requires s.clients == map[]
    ensures var end := Head(s, 1, f);
            && end.clients == (if Called(s, f)
                               then map[1 := Running(Read(s.now, |s.writes|, f.first.NoFault?), s.now + IDEM_TTL, false)]
                               else map[1 := Done(Answer(s, None, f))])
            && end.cache == s.cache && end.taken == s.taken && end.kind == s.kind && end.now == s.now
            && end.lock == if !(f.first.NoFault? && Hits(s.cache, s.now)) && f.lock.Applied() && Free(s.lock, s.now)
                           then Some(s.now + IDEM_TTL) else s.lock
  {
  }

  lemma BodyAlone(s: Sys, ran: Ran)
    requires 1 in s.clients && s.clients[1].Running? && !s.clients[1].created && Possible(s.kind, s.taken, ran)
    ensures var end := Body(s, 1, ran);
            && end.clients == s.clients[1 := if ran.outcome.Some? then Storing(s.clients[1].deadline, ran.outcome.value)
                                             else Releasing(s.clients[1].deadline, Failed)]
            && end.taken == (s.taken || (ran.create.Some? && ran.create.value.Applied()))
            && end.cache == s.cache && end.lock == s.lock && end.now == s.now
  {
  }

  lemma TailAlone(s: Sys, ran: Ran, f: Faults)
    requires 1 in s.clients && s.clients[1].Running? && !s.clients[1].created && Possible(s.kind, s.taken, ran)
    ensures var end := Tail(s, 1, ran, f);
            && end.clients == s.clients[1 := Done(if ran.outcome.Some? then Created(ran.outcome.value) else Failed)]
            && end.taken == (s.taken || (ran.create.Some? && ran.create.value.Applied()))
            && end.cache == (if ran.outcome.Some? && f.put.Applied()
                             then Some(Cell(ran.outcome.value, s.now + IDEM_TTL)) else s.cache)
            && end.lock == if f.release.Applied() then None else s.lock
  {
    BodyAlone(s, ran);
  }

  /** A lone client, from its arrival to its answer. */
  lemma AloneAnswers(s: Sys, ran: Ran, f: Faults)
    requires s.clients == map[] && Possible(s.kind, s.taken, ran)
    ensures var end := Alone(s, 1, ran, f);
            && end.clients == map[1 := Done(Answer(s, ran.outcome, f))]
            && end.taken == EndTaken(s, ran, f) && end.cache == EndCache(s, ran, f) && end.lock == EndLock(s, f)
  {
    HeadAlone(s, f);
    if Called(s, f) {
      TailAlone(Head(s, 1, f), ran, f);
    }
  }

  /** The machine's state as one request finds it. */
  ghost function Found(kind: Kind, entries: map<string, Cell>, cacheKey: string, now: Time, taken: bool): Sys
  {
    Init(kind).(now := now, cache := CacheAt(entries, cacheKey), lock := LockAt(entries, cacheKey), taken := taken)
  }

  /** `RunIdempotent` up to its call of the function; no answer means that the lock was acquired. */
  method Begin(store: IdempotencyStore, cacheKey: string, now: Time, f: Faults) returns (answer: Option<Response>)
    modifies store
    ensures var s := Found(Arbitrary, old(store.entries), cacheKey, now, false);
            && answer == (if Called(s, f) then None else Some(Answer(s, None, f)))
            && CacheAt(store.entries, cacheKey) == s.cache
            && LockAt(store.entries, cacheKey)
               == if !(f.first.NoFault? && Hits(s.cache, now)) && f.lock.Applied() && Free(s.lock, now)
                  then Some(now + IDEM_TTL) else s.lock
    ensures store.entries - {cacheKey, K.LockKey(cacheKey)} == old(store.entries) - {cacheKey, K.LockKey(cacheKey)}
  {
    answer := WriteCached(store, cacheKey, now, f.first);
    if answer.Some? {
      return;
    }
    var lockKey := K.LockKey(cacheKey);
    assert |lockKey| != |cacheKey|;
    var acquired := store.SetNX(lockKey, "1", IDEM_TTL, now, f.lock);
    if !acquired {
      answer := WriteCached(store, cacheKey, now, f.second);
      answer := if answer.Some? then answer else Some(Failed);
    }
  }

  /** `RunIdempotent` from the function's return on. */
  method Complete(store: IdempotencyStore, cacheKey: string, now: Time, outcome: Option<string>, f: Faults)
    returns (response: Response)
    modifies store
    ensures response == if outcome.Some? then Created(outcome.value) else Failed
    ensures CacheAt(store.entries, cacheKey)
         == if outcome.Some? && f.put.Applied() then Some(Cell(outcome.value, now + IDEM_TTL))
            else CacheAt(old(store.entries), cacheKey)
    ensures LockAt(store.entries, cacheKey)
         == if f.release.Applied() then None else LockAt(old(store.entries), cacheKey)
    ensures store.entries - {cacheKey, K.LockKey(cacheKey)} == old(store.entries) - {cacheKey, K.LockKey(cacheKey)}
  {
    var lockKey := K.LockKey(cacheKey);
    assert |lockKey| != |cacheKey|;
    if outcome.None? {
      store.Delete(lockKey, f.release);
      return Failed;
    }
    store.Set(cacheKey, outcome.value, IDEM_TTL, now, f.put);
    store.Delete(lockKey, f.release);
    response := Created(outcome.value);
  }

  /**
   * The request answers, and leaves the two keys, exactly as a lone client of the machine does from
   * the same keys; it touches no other key. `outcome` is what the function returns if it is called.
   */
  method RunIdempotent(store: IdempotencyStore, cacheKey: string, now: Time, outcome: Option<string>, f: Faults)
    returns (response: Response)
    modifies store
    ensures var end := Alone(Found(Arbitrary, old(store.entries), cacheKey, now, false), 1, Ran(None, outcome), f);
            && end.clients == map[1 := Done(response)]
            && CacheAt(store.entries, cacheKey) == end.cache && LockAt(store.entries, cacheKey) == end.lock
    ensures store.entries - {cacheKey, K.LockKey(cacheKey)} == old(store.entries) - {cacheKey, K.LockKey(cacheKey)}
  {
    AloneAnswers(Found(Arbitrary, store.entries, cacheKey, now, false), Ran(None, outcome), f);
    var answer := Begin(store, cacheKey, now, f);
    if answer.Some? {
      return answer.value;
    }
    response := Complete(store, cacheKey, now, outcome, f);
  }
}
