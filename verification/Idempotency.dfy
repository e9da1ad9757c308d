/**
 * `RunIdempotent` for one cache key, run by any number of clients, each Redis command one step.
 * The wrapped function is either arbitrary or Register for the one email that the cache key's
 * body hash stands for.
 */
module Idempotency {
  import opened Types

  const IDEM_TTL: nat := 300 * SECOND

  datatype Cell = Cell(body: string, expires: Time)

  /** `writeCached` takes only a JSON object for a cached response. */
  predicate Cacheable(body: string)
  {
    |body| > 0 && body[0] == '{'
  }

  predicate Hits(cache: Option<Cell>, now: Time)
  {
    cache.Some? && now < cache.value.expires && Cacheable(cache.value.body)
  }

  predicate Free(lock: Option<Time>, now: Time)
  {
    lock.None? || lock.value <= now
  }

  datatype Response = Created(body: string) | Failed

  /** What a client's first read of the cache was: when, after how many writes, and whether it got an answer. */
  datatype Read = Read(at: Time, writes: nat, clean: bool)

  datatype Client =
    | FirstGet
    | TakeLock(read: Read)
    | SecondGet
    | Running(read: Read, deadline: Time, created: bool)
    | Storing(deadline: Time, body: string)
    | Releasing(deadline: Time, response: Response)
    | Done(response: Response)

  /** From SETNX to the DEL of the lock. */
  predicate Holds(c: Client)
  {
    c.Running? || c.Storing? || c.Releasing?
  }

  datatype Kind = Arbitrary | Register

  /**
   * `taken`: the email is registered. History: the cache writes that took effect, the bodies the
   * function returned, and whether a lock ever expired while its holder was still at work.
   */
  datatype Sys = Sys(
    kind: Kind,
    now: Time,
    cache: Option<Cell>,
    lock: Option<Time>,
    clients: map<Id, Client>,
    taken: bool,
    writes: seq<Cell>,
    results: seq<string>,
    overrun: bool)

  datatype Event =
    | Tick(delta: nat)
    | Arrive(id: Id)
    | Step(id: Id, fault: Fault)
    | Create(id: Id, fault: Fault)
    | Return(id: Id, body: Option<string>)
    | OtherCreate

  /** One Redis command of a client that is outside the function. */
  function React(s: Sys, id: Id, fault: Fault): Sys
    requires id in s.clients
  {
    match s.clients[id]
    case FirstGet =>
      s.(clients := s.clients[id :=
        if fault.NoFault? && Hits(s.cache, s.now) then Done(Created(s.cache.value.body))
        else TakeLock(Read(s.now, |s.writes|, fault.NoFault?))])
    case TakeLock(read) =>
      var free := Free(s.lock, s.now);
      s.(lock := if fault.Applied() && free then Some(s.now + IDEM_TTL) else s.lock,
         clients := s.clients[id := if fault.NoFault? && free then Running(read, s.now + IDEM_TTL, false) else SecondGet])
    case SecondGet =>
      s.(clients := s.clients[id :=
        Done(if fault.NoFault? && Hits(s.cache, s.now) then Created(s.cache.value.body) else Failed)])
    case Storing(deadline, body) =>
      var cell := Cell(body, s.now + IDEM_TTL);
      s.(cache := if fault.Applied() then Some(cell) else s.cache,
         writes := if fault.Applied() then s.writes + [cell] else s.writes,
         clients := s.clients[id := Releasing(deadline, Created(body))])
    case Releasing(_, response) =>
      s.(lock := if fault.Applied() then None else s.lock, clients := s.clients[id := Done(response)])
    case _ => s
  }

  /** Register's insert: it fails on a taken email, and a lost answer is an error too. */
  function Insert(s: Sys, id: Id, fault: Fault): Sys
    requires id in s.clients && s.clients[id].Running?
  {
    var c := s.clients[id];
    s.(taken := s.taken || fault.Applied(),
       clients := s.clients[id := if fault.NoFault? && !s.taken then c.(created := true)
                                  else Releasing(c.deadline, Failed)])
  }

  /** The function returns; Register can only return a body after its own insert. */
  function Finish(s: Sys, id: Id, body: Option<string>): Sys
    requires id in s.clients && s.clients[id].Running?
  {
    var c := s.clients[id];
    match body
    case None => s.(clients := s.clients[id := Releasing(c.deadline, Failed)])
    case Some(b) =>
      if s.kind.Register? && !c.created then s
      else s.(results := s.results + [b], clients := s.clients[id := Storing(c.deadline, b)])
  }

  function Apply(s: Sys, e: Event): Sys
  {
    match e
    case Tick(delta) =>
      s.(now := s.now + delta,
         overrun := s.overrun
                    || exists id | id in s.clients :: Holds(s.clients[id]) && s.clients[id].deadline <= s.now + delta)
    case Arrive(id) => if id in s.clients then s else s.(clients := s.clients[id := FirstGet])
    case Step(id, fault) => if id in s.clients then React(s, id, fault) else s
    case Create(id, fault) =>
      if s.kind.Register? && id in s.clients && s.clients[id].Running? && !s.clients[id].created
      then Insert(s, id, fault) else s
    case Return(id, body) => if id in s.clients && s.clients[id].Running? then Finish(s, id, body) else s
    case OtherCreate => s.(taken := true)
  }

  function Init(kind: Kind): Sys
  {
    Sys(kind, 0, None, None, map[], false, [], [], false)
  }

  function Exec(s: Sys, events: seq<Event>): Sys
    decreases |events|
  {
    if events == [] then s else Exec(Apply(s, events[0]), events[1..])
  }

  // ---- invariants ----------------------------------------------------------------------------------

  /** A client that holds the lock has set it, and it has not expired. */
  predicate HolderOk(c: Client, lock: Option<Time>, now: Time)
  {
    Holds(c) ==> lock == Some(c.deadline) && now < c.deadline
  }

  /** While no lock has expired under its holder, the lock is the one holder's. */
  ghost predicate LockOk(s: Sys)
  {
    !s.overrun ==>
      && (forall id | id in s.clients :: HolderOk(s.clients[id], s.lock, s.now))
      && (forall i, j | i in s.clients && j in s.clients && Holds(s.clients[i]) && Holds(s.clients[j]) :: i == j)
  }

  /** The cache holds the last write, and each write expires no earlier than the one before. */
  ghost predicate WritesOk(s: Sys)
  {
    && s.cache == (if s.writes == [] then None else Some(s.writes[|s.writes| - 1]))
    && (forall i | 0 <= i < |s.writes| :: s.writes[i].expires <= s.now + IDEM_TTL)
    && (forall i, j | 0 <= i < j < |s.writes| :: s.writes[i].expires <= s.writes[j].expires)
  }

  ghost predicate ReadsOk(s: Sys)
  {
    forall id | id in s.clients && (s.clients[id].TakeLock? || s.clients[id].Running?) ::
      ReadOk(s.writes, s.clients[id].read)
  }

  /** A first read that got an answer and missed did so because the last write had expired or was no JSON object. */
  predicate ReadOk(writes: seq<Cell>, read: Read)
  {
    && read.writes <= |writes|
    && (read.clean && read.writes > 0 ==>
          writes[read.writes - 1].expires <= read.at || !Cacheable(writes[read.writes - 1].body))
  }

  /** A body the client is about to store or has answered with. */
  predicate SourceOk(c: Client, results: seq<string>)
  {
    && (c.Storing? ==> c.body in results)
    && ((c.Releasing? || c.Done?) && c.response.Created? ==> c.response.body in results)
  }

  /** Bodies come from the function only. */
  ghost predicate BodiesOk(s: Sys)
  {
    && (forall i | 0 <= i < |s.writes| :: s.writes[i].body in s.results)
    && (forall id | id in s.clients :: SourceOk(s.clients[id], s.results))
  }

  /** Register succeeds at most once for its email. */
  ghost predicate OnceOk(s: Sys)
  {
    s.kind.Register? ==>
      && |s.results| <= 1
      && (s.results != [] ==> s.taken)
      && (forall id | id in s.clients && s.clients[id].Running? && s.clients[id].created :: s.taken && s.results == [])
      && (forall i, j | i in s.clients && j in s.clients && s.clients[i].Running? && s.clients[i].created
            && s.clients[j].Running? && s.clients[j].created :: i == j)
  }

  lemma TakingKeepsLock(s: Sys, id: Id, fault: Fault)
    requires id in s.clients && s.clients[id].TakeLock? && LockOk(s)
    ensures LockOk(React(s, id, fault))
  {
  }

  lemma ReactKeepsLock(s: Sys, id: Id, fault: Fault)
    requires id in s.clients && !s.clients[id].TakeLock? && LockOk(s)
    ensures LockOk(React(s, id, fault))
  {
  }

  lemma ApplyKeepsLock(s: Sys, e: Event)
    requires LockOk(s)
    ensures LockOk(Apply(s, e))
  {
    if e.Step? && e.id in s.clients {
      if s.clients[e.id].TakeLock? {
        TakingKeepsLock(s, e.id, e.fault);
      } else {
        ReactKeepsLock(s, e.id, e.fault);
      }
    }
  }

  lemma ReactKeepsWrites(s: Sys, id: Id, fault: Fault)
    requires id in s.clients && WritesOk(s)
    ensures WritesOk(React(s, id, fault)) && s.writes <= React(s, id, fault).writes
  {
    var s' := React(s, id, fault);
    assert s'.now == s.now;
    if s'.writes != s.writes {
      assert s'.writes == s.writes + [Cell(s.clients[id].body, s.now + IDEM_TTL)];
    }
  }

  lemma ApplyKeepsWrites(s: Sys, e: Event)
    requires WritesOk(s)
    ensures WritesOk(Apply(s, e))
    ensures s.writes <= Apply(s, e).writes
  {
    if e.Step? && e.id in s.clients {
      ReactKeepsWrites(s, e.id, e.fault);
    }
  }

  lemma ReactKeepsReads(s: Sys, id: Id, fault: Fault)
    requires id in s.clients && WritesOk(s) && ReadsOk(s) && s.writes <= React(s, id, fault).writes
    ensures ReadsOk(React(s, id, fault))
  {
  }

  lemma ApplyKeepsReads(s: Sys, e: Event)
    requires WritesOk(s) && ReadsOk(s) && s.writes <= Apply(s, e).writes
    ensures ReadsOk(Apply(s, e))
  {
    if e.Step? && e.id in s.clients {
      ReactKeepsReads(s, e.id, e.fault);
    }
  }

  lemma ReactKeepsBodies(s: Sys, id: Id, fault: Fault)
    requires id in s.clients && WritesOk(s) && BodiesOk(s)
    ensures BodiesOk(React(s, id, fault))
  {
  }

  lemma ApplyKeepsBodies(s: Sys, e: Event)
    requires WritesOk(s) && BodiesOk(s)
    ensures BodiesOk(Apply(s, e))
  {
    if e.Step? && e.id in s.clients {
      ReactKeepsBodies(s, e.id, e.fault);
    }
  }

  lemma ApplyKeepsOnce(s: Sys, e: Event)
    requires OnceOk(s)
    ensures OnceOk(Apply(s, e))
  {
  }

  ghost predicate Inv(s: Sys)
  {
    LockOk(s) && WritesOk(s) && ReadsOk(s) && BodiesOk(s) && OnceOk(s)
  }

  lemma ApplyKeeps(s: Sys, e: Event)
    requires Inv(s)
    ensures Inv(Apply(s, e)) && Apply(s, e).kind == s.kind
  {
    ApplyKeepsLock(s, e);
    ApplyKeepsWrites(s, e);
    ApplyKeepsReads(s, e);
    ApplyKeepsBodies(s, e);
    ApplyKeepsOnce(s, e);
  }

  lemma {:induction false} RunKeeps(s: Sys, events: seq<Event>)
    requires Inv(s)
    ensures Inv(Exec(s, events)) && Exec(s, events).kind == s.kind
    decreases |events|
  {
    if events != [] {
      ApplyKeeps(s, events[0]);
      RunKeeps(Apply(s, events[0]), events[1..]);
    }
  }

  // ---- what it means ---------------------------------------------------------------------------------

  /** While no lock has expired under its holder, at most one client is inside the function. */
  lemma MutualExclusion(kind: Kind, events: seq<Event>, i: Id, j: Id)
    requires var s := Exec(Init(kind), events);
             && !s.overrun && i in s.clients && j in s.clients
             && s.clients[i].Running? && s.clients[j].Running?
    ensures i == j
  {
    RunKeeps(Init(kind), events);
  }

  /**
   * After a cache write that took effect, and until it expires, the function runs only in clients
   * whose first read came before that write or got no answer - provided what is written can be
   * served from the cache at all.
   */
  lemma RerunsReadEarlier(kind: Kind, events: seq<Event>, id: Id, k: nat)
    requires var s := Exec(Init(kind), events);
             && id in s.clients && s.clients[id].Running? && s.clients[id].read.clean
             && k < |s.writes| && (forall i | 0 <= i < |s.writes| :: Cacheable(s.writes[i].body))
    ensures var s := Exec(Init(kind), events);
            s.clients[id].read.writes <= k || s.writes[k].expires <= s.clients[id].read.at
  {
    RunKeeps(Init(kind), events);
    var s := Exec(Init(kind), events);
    assert ReadOk(s.writes, s.clients[id].read);
  }

  /** Every 201 answer to a registration under one key carries the same body, in every interleaving. */
  lemma OneBody(events: seq<Event>, i: Id, j: Id)
    requires var s := Exec(Init(Register), events);
             && i in s.clients && s.clients[i].Done? && s.clients[i].response.Created?
             && j in s.clients && s.clients[j].Done? && s.clients[j].response.Created?
    ensures var s := Exec(Init(Register), events);
            s.clients[i].response == s.clients[j].response && s.results == [s.clients[i].response.body]
  {
    RunKeeps(Init(Register), events);
  }

  /** For any function, a 201 answer is a body the function returned. */
  lemma BodiesAreResults(kind: Kind, events: seq<Event>, id: Id)
    requires var s := Exec(Init(kind), events);
             id in s.clients && s.clients[id].Done? && s.clients[id].response.Created?
    ensures var s := Exec(Init(kind), events); s.clients[id].response.body in s.results
  {
    RunKeeps(Init(kind), events);
  }

  /**
   * The function is not run once per key, as its comment has it: a second client that read before the
   * first one's write takes the lock after its release and runs the function again, no lock expired.
   */
  lemma SecondRunPossible(body: string) returns (events: seq<Event>)
    requires Cacheable(body)
    ensures var s := Exec(Init(Arbitrary), events);
            && !s.overrun && s.results == [body] && Hits(s.cache, s.now)
            && 1 in s.clients && s.clients[1] == Done(Created(body))
            && 2 in s.clients && s.clients[2].Running?
  {
    var s0 := Init(Arbitrary);
    var s1 := Apply(s0, Arrive(1));
    var s2 := Apply(s1, Arrive(2));
    var s3 := Apply(s2, Step(1, NoFault));
    var s4 := Apply(s3, Step(2, NoFault));
    var s5 := Apply(s4, Step(1, NoFault));
    assert s5.clients[1].Running? && s5.clients[2].TakeLock?;
    var s6 := Apply(s5, Return(1, Some(body)));
    var s7 := Apply(s6, Step(1, NoFault));
    var s8 := Apply(s7, Step(1, NoFault));
    assert s8.lock == None && s8.clients[2].TakeLock? && s8.results == [body];
    var s9 := Apply(s8, Step(2, NoFault));
    var tail3 := [Return(1, Some(body)), Step(1, NoFault), Step(1, NoFault), Step(2, NoFault)];
    var tail2 := [Step(1, NoFault), Step(2, NoFault), Step(1, NoFault)] + tail3;
    events := [Arrive(1), Arrive(2)] + tail2;
    ExecFour(s5, tail3);
    ExecThree(s2, tail2);
    assert tail2[3..] == tail3;
    assert events[1..][1..] == tail2;
  }

  lemma ExecThree(s: Sys, events: seq<Event>)
    requires |events| >= 3
    ensures Exec(s, events) == Exec(Apply(Apply(Apply(s, events[0]), events[1]), events[2]), events[3..])
  {
    assert events[1..][1..] == events[2..] && events[2..][1..] == events[3..];
    assert Exec(s, events) == Exec(Apply(s, events[0]), events[1..]);
    assert Exec(Apply(s, events[0]), events[1..]) == Exec(Apply(Apply(s, events[0]), events[1]), events[2..]);
  }

  lemma ExecFour(s: Sys, events: seq<Event>)
    requires |events| == 4
    ensures Exec(s, events) == Apply(Apply(Apply(Apply(s, events[0]), events[1]), events[2]), events[3])
  {
    ExecThree(s, events);
    assert events[3..] == [events[3]] && events[3..][1..] == [];
  }
}
