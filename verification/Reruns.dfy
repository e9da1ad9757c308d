/** Exactly when the function is entered again while a cached answer stands. */
module Reruns {
  import opened Types
  import opened Idempotency

  /**
   * The event takes no time; if it is a client's first read, the read is answered; if the function
   * returns a body, the body can be served from the cache.
   */
  predicate Orderly(s: Sys, e: Event)
  {
    match e
    case Tick(_) => false
    case Step(id, fault) => id in s.clients && s.clients[id].FirstGet? ==> fault.NoFault?
    case Return(_, body) => body.Some? ==> Cacheable(body.value)
    case _ => true
  }

  predicate AllOrderly(s: Sys, events: seq<Event>)
    decreases |events|
  {
    events == [] || (Orderly(s, events[0]) && AllOrderly(Apply(s, events[0]), events[1..]))
  }

  predicate Inside(s: Sys, id: Id)
  {
    id in s.clients && s.clients[id].Running?
  }

  /** The client is outside the function, and the run ends with it inside. */
  predicate Enters(s: Sys, events: seq<Event>, id: Id)
  {
    !Inside(s, id) && AllOrderly(s, events) && Inside(Exec(s, events), id)
  }

  /** Some client's first read is behind it, and brought no answer. */
  predicate PastMiss(s: Sys)
  {
    exists id | id in s.clients :: s.clients[id].TakeLock?
  }

  predicate Held(s: Sys)
  {
    exists id | id in s.clients :: Holds(s.clients[id])
  }

  predicate Servable(s: Sys)
  {
    Hits(s.cache, s.now) && forall b | b in s.results :: Cacheable(b)
  }

  // ---- a client past its missed read can go on -------------------------------------------------------

  /** The holder gives up the lock. */
  lemma HolderReleases(s: Sys, holder: Id) returns (events: seq<Event>)
    requires holder in s.clients && Holds(s.clients[holder])
    ensures AllOrderly(s, events) && Exec(s, events).lock == None && Exec(s, events).now == s.now
    ensures forall id | id in s.clients && id != holder :: id in Exec(s, events).clients
              && Exec(s, events).clients[id] == s.clients[id]
  {
    var release := Step(holder, NoFault);
    match s.clients[holder]
    case Running(_, _, _) =>
      events := [Return(holder, None), release];
      ExecTwo(s, events);
    case Storing(_, _) =>
      events := [release, release];
      ExecTwo(s, events);
    case Releasing(_, _) =>
      events := [release];
      ExecOne(s, events);
  }

  lemma ExecOne(s: Sys, events: seq<Event>)
    requires |events| == 1
    ensures Exec(s, events) == Apply(s, events[0])
    ensures AllOrderly(s, events) <==> Orderly(s, events[0])
  {
    assert events[1..] == [];
  }

  lemma ExecTwo(s: Sys, events: seq<Event>)
    requires |events| == 2
    ensures Exec(s, events) == Apply(Apply(s, events[0]), events[1])
    ensures AllOrderly(s, events) <==> Orderly(s, events[0]) && Orderly(Apply(s, events[0]), events[1])
  {
    ExecOne(Apply(s, events[0]), events[1..]);
  }

  lemma {:induction false} ExecSnoc(s: Sys, events: seq<Event>, e: Event)
    ensures Exec(s, events + [e]) == Apply(Exec(s, events), e)
    ensures AllOrderly(s, events + [e]) <==> AllOrderly(s, events) && Orderly(Exec(s, events), e)
    decreases |events|
  {
    if events == [] {
      ExecOne(s, [] + [e]);
    } else {
      assert (events + [e])[0] == events[0] && (events + [e])[1..] == events[1..] + [e];
      ExecSnoc(Apply(s, events[0]), events[1..], e);
    }
  }

  /** In any state at all, whatever the cache holds, and whether or not a lock has expired under its holder. */
  lemma CanEnter(s: Sys, id: Id) returns (events: seq<Event>)
    requires id in s.clients && s.clients[id].TakeLock? && (Free(s.lock, s.now) || Held(s))
    ensures AllOrderly(s, events) && Inside(Exec(s, events), id)
  {
    events := [];
    if !Free(s.lock, s.now) {
      var holder :| holder in s.clients && Holds(s.clients[holder]);
      events := HolderReleases(s, holder);
    }
    ExecSnoc(s, events, Step(id, NoFault));
    events := events + [Step(id, NoFault)];
  }

  // ---- no other client can -----------------------------------------------------------------------------

  ghost predicate Closed(s: Sys)
  {
    Inv(s) && Servable(s) && !(PastMiss(s) && (Free(s.lock, s.now) || Held(s)))
  }

  /** With no client past a missed read, first reads are hits and nobody comes to the lock. */
  lemma NoMissStays(s: Sys, id: Id, fault: Fault)
    requires id in s.clients && Inv(s) && Servable(s) && !PastMiss(s) && Orderly(s, Step(id, fault))
    ensures Servable(React(s, id, fault)) && !PastMiss(React(s, id, fault))
    ensures Inside(React(s, id, fault), id) ==> Inside(s, id)
  {
    var s' := React(s, id, fault);
    assert !s.clients[id].TakeLock? && SourceOk(s.clients[id], s.results);
    assert s'.results == s.results && s'.now == s.now;
    assert !s'.clients[id].TakeLock?;
  }

  /** With a lock set and no holder, nobody frees it. */
  lemma LockedStays(s: Sys, id: Id, fault: Fault)
    requires id in s.clients && Servable(s) && !Free(s.lock, s.now) && !Held(s)
    ensures Servable(React(s, id, fault)) && !Free(React(s, id, fault).lock, s.now) && !Held(React(s, id, fault))
    ensures React(s, id, fault).now == s.now
  {
    assert !Holds(s.clients[id]);
    assert !Holds(React(s, id, fault).clients[id]);
  }

  lemma StepStaysClosed(s: Sys, id: Id, fault: Fault)
    requires id in s.clients && Closed(s) && Orderly(s, Step(id, fault))
    ensures var s' := React(s, id, fault);
            Servable(s') && !(PastMiss(s') && (Free(s'.lock, s'.now) || Held(s')))
            && (Inside(s', id) ==> Inside(s, id))
  {
    if PastMiss(s) {
      LockedStays(s, id, fault);
    } else {
      NoMissStays(s, id, fault);
    }
  }

  /** A client inside the function goes on; the lock was its own, so nobody was past a miss. */
  lemma InsideStaysClosed(s: Sys, e: Event)
    requires Closed(s) && Orderly(s, e)
    requires (e.Create? || e.Return?) && Inside(s, e.id)
    ensures Servable(Apply(s, e)) && !PastMiss(Apply(s, e))
    ensures forall id | Inside(Apply(s, e), id) :: Inside(s, id)
  {
    assert Held(s);
    var s' := Apply(s, e);
    assert s'.cache == s.cache && s'.now == s.now;
    forall id | id in s'.clients ensures !s'.clients[id].TakeLock? && (Inside(s', id) ==> Inside(s, id)) {
      assert !s.clients[id].TakeLock?;
    }
  }

  /** What is left is time passing, arrivals, other registrations, and events that do nothing. */
  lemma OtherStaysClosed(s: Sys, e: Event)
    requires Closed(s) && Orderly(s, e)
    requires !(e.Step? && e.id in s.clients) && !((e.Create? || e.Return?) && Inside(s, e.id))
    ensures var s' := Apply(s, e);
            Servable(s') && !(PastMiss(s') && (Free(s'.lock, s'.now) || Held(s')))
    ensures forall id | Inside(Apply(s, e), id) :: Inside(s, id)
  {
    if !e.Arrive? {
      assert Apply(s, e) == s.(taken := Apply(s, e).taken);
    }
  }

  lemma ApplyStaysClosed(s: Sys, e: Event)
    requires Closed(s) && Orderly(s, e)
    ensures Closed(Apply(s, e))
    ensures forall id | Inside(Apply(s, e), id) :: Inside(s, id)
  {
    ApplyKeeps(s, e);
    if e.Step? && e.id in s.clients {
      StepStaysClosed(s, e.id, e.fault);
    } else if (e.Create? || e.Return?) && Inside(s, e.id) {
      InsideStaysClosed(s, e);
    } else {
      OtherStaysClosed(s, e);
    }
  }

  lemma {:induction false} RunStaysClosed(s: Sys, events: seq<Event>, id: Id)
    requires Closed(s) && AllOrderly(s, events) && Inside(Exec(s, events), id)
    ensures Inside(s, id)
    decreases |events|
  {
    if events == [] {
    } else {
      ApplyStaysClosed(s, events[0]);
      RunStaysClosed(Apply(s, events[0]), events[1..], id);
    }
  }

  /**
   * While an answer that can be served stands in the cache, and for as long as no time passes and first
   * reads are answered, a further client enters the function exactly if some client is past a missed
   * read and the lock is free or held by a client that can still give it up.
   */
  lemma EnteredAgainIff(kind: Kind, before: seq<Event>)
    requires Servable(Exec(Init(kind), before))
    ensures var s := Exec(Init(kind), before);
            (exists after, id :: Enters(s, after, id)) <==> PastMiss(s) && (Free(s.lock, s.now) || Held(s))
  {
    var s := Exec(Init(kind), before);
    RunKeeps(Init(kind), before);
    if PastMiss(s) && (Free(s.lock, s.now) || Held(s)) {
      var id :| id in s.clients && s.clients[id].TakeLock?;
      var after := CanEnter(s, id);
      assert Enters(s, after, id);
    } else {
      forall after, id ensures !Enters(s, after, id) {
        if Enters(s, after, id) { RunStaysClosed(s, after, id); }
      }
    }
  }
}
