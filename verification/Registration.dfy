/** Registration under an idempotency key: `RunIdempotent` around the service's Register. */
module Registration {
  import opened Types
  import opened UserTable
  import opened Idempotency
  import opened IdempotentRequest
  import K = IdempotencyKeys
  import A = AuthService

  /** The fates of Register's own statements and of the send; `link` says whether the link could be built. */
  datatype RegisterFaults = RegisterFaults(quota: Fault, create: Fault, issue: Fault, link: bool, send: Fault)

  /** The fresh values a registration draws. */
  datatype Draws = Draws(id: Id, hash: Hash)

  /**
   * What Register did, by its contract: it gets to its insert exactly if its quota is `granted`, and
   * answers exactly if nothing after that fails; `unseen` says that its token is a new one, and `mails`
   * that email is on.
   */
  function RanOf(granted: bool, taken: bool, unseen: bool, mails: bool, rf: RegisterFaults, body: string): (ran: Ran)
    ensures Possible(Register, taken, ran)
  {
    Ran(if granted then Some(rf.create) else None,
        if granted && rf.create.NoFault? && !taken && rf.issue.NoFault? && unseen && rf.link
           && (mails ==> rf.send.NoFault?)
        then Some(body) else None)
  }

  /** The wrapped function: Register, and the body of its answer. */
  method Run(svc: A.AuthService, input: string, password: Hash, now: Time, rf: RegisterFaults, d: Draws, body: string)
    returns (outcome: Option<string>)
    requires UniqueEmails(svc.users.users) && d.id !in svc.users.users
    modifies svc.users, svc.verify, svc.emailLimit.store, svc.mailer
    ensures UniqueEmails(svc.users.users)
    ensures var email := svc.norm(input);
            var granted := svc.Granted(svc.norm(email), now, rf.quota, old(svc.emailLimit.store.counts));
            var taken := Taken(old(svc.users.users), email);
            && outcome == RanOf(granted, taken, d.hash !in old(svc.verify.tokens), svc.mail.enabled, rf, body).outcome
            && (Taken(svc.users.users, email) <==> taken || (granted && rf.create.Applied()))
  {
    var done := svc.Register(input, password, now, rf.quota, rf.create, rf.issue, rf.link, rf.send, d.id, d.hash);
    outcome := if done.Ok? then Some(body) else None;
    ghost var email := svc.norm(input);
    if Taken(old(svc.users.users), email) {
      var k :| k in old(svc.users.users) && old(svc.users.users)[k].email == email;
      assert k in svc.users.users && svc.users.users[k].email == email;
    }
    assert d.id in svc.users.users ==> svc.users.users[d.id].email == email;
  }

  /** The request's own steps. */
  method Handle(svc: A.AuthService, store: IdempotencyStore, cacheKey: string, input: string, password: Hash,
                now: Time, rf: RegisterFaults, d: Draws, body: string, f: Faults)
    returns (response: Response)
    requires UniqueEmails(svc.users.users) && d.id !in svc.users.users
    modifies store, svc.users, svc.verify, svc.emailLimit.store, svc.mailer
    ensures UniqueEmails(svc.users.users)
    ensures var email := svc.norm(input);
            var granted := svc.Granted(svc.norm(email), now, rf.quota, old(svc.emailLimit.store.counts));
            var s := Found(Register, old(store.entries), cacheKey, now, Taken(old(svc.users.users), email));
            var ran := RanOf(granted, s.taken, d.hash !in old(svc.verify.tokens), svc.mail.enabled, rf, body);
            && response == Answer(s, ran.outcome, f)
            && CacheAt(store.entries, cacheKey) == EndCache(s, ran, f)
            && LockAt(store.entries, cacheKey) == EndLock(s, f)
            && (Taken(svc.users.users, email) <==> EndTaken(s, ran, f))
            && (!Called(s, f) ==> svc.users.users == old(svc.users.users) && svc.mailer.sent == old(svc.mailer.sent))
    ensures store.entries - {cacheKey, K.LockKey(cacheKey)} == old(store.entries) - {cacheKey, K.LockKey(cacheKey)}
  {
    var answer := Begin(store, cacheKey, now, f);
    if answer.Some? {
      return answer.value;
    }
    var outcome := Run(svc, input, password, now, rf, d, body);
    response := Complete(store, cacheKey, now, outcome, f);
  }

  /**
   * A request to register answers, and leaves its two keys and the email, exactly as a lone client of
   * the registration machine does whose email is taken iff the table has it: the machine's flag is the
   * table's unique index. A request that did not call Register has touched nothing else.
   */
  method RegisterOnce(svc: A.AuthService, store: IdempotencyStore, cacheKey: string, input: string, password: Hash,
                      now: Time, rf: RegisterFaults, d: Draws, body: string, f: Faults)
    returns (response: Response)
    requires UniqueEmails(svc.users.users) && d.id !in svc.users.users
    modifies store, svc.users, svc.verify, svc.emailLimit.store, svc.mailer
    ensures UniqueEmails(svc.users.users)
    ensures var email := svc.norm(input);
            var granted := svc.Granted(svc.norm(email), now, rf.quota, old(svc.emailLimit.store.counts));
            var s := Found(Register, old(store.entries), cacheKey, now, Taken(old(svc.users.users), email));
            var ran := RanOf(granted, s.taken, d.hash !in old(svc.verify.tokens), svc.mail.enabled, rf, body);
            var end := Alone(s, 1, ran, f);
            && end.clients == map[1 := Done(response)]
            && CacheAt(store.entries, cacheKey) == end.cache && LockAt(store.entries, cacheKey) == end.lock
            && (Taken(svc.users.users, email) <==> end.taken)
            && (!Called(s, f) ==> svc.users.users == old(svc.users.users) && svc.mailer.sent == old(svc.mailer.sent))
    ensures store.entries - {cacheKey, K.LockKey(cacheKey)} == old(store.entries) - {cacheKey, K.LockKey(cacheKey)}
  {
    ghost var email := svc.norm(input);
    ghost var granted := svc.Granted(svc.norm(email), now, rf.quota, svc.emailLimit.store.counts);
    ghost var s := Found(Register, store.entries, cacheKey, now, Taken(svc.users.users, email));
    ghost var ran := RanOf(granted, s.taken, d.hash !in svc.verify.tokens, svc.mail.enabled, rf, body);
    response := Handle(svc, store, cacheKey, input, password, now, rf, d, body, f);
    AloneAnswers(s, ran, f);
  }
}
