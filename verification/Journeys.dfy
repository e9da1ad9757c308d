/**
 * What a client of the service sees over several calls: one call after the other, with nothing between
 * them, said in the fields of the tables, the answers and the clock.
 */
module Journeys {
  import opened Types
  import opened RefreshTable
  import opened OneTimeTokens
  import opened UserTable
  import opened Machine
  import opened Reach
  import opened Atomic
  import I = Idempotency
  import R = IdempotentRequest
  import A = AuthService

  const CLEAN_ISSUE: IssueFaults := IssueFaults(NoFault, NoFault, NoFault, NoFault)
  const CLEAN_LOGIN: A.LoginFaults := A.LoginFaults(NoFault, NoFault, NoFault, NoFault, NoFault, CLEAN_ISSUE)
  const CLEAN_REFRESH: RefreshFaults := RefreshFaults(NoFault, NoFault, NoFault, NoFault, CLEAN_ISSUE)

  /** The fresh values a login or a rotation draws. */
  datatype Draws = Draws(session: Id, family: Id, jti: Id, hash: Hash)

  ghost predicate Fresh(svc: A.AuthService, d: Draws)
    reads svc, svc.refresh
  {
    && d.session !in svc.sys.hist.owner && d.family !in svc.sys.hist.born && d.family != 0
    && d.jti !in svc.signed && d.hash !in svc.refresh.rows
  }

  // ---- passwords -----------------------------------------------------------------------------------------

  /** After a registration, the address logs in with that password and with no other. */
  method RegisterThenLogin(svc: A.AuthService, input: string, password: Hash, tried: Hash, t1: Time, t2: Time,
                           id: Id, verify: Hash, f: A.LoginFaults, d: Draws)
    returns (done: Result<()>, pair: Result<A.TokenPair>)
    requires svc.Valid() && svc.Traced() && svc.sys.now <= t2 && Fresh(svc, d) && id !in svc.users.users
    modifies svc.users, svc.verify, svc.emailLimit.store, svc.mailer
    modifies svc`signed, svc`sys, svc`tries, svc.refresh, svc.sessions, svc.lockout, svc.lockout.counters
    ensures done.Ok? && tried != password ==>
              pair.Err? && svc.refresh.rows == old(svc.refresh.rows) && svc.sessions.st == old(svc.sessions.st)
    ensures (done.Ok? && tried == password && f == CLEAN_LOGIN
             && !(svc.norm(input) in old(svc.lockout.locks) && t2 < old(svc.lockout.locks)[svc.norm(input)])) ==> pair.Ok?
  {
    done := svc.Register(input, password, t1, NoFault, NoFault, NoFault, true, NoFault, id, verify);
    pair := svc.Login(input, tried, t2, f, d.session, d.family, d.jti, d.hash);
  }

  /** After a reset, the account logs in with the new password and with no other. */
  method ResetThenLogin(svc: A.AuthService, token: Hash, password: Hash, input: string, tried: Hash, t1: Time, t2: Time,
                        f: A.LoginFaults, d: Draws)
    returns (done: Result<()>, pair: Result<A.TokenPair>)
    requires svc.Valid() && svc.Traced() && svc.sys.now <= t1 <= t2 && Fresh(svc, d)
    requires token in svc.resets.tokens && svc.resets.tokens[token].user in svc.users.users
    requires svc.users.users[svc.resets.tokens[token].user].email == svc.norm(input)
    modifies svc.users, svc.resets
    modifies svc`signed, svc`sys, svc`tries, svc.refresh, svc.sessions, svc.lockout, svc.lockout.counters
    ensures done.Ok? && tried != password ==> pair.Err?
    ensures (done.Ok? && tried == password && f == CLEAN_LOGIN
             && old(svc.users.users)[old(svc.resets.tokens)[token].user].active
             && !(svc.norm(input) in old(svc.lockout.locks) && t2 < old(svc.lockout.locks)[svc.norm(input)])) ==> pair.Ok?
  {
    done := svc.ResetPassword(token, password, t1, NoFault, NoFault, RevokeFaults(NoFault, NoFault, NoFault));
    pair := svc.Login(input, tried, t2, f, d.session, d.family, d.jti, d.hash);
  }

  // ---- access tokens -------------------------------------------------------------------------------------

  /** The access token of a login is accepted for the access TTL, to within a second, and not after it. */
  method LoginThenParse(svc: A.AuthService, input: string, password: Hash, t1: Time, t2: Time, f: A.LoginFaults, d: Draws)
    returns (pair: Result<A.TokenPair>, claims: Result<Claims>)
    requires svc.Valid() && svc.Traced() && svc.sys.now <= t1 <= t2 && Fresh(svc, d)
    modifies svc`signed, svc`sys, svc`tries, svc.refresh, svc.sessions, svc.lockout, svc.lockout.counters
    ensures pair.Ok? && t2 + 1000 <= t1 + svc.cfg.accessTtl ==> claims.Ok? && claims.value.session == d.session
    ensures pair.Ok? && t2 >= t1 + svc.cfg.accessTtl ==> claims == Err(Unauthorized)
  {
    svc.NewIsNotBanned(d.jti);
    pair := svc.Login(input, password, t1, f, d.session, d.family, d.jti, d.hash);
    claims := svc.ParseAccess(d.jti, t2, NoFault);
  }

  /** The same for the access token of a rotation. */
  method RefreshThenParse(svc: A.AuthService, presented: Hash, t1: Time, t2: Time, f: RefreshFaults, d: Draws)
    returns (pair: Result<A.TokenPair>, claims: Result<Claims>)
    requires svc.Valid() && svc.sys.now <= t1 <= t2 && Fresh(svc, d)
    modifies svc`signed, svc`sys, svc.refresh, svc.sessions
    ensures pair.Ok? && t2 + 1000 <= t1 + svc.cfg.accessTtl ==>
              && claims.Ok? && presented in old(svc.refresh.rows)
              && claims.value.user == old(svc.refresh.rows)[presented].grant.user
    ensures pair.Ok? && t2 >= t1 + svc.cfg.accessTtl ==> claims == Err(Unauthorized)
  {
    svc.NewIsNotBanned(d.jti);
    pair := svc.Refresh(Some(presented), t1, f, d.jti, d.hash);
    claims := svc.ParseAccess(d.jti, t2, NoFault);
  }

  /** An access token signed at any earlier moment, whatever calls came between: accepted to its expiry, unless banned. */
  method ParseLater(svc: A.AuthService, ghost before: Sys, jti: Id, now: Time) returns (claims: Result<Claims>)
    requires svc.Valid() && svc.sys.now <= now && Reaches(Init(svc.cfg), before) && Reaches(before, svc.sys)
    requires jti in before.hist.access
    modifies svc`sys
    ensures claims.Ok? <==> now < before.hist.access[jti].exp && jti !in old(svc.sys.hist.banned)
    ensures claims.Ok? ==> claims.value == before.hist.access[jti]
  {
    svc.SignedHolds(before, jti);
    claims := svc.ParseAccess(jti, now, NoFault);
  }

  /** A logout ends the access token at once and for good, whatever else becomes of it. */
  method LogoutThenParse(svc: A.AuthService, jti: Id, cookie: Option<Hash>, t1: Time, t2: Time,
                         f: LogoutFaults, fault: Fault)
    returns (claims: Result<Claims>)
    requires svc.Valid() && svc.sys.now <= t1 <= t2 && jti in svc.signed && !f.ban.Refused?
    modifies svc`sys, svc.refresh, svc.sessions, svc.blacklist
    ensures claims == Err(Unauthorized)
  {
    svc.Logout(jti, cookie, t1, f);
    claims := svc.ParseAccess(jti, t2, fault);
  }

  // ---- refresh tokens ------------------------------------------------------------------------------------

  /** The refresh token of a login is exchanged within the refresh TTL, and not after it. */
  method LoginThenRefresh(svc: A.AuthService, input: string, password: Hash, t1: Time, t2: Time, f: A.LoginFaults,
                          rf: RefreshFaults, d: Draws, jti: Id, hash: Hash)
    returns (pair: Result<A.TokenPair>, next: Result<A.TokenPair>)
    requires svc.Valid() && svc.Traced() && svc.sys.now <= t1 <= t2 && Fresh(svc, d)
    requires jti !in svc.signed && jti != d.jti && hash !in svc.refresh.rows && hash != d.hash
    modifies svc`signed, svc`sys, svc`tries, svc.refresh, svc.sessions, svc.lockout, svc.lockout.counters
    ensures pair.Ok? && t2 < t1 + svc.cfg.refreshTtl && rf == CLEAN_REFRESH ==> next.Ok?
    ensures pair.Ok? && t2 >= t1 + svc.cfg.refreshTtl ==> next == Err(Unauthorized)
  {
    pair := svc.Login(input, password, t1, f, d.session, d.family, d.jti, d.hash);
    next := svc.Refresh(Some(d.hash), t2, rf, jti, hash);
  }

  /** A refresh token is exchanged once; presented again it revokes its successor. */
  method RefreshTwice(svc: A.AuthService, presented: Hash, t1: Time, t2: Time, f: RefreshFaults, rf: RefreshFaults,
                      d: Draws, jti: Id, hash: Hash)
    returns (first: Result<A.TokenPair>, second: Result<A.TokenPair>)
    requires svc.Valid() && svc.sys.now <= t1 <= t2 && Fresh(svc, d) && jti !in svc.signed && jti != d.jti
    modifies svc`signed, svc`sys, svc.refresh, svc.sessions
    ensures svc.Valid() && svc.sys.now == t2
    ensures first.Ok? ==> second == Err(Unauthorized)
    ensures first.Ok? && rf == CLEAN_REFRESH ==>
              && d.hash in svc.refresh.rows && svc.refresh.rows[d.hash].revoked.Some?
              && svc.signed.Keys == old(svc.signed.Keys) + {d.jti}
  {
    first := svc.Refresh(Some(presented), t1, f, d.jti, d.hash);
    second := svc.Refresh(Some(presented), t2, rf, jti, hash);
  }

  /** So a replay ends the family: the successor is refused as well. */
  method ReplayThenRefresh(svc: A.AuthService, presented: Hash, t1: Time, t2: Time, t3: Time, f: RefreshFaults,
                           rf: RefreshFaults, d: Draws, e: Draws, jti: Id, hash: Hash)
    returns (first: Result<A.TokenPair>, third: Result<A.TokenPair>)
    requires svc.Valid() && svc.sys.now <= t1 <= t2 <= t3 && Fresh(svc, d)
    requires e.jti !in svc.signed && e.jti != d.jti && jti !in svc.signed && jti != d.jti
    modifies svc`signed, svc`sys, svc.refresh, svc.sessions
    ensures first.Ok? ==> third == Err(Unauthorized)
  {
    var second;
    first, second := RefreshTwice(svc, presented, t1, t2, f, CLEAN_REFRESH, d, e.jti, e.hash);
    if first.Ok? {
      third := svc.Refresh(Some(d.hash), t3, rf, jti, hash);
    } else {
      third := Err(Internal);
    }
  }

  // ---- one-time tokens -----------------------------------------------------------------------------------

  /** A reset token that ForgotPassword issued is taken for one hour. */
  method ForgotThenReset(svc: A.AuthService, input: string, password: Hash, t1: Time, t2: Time, token: Hash,
                         f: RevokeFaults)
    returns (done: Result<()>)
    requires svc.Valid() && svc.sys.now <= t1 <= t2 && token !in svc.resets.tokens
    modifies svc`sys, svc.users, svc.resets, svc.refresh, svc.sessions, svc.emailLimit.store, svc.mailer
    ensures (!svc.mail.enabled
             && (exists user | user in old(svc.users.users) :: old(svc.users.users)[user].email == svc.norm(input)))
            ==> (done.Ok? <==> t2 < t1 + 3600000)
    ensures t2 >= t1 + 3600000 ==> done == Err(TokenInvalid)
  {
    svc.ForgotPassword(input, t1, NoFault, NoFault, NoFault, true, NoFault, token);
    done := svc.ResetPassword(token, password, t2, NoFault, NoFault, f);
  }

  /** A verification token marks its account within one day. */
  method RegisterThenVerify(svc: A.AuthService, input: string, password: Hash, t1: Time, t2: Time, id: Id, token: Hash)
    returns (done: Result<()>, marked: Result<()>)
    requires UniqueEmails(svc.users.users) && id !in svc.users.users
    modifies svc.users, svc.verify, svc.emailLimit.store, svc.mailer
    ensures done.Ok? ==> (marked.Ok? <==> t2 < t1 + 86400000)
    ensures marked.Ok? && done.Ok? ==> id in svc.users.users && svc.users.users[id].verified
  {
    done := svc.Register(input, password, t1, NoFault, NoFault, NoFault, true, NoFault, id, token);
    marked := svc.VerifyEmail(token, t2, NoFault, NoFault);
  }

  // ---- failed logins -------------------------------------------------------------------------------------

  /** A wrong password counts, and locks from the maximum on for the lockout; until then the right one gets in. */
  method FailThenLogin(svc: A.AuthService, input: string, wrong: Hash, right: Hash, t1: Time, t2: Time, d: Draws, e: Draws)
    returns (first: Result<A.TokenPair>, second: Result<A.TokenPair>)
    requires svc.Valid() && svc.Traced() && svc.sys.now <= t1 <= t2 && Fresh(svc, d) && Fresh(svc, e)
    requires svc.norm(input) !in svc.lockout.locks && svc.norm(input) !in svc.lockout.counters.counts
    requires exists id | id in svc.users.users ::
               && svc.users.users[id].email == svc.norm(input) && svc.users.users[id].active
               && svc.users.users[id].password == right && right != wrong
    modifies svc`signed, svc`sys, svc`tries, svc.refresh, svc.sessions, svc.lockout, svc.lockout.counters
    ensures first == Err(Unauthorized)
    ensures second.Ok? <==> svc.policy.max > 1 || t2 >= t1 + svc.policy.lockout
    ensures second.Ok? ==>
              svc.norm(input) !in svc.lockout.locks && svc.norm(input) !in svc.lockout.counters.counts
    ensures second.Err? ==> second == Err(AccountLocked)
  {
    first := svc.Login(input, wrong, t1, CLEAN_LOGIN, d.session, d.family, d.jti, d.hash);
    second := svc.Login(input, right, t2, CLEAN_LOGIN, e.session, e.family, e.jti, e.hash);
  }

  // ---- repeated requests ---------------------------------------------------------------------------------

  /**
   * Within five minutes a repeated request gets the body of the first. If that could not be stored, it calls
   * the function again, or is refused while the lock could not be released. After five minutes it calls it.
   */
  method RequestTwice(store: R.IdempotencyStore, cacheKey: string, t1: Time, t2: Time, body: string,
                      outcome: Option<string>, f: R.Faults)
    returns (first: I.Response, second: I.Response)
    requires t1 <= t2 && |body| > 0 && body[0] == '{' && f.first.NoFault? && f.lock.NoFault?
    requires cacheKey !in store.entries && cacheKey + ":lock" !in store.entries
    modifies store
    ensures first == I.Created(body)
    ensures second == if t2 < t1 + 300000 && !f.put.Refused? then I.Created(body)
                      else if t2 < t1 + 300000 && f.release.Refused? then I.Failed
                      else if outcome.Some? then I.Created(outcome.value) else I.Failed
  {
    R.AloneAnswers(R.Found(I.Arbitrary, store.entries, cacheKey, t1, false), R.Ran(None, Some(body)), f);
    first := R.RunIdempotent(store, cacheKey, t1, Some(body), f);
    R.AloneAnswers(R.Found(I.Arbitrary, store.entries, cacheKey, t2, false), R.Ran(None, outcome), f);
    second := R.RunIdempotent(store, cacheKey, t2, outcome, f);
  }

  /** A failed request leaves nothing behind: the next one calls the function at once. */
  method RequestFails(store: R.IdempotencyStore, cacheKey: string, t1: Time, t2: Time, body: string, f: R.Faults)
    returns (first: I.Response, second: I.Response)
    requires t1 <= t2 && f.first.NoFault? && f.lock.NoFault? && !f.release.Refused?
    requires cacheKey !in store.entries && cacheKey + ":lock" !in store.entries
    modifies store
    ensures first == I.Failed && second == I.Created(body)
  {
    R.AloneAnswers(R.Found(I.Arbitrary, store.entries, cacheKey, t1, false), R.Ran(None, None), f);
    first := R.RunIdempotent(store, cacheKey, t1, None, f);
    R.AloneAnswers(R.Found(I.Arbitrary, store.entries, cacheKey, t2, false), R.Ran(None, Some(body)), f);
    second := R.RunIdempotent(store, cacheKey, t2, Some(body), f);
  }

  /** A request whose first read fails, and that does not get the lock, is still answered by its second read. */
  method RequestReadsAgain(store: R.IdempotencyStore, cacheKey: string, now: Time, f: R.Faults) returns (answer: I.Response)
    requires cacheKey in store.entries && now < store.entries[cacheKey].expires
    requires |store.entries[cacheKey].body| > 0 && store.entries[cacheKey].body[0] == '{'
    requires !f.first.NoFault? && !f.lock.NoFault? && f.second.NoFault?
    modifies store
    ensures answer == I.Created(old(store.entries)[cacheKey].body)
  {
    R.AloneAnswers(R.Found(I.Arbitrary, store.entries, cacheKey, now, false), R.Ran(None, None), f);
    answer := R.RunIdempotent(store, cacheKey, now, None, f);
  }

  /** A second request while the first one's lock is held, and nothing is cached, is a conflict. */
  method RequestLocked(store: R.IdempotencyStore, cacheKey: string, t1: Time, t2: Time, f: R.Faults, g: R.Faults)
    returns (answer: Option<I.Response>, second: I.Response)
    requires t1 <= t2 < t1 + 300000 && f.first.NoFault? && f.lock.NoFault?
    requires cacheKey !in store.entries && cacheKey + ":lock" !in store.entries
    modifies store
    ensures answer == None && second == I.Failed
  {
    answer := R.Begin(store, cacheKey, t1, f);
    R.AloneAnswers(R.Found(I.Arbitrary, store.entries, cacheKey, t2, false), R.Ran(None, None), g);
    second := R.RunIdempotent(store, cacheKey, t2, None, g);
  }
}
