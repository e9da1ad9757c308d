/**
 * The auth service over its stores. Each call is one atomic transition; beside the stores the object
 * keeps, as ghost state, the state of the token machine that its calls have driven so far.
 */
module AuthService {
  import opened Types
  import opened RefreshTable
  import opened OneTimeTokens
  import opened UserTable
  import S = Sessions
  import C = Counters
  import L = Lockout
  import M = Mail
  import opened Machine
  import opened Reach
  import opened Atomic
  import Lineage
  import Conservation
  import FamilyDeath

  class Blacklist {
    var bans: map<Id, Time>

    constructor ()
      ensures bans == map[]
    {
      bans := map[];
    }

    predicate Banned(jti: Id, now: Time)
      reads this
    {
      jti in bans && now < bans[jti]
    }

    /** An entry that has been written is found for `ttl` and no longer; no other jti is touched. */
    method Add(jti: Id, ttl: nat, now: Time, fault: Fault)
      modifies this
      ensures fault.Applied() ==> forall later: Time :: Banned(jti, later) <==> later < now + ttl
      ensures forall other, at: Time | other != jti || !fault.Applied() :: Banned(other, at) <==> old(Banned(other, at))
      ensures bans == if fault.Applied() then old(bans)[jti := now + ttl] else old(bans)
    {
      if fault.Applied() {
        bans := bans[jti := now + ttl];
      }
    }

    method Exists(jti: Id, now: Time, fault: Fault) returns (banned: Result<bool>)
      ensures banned == if fault.NoFault? then Ok(Banned(jti, now)) else Err(Internal)
    {
      banned := if fault.NoFault? then Ok(jti in bans && now < bans[jti]) else Err(Internal);
    }
  }

  /** The messages the mail provider has taken. */
  class Mailer {
    var sent: seq<string>

    constructor ()
      ensures sent == []
    {
      sent := [];
    }

    /** The provider's answer may be an error, whether or not it took the message. */
    method Send(address: string, fault: Fault) returns (ok: bool)
      modifies this
      ensures sent == old(sent) + if fault.Applied() then [address] else []
      ensures ok <==> fault.NoFault?
    {
      if fault.Applied() {
        sent := sent + [address];
      }
      ok := fault.NoFault?;
    }
  }

  /** The jti of the access token and the digest of the refresh token. */
  datatype TokenPair = TokenPair(access: Id, refresh: Hash)

  /** The process number under which the calls of this object run in the machine. */
  const SELF: Id := 0

  /** The life of a verification token. */
  const DAY: nat := 24 * 60 * 60 * SECOND

  class AuthService {
    const cfg: Config
    const policy: L.Policy
    const mail: M.MailConfig
    const norm: string -> string

    const users: UserRepo
    const refresh: RefreshRepo
    const resets: OneTimeRepo
    const verify: OneTimeRepo
    const sessions: S.SessionStore
    const blacklist: Blacklist
    const lockout: L.LoginLockout
    const emailLimit: C.RateLimiter
    const mailer: Mailer

    /** The claims this service has signed: a signature verifies iff its token is one of them. */
    var signed: map<Id, Claims>

    ghost var sys: Sys

    /** The attempts made so far, as the lockout guard has seen them. */
    ghost var tries: seq<L.Attempt>

    /** The lockout guard is what those attempts have made of it. */
    ghost predicate Traced()
      reads this`tries, lockout, lockout.counters
    {
      lockout.View() == L.AfterTries(L.NO_GUARD, policy, tries)
    }

    /** No call is under way. */
    ghost predicate Valid()
      reads this, users, refresh, resets, sessions, blacklist
    {
      Running(map[])
    }

    /** The stores are what some run of the machine has made of them, with `procs` under way. */
    ghost predicate Running(procs: map<Id, Proc>)
      reads this, users, refresh, resets, sessions, blacklist
    {
      && resets != verify && lockout.counters != emailLimit.store
      && UniqueEmails(users.users)
      && sys.cfg == cfg && S.Untruncated(cfg.refreshTtl)
      && sys.db == Db(refresh.rows, sessions.st, resets.tokens, blacklist.bans)
      && sys.hist.access == signed && sys.procs == procs
      && Reaches(Init(cfg), sys)
      && sys.hist.wastedIn == multiset{} && sys.hist.wastedOn == multiset{}
      && S.IndexAgrees(sessions.st, sys.hist.owner, cfg.refreshTtl, sys.now)
    }

    constructor (cfg: Config, policy: L.Policy, mail: M.MailConfig, norm: string -> string)
      requires S.Untruncated(cfg.refreshTtl)
      ensures Valid() && sys == Init(cfg) && Traced() && tries == []
      ensures this.cfg == cfg && this.policy == policy && this.mail == mail && this.norm == norm
      ensures users.users == map[] && mailer.sent == [] && emailLimit.store.counts == map[]
      ensures lockout.View() == L.NO_GUARD
      ensures fresh(users) && fresh(refresh) && fresh(resets) && fresh(verify) && fresh(sessions) && fresh(blacklist)
      ensures fresh(lockout) && fresh(lockout.counters) && fresh(emailLimit) && fresh(emailLimit.store) && fresh(mailer)
    {
      this.cfg, this.policy, this.mail, this.norm := cfg, policy, mail, norm;
      users := new UserRepo();
      refresh := new RefreshRepo();
      resets := new OneTimeRepo();
      verify := new OneTimeRepo();
      sessions := new S.SessionStore();
      blacklist := new Blacklist();
      lockout := new L.LoginLockout();
      emailLimit := new C.RateLimiter();
      mailer := new Mailer();
      signed := map[];
      sys := Init(cfg);
      tries := [];
      new;
      assert Exec(Init(cfg), []) == Init(cfg);
    }

    /** The machine's invariant holds of the stores. */
    lemma Sound()
      requires Valid()
      ensures Lineage.Inv(sys)
    {
      var events :| Exec(Init(cfg), events) == sys;
      Lineage.InitKeeps(cfg);
      Lineage.RunKeeps(Init(cfg), events);
    }

    /** In atomic runs a family has at most one unrevoked token, and its tokens form a chain. */
    lemma FamiliesAreChains(family: Id, hash: Hash)
      requires Valid()
      ensures |UnrevokedIn(refresh.rows, family)| <= 1
      ensures |Children(sys.hist.links, hash)| <= 1
    {
      var events :| Exec(Init(cfg), events) == sys;
      Conservation.TokensConserved(cfg, events, family);
      Conservation.ChildrenBounded(cfg, events, hash);
    }

    /** A family that was dead at an earlier moment is dead now, whatever calls came between. */
    lemma StaysDead(before: Sys, family: Id)
      requires Valid() && Reaches(Init(cfg), before) && Reaches(before, sys) && FamilyDeath.Dead(before, family)
      ensures FamilyDeath.Dead(sys, family)
    {
      var first :| Exec(Init(cfg), first) == before;
      var rest :| Exec(before, rest) == sys;
      ExecSplit(Init(cfg), first, rest);
      FamilyDeath.DeathIsPermanent(cfg, first, rest, family);
    }

    /** After a user was signed out, a token live now is of a family that a later login drew. */
    lemma SignedOutHolds(before: Sys, user: Id, hash: Hash)
      requires Valid() && Reaches(Init(cfg), before) && Reaches(before, sys) && FamilyDeath.SignedOut(before, user)
      requires Live(refresh.rows, hash, sys.now) && refresh.rows[hash].grant.user == user
      ensures refresh.rows[hash].grant.family !in before.hist.born
    {
      var first :| Exec(Init(cfg), first) == before;
      var rest :| Exec(before, rest) == sys;
      ExecSplit(Init(cfg), first, rest);
      FamilyDeath.SignedOutNeedsLogin(cfg, first, rest, user, hash);
    }

    /** An access token signed at an earlier moment says the same now. */
    lemma SignedHolds(before: Sys, jti: Id)
      requires Valid() && Reaches(Init(cfg), before) && Reaches(before, sys) && jti in before.hist.access
      ensures jti in signed && signed[jti] == before.hist.access[jti]
    {
      var first :| Exec(Init(cfg), first) == before;
      var rest :| Exec(before, rest) == sys;
      Lineage.InitKeeps(cfg);
      Lineage.RunKeeps(Init(cfg), first);
      Lineage.RunKeeps(before, rest);
    }

    /** A jti that has not been drawn has not been banned. */
    lemma NewIsNotBanned(jti: Id)
      requires Valid() && jti !in signed
      ensures jti !in sys.hist.banned
    {
      Sound();
      assert Lineage.BanOk(sys.db.blacklist, sys.hist, jti);
    }

    /** A jti banned at an earlier moment is banned now. */
    lemma StaysBanned(before: Sys, jti: Id)
      requires Valid() && Reaches(Init(cfg), before) && Reaches(before, sys) && jti in before.hist.banned
      ensures jti in sys.hist.banned
    {
      var first :| Exec(Init(cfg), first) == before;
      var rest :| Exec(before, rest) == sys;
      Lineage.InitKeeps(cfg);
      Lineage.RunKeeps(Init(cfg), first);
      Lineage.RunKeeps(before, rest);
    }

    /** The tail of Login and Refresh. */
    method IssueTokens(g: Grant, now: Time, f: IssueFaults, jti: Id, hash: Hash) returns (pair: Result<TokenPair>)
      modifies this`signed, refresh, sessions
      ensures pair.Ok? <==> f.Signs() && f.save.NoFault? && hash !in old(refresh.rows)
      ensures pair.Ok? ==> pair.value == TokenPair(jti, hash)
      ensures refresh.rows == IssuedRows(old(refresh.rows), cfg, now, g, f, hash)
      ensures sessions.st == IssuedStore(old(sessions.st), cfg, now, g, f)
      ensures signed == IssuedAccess(old(signed), cfg, now, g, f, jti)
      ensures pair.Ok? ==>
                && hash in refresh.rows && refresh.rows[hash] == Row(g, now, now + cfg.refreshTtl, None)
                && jti in signed && signed[jti].user == g.user && signed[jti].session == g.session
                && signed[jti].exp % 1000 == 0 && signed[jti].exp <= now + cfg.accessTtl < signed[jti].exp + 1000
    {
      if !f.profile.NoFault? {
        return Err(Internal);
      }
      S.SamePartsAreWhole(sessions.st, g.session, g.user, g.family, cfg.refreshTtl, now, f.session);
      var saved := sessions.SaveSession(g.session, g.user, g.family, cfg.refreshTtl, now,
                                        f.session, f.session, f.session);
      if !saved {
        return Err(Internal);
      }
      if !f.access.NoFault? {
        return Err(Internal);
      }
      signed := signed[jti := Claims(g.user, g.session, AccessExpiry(now, cfg.accessTtl))];
      var stored := refresh.Save(hash, Row(g, now, now + cfg.refreshTtl, None), f.save);
      AccessExpiryBounds(now, cfg.accessTtl);
      pair := if stored then Ok(TokenPair(jti, hash)) else Err(Internal);
    }

    /** Email and password belong to an active account. */
    ghost predicate Good(email: string, password: Hash)
      reads users
    {
      exists id | id in users.users ::
        users.users[id].email == email && users.users[id].active && users.users[id].password == password
    }

    /** The attempt the lockout guard sees. */
    ghost function Attempted(email: string, password: Hash, now: Time, f: LoginFaults): L.Attempt
      reads users
    {
      L.Attempt(email, now, Good(email, password),
                if f.check.NoFault? && f.lookup.NoFault? then NoFault else Refused, f.incr, f.lock, f.clear)
    }

    /** The machine's run goes on, and no session or family is drawn. */
    twostate predicate GoesOn()
      reads this`sys
    {
      && Reaches(old(sys), sys)
      && sys.hist.born == old(sys.hist.born) && sys.hist.owner == old(sys.hist.owner)
    }

    /** The same, and no access token is banned. */
    twostate predicate Continues()
      reads this`sys
    {
      GoesOn() && sys.hist.banned == old(sys.hist.banned)
    }

    /** Time passes between calls. */
    ghost method Await(now: Time)
      requires Valid() && sys.now <= now
      modifies this`sys
      ensures Valid() && sys == old(sys).(now := now) && Continues()
    {
      S.TimeKeepsIndex(sessions.st, sys.hist.owner, cfg.refreshTtl, sys.now, now);
      var s := Wait(sys, now);
      ReachesThen(Init(cfg), sys, s);
      sys := s;
    }

    /** Login up to its call of `issueTokens`: the lock check, the lookup, and failLogin or the clearing. */
    method CheckCredentials(email: string, password: Hash, now: Time, f: LoginFaults) returns (user: Result<Id>)
      requires UniqueEmails(users.users)
      modifies lockout, lockout.counters
      ensures lockout.View() == L.Try(old(lockout.View()), policy, Attempted(email, password, now, f))
      ensures user.Ok? <==> L.Admitted(old(lockout.View()), Attempted(email, password, now, f)) && Good(email, password)
      ensures user.Ok? ==> user.value in users.users && users.users[user.value].email == email
      ensures f.check.NoFault? ==> (user == Err(AccountLocked) <==> old(L.Locked(lockout.View(), email, now)))
      ensures f.check.NoFault? && f.lookup.NoFault? ==>
                (user == Err(Unauthorized) <==> !old(L.Locked(lockout.View(), email, now)) && !Good(email, password))
      ensures user.Ok? <==>
                (f.check.NoFault? && f.lookup.NoFault?
                 && !(email in old(lockout.locks) && now < old(lockout.locks)[email])
                 && (exists id | id in users.users ::
                       users.users[id].email == email && users.users[id].active && users.users[id].password == password))
    {
      var locked := lockout.IsLocked(email, now, f.check);
      if locked.Err? {
        return Err(locked.error);
      }
      if locked.value {
        return Err(AccountLocked);
      }
      user := users.GetByEmail(email, f.lookup);
      if user.Err? && user.error != NotFound {
        return;
      }
      if user.Err? || !users.users[user.value].active || users.users[user.value].password != password {
        lockout.RecordFailure(email, policy, now, f.incr, f.lock);
        return Err(Unauthorized);
      }
      lockout.Clear(email, f.clear);
    }

    /** The rest of Login, for a user whose credentials were right. */
    method OpenSession(g: Grant, now: Time, f: IssueFaults, jti: Id, hash: Hash) returns (pair: Result<TokenPair>)
      requires Valid() && sys.now == now
      requires g.session !in sys.hist.owner && g.family !in sys.hist.born && g.family != NIL_ID && jti !in signed
      modifies this`signed, this`sys, refresh, sessions
      ensures Valid() && sys.now == now && Reaches(old(sys), sys) && sys.hist.banned == old(sys.hist.banned)
      ensures pair.Ok? <==> f.Signs() && f.save.NoFault? && hash !in old(refresh.rows)
      ensures refresh.rows == IssuedRows(old(refresh.rows), cfg, now, g, f, hash)
      ensures sessions.st == IssuedStore(old(sessions.st), cfg, now, g, f)
      ensures signed == IssuedAccess(old(signed), cfg, now, g, f, jti)
      ensures sys.hist.born == old(sys.hist.born)[g.family := g]
      ensures sys.hist.owner == old(sys.hist.owner)[g.session := g.user]
      ensures pair.Ok? ==> pair.value == TokenPair(jti, hash) && UnrevokedIn(refresh.rows, g.family) == {hash}
    {
      pair := IssueTokens(g, now, f, jti, hash);
      ghost var s := LoginAlone(sys, SELF, g, f, jti, hash);
      ReachesThen(Init(cfg), sys, s);
      LoginKeepsIndex(old(sessions.st), sys.hist.owner, cfg, now, g, f);
      sys := s;
      if pair.Ok? {
        OnlyToken(g.family, hash);
      }
    }

    /** Login for a normalised email. */
    method LoginAs(email: string, password: Hash, now: Time, f: LoginFaults, session: Id, family: Id, jti: Id, hash: Hash)
      returns (pair: Result<TokenPair>)
      requires Valid() && Traced() && sys.now <= now
      requires session !in sys.hist.owner && family !in sys.hist.born && family != NIL_ID && jti !in signed
      modifies this`signed, this`sys, this`tries, refresh, sessions, lockout, lockout.counters
      ensures Valid() && Traced() && sys.now == now && Reaches(old(sys), sys) && sys.hist.banned == old(sys.hist.banned)
      ensures tries == old(tries) + [Attempted(email, password, now, f)]
      ensures lockout.View() == L.Try(old(lockout.View()), policy, Attempted(email, password, now, f))
      ensures var entered := L.Admitted(old(lockout.View()), Attempted(email, password, now, f))
                             && Good(email, password);
              && (!entered ==> pair.Err? && refresh.rows == old(refresh.rows) && sessions.st == old(sessions.st)
                               && signed == old(signed) && Continues())
              && (entered ==> exists user | user in users.users && users.users[user].email == email ::
                    var g := Grant(user, session, family);
                    && refresh.rows == IssuedRows(old(refresh.rows), cfg, now, g, f.issue, hash)
                    && sessions.st == IssuedStore(old(sessions.st), cfg, now, g, f.issue)
                    && signed == IssuedAccess(old(signed), cfg, now, g, f.issue, jti)
                    && sys.hist.born == old(sys.hist.born)[family := g]
                    && sys.hist.owner == old(sys.hist.owner)[session := user])
              && (pair.Ok? <==> entered && f.issue.Signs() && f.issue.save.NoFault? && hash !in old(refresh.rows))
              && (pair.Ok? ==> pair.value == TokenPair(jti, hash) && UnrevokedIn(refresh.rows, family) == {hash})
      ensures f.check.NoFault? && old(L.Locked(lockout.View(), email, now)) ==> pair == Err(AccountLocked)
      ensures (f.check.NoFault? && f.lookup.NoFault? && !Good(email, password)
               && !old(L.Locked(lockout.View(), email, now))) ==> pair == Err(Unauthorized)
    {
      Await(now);
      ghost var mid := sys;
      L.TriesSnoc(L.NO_GUARD, policy, tries, Attempted(email, password, now, f));
      tries := tries + [Attempted(email, password, now, f)];
      var user := CheckCredentials(email, password, now, f);
      if user.Err? {
        return Err(user.error);
      }
      pair := OpenSession(Grant(user.value, session, family), now, f.issue, jti, hash);
      ReachesThen(old(sys), mid, sys);
    }

    /**
     * `session`, `family` and `jti` are fresh ids, `hash` the digest of a random token. The lockout
     * guard moves as one attempt; a session is opened, in a family of its own, exactly if the guard
     * admits the attempt and the credentials are right.
     */
    method Login(input: string, password: Hash, now: Time, f: LoginFaults, session: Id, family: Id, jti: Id, hash: Hash)
      returns (pair: Result<TokenPair>)
      requires Valid() && Traced() && sys.now <= now
      requires session !in sys.hist.owner && family !in sys.hist.born && family != NIL_ID && jti !in signed
      modifies this`signed, this`sys, this`tries, refresh, sessions, lockout, lockout.counters
      ensures Valid() && Traced() && sys.now == now && Reaches(old(sys), sys) && sys.hist.banned == old(sys.hist.banned)
      ensures tries == old(tries) + [Attempted(norm(input), password, now, f)]
      ensures lockout.View() == L.Try(old(lockout.View()), policy, Attempted(norm(input), password, now, f))
      ensures var entered := L.Admitted(old(lockout.View()), Attempted(norm(input), password, now, f))
                             && Good(norm(input), password);
              && (!entered ==> pair.Err? && refresh.rows == old(refresh.rows) && sessions.st == old(sessions.st)
                               && signed == old(signed) && Continues())
              && (entered ==> exists user | user in users.users && users.users[user].email == norm(input) ::
                    var g := Grant(user, session, family);
                    && refresh.rows == IssuedRows(old(refresh.rows), cfg, now, g, f.issue, hash)
                    && sessions.st == IssuedStore(old(sessions.st), cfg, now, g, f.issue)
                    && signed == IssuedAccess(old(signed), cfg, now, g, f.issue, jti)
                    && sys.hist.born == old(sys.hist.born)[family := g]
                    && sys.hist.owner == old(sys.hist.owner)[session := user])
              && (pair.Ok? <==> entered && f.issue.Signs() && f.issue.save.NoFault? && hash !in old(refresh.rows))
              && (pair.Ok? ==> pair.value == TokenPair(jti, hash) && UnrevokedIn(refresh.rows, family) == {hash})
      ensures pair.Ok? <==>
                (f.check.NoFault? && !(norm(input) in old(lockout.locks) && now < old(lockout.locks)[norm(input)])
                 && f.lookup.NoFault?
                 && (exists id | id in users.users ::
                       users.users[id].email == norm(input) && users.users[id].active && users.users[id].password == password)
                 && f.issue.profile.NoFault? && f.issue.session.NoFault? && f.issue.access.NoFault?
                 && f.issue.save.NoFault? && hash !in old(refresh.rows))
      ensures pair.Ok? ==> exists user | user in users.users && users.users[user].email == norm(input) ::
                && hash in refresh.rows
                && refresh.rows[hash] == Row(Grant(user, session, family), now, now + cfg.refreshTtl, None)
                && jti in signed && signed[jti].user == user && signed[jti].session == session
                && signed[jti].exp % 1000 == 0 && signed[jti].exp <= now + cfg.accessTtl < signed[jti].exp + 1000
      ensures f.check.NoFault? && old(L.Locked(lockout.View(), norm(input), now)) ==> pair == Err(AccountLocked)
      ensures (f.check.NoFault? && f.lookup.NoFault? && !Good(norm(input), password)
               && !old(L.Locked(lockout.View(), norm(input), now))) ==> pair == Err(Unauthorized)
    {
      pair := LoginAs(norm(input), password, now, f, session, family, jti, hash);
      AccessExpiryBounds(now, cfg.accessTtl);
      if pair.Ok? {
        ghost var user :| user in users.users && users.users[user].email == norm(input)
                    && refresh.rows == IssuedRows(old(refresh.rows), cfg, now, Grant(user, session, family), f.issue, hash)
                    && signed == IssuedAccess(old(signed), cfg, now, Grant(user, session, family), f.issue, jti);
        assert refresh.rows[hash] == Row(Grant(user, session, family), now, now + cfg.refreshTtl, None);
      }
    }

    /** Refresh after its lookup found the live token `presented`. */
    method Rotate(presented: Hash, now: Time, f: RefreshFaults, jti: Id, hash: Hash) returns (pair: Result<TokenPair>)
      requires Valid() && sys.now == now && f.lookup.NoFault? && Live(refresh.rows, presented, now) && jti !in signed
      modifies this`signed, this`sys, refresh, sessions
      ensures Valid() && sys.now == now && Continues()
      ensures pair.Ok? <==> Inserts(old(refresh.rows), f, hash) && f.issue.save.NoFault?
      ensures pair.Ok? ==> pair.value == TokenPair(jti, hash)
      ensures refresh.rows == RotatedRows(old(refresh.rows), cfg, now, presented, f, hash)
      ensures sessions.st == RotatedStore(old(sessions.st), cfg, now, old(refresh.rows)[presented].grant, f)
      ensures signed == RotatedAccess(old(signed), cfg, now, old(refresh.rows)[presented].grant, f, jti)
      ensures UnrevokedIn(refresh.rows, old(refresh.rows)[presented].grant.family)
           == if f.revoke.Refused? then {presented} else if Inserts(old(refresh.rows), f, hash) then {hash} else {}
    {
      ghost var s := RotateAlone(sys, SELF, presented, f, jti, hash);
      ReachesThen(Init(cfg), sys, s);
      var g := refresh.rows[presented].grant;
      OwnerOf(presented);
      OnlyToken(g.family, presented);
      RotationLeaves(refresh.rows, cfg, now, presented, f, hash);
      var revoked := refresh.Revoke(presented, now, f.revoke);
      if revoked {
        IssueKeepsIndex(sessions.st, sys.hist.owner, cfg, now, g, f.issue);
        pair := IssueTokens(g, now, f.issue, jti, hash);
      } else {
        pair := Err(Internal);
      }
      sys := s;
    }

    /** Refresh after its lookup found nothing, or failed. */
    method DetectReplay(presented: Hash, now: Time, f: RefreshFaults)
      requires Valid() && sys.now == now && !(f.lookup.NoFault? && Live(refresh.rows, presented, now))
      modifies this`sys, refresh
      ensures Valid() && sys.now == now && sys.hist == old(sys.hist) && Continues()
      ensures refresh.rows == ReplayedRows(old(refresh.rows), now, presented, f)
    {
      ghost var s := ReplayAlone(sys, SELF, presented, f);
      ReachesThen(Init(cfg), sys, s);
      NoNilFamily();
      var family := refresh.GetRevokedFamily(presented, f.replay);
      if family.Some? {
        refresh.RevokeFamily(family.value, now, f.kill);
      }
      sys := s;
    }

    /** The session of a stored grant belongs to its user. */
    lemma OwnerOf(hash: Hash)
      requires Valid() && hash in refresh.rows
      ensures var g := refresh.rows[hash].grant;
              && g.session in sys.hist.owner && sys.hist.owner[g.session] == g.user
              && g.family in sys.hist.born && sys.hist.born[g.family] == g
    {
      Sound();
      assert Lineage.RowOk(sys.now, sys.db.rows, sys.hist, hash);
      assert Lineage.FamilyOk(sys.hist, sys.db.rows[hash].grant.family);
    }

    /** Revoking the zero family, as the source does after a failed query, changes nothing. */
    lemma NoNilFamily()
      requires Valid()
      ensures forall now :: RevokeAll(refresh.rows, OfFamily(refresh.rows, NIL_ID), now) == refresh.rows
    {
      Sound();
      forall h | h in refresh.rows ensures refresh.rows[h].grant.family != NIL_ID {
        assert Lineage.RowOk(sys.now, sys.db.rows, sys.hist, h);
        assert Lineage.FamilyOk(sys.hist, refresh.rows[h].grant.family);
      }
      assert OfFamily(refresh.rows, NIL_ID) == {};
    }

    /** Refresh of a token that was presented. */
    method RefreshHash(presented: Hash, now: Time, f: RefreshFaults, jti: Id, hash: Hash)
      returns (pair: Result<TokenPair>)
      requires Valid() && sys.now <= now && jti !in signed
      modifies this`signed, this`sys, refresh, sessions
      ensures Valid() && sys.now == now && Continues()
      ensures refresh.rows == RefreshedRows(old(refresh.rows), cfg, now, presented, f, hash)
      ensures f.lookup.NoFault? && Live(old(refresh.rows), presented, now) ==>
                var rows, h := old(refresh.rows), presented;
                && (pair.Ok? <==> Inserts(rows, f, hash) && f.issue.save.NoFault?)
                && (pair.Ok? ==> pair.value == TokenPair(jti, hash))
                && sessions.st == RotatedStore(old(sessions.st), cfg, now, rows[h].grant, f)
                && signed == RotatedAccess(old(signed), cfg, now, rows[h].grant, f, jti)
                && UnrevokedIn(refresh.rows, rows[h].grant.family)
                   == if f.revoke.Refused? then {h} else if Inserts(rows, f, hash) then {hash} else {}
      ensures !(f.lookup.NoFault? && Live(old(refresh.rows), presented, now)) ==>
                pair == Err(Unauthorized) && sessions.st == old(sessions.st) && signed == old(signed)
      ensures presented in old(refresh.rows) && old(refresh.rows)[presented].revoked.Some?
              && f.replay.NoFault? && f.kill.Applied() ==>
                FamilyDeath.Dead(sys, old(refresh.rows)[presented].grant.family)
    {
      Await(now);
      ghost var mid := sys;
      var found := refresh.GetByHash(presented, now, f.lookup);
      if found.None? {
        DetectReplay(presented, now, f);
        ReachesThen(old(sys), mid, sys);
        if presented in refresh.rows { OwnerOf(presented); }
        return Err(Unauthorized);
      }
      pair := Rotate(presented, now, f, jti, hash);
      ReachesThen(old(sys), mid, sys);
    }

    /**
     * A live token is exchanged for one successor, the only unrevoked token of its family; a failing
     * call never leaves the family with more, and once the Revoke has taken effect leaves it with none
     * unless the insert took effect and only its answer was lost. A token already revoked ends its
     * family for ever, if the family-wide statement takes effect.
     */
    method Refresh(presented: Option<Hash>, now: Time, f: RefreshFaults, jti: Id, hash: Hash)
      returns (pair: Result<TokenPair>)
      requires Valid() && sys.now <= now && jti !in signed
      modifies this`signed, this`sys, refresh, sessions
      ensures Valid() && sys.now == now && Continues()
      ensures pair.Ok? <==>
                (presented.Some? && presented.value in old(refresh.rows)
                 && old(refresh.rows)[presented.value].revoked.None? && now < old(refresh.rows)[presented.value].expires
                 && f.lookup.NoFault? && f.revoke.NoFault? && f.issue.profile.NoFault? && f.issue.session.NoFault?
                 && f.issue.access.NoFault? && f.issue.save.NoFault? && hash !in old(refresh.rows))
      ensures pair.Ok? ==>
                var g := old(refresh.rows)[presented.value].grant;
                && presented.value in refresh.rows && refresh.rows[presented.value].revoked == Some(now)
                && hash in refresh.rows && refresh.rows[hash] == Row(g, now, now + cfg.refreshTtl, None)
                && jti in signed && signed[jti].user == g.user && signed[jti].session == g.session
                && signed[jti].exp % 1000 == 0 && signed[jti].exp <= now + cfg.accessTtl < signed[jti].exp + 1000
      ensures presented.None? ==> pair == Err(InvalidInput) && refresh.rows == old(refresh.rows)
      ensures presented.Some? ==>
                refresh.rows == RefreshedRows(old(refresh.rows), cfg, now, presented.value, f, hash)
      ensures presented.Some? && f.lookup.NoFault? && Live(old(refresh.rows), presented.value, now) ==>
                var rows, h := old(refresh.rows), presented.value;
                && (pair.Ok? <==> Inserts(rows, f, hash) && f.issue.save.NoFault?)
                && (pair.Ok? ==> pair.value == TokenPair(jti, hash))
                && sessions.st == RotatedStore(old(sessions.st), cfg, now, rows[h].grant, f)
                && signed == RotatedAccess(old(signed), cfg, now, rows[h].grant, f, jti)
                && UnrevokedIn(refresh.rows, rows[h].grant.family)
                   == if f.revoke.Refused? then {h} else if Inserts(rows, f, hash) then {hash} else {}
      ensures presented.Some? && !(f.lookup.NoFault? && Live(old(refresh.rows), presented.value, now)) ==>
                pair == Err(Unauthorized) && sessions.st == old(sessions.st) && signed == old(signed)
      ensures presented.Some? && presented.value in old(refresh.rows) && old(refresh.rows)[presented.value].revoked.Some?
              && f.replay.NoFault? && !f.kill.Refused? ==>
                && FamilyDeath.Dead(sys, old(refresh.rows)[presented.value].grant.family)
                && forall h | h in refresh.rows
                              && refresh.rows[h].grant.family == refresh.rows[presented.value].grant.family ::
                     refresh.rows[h].revoked.Some?
    {
      if presented.None? {
        Await(now);
        return Err(InvalidInput);
      }
      pair := RefreshHash(presented.value, now, f, jti, hash);
      AccessExpiryBounds(now, cfg.accessTtl);
    }

    /** The middleware's check before every protected call, with what Logout then relies on. */
    method ParseAccess(jti: Id, now: Time, fault: Fault) returns (claims: Result<Claims>)
      requires Valid() && sys.now <= now
      modifies this`sys
      ensures Valid() && sys.now == now && Continues()
      ensures claims.Ok? <==> fault.NoFault? && jti in signed && now < signed[jti].exp && jti !in sys.hist.banned
      ensures claims.Ok? ==> claims.value == signed[jti]
      ensures claims.Err? ==> claims.error == Unauthorized
    {
      Await(now);
      Sound();
      assert Lineage.BanOk(sys.db.blacklist, sys.hist, jti);
      if jti !in signed || signed[jti].exp <= now {
        return Err(Unauthorized);
      }
      var banned := blacklist.Exists(jti, now, fault);
      claims := if banned.Err? || banned.value then Err(Unauthorized) else Ok(signed[jti]);
    }

    /** Logout's blacklist entry, which lasts until the token's own expiry. */
    method BanAccess(jti: Id, ghost cookie: Option<Hash>, now: Time, fault: Fault)
      requires Valid() && sys.now == now && jti in signed
      modifies this`sys, blacklist
      ensures Running(map[SELF := LogoutRevoke(jti, cookie)]) && sys.now == now && GoesOn()
      ensures sys.hist.banned == old(sys.hist.banned) + if now < signed[jti].exp && fault.Applied() then {jti} else {}
      ensures blacklist.bans == if now < signed[jti].exp && !fault.Refused? then old(blacklist.bans)[jti := signed[jti].exp]
                                else old(blacklist.bans)
    {
      ghost var s := LogoutHead(sys, SELF, jti, cookie, fault);
      ReachesThen(Init(cfg), sys, s);
      if now < signed[jti].exp {
        blacklist.Add(jti, signed[jti].exp - now, now, fault);
      }
      sys := s;
    }

    /** Logout of the bearer of a signed access token; no error stops it. */
    method Logout(jti: Id, cookie: Option<Hash>, now: Time, f: LogoutFaults)
      requires Valid() && sys.now <= now && jti in signed
      modifies this`sys, refresh, sessions, blacklist
      ensures Valid() && sys.now == now && signed == old(signed) && GoesOn()
      ensures sys.hist.banned == old(sys.hist.banned) + if now < signed[jti].exp && f.ban.Applied() then {jti} else {}
      ensures refresh.rows == if cookie.Some? then SpentRows(old(refresh.rows), now, cookie.value, f.revoke)
                              else old(refresh.rows)
      ensures S.LiveSessions(sessions.st, now)
           == S.LiveSessions(old(sessions.st), now) - if f.session.Applied() then {signed[jti].session} else {}
      ensures !f.ban.Refused? && now < signed[jti].exp ==> jti in blacklist.bans && blacklist.bans[jti] == signed[jti].exp
      ensures cookie.Some? && cookie.value in refresh.rows && !f.revoke.Refused? ==>
                refresh.rows[cookie.value].revoked.Some?
      ensures !f.session.Refused? ==> signed[jti].session !in sessions.st.blobs
    {
      Await(now);
      ghost var mid := sys;
      BanAccess(jti, cookie, now, f.ban);
      ReachesThen(old(sys), mid, sys);
      mid := sys;
      EndSession(jti, cookie, now, f);
      ReachesThen(old(sys), mid, sys);
    }

    /** The rest of Logout: the refresh cookie and the session. */
    method EndSession(jti: Id, cookie: Option<Hash>, now: Time, f: LogoutFaults)
      requires Running(map[SELF := LogoutRevoke(jti, cookie)]) && sys.now == now && jti in signed
      modifies this`sys, refresh, sessions
      ensures Valid() && sys.now == now && sys.hist == old(sys.hist) && Continues()
      ensures refresh.rows == if cookie.Some? then SpentRows(old(refresh.rows), now, cookie.value, f.revoke)
                              else old(refresh.rows)
      ensures S.LiveSessions(sessions.st, now)
           == S.LiveSessions(old(sessions.st), now) - if f.session.Applied() then {signed[jti].session} else {}
      ensures !f.session.Refused? ==> signed[jti].session !in sessions.st.blobs
    {
      ghost var s := LogoutTail(sys, SELF, jti, cookie, f);
      ReachesThen(Init(cfg), sys, s);
      if cookie.Some? {
        var _ := refresh.Revoke(cookie.value, now, f.revoke);
      }
      var c := signed[jti];
      S.DeleteKeepsIndex(sessions.st, sys.hist.owner, cfg.refreshTtl, now, c.session, c.user);
      sessions.DeleteSession(c.session, c.user, f.session, f.session);
      sys := s;
    }

    /** With every token of the user revoked and no call under way, the user is signed out. */
    lemma ClearedIsSignedOut(user: Id)
      requires Valid()
      requires forall h | h in refresh.rows && refresh.rows[h].grant.user == user :: refresh.rows[h].revoked.Some?
      ensures FamilyDeath.SignedOut(sys, user)
    {
      forall family | family in sys.hist.born && sys.hist.born[family].user == user
        ensures FamilyDeath.Dead(sys, family)
      {
        forall h | h in refresh.rows && refresh.rows[h].grant.family == family ensures !Live(refresh.rows, h, sys.now) {
          OwnerOf(h);
        }
      }
    }

    lemma ClearedKeepsIndex(st: S.Store, owner: map<Id, Id>, now: Time, user: Id, f: RevokeFaults)
      requires S.IndexAgrees(st, owner, cfg.refreshTtl, now)
      ensures S.IndexAgrees(ClearedStore(st, now, user, f), owner, cfg.refreshTtl, now)
      ensures f.listing.NoFault? && f.deleting.Applied() ==>
                S.LiveSessions(ClearedStore(st, now, user, f), now)
                == S.LiveSessions(st, now) - S.LiveSessionsOf(st, user, now)
    {
    }

    /** The user is signed out, and exactly the user's live sessions are removed; no error stops it. */
    method RevokeAllSessions(user: Id, now: Time, f: RevokeFaults)
      requires Running(map[SELF := RevokeUser(user)]) && sys.now == now
      modifies this`sys, refresh, sessions
      ensures Valid() && sys.now == now && Continues()
      ensures refresh.rows == ClearedRows(old(refresh.rows), now, user, f.rows)
      ensures sessions.st == ClearedStore(old(sessions.st), now, user, f)
      ensures f.rows.Applied() ==> FamilyDeath.SignedOut(sys, user)
      ensures f.listing.NoFault? && f.deleting.Applied() ==>
                S.LiveSessions(sessions.st, now)
                == S.LiveSessions(old(sessions.st), now) - S.LiveSessionsOf(old(sessions.st), user, now)
    {
      ClearedKeepsIndex(sessions.st, sys.hist.owner, now, user, f);
      ghost var s := RevokeAllAlone(sys, SELF, user, f);
      ReachesThen(Init(cfg), sys, s);
      refresh.RevokeAllForUser(user, now, f.rows);
      sessions.DeleteAllForUser(user, now, f.listing, _ => f.deleting, f.deleting);
      sys := s;
      if f.rows.Applied() { ClearedIsSignedOut(user); }
    }

    method LogoutAll(user: Id, now: Time, f: RevokeFaults)
      requires Valid() && sys.now <= now
      modifies this`sys, refresh, sessions
      ensures Valid() && sys.now == now && Continues()
      ensures refresh.rows == ClearedRows(old(refresh.rows), now, user, f.rows)
      ensures sessions.st == ClearedStore(old(sessions.st), now, user, f)
      ensures f.rows.Applied() ==> FamilyDeath.SignedOut(sys, user)
      ensures f.listing.NoFault? && f.deleting.Applied() ==>
                S.LiveSessions(sessions.st, now)
                == S.LiveSessions(old(sessions.st), now) - S.LiveSessionsOf(old(sessions.st), user, now)
      ensures !f.rows.Refused? ==>
                forall h | h in refresh.rows && refresh.rows[h].grant.user == user :: refresh.rows[h].revoked.Some?
      ensures f.listing.NoFault? && !f.deleting.Refused? ==>
                forall id | id in sessions.st.blobs && sessions.st.blobs[id].user == user ::
                  sessions.st.blobs[id].expires <= now
      ensures forall id | id in old(sessions.st.blobs) && old(sessions.st.blobs)[id].user != user
                          && now < old(sessions.st.blobs)[id].expires ::
                id in sessions.st.blobs && sessions.st.blobs[id] == old(sessions.st.blobs)[id]
    {
      Await(now);
      ghost var s := Call(sys, SELF, RevokeUser(user));
      ReachesThen(Init(cfg), sys, s);
      ReachesThen(old(sys), sys, s);
      sys := s;
      RevokeAllSessions(user, now, f);
      ReachesThen(old(sys), s, sys);
    }

    /** ResetPassword up to and including its password update. */
    method SpendResetToken(token: Hash, password: Hash, now: Time, consume: Fault, update: Fault)
      returns (owner: Result<Id>)
      requires Valid() && sys.now == now
      modifies this`sys, users, resets
      ensures Running(if owner.Ok? then map[SELF := RevokeUser(owner.value)] else map[])
      ensures sys.now == now && Continues()
      ensures resets.tokens == Consumed(old(resets.tokens), token, now, consume)
      ensures var sets := consume.NoFault? && Usable(old(resets.tokens), token, now)
                          && old(resets.tokens)[token].user in old(users.users);
              && (owner.Ok? <==> sets && update.NoFault?)
              && (owner.Ok? ==> owner.value == old(resets.tokens)[token].user)
              && users.users == if sets && update.Applied()
                                then WithPassword(old(users.users), old(resets.tokens)[token].user, password)
                                else old(users.users)
      ensures consume.NoFault? && !Usable(old(resets.tokens), token, now) ==> owner == Err(TokenInvalid)
    {
      owner := resets.Consume(token, now, consume);
      ghost var landed := if owner.Ok? && owner.value in users.users then update else Refused;
      ghost var s := ConsumeAlone(sys, SELF, token, consume, landed);
      ReachesThen(Init(cfg), sys, s);
      sys := s;
      if owner.Ok? {
        var done := users.UpdatePassword(owner.value, password, update);
        if done.Err? {
          owner := Err(done.error);
        }
      }
    }

    /**
     * A reset consumes its token, sets the password of the user it was issued to and signs that user
     * out; a refused one changes neither passwords nor refresh tokens nor sessions.
     */
    method ResetPassword(token: Hash, password: Hash, now: Time, consume: Fault, update: Fault, f: RevokeFaults)
      returns (done: Result<()>)
      requires Valid() && sys.now <= now
      modifies this`sys, users, resets, refresh, sessions
      ensures Valid() && sys.now == now && Continues()
      ensures resets.tokens == Consumed(old(resets.tokens), token, now, consume)
      ensures var sets := consume.NoFault? && Usable(old(resets.tokens), token, now)
                          && old(resets.tokens)[token].user in old(users.users);
              && (done.Ok? <==> sets && update.NoFault?)
              && users.users == if sets && update.Applied()
                                then WithPassword(old(users.users), old(resets.tokens)[token].user, password)
                                else old(users.users)
      ensures done.Ok? ==>
                && var user := old(resets.tokens)[token].user;
                && refresh.rows == ClearedRows(old(refresh.rows), now, user, f.rows)
                && sessions.st == ClearedStore(old(sessions.st), now, user, f)
                && (f.rows.Applied() ==> FamilyDeath.SignedOut(sys, user))
                && (f.listing.NoFault? && f.deleting.Applied() ==>
                      S.LiveSessions(sessions.st, now)
                      == S.LiveSessions(old(sessions.st), now) - S.LiveSessionsOf(old(sessions.st), user, now))
      ensures done.Err? ==> refresh.rows == old(refresh.rows) && sessions.st == old(sessions.st)
      ensures consume.NoFault? && !Usable(old(resets.tokens), token, now) ==> done == Err(TokenInvalid)
      ensures done.Ok? <==>
                (consume.NoFault? && update.NoFault? && token in old(resets.tokens)
                 && old(resets.tokens)[token].used.None? && now < old(resets.tokens)[token].expires
                 && old(resets.tokens)[token].user in old(users.users))
      ensures done.Ok? ==>
                var user := old(resets.tokens)[token].user;
                && token in resets.tokens && resets.tokens[token].used == Some(now)
                && user in users.users && users.users[user] == old(users.users)[user].(password := password)
                && (!f.rows.Refused? ==>
                      forall h | h in refresh.rows && refresh.rows[h].grant.user == user :: refresh.rows[h].revoked.Some?)
    {
      Await(now);
      ghost var mid := sys;
      var owner := SpendResetToken(token, password, now, consume, update);
      ReachesThen(old(sys), mid, sys);
      if owner.Err? {
        return Err(owner.error);
      }
      mid := sys;
      RevokeAllSessions(owner.value, now, f);
      ReachesThen(old(sys), mid, sys);
      done := Ok(());
    }

    /** The quota lets a message to `address` through. */
    predicate Granted(address: string, now: Time, fault: Fault, counts: C.Counts)
      reads this
    {
      || !mail.enabled
      || (fault.NoFault? && C.Allowed(counts, C.Call(M.QuotaKey(address), mail.limit, mail.window, now)))
    }

    /** `consumeEmailQuota`: one rate-limiter call per message, and none while email is off. */
    method ConsumeEmailQuota(address: string, now: Time, fault: Fault) returns (ok: Result<()>)
      modifies emailLimit.store
      ensures var call := C.Call(M.QuotaKey(norm(address)), mail.limit, mail.window, now);
              && emailLimit.store.counts
                 == (if mail.enabled && fault.Applied() then C.AfterCall(old(emailLimit.store.counts), call)
                     else old(emailLimit.store.counts))
              && (ok.Ok? <==> Granted(norm(address), now, fault, old(emailLimit.store.counts)))
              && (ok.Ok? <==>
                    (!mail.enabled
                     || (fault.NoFault?
                         && mail.limit >= var key := "email:" + norm(address);
                                          if key in old(emailLimit.store.counts)
                                             && now < old(emailLimit.store.counts)[key].expires
                                          then old(emailLimit.store.counts)[key].count + 1 else 1)))
              && (ok.Err? ==> ok.error == if fault.NoFault? then RateLimited else Internal)
    {
      if !mail.enabled {
        return Ok(());
      }
      var allowed := emailLimit.Allow(M.QuotaKey(norm(address)), mail.limit, mail.window, now, fault);
      ok := if allowed.Err? then Err(allowed.error) else if allowed.value then Ok(()) else Err(RateLimited);
    }

    /** `sendTransactional`, reached once the link could be built. */
    method SendTransactional(address: string, fault: Fault) returns (ok: bool)
      modifies mailer
      ensures mailer.sent == old(mailer.sent) + if mail.enabled && fault.Applied() then [norm(address)] else []
      ensures ok <==> mail.enabled ==> fault.NoFault?
    {
      ok := true;
      if mail.enabled {
        ok := mailer.Send(norm(address), fault);
      }
    }

    /** The counters and messages move as the mail model says for operation `op`. */
    twostate predicate Mailed(op: M.Op)
      requires !op.Other?
      reads this, emailLimit.store, mailer
    {
      && emailLimit.store.counts == C.AfterCalls(old(emailLimit.store.counts), M.Calls(mail, norm, op))
      && mailer.sent == old(mailer.sent)
                        + if M.Sends(mail, norm, old(emailLimit.store.counts), op, M.Recipient(norm, op))
                          then [M.Recipient(norm, op)] else []
    }

    /**
     * `id` is a fresh user id, `hash` the digest of a random verification token. A successful call has
     * inserted the one account of its email, with its token; a taken email is a conflict.
     */
    method Register(input: string, password: Hash, now: Time, quota: Fault, create: Fault, issue: Fault, link: bool,
                    send: Fault, id: Id, hash: Hash)
      returns (done: Result<()>)
      requires UniqueEmails(users.users) && id !in users.users
      modifies users, verify, emailLimit.store, mailer
      ensures UniqueEmails(users.users)
      ensures Mailed(M.Register(input, now, quota, create.NoFault? && !Taken(old(users.users), norm(input))
                                                   && issue.NoFault? && hash !in old(verify.tokens)
                                                   && link && send.Applied()))
      ensures var inserts := Granted(norm(norm(input)), now, quota, old(emailLimit.store.counts))
                             && !Taken(old(users.users), norm(input));
              && users.users == (if inserts && create.Applied()
                                 then old(users.users)[id := User(norm(input), password, true, false)]
                                 else old(users.users))
              && verify.tokens == (if inserts && create.NoFault? && issue.Applied() && hash !in old(verify.tokens)
                                   then old(verify.tokens)[hash := OneTime(id, now + DAY, None)] else old(verify.tokens))
              && (done.Ok? <==> (inserts && create.NoFault? && issue.NoFault? && hash !in old(verify.tokens)
                                 && link && (mail.enabled ==> send.NoFault?)))
      ensures done.Err? ==>
                done.error == if mail.enabled && !quota.NoFault? then Internal
                              else if !Granted(norm(norm(input)), now, quota, old(emailLimit.store.counts)) then RateLimited
                              else if !create.NoFault? then Internal
                              else if exists k | k in old(users.users) :: old(users.users)[k].email == norm(input)
                              then Conflict
                              else Internal
      ensures done.Ok? ==>
                && (forall k | k in old(users.users) :: old(users.users)[k].email != norm(input))
                && id in users.users && users.users[id] == User(norm(input), password, true, false)
                && hash in verify.tokens && verify.tokens[hash] == OneTime(id, now + 86400000, None)
                && mailer.sent == old(mailer.sent) + if mail.enabled then [norm(norm(input))] else []
      ensures mail.enabled && !done.Ok? && (!create.NoFault? || !issue.NoFault? || !link || send.Refused?) ==>
                mailer.sent == old(mailer.sent)
    {
      var email := norm(input);
      C.OneCall(emailLimit.store.counts, C.Call(M.QuotaKey(norm(email)), mail.limit, mail.window, now));
      var granted := ConsumeEmailQuota(email, now, quota);
      if granted.Err? {
        return Err(granted.error);
      }
      var user := users.CreateWithRole(id, email, password, create);
      if user.Err? {
        return Err(user.error);
      }
      var issued := verify.Create(user.value, hash, now + DAY, issue);
      if !issued || !link {
        return Err(Internal);
      }
      var sent := SendTransactional(email, send);
      done := if sent then Ok(()) else Err(Internal);
    }

    /** ForgotPassword for an account it has found. */
    method SendResetLink(user: Id, address: string, now: Time, quota: Fault, issue: Fault, link: bool, send: Fault,
                         hash: Hash)
      requires Valid() && sys.now == now
      modifies this`sys, resets, emailLimit.store, mailer
      ensures Valid() && sys.now == now && Continues()
      ensures Mailed(M.Forgot(address, now, quota, issue.NoFault? && hash !in old(resets.tokens)
                                                        && link && send.Applied()))
      ensures resets.tokens
           == if Granted(norm(address), now, quota, old(emailLimit.store.counts)) && issue.Applied()
                 && hash !in old(resets.tokens)
              then old(resets.tokens)[hash := OneTime(user, now + RESET_TTL, None)] else old(resets.tokens)
    {
      C.OneCall(emailLimit.store.counts, C.Call(M.QuotaKey(norm(address)), mail.limit, mail.window, now));
      var granted := ConsumeEmailQuota(address, now, quota);
      if granted.Err? {
        ReachesItself(sys);
        return;
      }
      var issued := IssueReset(user, now, issue, hash);
      if issued && link {
        var _ := SendTransactional(address, send);
      }
    }

    /** `issueOneTime` on the reset table. */
    method IssueReset(user: Id, now: Time, fault: Fault, hash: Hash) returns (ok: bool)
      requires Valid() && sys.now == now
      modifies this`sys, resets
      ensures Valid() && sys.now == now && Continues()
      ensures ok <==> fault.NoFault? && hash !in old(resets.tokens)
      ensures resets.tokens == if fault.Applied() && hash !in old(resets.tokens)
                               then old(resets.tokens)[hash := OneTime(user, now + RESET_TTL, None)] else old(resets.tokens)
    {
      ghost var s := ForgotAlone(sys, SELF, user, fault, hash);
      ReachesThen(Init(cfg), sys, s);
      ok := resets.Create(user, hash, now + RESET_TTL, fault);
      sys := s;
    }

    /**
     * Always answers the same. A message goes to the stored address of an existing account, within its
     * quota, after a reset token for that account has been saved.
     */
    method ForgotPassword(input: string, now: Time, lookup: Fault, quota: Fault, issue: Fault, link: bool,
                          send: Fault, hash: Hash)
      requires Valid() && sys.now <= now
      modifies this`sys, resets, emailLimit.store, mailer
      ensures Valid() && sys.now == now && Continues()
      ensures !(lookup.NoFault? && Taken(users.users, norm(input))) ==>
                resets.tokens == old(resets.tokens) && mailer.sent == old(mailer.sent)
                && emailLimit.store.counts == old(emailLimit.store.counts)
      ensures lookup.NoFault? && Taken(users.users, norm(input)) ==>
                Mailed(M.Forgot(norm(input), now, quota, issue.NoFault? && hash !in old(resets.tokens)
                                                        && link && send.Applied()))
      ensures lookup.NoFault? ==> forall user | user in users.users && users.users[user].email == norm(input) ::
                resets.tokens
                == if Granted(norm(norm(input)), now, quota, old(emailLimit.store.counts)) && issue.Applied()
                      && hash !in old(resets.tokens)
                   then old(resets.tokens)[hash := OneTime(user, now + RESET_TTL, None)] else old(resets.tokens)
      ensures !mail.enabled && lookup.NoFault? && !issue.Refused? && hash !in old(resets.tokens) ==>
                forall user | user in users.users && users.users[user].email == norm(input) ::
                  hash in resets.tokens && resets.tokens[hash] == OneTime(user, now + 3600000, None)
      ensures hash !in old(resets.tokens) && hash in resets.tokens ==>
                && resets.tokens[hash].used.None? && resets.tokens[hash].expires == now + 3600000
                && resets.tokens[hash].user in users.users && users.users[resets.tokens[hash].user].email == norm(input)
      ensures mailer.sent == old(mailer.sent)
                             + if mail.enabled && lookup.NoFault?
                                  && (exists user | user in users.users :: users.users[user].email == norm(input))
                                  && Granted(norm(norm(input)), now, quota, old(emailLimit.store.counts))
                                  && issue.NoFault? && hash !in old(resets.tokens) && link && !send.Refused?
                               then [norm(norm(input))] else []
    {
      Await(now);
      ghost var mid := sys;
      var user := users.GetByEmail(norm(input), lookup);
      if user.Ok? {
        SendResetLink(user.value, users.users[user.value].email, now, quota, issue, link, send, hash);
        ReachesThen(old(sys), mid, sys);
      }
    }

    /** A verification token marks the account it was issued for, once and before it expires. */
    method VerifyEmail(token: Hash, now: Time, consume: Fault, mark: Fault) returns (done: Result<()>)
      requires UniqueEmails(users.users)
      modifies users, verify
      ensures UniqueEmails(users.users)
      ensures verify.tokens == Consumed(old(verify.tokens), token, now, consume)
      ensures var marks := consume.NoFault? && Usable(old(verify.tokens), token, now)
                           && old(verify.tokens)[token].user in old(users.users);
              && (done.Ok? <==> marks && mark.NoFault?)
              && users.users == if marks && mark.Applied()
                                then Verified(old(users.users), old(verify.tokens)[token].user)
                                else old(users.users)
      ensures consume.NoFault? && !Usable(old(verify.tokens), token, now) ==> done == Err(TokenInvalid)
      ensures done.Ok? <==>
                (consume.NoFault? && mark.NoFault? && token in old(verify.tokens)
                 && old(verify.tokens)[token].used.None? && now < old(verify.tokens)[token].expires
                 && old(verify.tokens)[token].user in old(users.users))
      ensures done.Ok? ==>
                && old(verify.tokens)[token].user in users.users && users.users[old(verify.tokens)[token].user].verified
                && token in verify.tokens && verify.tokens[token].used == Some(now)
    {
      var owner := verify.Consume(token, now, consume);
      if owner.Err? {
        return Err(owner.error);
      }
      done := users.MarkEmailVerified(owner.value, mark);
    }

    /** An unrevoked token is the only one of its family. */
    lemma OnlyToken(family: Id, hash: Hash)
      requires Valid() && hash in UnrevokedIn(refresh.rows, family)
      ensures UnrevokedIn(refresh.rows, family) == {hash}
    {
      FamiliesAreChains(family, hash);
      var all := UnrevokedIn(refresh.rows, family);
      SubsetSize(all - {hash}, all);
      assert all == (all - {hash}) + {hash};
    }
  }

  lemma LoginKeepsIndex(st: S.Store, owner: map<Id, Id>, cfg: Config, now: Time, g: Grant, f: IssueFaults)
    requires S.IndexAgrees(st, owner, cfg.refreshTtl, now) && S.Untruncated(cfg.refreshTtl) && g.session !in owner
    ensures S.IndexAgrees(IssuedStore(st, cfg, now, g, f), owner[g.session := g.user], cfg.refreshTtl, now)
  {
    S.NewOwnerKeepsIndex(st, owner, cfg.refreshTtl, now, g.session, g.user);
    IssueKeepsIndex(st, owner[g.session := g.user], cfg, now, g, f);
  }

  /** The table after a Consume of `token`. */
  function Consumed(tokens: Tokens, token: Hash, now: Time, fault: Fault): Tokens
  {
    if fault.Applied() && Usable(tokens, token, now) then Use(tokens, token, now) else tokens
  }

  function WithPassword(users: Users, id: Id, password: Hash): Users
    requires id in users
  {
    users[id := users[id].(password := password)]
  }

  function Verified(users: Users, id: Id): Users
    requires id in users
  {
    users[id := users[id].(verified := true)]
  }

  /** The fate of each statement of Login; `lookup` is GetByEmail. */
  datatype LoginFaults = LoginFaults(check: Fault, lookup: Fault, incr: Fault, lock: Fault, clear: Fault, issue: IssueFaults)

  lemma IssueKeepsIndex(st: S.Store, owner: map<Id, Id>, cfg: Config, now: Time, g: Grant, f: IssueFaults)
    requires S.IndexAgrees(st, owner, cfg.refreshTtl, now) && S.Untruncated(cfg.refreshTtl)
    requires g.session in owner && owner[g.session] == g.user
    ensures S.IndexAgrees(IssuedStore(st, cfg, now, g, f), owner, cfg.refreshTtl, now)
  {
  }
}
