/**
 * The token lifecycle as one timed state machine. Any number of processes run the API calls;
 * one step of a process is one SQL statement, one Redis command or one draw of fresh values,
 * and every statement may fail before or after taking effect.
 */
module Machine {
  import opened Types
  import opened RefreshTable
  import opened OneTimeTokens
  import S = Sessions

  /** TTLs in milliseconds. */
  datatype Config = Config(refreshTtl: nat, accessTtl: nat)

  /** The life of a password-reset token. */
  const RESET_TTL: nat := 60 * 60 * SECOND

  /** What an access token says; its jti is the key under which it is recorded. */
  datatype Claims = Claims(user: Id, session: Id, exp: Time)

  datatype Db = Db(rows: Rows, store: S.Store, resets: Tokens, blacklist: map<Id, Time>)

  /** Where a refresh token came from, and how many tokens were saved before it. */
  datatype Link = Link(parent: Option<Hash>, birth: nat)

  datatype Update = Update(token: Hash, user: Id)

  /**
   * History: the grant drawn for each family, the user and the family of each session, the origin
   * of each saved refresh token, the token each family's login saved, the Refresh-issued Revoke
   * statements that changed no row (by token and by family), the access tokens signed, the jtis
   * banned and the password updates made.
   */
  datatype History = History(
    born: map<Id, Grant>,
    owner: map<Id, Id>,
    familyOf: map<Id, Id>,
    links: map<Hash, Link>,
    roots: map<Id, Hash>,
    wastedOn: multiset<Hash>,
    wastedIn: multiset<Id>,
    access: map<Id, Claims>,
    banned: set<Id>,
    updates: seq<Update>)

  /** A process is the statement it will run next, with the locals it still needs. */
  datatype Proc =
    | LoginDraw(user: Id)
    | IssueProfile(grant: Grant, parent: Option<Hash>)
    | IssueSession(grant: Grant, parent: Option<Hash>)
    | IssueAccess(grant: Grant, parent: Option<Hash>)
    | IssueSave(grant: Grant, parent: Option<Hash>, hash: Hash)
    | RefreshLookup(hash: Hash)
    | RefreshReplay(hash: Hash)
    | RefreshKill(family: Id)
    | RefreshRevoke(hash: Hash, grant: Grant)
    | LogoutBegin(jti: Id, cookie: Option<Hash>)
    | LogoutBan(jti: Id, ttl: nat, cookie: Option<Hash>)
    | LogoutRevoke(jti: Id, cookie: Option<Hash>)
    | LogoutSession(jti: Id)
    | ForgotCreate(user: Id)
    | ResetConsume(token: Hash)
    | ResetUpdate(user: Id, token: Hash)
    | RevokeUser(user: Id)
    | ListSessions(user: Id)
    | DropSessions(user: Id, ids: set<Id>)

  /** The process is inside `issueTokens`. */
  predicate Issuing(p: Proc)
  {
    p.IssueProfile? || p.IssueSession? || p.IssueAccess? || p.IssueSave?
  }

  predicate Refreshing(p: Proc)
  {
    p.RefreshLookup? || p.RefreshReplay? || p.RefreshKill? || p.RefreshRevoke?
  }

  predicate LoggingOut(p: Proc)
  {
    p.LogoutBegin? || p.LogoutBan? || p.LogoutRevoke? || p.LogoutSession?
  }

  /** The process may still write a refresh token, or holds a record that lets it. */
  predicate Holding(p: Proc)
  {
    Issuing(p) || p.RefreshRevoke?
  }

  datatype Move = Stuck | Move(db: Db, hist: History, next: Option<Proc>)

  /** NumericDate keeps whole seconds. */
  function AccessExpiry(now: Time, ttl: nat): Time
  {
    (now + ttl) / SECOND * SECOND
  }

  lemma AccessExpiryBounds(now: Time, ttl: nat)
    ensures AccessExpiry(now, ttl) % 1000 == 0
    ensures AccessExpiry(now, ttl) <= now + ttl < AccessExpiry(now, ttl) + 1000
  {
  }

  /** The steps of `issueTokens`, and the draw of fresh ids before a login's. */
  function IssueStep(cfg: Config, now: Time, db: Db, hist: History, p: Proc, fault: Fault, a: Id, b: Id): Move
    requires Issuing(p) || p.LoginDraw?
  {
    match p
    case LoginDraw(user) =>
      if a in hist.owner || b in hist.born || b == NIL_ID then Stuck
      else
        var g := Grant(user, a, b);
        Move(db, hist.(born := hist.born[b := g], owner := hist.owner[a := user], familyOf := hist.familyOf[a := b]),
             Some(IssueProfile(g, None)))
    case IssueProfile(g, parent) =>
      Move(db, hist, if fault.NoFault? then Some(IssueSession(g, parent)) else None)
    case IssueSession(g, parent) =>
      Move(if fault.Applied() then db.(store := S.Save(db.store, g.session, g.user, g.family, cfg.refreshTtl, now)) else db,
           hist, if fault.NoFault? then Some(IssueAccess(g, parent)) else None)
    case IssueAccess(g, parent) =>
      if !fault.NoFault? then Move(db, hist, None)
      else if a in hist.access then Stuck
      else Move(db, hist.(access := hist.access[a := Claims(g.user, g.session, AccessExpiry(now, cfg.accessTtl))]),
                Some(IssueSave(g, parent, b)))
    case IssueSave(g, parent, hash) =>
      if !fault.Applied() || hash in db.rows then Move(db, hist, None)
      else Move(db.(rows := db.rows[hash := Row(g, now, now + cfg.refreshTtl, None)]),
                hist.(links := hist.links[hash := Link(parent, |hist.links|)],
                      roots := if parent.None? then hist.roots[g.family := hash] else hist.roots), None)
  }

  /** The steps of Refresh up to its call of `issueTokens`. */
  function RefreshStep(now: Time, db: Db, hist: History, p: Proc, fault: Fault): Move
    requires Refreshing(p)
  {
    match p
    case RefreshLookup(hash) =>
      Move(db, hist, Some(if fault.NoFault? && Live(db.rows, hash, now)
                          then RefreshRevoke(hash, db.rows[hash].grant) else RefreshReplay(hash)))
    case RefreshReplay(hash) =>
      Move(db, hist, if !fault.NoFault? then Some(RefreshKill(NIL_ID))
                     else if hash in db.rows && db.rows[hash].revoked.Some?
                     then Some(RefreshKill(db.rows[hash].grant.family)) else None)
    case RefreshKill(family) =>
      Move(if fault.Applied() then db.(rows := RevokeAll(db.rows, OfFamily(db.rows, family), now)) else db, hist, None)
    case RefreshRevoke(hash, g) =>
      Move(if fault.Applied() then db.(rows := RevokeAll(db.rows, {hash}, now)) else db,
           if fault.NoFault? && !Unrevoked(db.rows, hash)
           then hist.(wastedOn := hist.wastedOn + multiset{hash}, wastedIn := hist.wastedIn + multiset{g.family}) else hist,
           if fault.NoFault? then Some(IssueProfile(g, Some(hash))) else None)
  }

  /** The steps of Logout; every error is ignored. */
  function LogoutStep(now: Time, db: Db, hist: History, p: Proc, fault: Fault): Move
    requires LoggingOut(p)
  {
    match p
    case LogoutBegin(jti, cookie) =>
      if jti !in hist.access then Stuck
      else Move(db, hist, Some(if now < hist.access[jti].exp then LogoutBan(jti, hist.access[jti].exp - now, cookie)
                               else LogoutRevoke(jti, cookie)))
    case LogoutBan(jti, ttl, cookie) =>
      Move(if fault.Applied() then db.(blacklist := db.blacklist[jti := now + ttl]) else db,
           if fault.Applied() then hist.(banned := hist.banned + {jti}) else hist, Some(LogoutRevoke(jti, cookie)))
    case LogoutRevoke(jti, cookie) =>
      Move(if cookie.Some? && fault.Applied() then db.(rows := RevokeAll(db.rows, {cookie.value}, now)) else db,
           hist, Some(LogoutSession(jti)))
    case LogoutSession(jti) =>
      if jti !in hist.access then Stuck
      else Move(if fault.Applied()
                then db.(store := S.Delete(db.store, hist.access[jti].session, hist.access[jti].user)) else db, hist, None)
  }

  /** The steps of ForgotPassword and ResetPassword that touch tokens, and of `revokeAllSessions`. */
  function ResetStep(cfg: Config, now: Time, db: Db, hist: History, p: Proc, fault: Fault, a: Id): Move
    requires !Issuing(p) && !p.LoginDraw? && !Refreshing(p) && !LoggingOut(p)
  {
    match p
    case ForgotCreate(user) =>
      Move(if fault.Applied() && a !in db.resets
           then db.(resets := db.resets[a := OneTime(user, now + RESET_TTL, None)]) else db, hist, None)
    case ResetConsume(token) =>
      if fault.Applied() && Usable(db.resets, token, now)
      then Move(db.(resets := Use(db.resets, token, now)), hist,
                if fault.NoFault? then Some(ResetUpdate(db.resets[token].user, token)) else None)
      else Move(db, hist, None)
    case ResetUpdate(user, token) =>
      Move(db, if fault.Applied() then hist.(updates := hist.updates + [Update(token, user)]) else hist,
           if fault.NoFault? then Some(RevokeUser(user)) else None)
    case RevokeUser(user) =>
      Move(if fault.Applied() then db.(rows := RevokeAll(db.rows, OfUser(db.rows, user), now)) else db,
           hist, Some(ListSessions(user)))
    case ListSessions(user) =>
      var ids := S.Members(db.store, user, now);
      Move(db, hist, if fault.NoFault? && ids != {} then Some(DropSessions(user, ids)) else None)
    case DropSessions(user, ids) =>
      Move(if fault.Applied() then db.(store := S.Drop(db.store, user, ids)) else db, hist, None)
  }

  /**
   * One step of process `p`. `a` and `b` are the fresh values drawn by this step, if it draws any;
   * a step that would draw a value already in use is Stuck.
   */
  function React(cfg: Config, now: Time, db: Db, hist: History, p: Proc, fault: Fault, a: Id, b: Id): Move
  {
    if Issuing(p) || p.LoginDraw? then IssueStep(cfg, now, db, hist, p, fault, a, b)
    else if Refreshing(p) then RefreshStep(now, db, hist, p, fault)
    else if LoggingOut(p) then LogoutStep(now, db, hist, p, fault)
    else ResetStep(cfg, now, db, hist, p, fault, a)
  }

  datatype Sys = Sys(cfg: Config, now: Time, db: Db, hist: History, procs: map<Id, Proc>)

  datatype Event =
    | Tick(delta: nat)
    | Start(pid: Id, proc: Proc)
    | Step(pid: Id, fault: Fault, a: Id, b: Id)

  /** Where API calls begin. Logout runs behind the access-token check, so its jti was signed here. */
  predicate Entry(s: Sys, p: Proc)
  {
    || p.LoginDraw? || p.RefreshLookup? || p.ForgotCreate? || p.ResetConsume? || p.RevokeUser?
    || (p.LogoutBegin? && p.jti in s.hist.access)
  }

  function Put(procs: map<Id, Proc>, pid: Id, next: Option<Proc>): map<Id, Proc>
  {
    match next
    case None => procs - {pid}
    case Some(q) => procs[pid := q]
  }

  /** Events that are not possible in `s` leave it as it is. */
  function Apply(s: Sys, e: Event): Sys
  {
    match e
    case Tick(delta) => s.(now := s.now + delta)
    case Start(pid, p) => if pid !in s.procs && Entry(s, p) then s.(procs := s.procs[pid := p]) else s
    case Step(pid, fault, a, b) =>
      if pid !in s.procs then s else
        match React(s.cfg, s.now, s.db, s.hist, s.procs[pid], fault, a, b)
        case Stuck => s
        case Move(db, hist, next) => s.(db := db, hist := hist, procs := Put(s.procs, pid, next))
  }

  function Init(cfg: Config): Sys
  {
    Sys(cfg, 0, Db(map[], S.EMPTY, map[], map[]),
        History(map[], map[], map[], map[], map[], multiset{}, multiset{}, map[], {}, []), map[])
  }

  /** A run: any schedule of any events. */
  function Exec(s: Sys, events: seq<Event>): Sys
    decreases |events|
  {
    if events == [] then s else Exec(Apply(s, events[0]), events[1..])
  }

  lemma {:induction false} ExecSplit(s: Sys, first: seq<Event>, rest: seq<Event>)
    ensures Exec(s, first + rest) == Exec(Exec(s, first), rest)
    decreases |first|
  {
    if first == [] {
      assert first + rest == rest;
    } else {
      assert (first + rest)[0] == first[0] && (first + rest)[1..] == first[1..] + rest;
      ExecSplit(Apply(s, first[0]), first[1..], rest);
    }
  }

  lemma {:induction false} RunKeepsConfig(s: Sys, events: seq<Event>)
    ensures Exec(s, events).cfg == s.cfg
    decreases |events|
  {
    if events != [] {
      RunKeepsConfig(Apply(s, events[0]), events[1..]);
    }
  }

  lemma ExecCons(s: Sys, e: Event, rest: seq<Event>)
    ensures Exec(s, [e] + rest) == Exec(Apply(s, e), rest)
  {
  }

  /** `ParseAccess`: signed here, not yet expired, and not on the blacklist. */
  predicate Accepts(s: Sys, jti: Id)
  {
    && jti in s.hist.access && s.now < s.hist.access[jti].exp
    && !(jti in s.db.blacklist && s.now < s.db.blacklist[jti])
  }

  /** A Refresh presenting `hash` now would rotate it. */
  predicate Accepted(s: Sys, hash: Hash)
  {
    Live(s.db.rows, hash, s.now)
  }

  function InFlight(procs: map<Id, Proc>, family: Id): set<Id>
  {
    set pid | pid in procs && Issuing(procs[pid]) && procs[pid].grant.family == family
  }

  function InFlightFrom(procs: map<Id, Proc>, hash: Hash): set<Id>
  {
    set pid | pid in procs && Issuing(procs[pid]) && procs[pid].parent == Some(hash)
  }

  function Children(links: map<Hash, Link>, hash: Hash): set<Hash>
  {
    set h | h in links && links[h].parent == Some(hash)
  }
}
