/**
 * What each HTTP request achieves: when it is accepted, with which status it is refused otherwise, and what it then
 * means for later requests. A refused request changes nothing.
 */
module Requests {
  import opened Text
  import opened Protocol
  import opened Signaling
  import opened Accounts
  import opened Logins
  import Cookies

  /** The state after a request. */
  ghost function Served(s: State, cookie: Option<string>, r: Request, n: Nonce): State
    requires Fresh(s, n)
  {
    Step(s, Http(cookie, r, n))
  }

  function StatusOf(s: State, cookie: Option<string>, r: Request, n: Nonce): Status { Serve(s, cookie, r, n).status }

  /** Sending nothing leaves the channels as they are. */
  lemma SilentStep(s: State, cookie: Option<string>, r: Request, n: Nonce)
    requires Fresh(s, n) && Serve(s, cookie, r, n).out == Silent && Serve(s, cookie, r, n).net == s.net
    ensures Served(s, cookie, r, n) == State(Serve(s, cookie, r, n).db, s.net)
  {
    hide Serve, Post;
    PostNone(s.net.queues);
  }

  // ----- Signing up and logging in -----

  predicate IsSignUp(email: string, password: string) { Trim(email) != "" && password != "" }

  /** The tables `db'` hold one account more than `db`, with this email and password. */
  ghost predicate Added(db: Db, db': Db, id: AccountId, email: string, password: string, role: Role) {
    && id !in db.accounts && Holds(db', id, email, password) && db'.accounts[id].role == role
    && db'.accounts == db.accounts[id := db'.accounts[id]] && db'.devices == db.devices
  }

  lemma SignUpAdds(db: Db, email: string, hash: Hash)
    requires DbOk(db)
    ensures SignUp(db, email, hash).Some? <==> !Taken(db, email)
    ensures SignUp(db, email, hash).Some? ==>
      var (db', id) := SignUp(db, email, hash).value;
      && Added(db, db', id, email, hash.password, if |db.accounts| == 0 then Admin else User)
      && db'.logins == db.logins && db'.issuedTokens == db.issuedTokens
  {
    TakenExact(db, email);
    if email !in db.emails { SignUpKeeps(db, email, hash); }
  }

  /**
   * A sign-up is accepted exactly with an email and a password, while registration is open, for a new email; it then
   * adds one account, and the token it was given resolves to that account.
   */
  lemma PostRegisterOutcome(s: State, cookie: Option<string>, email: string, password: string, n: Nonce)
    requires DbOk(s.db) && Fresh(s, n)
    ensures var r := PostRegister(email, password); var s', id := Served(s, cookie, r, n), s.db.nextAccount;
      && s'.net == s.net
      && StatusOf(s, cookie, r, n) == (
           if !IsSignUp(email, password) then BadRequest
           else if !RegistrationEnabled(s.db) then Forbidden
           else if Taken(s.db, Trim(email)) then Conflict
           else Ok)
      && if StatusOf(s, cookie, r, n) != Ok then s' == s
         else Added(s.db, s'.db, id, Trim(email), password, if |s.db.accounts| == 0 then Admin else User)
              && s'.db.logins == s.db.logins[n.token := id] && FindLogin(s'.db, n.token) == Some(id)
  {
    hide Trim, RegistrationEnabled, SignUp, Taken, AdminExists, FlagDecided, IndexOk, Post, Step;
    SignUpAdds(s.db, Trim(email), Hash(password, n.salt));
    NextId(s.db, Trim(email), Hash(password, n.salt));
    assert n.token !in s.db.logins;
    ServesSignUp(s, cookie, email, password, n);
    SilentStep(s, cookie, PostRegister(email, password), n);
  }

  lemma NextId(db: Db, email: string, hash: Hash)
    ensures SignUp(db, email, hash).Some? ==> SignUp(db, email, hash).value.1 == db.nextAccount
    ensures SignUp(db, email, hash).Some? ==> db.nextAccount in SignUp(db, email, hash).value.0.accounts
  {
  }

  lemma ServesSignUp(s: State, cookie: Option<string>, email: string, password: string, n: Nonce)
    ensures Serve(s, cookie, PostRegister(email, password), n) == OnPostRegister(s, email, password, n)
  {
    hide OnPostRegister;
  }

  /** A login is accepted exactly with the email and password of an account; the token it was given then resolves to that account. */
  lemma PostLoginOutcome(s: State, cookie: Option<string>, email: string, password: string, n: Nonce)
    requires DbOk(s.db) && Fresh(s, n)
    ensures var r := PostLogin(email, password); var s' := Served(s, cookie, r, n);
      && (forall id: AccountId :: Holds(s.db, id, Trim(email), password) ==>
            && StatusOf(s, cookie, r, n) == Ok && FindLogin(s'.db, n.token) == Some(id)
            && s' == s.(db := s.db.(logins := s.db.logins[n.token := id], issuedTokens := s.db.issuedTokens + {n.token})))
      && ((forall id: AccountId :: !Holds(s.db, id, Trim(email), password)) ==> StatusOf(s, cookie, r, n) == Unauthorized && s' == s)
  {
    hide Trim, Credentials, AdminExists, FlagDecided, Post, Step;
    var who := Credentials(s.db, Trim(email), password);
    forall id: AccountId ensures who == Some(id) <==> Holds(s.db, id, Trim(email), password) {
      CredentialsExact(s.db, Trim(email), password, id);
    }
    assert n.token !in s.db.logins;
    SilentStep(s, cookie, PostLogin(email, password), n);
  }

  /** Logging out ends the token in the cookie for good, and no other. */
  lemma LogoutEndsToken(s: State, cookie: Option<string>, n: Nonce, t: Token, es: seq<Event>)
    requires DbOk(s.db) && Fresh(s, n) && Run(Served(s, cookie, PostLogout, n), es)
    ensures var s' := Served(s, cookie, PostLogout, n);
      && s'.net == s.net && s'.db.accounts == s.db.accounts && s'.db.devices == s.db.devices
      && (Cookies.CookieValue(cookie, Cookies.SESSION_COOKIE) != Some(t) ==> FindLogin(s'.db, t) == FindLogin(s.db, t))
      && (Cookies.CookieValue(cookie, Cookies.SESSION_COOKIE) == Some(t) && t in s.db.logins ==> FindLogin(After(s', es).db, t) == None)
  {
    hide Cookies.CookieValue, Run, After, Post, Step, AdminExists, FlagDecided, IndexOk;
    SilentStep(s, cookie, PostLogout, n);
    var s' := Served(s, cookie, PostLogout, n);
    if Cookies.CookieValue(cookie, Cookies.SESSION_COOKIE) == Some(t) && t in s.db.logins { DeadTokenAfter(s', es, t); }
  }

  // ----- Public sign-up over both front ends, in a run -----

  /** The email that a sign-up stores, if it is well formed. */
  function SignUpEmail(e: Event): string
    requires IsPublicSignUp(e)
  {
    if e.Receive? then e.m.email else Trim(e.r.email)
  }

  predicate WellFormedSignUp(e: Event)
    requires IsPublicSignUp(e)
  {
    e.Http? ==> IsSignUp(e.r.email, e.r.password)
  }

  /**
   * In every run, a public sign-up creates an account exactly when it is well formed, its email is new, and it is the
   * very first account or an admin has switched registration on and none off since.
   */
  lemma SignUpExactly(es: seq<Event>, e: Event)
    requires Run(INIT, es) && Enabled(After(INIT, es), e) && IsPublicSignUp(e)
    ensures var s := After(INIT, es);
      SignsUp(s, e) <==> WellFormedSignUp(e) && !Taken(s.db, SignUpEmail(e)) && (|s.db.accounts| == 0 || SwitchedOn(es))
  {
    hide Run, After, Step, SwitchedOn, Taken, Trim, Holds;
    var s := After(INIT, es);
    DbFromStart(es);
    FlagExact(es);
    OpenExact(s.db);
    if e.Receive? {
      ChannelsOfLive(es);
      RegisterOutcome(s, e.c, e.m.email, e.m.password, e.n);
    } else {
      PostRegisterOutcome(s, e.cookie, e.r.email, e.r.password, e.n);
    }
  }

  lemma OpenExact(db: Db)
    requires DbOk(db)
    ensures RegistrationEnabled(db) <==> |db.accounts| == 0 || db.registration == Some(true)
  {
  }

  // ----- Administration -----

  predicate ByAdmin(db: Db, cookie: Option<string>) { RequireAdmin(db, cookie) == Ok }

  /** Switching registration is obeyed exactly for an admin, and sets the flag that sign-ups go by. */
  lemma SwitchOutcome(s: State, cookie: Option<string>, enabled: bool, n: Nonce)
    requires DbOk(s.db) && Fresh(s, n)
    ensures var r := AdminSetRegistration(enabled); var s' := Served(s, cookie, r, n);
      if ByAdmin(s.db, cookie) then
        StatusOf(s, cookie, r, n) == Ok && s' == s.(db := s'.db) && s'.db.(registration := s.db.registration) == s.db
        && (RegistrationEnabled(s'.db) <==> enabled)
      else StatusOf(s, cookie, r, n) == RequireAdmin(s.db, cookie) && s' == s
  {
    hide CurrentAccount, Post, Step;
    SilentStep(s, cookie, AdminSetRegistration(enabled), n);
  }

  /** A role change is obeyed exactly for an admin, unless it would demote the only admin; then that account alone has that role. */
  lemma RoleOutcome(s: State, cookie: Option<string>, id: AccountId, role: Role, n: Nonce)
    requires Fresh(s, n)
    ensures var r := AdminSetRole(id, role); var s' := Served(s, cookie, r, n);
      && StatusOf(s, cookie, r, n) == (
           if !ByAdmin(s.db, cookie) then RequireAdmin(s.db, cookie)
           else if role != Admin && Admins(s.db.accounts) == {id} then Conflict
           else NoContent)
      && if StatusOf(s, cookie, r, n) != NoContent then s' == s
         else s' == s.(db := s.db.(accounts := s'.db.accounts)) && s'.db.accounts.Keys == s.db.accounts.Keys
              && forall a :: a in s.db.accounts ==> s'.db.accounts[a] == (if a == id then s.db.accounts[a].(role := role) else s.db.accounts[a])
  {
    hide CurrentAccount, MayLoseAdmin, Admins, Post, Step;
    GuardExact(s.db, id);
    SilentStep(s, cookie, AdminSetRole(id, role), n);
  }

  /** From then on exactly the requests of admins are let through, the account's own among them exactly when it was made one. */
  lemma RoleDecides(s: State, cookie: Option<string>, id: AccountId, role: Role, n: Nonce, cookie2: Option<string>)
    requires Fresh(s, n) && StatusOf(s, cookie, AdminSetRole(id, role), n) == NoContent
    ensures var s' := Served(s, cookie, AdminSetRole(id, role), n);
      && CurrentAccount(s'.db, cookie2) == CurrentAccount(s.db, cookie2)
      && (ByAdmin(s'.db, cookie2) <==>
            if CurrentAccount(s.db, cookie2) == Some(id) then role == Admin else ByAdmin(s.db, cookie2))
  {
    hide Cookies.CookieValue, Step, Serve;
    RoleOutcome(s, cookie, id, role, n);
  }

  /** An account is created exactly for an admin, with an email and a password, for a new email, whether registration is open or not. */
  lemma CreateOutcome(s: State, cookie: Option<string>, email: string, password: string, wanted: Option<Role>, n: Nonce)
    requires DbOk(s.db) && Fresh(s, n)
    ensures var r := AdminCreateAccount(email, password, wanted); var s' := Served(s, cookie, r, n);
      && StatusOf(s, cookie, r, n) == (
           if !ByAdmin(s.db, cookie) then RequireAdmin(s.db, cookie)
           else if !IsSignUp(email, password) then BadRequest
           else if Taken(s.db, Trim(email)) then Conflict
           else Created)
      && s'.net == s.net
      && if StatusOf(s, cookie, r, n) != Created then s' == s
         else Added(s.db, s'.db, s.db.nextAccount, Trim(email), password, if wanted.Some? then wanted.value else User)
              && s'.db.logins == s.db.logins && s'.db.registration == s.db.registration
  {
    hide CurrentAccount, Trim, Post, Step, AdminExists, FlagDecided, Taken;
    TakenExact(s.db, Trim(email));
    SilentStep(s, cookie, AdminCreateAccount(email, password, wanted), n);
    if Trim(email) !in s.db.emails { CreateAccountKeeps(s.db, Trim(email), Hash(password, n.salt), if wanted.Some? then wanted.value else User); }
  }

  /**
   * An account is deleted exactly by an admin and unless it is the only admin. Its rows go, its email is free again, and
   * everyone else keeps account, devices and tokens.
   */
  lemma DeletionOutcome(s: State, cookie: Option<string>, id: AccountId, n: Nonce)
    requires DbOk(s.db) && Fresh(s, n)
    ensures var r := AdminDeleteAccount(id); var s' := Served(s, cookie, r, n);
      && StatusOf(s, cookie, r, n) == (
           if !ByAdmin(s.db, cookie) then RequireAdmin(s.db, cookie)
           else if Admins(s.db.accounts) == {id} then Conflict
           else NoContent)
      && s'.net == s.net
      && if StatusOf(s, cookie, r, n) != NoContent then s' == s
         else && s'.db.accounts == s.db.accounts - {id}
              && (id in s.db.accounts ==> !Taken(s'.db, s.db.accounts[id].email))
              && (forall d :: d in s'.db.devices <==> d in s.db.devices && s.db.devices[d].owner != id)
              && (forall d :: d in s'.db.devices ==> s'.db.devices[d] == s.db.devices[d])
              && (forall t :: FindLogin(s'.db, t) == if FindLogin(s.db, t) == Some(id) then None else FindLogin(s.db, t))
  {
    hide CurrentAccount, MayLoseAdmin, Admins, Post, Step, AdminExists, FlagDecided;
    GuardExact(s.db, id);
    SilentStep(s, cookie, AdminDeleteAccount(id), n);
  }

  // ----- Deleting a device -----

  /** Which status a request to delete device `d` gets, and when it is obeyed. */
  function DeletionStatus(s: State, cookie: Option<string>, r: Request): Status
    requires r.DeleteOwnDevice? || r.AdminDeleteDevice?
  {
    if r.DeleteOwnDevice? then
      match CurrentAccount(s.db, cookie)
      case None => Unauthorized
      case Some(id) => if r.device !in s.db.devices then NotFound else if s.db.devices[r.device].owner != id then Forbidden else NoContent
    else if !ByAdmin(s.db, cookie) then RequireAdmin(s.db, cookie)
    else if r.device in s.db.devices && s.db.devices[r.device].owner == r.account then NoContent
    else NotFound
  }

  /** A device is deleted exactly by its owner, or by an admin who names its owner; no other row changes. */
  lemma DeviceDeletionOutcome(s: State, cookie: Option<string>, r: Request, n: Nonce)
    requires Fresh(s, n) && (r.DeleteOwnDevice? || r.AdminDeleteDevice?)
    ensures var s' := Served(s, cookie, r, n); var d := r.device;
      && StatusOf(s, cookie, r, n) == DeletionStatus(s, cookie, r)
      && (StatusOf(s, cookie, r, n) == NoContent <==>
            && d in s.db.devices
            && if r.DeleteOwnDevice? then CurrentAccount(s.db, cookie) == Some(s.db.devices[d].owner)
               else ByAdmin(s.db, cookie) && s.db.devices[d].owner == r.account)
      && s'.db == (if StatusOf(s, cookie, r, n) == NoContent then s.db.(devices := s.db.devices - {d}) else s.db)
      && (StatusOf(s, cookie, r, n) != NoContent ==> s' == s)
  {
    hide CurrentAccount, Step, Post, RequireAdmin;
    if StatusOf(s, cookie, r, n) != NoContent {
      SilentStep(s, cookie, r, n);
    } else {
      StepDb(s, cookie, r, n);
    }
  }

  lemma StepDb(s: State, cookie: Option<string>, r: Request, n: Nonce)
    requires Fresh(s, n)
    ensures Served(s, cookie, r, n).db == Serve(s, cookie, r, n).db
  {
    hide Serve, Post;
  }
}
