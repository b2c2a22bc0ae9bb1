/**
 * The account tables over whole runs: an admin always exists, public sign-up obeys the registration flag, rows only
 * refer to existing accounts, and what a deleted account or device held is gone for good.
 */
module Accounts {
  import opened Text
  import opened Protocol
  import opened Signaling
  import Presence
  import Cookies

  // ----- What every step keeps -----

  ghost predicate AdminExists(db: Db) {
    |db.accounts| != 0 ==> Admins(db.accounts) != {}
  }

  /** The registration flag is undecided exactly before the first account. */
  ghost predicate FlagDecided(db: Db) {
    db.registration == None <==> |db.accounts| == 0
  }

  ghost predicate NoDangling(db: Db) {
    && (forall t :: t in db.logins ==> db.logins[t] in db.accounts && t in db.issuedTokens)
    && (forall d :: d in db.devices ==> db.devices[d].owner in db.accounts)
  }

  /** The unique index holds exactly the emails in the table. */
  ghost predicate IndexOk(db: Db) {
    && (forall id :: id in db.accounts ==>
          id < db.nextAccount && db.accounts[id].email in db.emails && db.emails[db.accounts[id].email] == id)
    && (forall e :: e in db.emails ==> db.emails[e] in db.accounts && db.accounts[db.emails[e]].email == e)
  }

  ghost predicate DbOk(db: Db) {
    AdminExists(db) && FlagDecided(db) && NoDangling(db) && IndexOk(db)
  }

  lemma CreateAccountKeeps(db: Db, email: string, hash: Hash, role: Role)
    requires NoDangling(db) && IndexOk(db) && email !in db.emails
    ensures var (db', id) := CreateAccount(db, email, hash, role).value;
      NoDangling(db') && IndexOk(db') && id !in db.accounts && db'.accounts == db.accounts[id := Account(email, hash, role)]
  {
    var (db', id) := CreateAccount(db, email, hash, role).value;
    forall id' | id' in db'.accounts
      ensures id' < db'.nextAccount && db'.accounts[id'].email in db'.emails && db'.emails[db'.accounts[id'].email] == id'
    {
    }
  }

  /** Sign-up appends one account: the admin of an empty table, an ordinary user otherwise. */
  lemma SignUpKeeps(db: Db, email: string, hash: Hash)
    requires DbOk(db) && email !in db.emails
    ensures var (db', id) := SignUp(db, email, hash).value;
      && DbOk(db') && id !in db.accounts
      && db'.accounts == db.accounts[id := Account(email, hash, if |db.accounts| == 0 then Admin else User)]
      && db'.registration == if |db.accounts| == 0 then Some(false) else db.registration
  {
    var role := if |db.accounts| == 0 then Admin else User;
    CreateAccountKeeps(db, email, hash, role);
    var (db', id) := SignUp(db, email, hash).value;
    AdminsAfterAdding(db.accounts, id, Account(email, hash, role));
    assert IndexOk(db') && NoDangling(db');
  }

  lemma AdminsAfterAdding(accounts: map<AccountId, Account>, id: AccountId, a: Account)
    requires id !in accounts
    ensures |accounts[id := a]| != 0
    ensures Admins(accounts[id := a]) >= Admins(accounts)
    ensures a.role == Admin ==> id in Admins(accounts[id := a])
  {
    assert id in accounts[id := a];
  }

  lemma AdminsNonempty(accounts: map<AccountId, Account>)
    requires Admins(accounts) != {}
    ensures |accounts| != 0
  {
    var id :| id in Admins(accounts);
    assert id in accounts;
  }

  lemma AdminCreateKeeps(db: Db, email: string, hash: Hash, role: Role)
    requires DbOk(db) && |db.accounts| != 0 && email !in db.emails
    ensures DbOk(CreateAccount(db, email, hash, role).value.0)
    ensures |CreateAccount(db, email, hash, role).value.0.accounts| != 0
  {
    CreateAccountKeeps(db, email, hash, role);
    var id := db.nextAccount;
    AdminsAfterAdding(db.accounts, id, Account(email, hash, role));
  }

  /** The last-admin guard refuses exactly for the only admin. */
  lemma GuardExact(db: Db, id: AccountId)
    ensures !MayLoseAdmin(db, id) <==> Admins(db.accounts) == {id}
  {
    var admins := Admins(db.accounts);
    if id in admins {
      assert admins == (admins - {id}) + {id};
      assert |admins| > 1 <==> admins - {id} != {};
    }
  }

  /** What the last-admin guard is for: with its consent, some admin other than `id` remains. */
  lemma GuardLeavesAdmin(db: Db, id: AccountId)
    requires AdminExists(db) && |db.accounts| != 0 && MayLoseAdmin(db, id)
    ensures Admins(db.accounts) - {id} != {}
  {
    var admins := Admins(db.accounts);
    if id in admins {
      assert |admins - {id}| == |admins| - 1;
    } else {
      assert admins - {id} == admins;
    }
  }

  lemma SetRoleKeeps(db: Db, id: AccountId, role: Role)
    requires DbOk(db) && |db.accounts| != 0 && (role != Admin ==> MayLoseAdmin(db, id))
    ensures DbOk(SetRole(db, id, role)) && |SetRole(db, id, role).accounts| != 0
  {
    var db' := SetRole(db, id, role);
    if role != Admin {
      GuardLeavesAdmin(db, id);
      assert Admins(db'.accounts) >= Admins(db.accounts) - {id};
    } else {
      assert Admins(db'.accounts) >= Admins(db.accounts);
    }
    AdminsNonempty(db'.accounts);
    assert IndexOk(db') && NoDangling(db');
  }

  lemma DeleteAccountKeeps(db: Db, id: AccountId)
    requires DbOk(db) && |db.accounts| != 0 && MayLoseAdmin(db, id)
    ensures DbOk(DeleteAccount(db, id)) && |DeleteAccount(db, id).accounts| != 0
  {
    var db' := DeleteAccount(db, id);
    GuardLeavesAdmin(db, id);
    assert Admins(db'.accounts) == Admins(db.accounts) - {id};
    AdminsNonempty(db'.accounts);
    assert NoDangling(db');
    DeleteKeepsIndex(db, id);
  }

  lemma DeleteKeepsIndex(db: Db, id: AccountId)
    requires IndexOk(db)
    ensures IndexOk(DeleteAccount(db, id))
  {
  }

  lemma DeviceRowsKeep(db: Db, db': Db)
    requires DbOk(db) && db' == db.(devices := db'.devices, issuedDevices := db'.issuedDevices)
    requires forall d :: d in db'.devices ==> db'.devices[d].owner in db.accounts
    ensures DbOk(db')
  {
  }

  lemma HandlingKeeps(s: State, c: ConnId, m: ClientMessage, n: Nonce)
    requires DbOk(s.db) && c in s.net.live
    ensures DbOk(Handle(s, c, m, n).db)
    ensures |s.db.accounts| != 0 ==> |Handle(s, c, m, n).db.accounts| != 0
  {
    hide Summaries, CredentialOk, Credentials, SignUp, AdminExists, FlagDecided, IndexOk;
    match m
    case Register(email, password) => RegisteringKeeps(s, c, email, password, n);
    case RegisterDevice(_) => DeviceRowsKeep(s.db, Handle(s, c, m, n).db);
    case SetUnattendedPassword(_, _) => DeviceRowsKeep(s.db, Handle(s, c, m, n).db);
    case Login(_, _) =>
    case ListDevices =>
    case RequestConnection(_, _) =>
    case Relay(_, _) =>
    case RequestTurnCredentials =>
  }

  lemma RegisteringKeeps(s: State, c: ConnId, email: string, password: string, n: Nonce)
    requires DbOk(s.db) && c in s.net.live
    ensures DbOk(OnRegister(s, c, email, password, n).db)
    ensures |s.db.accounts| != 0 ==> |OnRegister(s, c, email, password, n).db.accounts| != 0
  {
    hide DbOk;
    if email !in s.db.emails {
      SignUpKeeps(s.db, email, Hash(password, n.salt));
      SignedUpNonempty(s.db, email, Hash(password, n.salt));
    }
  }

  lemma SignedUpNonempty(db: Db, email: string, hash: Hash)
    ensures SignUp(db, email, hash).Some? ==> |SignUp(db, email, hash).value.0.accounts| != 0
  {
    if email !in db.emails { assert db.nextAccount in SignUp(db, email, hash).value.0.accounts; }
  }

  lemma LoginRowKeeps(db: Db, token: Token, id: AccountId)
    requires DbOk(db) && CreateLogin(db, token, id).Some?
    ensures DbOk(CreateLogin(db, token, id).value)
  {
  }

  lemma PostRegisterKeeps(s: State, email: string, password: string, n: Nonce)
    requires DbOk(s.db)
    ensures DbOk(OnPostRegister(s, email, password, n).db)
    ensures |s.db.accounts| != 0 ==> |OnPostRegister(s, email, password, n).db.accounts| != 0
  {
    hide DbOk, Trim;
    var email', hash := Trim(email), Hash(password, n.salt);
    if email' !in s.db.emails {
      SignUpKeeps(s.db, email', hash);
      SignedUpNonempty(s.db, email', hash);
      var (db, id) := SignUp(s.db, email', hash).value;
      if CreateLogin(db, n.token, id).Some? { LoginRowKeeps(db, n.token, id); }
    }
  }

  /** A request that passed `require_admin` comes from an existing account. */
  lemma AdminMeansNonempty(db: Db, cookie: Option<string>)
    requires RequireAdmin(db, cookie) == Ok
    ensures |db.accounts| != 0
  {
    hide CurrentAccount;
    assert CurrentAccount(db, cookie).value in db.accounts;
  }

  lemma RemovalKeeps(s: State, d: DeviceId)
    requires DbOk(s.db)
    ensures DbOk(RemoveDevice(s, d).db) && RemoveDevice(s, d).db.accounts == s.db.accounts
  {
    DeviceRowsKeep(s.db, RemoveDevice(s, d).db);
  }

  lemma LogoutKeeps(s: State, cookie: Option<string>)
    requires DbOk(s.db)
    ensures DbOk(OnPostLogout(s, cookie).db) && OnPostLogout(s, cookie).db.accounts == s.db.accounts
  {
    hide Cookies.CookieValue;
  }

  lemma PostLoginKeeps(s: State, email: string, password: string, n: Nonce)
    requires DbOk(s.db)
    ensures DbOk(OnPostLogin(s, email, password, n).db) && OnPostLogin(s, email, password, n).db.accounts == s.db.accounts
  {
    hide DbOk, Trim;
    var r := Credentials(s.db, Trim(email), password);
    if r.Some? && CreateLogin(s.db, n.token, r.value).Some? { LoginRowKeeps(s.db, n.token, r.value); }
  }

  lemma AdminRequestKeeps(s: State, cookie: Option<string>, r: Request, n: Nonce)
    requires DbOk(s.db) && r.NeedsAdmin()
    ensures DbOk(Serve(s, cookie, r, n).db)
    ensures |s.db.accounts| != 0 ==> |Serve(s, cookie, r, n).db.accounts| != 0
  {
    hide DbOk, Trim, MayLoseAdmin, SetRole, DeleteAccount, RemoveDevice, CreateAccount;
    if RequireAdmin(s.db, cookie) == Ok {
      AdminMeansNonempty(s.db, cookie);
      match r
      case AdminCreateAccount(email, password, wanted) =>
        CreateAccountFails(s.db, Trim(email), Hash(password, n.salt), if wanted.Some? then wanted.value else User);
        if Trim(email) !in s.db.emails {
          AdminCreateKeeps(s.db, Trim(email), Hash(password, n.salt), if wanted.Some? then wanted.value else User);
        }
      case AdminSetRole(id, role) => if role == Admin || MayLoseAdmin(s.db, id) { SetRoleKeeps(s.db, id, role); }
      case AdminDeleteAccount(id) => if MayLoseAdmin(s.db, id) { DeleteAccountKeeps(s.db, id); }
      case AdminDeleteDevice(_, d) => RemovalKeeps(s, d);
      case AdminSetRegistration(enabled) => FlagKeeps(s.db, enabled);
    }
  }

  lemma CreateAccountFails(db: Db, email: string, hash: Hash, role: Role)
    ensures CreateAccount(db, email, hash, role) == None <==> email in db.emails
  {
  }

  lemma FlagKeeps(db: Db, enabled: bool)
    requires DbOk(db) && |db.accounts| != 0
    ensures DbOk(db.(registration := Some(enabled)))
  {
  }

  lemma ServingKeeps(s: State, cookie: Option<string>, r: Request, n: Nonce)
    requires DbOk(s.db)
    ensures DbOk(Serve(s, cookie, r, n).db)
    ensures |s.db.accounts| != 0 ==> |Serve(s, cookie, r, n).db.accounts| != 0
  {
    hide DbOk, OnPostRegister, OnPostLogin, OnPostLogout, RemoveDevice, CurrentAccount;
    match r
    case PostRegister(email, password) => PostRegisterKeeps(s, email, password, n);
    case PostLogin(email, password) => PostLoginKeeps(s, email, password, n);
    case PostLogout => LogoutKeeps(s, cookie);
    case DeleteOwnDevice(d) => RemovalKeeps(s, d);
    case _ => AdminRequestKeeps(s, cookie, r, n);
  }

  lemma DbStep(s: State, e: Event)
    requires DbOk(s.db) && Enabled(s, e)
    ensures DbOk(Step(s, e).db)
    ensures |s.db.accounts| != 0 ==> |Step(s, e).db.accounts| != 0
  {
    hide DbOk, Handle, Serve;
    match e
    case Receive(c, m, n) => HandlingKeeps(s, c, m, n);
    case Http(cookie, r, n) => ServingKeeps(s, cookie, r, n);
    case _ =>
  }

  // ----- Whole runs -----

  lemma {:induction false} DbAfter(s: State, es: seq<Event>)
    requires DbOk(s.db) && Run(s, es)
    ensures DbOk(After(s, es).db)
    ensures |s.db.accounts| != 0 ==> |After(s, es).db.accounts| != 0
  {
    hide DbOk, Step, Enabled;
    if es != [] {
      DbAfter(s, es[..|es| - 1]);
      DbStep(After(s, es[..|es| - 1]), es[|es| - 1]);
    }
  }

  /**
   * In every run from an empty database: an admin exists whenever any account does, the flag is decided exactly then,
   * every device and login row refers to an existing account, and the emails are unique.
   */
  lemma DbFromStart(es: seq<Event>)
    requires Run(INIT, es)
    ensures DbOk(After(INIT, es).db)
  {
    assert DbOk(INIT.db);
    DbAfter(INIT, es);
  }

  ghost predicate Bootstraps(s: State, e: Event)
    requires Enabled(s, e)
  {
    |s.db.accounts| == 0 && |Step(s, e).db.accounts| != 0
  }

  /** The account table never becomes empty again, so the first-account rule applies at most once. */
  lemma BootstrapOnce(es: seq<Event>, i: nat, j: nat)
    requires Run(INIT, es) && i < j < |es|
    requires Run(INIT, es[..i]) && Enabled(After(INIT, es[..i]), es[i]) && Bootstraps(After(INIT, es[..i]), es[i])
    ensures Run(INIT, es[..j]) && |After(INIT, es[..j]).db.accounts| != 0
    ensures Enabled(After(INIT, es[..j]), es[j]) && !Bootstraps(After(INIT, es[..j]), es[j])
  {
    hide DbOk, Step, Enabled;
    RunPrefix(INIT, es, j);
    RunPrefix(INIT, es, j + 1);
    assert es[..j + 1][..j] == es[..j];
    RunSuffix(INIT, es[..j], i + 1);
    assert es[..j][..i + 1] == es[..i + 1] && es[..i + 1][..i] == es[..i];
    DbFromStart(es[..i + 1]);
    DbAfter(After(INIT, es[..i + 1]), es[..j][i + 1..]);
  }

  // ----- The registration gate -----

  predicate IsPublicSignUp(e: Event) {
    (e.Receive? && e.m.Register?) || (e.Http? && e.r.PostRegister?)
  }

  /** A public sign-up, over either front end, that created an account. */
  ghost predicate SignsUp(s: State, e: Event)
    requires Enabled(s, e)
  {
    IsPublicSignUp(e) && Step(s, e).db.accounts != s.db.accounts
  }

  /** An accepted admin request that sets the flag. */
  ghost predicate AdminSetsFlag(s: State, e: Event, enabled: bool) {
    e.Http? && e.r == AdminSetRegistration(enabled) && RequireAdmin(s.db, e.cookie) == Ok
  }

  lemma RegisterFlag(s: State, c: ConnId, email: string, password: string, n: Nonce)
    requires c in s.net.live
    ensures var db := OnRegister(s, c, email, password, n).db;
      && (db.registration == s.db.registration || (|s.db.accounts| == 0 && db.registration == Some(false)))
      && (db.accounts != s.db.accounts ==> RegistrationEnabled(s.db) && |db.accounts| != 0)
  {
    SignedUpNonempty(s.db, email, Hash(password, n.salt));
  }

  lemma PostRegisterFlag(s: State, email: string, password: string, n: Nonce)
    ensures var db := OnPostRegister(s, email, password, n).db;
      && (db.registration == s.db.registration || (|s.db.accounts| == 0 && db.registration == Some(false)))
      && (db.accounts != s.db.accounts ==> RegistrationEnabled(s.db) && |db.accounts| != 0)
  {
    hide Trim;
    SignedUpNonempty(s.db, Trim(email), Hash(password, n.salt));
  }

  /** A public sign-up finds the flag set, and no step but an admin's switches the flag on. */
  lemma FlagStep(s: State, e: Event)
    requires Enabled(s, e)
    ensures SignsUp(s, e) ==> RegistrationEnabled(s.db) && |Step(s, e).db.accounts| != 0
    ensures Step(s, e).db.registration == Some(true) ==> s.db.registration == Some(true) || AdminSetsFlag(s, e, true)
    ensures Step(s, e).db.registration == Some(true) ==> !AdminSetsFlag(s, e, false)
  {
    hide OnRegister, OnPostRegister, OnPostLogin, OnPostLogout, RemoveDevice, Trim, CurrentAccount, MayLoseAdmin, Summaries, CredentialOk, Credentials;
    match e
    case Receive(c, m, n) => if m.Register? { RegisterFlag(s, c, m.email, m.password, n); }
    case Http(cookie, r, n) =>
      if r.PostRegister? { PostRegisterFlag(s, r.email, r.password, n); }
      else if r.PostLogin? { PostLoginFlag(s, r.email, r.password, n); }
      else if r.PostLogout? { LogoutFlag(s, cookie); }
      else if r.DeleteOwnDevice? || r.AdminDeleteDevice? { RemovalFlag(s, r.device); }
    case _ =>
  }

  lemma PostLoginFlag(s: State, email: string, password: string, n: Nonce)
    ensures OnPostLogin(s, email, password, n).db.registration == s.db.registration
  {
    hide Trim;
  }

  lemma LogoutFlag(s: State, cookie: Option<string>)
    ensures OnPostLogout(s, cookie).db.registration == s.db.registration
  {
  }

  lemma RemovalFlag(s: State, d: DeviceId)
    ensures RemoveDevice(s, d).db.registration == s.db.registration
  {
  }

  /** Event `j` of the run is an admin switching registration to `enabled`. */
  ghost predicate AdminSetsFlagAt(es: seq<Event>, j: nat, enabled: bool) {
    j < |es| && Run(INIT, es[..j]) && AdminSetsFlag(After(INIT, es[..j]), es[j], enabled)
  }

  /** When the flag is on, an admin switched it on and none has switched it off since. */
  lemma {:induction false} FlagHistory(es: seq<Event>)
    requires Run(INIT, es) && After(INIT, es).db.registration == Some(true)
    ensures exists j :: 0 <= j < |es| && AdminSetsFlagAt(es, j, true) && forall l :: j < l < |es| ==> !AdminSetsFlagAt(es, l, false)
  {
    hide Step, Enabled, AdminSetsFlag;
    var n := |es| - 1;
    var front := es[..n];
    var s := After(INIT, front);
    FlagStep(s, es[n]);
    if AdminSetsFlag(s, es[n], true) {
      assert AdminSetsFlagAt(es, n, true);
    } else {
      FlagHistory(front);
      var j :| 0 <= j < n && AdminSetsFlagAt(front, j, true) && forall l :: j < l < n ==> !AdminSetsFlagAt(front, l, false);
      assert front[..j] == es[..j];
      assert AdminSetsFlagAt(es, j, true);
      forall l | j < l < |es| ensures !AdminSetsFlagAt(es, l, false) {
        if l < n {
          assert !AdminSetsFlagAt(front, l, false);
          assert front[..l] == es[..l];
        }
      }
    }
  }

  /** Once an account exists, only an admin switches the flag off. */
  lemma FlagKept(s: State, e: Event)
    requires Enabled(s, e) && s.db.registration == Some(true) && |s.db.accounts| != 0
    ensures Step(s, e).db.registration == Some(true) <==> !AdminSetsFlag(s, e, false)
  {
    hide OnRegister, OnPostRegister, OnPostLogin, OnPostLogout, RemoveDevice, Trim, CurrentAccount, MayLoseAdmin, Summaries, CredentialOk, Credentials, Post;
    match e
    case Receive(c, m, n) => if m.Register? { RegisterFlag(s, c, m.email, m.password, n); }
    case Http(cookie, r, n) =>
      if r.PostRegister? { PostRegisterFlag(s, r.email, r.password, n); }
      else if r.PostLogin? { PostLoginFlag(s, r.email, r.password, n); }
      else if r.PostLogout? { LogoutFlag(s, cookie); }
      else if r.DeleteOwnDevice? || r.AdminDeleteDevice? { RemovalFlag(s, r.device); }
    case _ =>
  }

  /** An admin has switched registration on, and none off since. */
  ghost predicate SwitchedOn(es: seq<Event>) {
    exists j :: 0 <= j < |es| && AdminSetsFlagAt(es, j, true) && forall l :: j < l < |es| ==> !AdminSetsFlagAt(es, l, false)
  }

  lemma SwitchSets(s: State, e: Event)
    requires Enabled(s, e) && AdminSetsFlag(s, e, true)
    ensures Step(s, e).db.registration == Some(true)
  {
  }

  /** The flag is on exactly when an admin switched it on and none has switched it off since. */
  lemma {:induction false} FlagExact(es: seq<Event>)
    requires Run(INIT, es)
    ensures After(INIT, es).db.registration == Some(true) <==> SwitchedOn(es)
  {
    hide Step, Enabled, AdminSetsFlag;
    if After(INIT, es).db.registration == Some(true) {
      FlagHistory(es);
    } else if SwitchedOn(es) {
      var n := |es| - 1;
      var front, s := es[..n], After(INIT, es[..n]);
      var j :| 0 <= j < |es| && AdminSetsFlagAt(es, j, true) && forall l :: j < l < |es| ==> !AdminSetsFlagAt(es, l, false);
      if j == n {
        SwitchSets(s, es[n]);
      } else {
        OnBefore(es, j);
        FlagExact(front);
        DbFromStart(front);
        assert !AdminSetsFlagAt(es, n, false);
        FlagKept(s, es[n]);
      }
    }
  }

  lemma OnBefore(es: seq<Event>, j: nat)
    requires j < |es| - 1 && AdminSetsFlagAt(es, j, true) && forall l :: j < l < |es| ==> !AdminSetsFlagAt(es, l, false)
    ensures SwitchedOn(es[..|es| - 1])
  {
    hide AdminSetsFlag;
    var front := es[..|es| - 1];
    assert front[..j] == es[..j];
    assert AdminSetsFlagAt(front, j, true);
    forall l | j < l < |front| ensures !AdminSetsFlagAt(front, l, false) {
      assert !AdminSetsFlagAt(es, l, false) && front[..l] == es[..l];
    }
  }

  /**
   * Every public sign-up that succeeds is either the very first account or happens after an admin switched
   * registration on, with no admin switching it off in between.
   */
  lemma SignUpGate(es: seq<Event>, i: nat)
    requires Run(INIT, es) && i < |es|
    requires Run(INIT, es[..i]) && Enabled(After(INIT, es[..i]), es[i]) && SignsUp(After(INIT, es[..i]), es[i])
    ensures || |After(INIT, es[..i]).db.accounts| == 0
            || exists j :: 0 <= j < i && AdminSetsFlagAt(es, j, true) && forall l :: j < l < i ==> !AdminSetsFlagAt(es, l, false)
  {
    hide Step, Enabled, SignsUp, AdminSetsFlag;
    var past := es[..i];
    var s := After(INIT, past);
    FlagStep(s, es[i]);
    DbFromStart(past);
    if s.db.registration == Some(true) {
      FlagHistory(past);
      var j :| 0 <= j < i && AdminSetsFlagAt(past, j, true) && forall l :: j < l < i ==> !AdminSetsFlagAt(past, l, false);
      assert past[..j] == es[..j];
      assert AdminSetsFlagAt(es, j, true);
      forall l | j < l < i ensures !AdminSetsFlagAt(es, l, false) {
        assert !AdminSetsFlagAt(past, l, false) && past[..l] == es[..l];
      }
    }
  }

  /** Before an admin first enables registration, public sign-up creates at most one account. */
  lemma OneSignUpBeforeEnabling(es: seq<Event>, i: nat, j: nat)
    requires Run(INIT, es) && i < j < |es|
    requires Run(INIT, es[..i]) && Enabled(After(INIT, es[..i]), es[i]) && SignsUp(After(INIT, es[..i]), es[i])
    requires Run(INIT, es[..j]) && Enabled(After(INIT, es[..j]), es[j]) && SignsUp(After(INIT, es[..j]), es[j])
    ensures exists l :: 0 <= l < j && AdminSetsFlagAt(es, l, true)
  {
    hide Step, Enabled, SignsUp, AdminSetsFlagAt, DbOk;
    FlagStep(After(INIT, es[..i]), es[i]);
    RunSuffix(INIT, es[..j], i + 1);
    assert es[..j][..i + 1] == es[..i + 1] && es[..i + 1][..i] == es[..i];
    DbFromStart(es[..i + 1]);
    DbAfter(After(INIT, es[..i + 1]), es[..j][i + 1..]);
    SignUpGate(es, j);
  }

  // ----- Who may administer, and what dies with an account -----

  /** An admin request is let through exactly when its cookie resolves to an account that is an admin right now. */
  lemma AdminOnly(s: State, cookie: Option<string>, r: Request, n: Nonce)
    requires r.NeedsAdmin()
    ensures var o := Serve(s, cookie, r, n);
      var who := CurrentAccount(s.db, cookie);
      var isAdmin := who.Some? && who.value in s.db.accounts && s.db.accounts[who.value].role == Admin;
      && (isAdmin <==> o.status != Unauthorized && o.status != Forbidden)
      && (!isAdmin ==> o.db == s.db && o.net == s.net && o.out == Silent)
  {
    hide CurrentAccount, Trim, Admins, CreateAccount, DeleteAccount, SetRole;
  }

  /** A stored token whose row is gone. */
  predicate DeadToken(db: Db, t: Token) {
    t in db.issuedTokens && t !in db.logins
  }

  lemma HandlingLogins(s: State, c: ConnId, m: ClientMessage, n: Nonce)
    requires c in s.net.live
    ensures Handle(s, c, m, n).db.logins == s.db.logins && Handle(s, c, m, n).db.issuedTokens == s.db.issuedTokens
  {
    hide Summaries, CredentialOk, Credentials;
    match m
    case Register(_, _) =>
    case RegisterDevice(_) =>
    case SetUnattendedPassword(_, _) =>
    case Login(_, _) =>
    case ListDevices =>
    case RequestConnection(_, _) =>
    case Relay(_, _) =>
    case RequestTurnCredentials =>
  }

  lemma ServingLogins(s: State, cookie: Option<string>, r: Request, n: Nonce)
    ensures var db := Serve(s, cookie, r, n).db;
      db.logins.Keys <= s.db.logins.Keys + {n.token} && s.db.issuedTokens <= db.issuedTokens
  {
    hide CurrentAccount, Trim, Admins, RequireAdmin, Credentials, OnPostLogout;
    match r
    case PostLogout => LogoutLogins(s, cookie);
    case PostRegister(_, _) =>
    case PostLogin(_, _) =>
    case DeleteOwnDevice(_) =>
    case AdminCreateAccount(_, _, _) =>
    case AdminSetRole(_, _) =>
    case AdminDeleteAccount(_) =>
    case AdminDeleteDevice(_, _) =>
    case AdminSetRegistration(_) =>
  }

  lemma LogoutLogins(s: State, cookie: Option<string>)
    ensures var db := OnPostLogout(s, cookie).db;
      db.logins.Keys <= s.db.logins.Keys && db.issuedTokens == s.db.issuedTokens
  {
  }

  lemma {:induction false} DeadTokenAfter(s: State, es: seq<Event>, t: Token)
    requires DeadToken(s.db, t) && Run(s, es)
    ensures DeadToken(After(s, es).db, t)
  {
    hide Handle, Serve;
    if es != [] {
      var mid, e := After(s, es[..|es| - 1]), es[|es| - 1];
      DeadTokenAfter(s, es[..|es| - 1], t);
      match e
      case Receive(c, m, n) => HandlingLogins(mid, c, m, n);
      case Http(cookie, r, n) => ServingLogins(mid, cookie, r, n);
      case _ =>
    }
  }

  /** Once an account is deleted, its tokens resolve to nobody in any continuation of the run. */
  lemma DeletedAccountTokensDie(s: State, cookie: Option<string>, id: AccountId, n: Nonce, t: Token, es: seq<Event>)
    requires DbOk(s.db) && t in s.db.logins && s.db.logins[t] == id
    requires Enabled(s, Http(cookie, AdminDeleteAccount(id), n)) && Serve(s, cookie, AdminDeleteAccount(id), n).status == NoContent
    requires Run(Step(s, Http(cookie, AdminDeleteAccount(id), n)), es)
    ensures FindLogin(After(Step(s, Http(cookie, AdminDeleteAccount(id), n)), es).db, t) == None
  {
    var s' := Step(s, Http(cookie, AdminDeleteAccount(id), n));
    assert DeadToken(s'.db, t) by { hide CurrentAccount, Admins, Run, After, AdminExists, IndexOk, FlagDecided; }
    hide Step, Serve, Enabled;
    DeadTokenAfter(s', es, t);
  }

  // ----- Logging in -----

  /** A login succeeds exactly for the account with that email and a matching password. */
  lemma CredentialsExact(db: Db, email: string, password: string, id: AccountId)
    requires IndexOk(db)
    ensures Credentials(db, email, password) == Some(id) <==>
      id in db.accounts && db.accounts[id].email == email && Verify(password, db.accounts[id].hash)
  {
  }

  /**
   * After a successful HTTP login, any request whose cookie header carries the token that was set (first of its name,
   * among any other legal pairs) is made as that account.
   */
  lemma SessionCookieWorks(s: State, cookie: Option<string>, email: string, password: string, n: Nonce, pairs: seq<Cookies.Pair>)
    requires Enabled(s, Http(cookie, PostLogin(email, password), n))
    requires Serve(s, cookie, PostLogin(email, password), n).status == Ok
    requires forall i :: 0 <= i < |pairs| ==> Cookies.LegalPair(pairs[i])
    requires Cookies.FirstValue(pairs, Cookies.SESSION_COOKIE) == Some(n.token)
    ensures Credentials(s.db, Trim(email), password).Some?
    ensures CurrentAccount(Step(s, Http(cookie, PostLogin(email, password), n)).db, Some(Cookies.Join(pairs)))
         == Credentials(s.db, Trim(email), password)
  {
    hide Trim, Cookies.CookieValue, Cookies.Join, Cookies.FirstValue, Cookies.LegalPair, Serve, Step;
    Cookies.CookieRoundTrip(pairs, Cookies.SESSION_COOKIE);
    LoginStores(s, cookie, email, password, n);
  }

  lemma LoginStores(s: State, cookie: Option<string>, email: string, password: string, n: Nonce)
    requires Enabled(s, Http(cookie, PostLogin(email, password), n))
    requires Serve(s, cookie, PostLogin(email, password), n).status == Ok
    ensures Credentials(s.db, Trim(email), password).Some?
    ensures FindLogin(Step(s, Http(cookie, PostLogin(email, password), n)).db, n.token) == Credentials(s.db, Trim(email), password)
  {
    hide Trim, Credentials, RequireAdmin;
  }
}
