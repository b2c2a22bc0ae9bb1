/**
 * The signaling server as a transition system: the database tables, the shared maps of `AppState`, the locals of
 * every socket task, and one step for each event that reaches the server. Random and clock-dependent values (ids,
 * tokens, passwords, salts) are carried by the event.
 */
module Signaling {
  import opened Text
  import opened Protocol
  import Cookies

  // ----- The database (visuara-signaling/src/db.rs) -----

  datatype Role = User | Admin

  /** A salted hash; the hash function is symbolic. */
  datatype Hash = Hash(password: string, salt: nat)

  predicate Verify(password: string, h: Hash) { h.password == password }

  datatype Account = Account(email: string, hash: Hash, role: Role)
  datatype Device = Device(owner: AccountId, name: string, unattended: Option<Hash>)

  /**
   * The four tables. `emails` is the index behind the UNIQUE column, `nextAccount` the AUTOINCREMENT counter, and
   * the two `issued` sets record which generated device ids and login tokens have ever been stored.
   */
  datatype Db = Db(
    accounts: map<AccountId, Account>,
    emails: map<string, AccountId>,
    nextAccount: AccountId,
    devices: map<DeviceId, Device>,
    logins: map<Token, AccountId>,
    registration: Option<bool>,
    issuedDevices: set<DeviceId>,
    issuedTokens: set<Token>)

  const EMPTY_DB := Db(map[], map[], 1, map[], map[], None, {}, {})

  predicate RegistrationEnabled(db: Db) {
    match db.registration
    case None => true
    case Some(enabled) => enabled
  }

  function Admins(accounts: map<AccountId, Account>): set<AccountId> {
    set id | id in accounts && accounts[id].role == Admin
  }

  /** INSERT INTO accounts; None when the UNIQUE constraint refuses. */
  function CreateAccount(db: Db, email: string, hash: Hash, role: Role): Option<(Db, AccountId)> {
    if email in db.emails then None
    else
      var id := db.nextAccount;
      Some((db.(accounts := db.accounts[id := Account(email, hash, role)], emails := db.emails[email := id],
                nextAccount := id + 1), id))
  }

  /** `create_account_and_maybe_bootstrap_admin`. */
  function SignUp(db: Db, email: string, hash: Hash): Option<(Db, AccountId)> {
    var first := |db.accounts| == 0;
    match CreateAccount(db, email, hash, if first then Admin else User)
    case None => None
    case Some((db', id)) => Some((if first then db'.(registration := Some(false)) else db', id))
  }

  function FindByEmail(db: Db, email: string): Option<AccountId> {
    if email in db.emails then Some(db.emails[email]) else None
  }

  /** The account that `email` and `password` log in to. */
  function Credentials(db: Db, email: string, password: string): Option<AccountId> {
    match FindByEmail(db, email)
    case None => None
    case Some(id) => if id in db.accounts && Verify(password, db.accounts[id].hash) then Some(id) else None
  }

  /** INSERT INTO devices; None when PRIMARY KEY or REFERENCES refuses. */
  function CreateDevice(db: Db, d: DeviceId, owner: AccountId, name: string): Option<Db> {
    if d in db.devices || owner !in db.accounts then None
    else Some(db.(devices := db.devices[d := Device(owner, name, None)], issuedDevices := db.issuedDevices + {d}))
  }

  /** INSERT INTO sessions; None when PRIMARY KEY or REFERENCES refuses. */
  function CreateLogin(db: Db, token: Token, id: AccountId): Option<Db> {
    if token in db.logins || id !in db.accounts then None
    else Some(db.(logins := db.logins[token := id], issuedTokens := db.issuedTokens + {token}))
  }

  /** The account a token resolves to: sessions JOIN accounts. */
  function FindLogin(db: Db, token: Token): Option<AccountId> {
    if token in db.logins && db.logins[token] in db.accounts then Some(db.logins[token]) else None
  }

  function SetRole(db: Db, id: AccountId, role: Role): Db {
    if id in db.accounts then db.(accounts := db.accounts[id := db.accounts[id].(role := role)]) else db
  }

  /** The transaction of `Db::delete_account`: sessions, then devices, then the account. */
  function DeleteAccount(db: Db, id: AccountId): Db {
    db.(logins := map t | t in db.logins && db.logins[t] != id :: db.logins[t],
        devices := map d | d in db.devices && db.devices[d].owner != id :: db.devices[d],
        accounts := db.accounts - {id},
        emails := if id in db.accounts then db.emails - {db.accounts[id].email} else db.emails)
  }

  // ----- The live side (visuara-signaling/src/state.rs and the locals of ws.rs) -----

  /** `conn_state` and `my_device_id` of one socket task. */
  datatype Conn = Conn(account: Option<AccountId>, device: Option<DeviceId>)

  datatype Peers = Peers(a: ConnId, b: ConnId) {
    /** `SessionPeers::other`. */
    function Other(me: ConnId): Option<ConnId> {
      if a == me then Some(b) else if b == me then Some(a) else None
    }
  }

  /**
   * `live` holds the open connections; `queues` everything ever sent on a connection's channel, kept after the
   * connection has gone.
   */
  datatype Net = Net(
    live: map<ConnId, Conn>,
    queues: map<ConnId, seq<ServerMessage>>,
    online: map<DeviceId, ConnId>,
    otp: map<DeviceId, string>,
    sessions: map<SessionId, Peers>)

  datatype State = State(db: Db, net: Net)

  const INIT := State(EMPTY_DB, Net(map[], map[], map[], map[], map[]))

  // ----- Handlers -----

  datatype Out =
    | Silent
    | Tell(to: ConnId, msg: ServerMessage)
    | TellBoth(to: ConnId, msg: ServerMessage, to2: ConnId, msg2: ServerMessage)

  datatype Status = NoStatus | Ok | Created | NoContent
                  | BadRequest | Unauthorized | Forbidden | NotFound | Conflict | ServerError

  /** The new tables and maps, what is sent on which channel, and the HTTP status if there is one. */
  datatype Outcome = Outcome(db: Db, net: Net, out: Out, status: Status)

  /** Values the handler draws at random. */
  datatype Nonce = Nonce(device: DeviceId, session: SessionId, otp: string, salt: nat, token: Token)

  function Refuse(s: State, c: ConnId, reason: Reason): Outcome {
    Outcome(s.db, s.net, Tell(c, Error(reason)), NoStatus)
  }

  function OnRegister(s: State, c: ConnId, email: string, password: string, n: Nonce): Outcome
    requires c in s.net.live
  {
    if !RegistrationEnabled(s.db) then
      Outcome(s.db, s.net, Tell(c, AuthError(RegistrationDisabled)), NoStatus)
    else
      match SignUp(s.db, email, Hash(password, n.salt))
      case None => Outcome(s.db, s.net, Tell(c, AuthError(RegistrationFailed)), NoStatus)
      case Some((db, id)) =>
        Outcome(db, s.net.(live := s.net.live[c := s.net.live[c].(account := Some(id))]), Tell(c, AuthOk(n.token)), NoStatus)
  }

  function OnLogin(s: State, c: ConnId, email: string, password: string, n: Nonce): Outcome
    requires c in s.net.live
  {
    match Credentials(s.db, email, password)
    case None => Outcome(s.db, s.net, Tell(c, AuthError(InvalidLogin)), NoStatus)
    case Some(id) =>
      Outcome(s.db, s.net.(live := s.net.live[c := s.net.live[c].(account := Some(id))]), Tell(c, AuthOk(n.token)), NoStatus)
  }

  /** Marks `d` online on `c` with a new one-time password. */
  function Announce(db: Db, net: Net, c: ConnId, d: DeviceId, otp: string): Outcome {
    Outcome(db, net.(online := net.online[d := c], otp := net.otp[d := otp]), Tell(c, DeviceRegistered(d, otp)), NoStatus)
  }

  function OnRegisterDevice(s: State, c: ConnId, name: string, n: Nonce): Outcome
    requires c in s.net.live
  {
    match s.net.live[c].account
    case None => Refuse(s, c, NotAuthenticated)
    case Some(id) =>
      match s.net.live[c].device
      case Some(d) => Announce(s.db, s.net, c, d, n.otp)
      case None =>
        match CreateDevice(s.db, n.device, id, name)
        case None => Refuse(s, c, DatabaseError)
        case Some(db) =>
          Announce(db, s.net.(live := s.net.live[c := s.net.live[c].(device := Some(n.device))]), c, n.device, n.otp)
  }

  function Summaries(s: State, id: AccountId): set<DeviceSummary> {
    set d | d in s.db.devices && s.db.devices[d].owner == id ::
      DeviceSummary(d, s.db.devices[d].name, d in s.net.online, s.db.devices[d].unattended.Some?)
  }

  predicate CredentialOk(s: State, target: DeviceId, credential: Credential)
    requires target in s.db.devices
  {
    match credential
    case OneTimePassword(otp) => target in s.net.otp && s.net.otp[target] == otp
    case UnattendedPassword(pw) =>
      match s.db.devices[target].unattended
      case None => false
      case Some(h) => Verify(pw, h)
  }

  function OnRequestConnection(s: State, c: ConnId, target: DeviceId, credential: Credential, n: Nonce): Outcome
    requires c in s.net.live
  {
    if s.net.live[c].account == None then Refuse(s, c, NotAuthenticated)
    else if target !in s.db.devices then Refuse(s, c, UnknownDevice)
    else if !CredentialOk(s, target, credential) then Refuse(s, c, InvalidCredential)
    else if target !in s.net.online then Refuse(s, c, DeviceOffline)
    else
      var host := s.net.online[target];
      var net := s.net.(sessions := s.net.sessions[n.session := Peers(c, host)]);
      var reply := ConnectionEstablished(n.session, target);
      Outcome(s.db, net,
              if host in s.net.live then TellBoth(host, IncomingConnection(n.session), c, reply) else Tell(c, reply),
              NoStatus)
  }

  function OnRelay(s: State, c: ConnId, session: SessionId, signal: Signal): Outcome {
    if session !in s.net.sessions then Refuse(s, c, UnknownSession)
    else
      match s.net.sessions[session].Other(c)
      case None => Refuse(s, c, NotPartOfSession)
      case Some(other) =>
        if other !in s.net.live then Refuse(s, c, PeerDisconnected)
        else Outcome(s.db, s.net, Tell(other, Relayed(session, signal)), NoStatus)
  }

  function OnSetUnattendedPassword(s: State, c: ConnId, target: DeviceId, password: string, n: Nonce): Outcome
    requires c in s.net.live
  {
    match s.net.live[c].account
    case None => Refuse(s, c, NotAuthenticated)
    case Some(id) =>
      if target !in s.db.devices then Refuse(s, c, UnknownDevice)
      else if s.db.devices[target].owner != id then Refuse(s, c, NotYourDevice)
      else
        var row := s.db.devices[target].(unattended := Some(Hash(password, n.salt)));
        Outcome(s.db.(devices := s.db.devices[target := row]), s.net,
                if target in s.net.online && s.net.online[target] in s.net.live
                then Tell(s.net.online[target], UnattendedPasswordUpdated(password)) else Silent,
                NoStatus)
  }

  /** `handle_message`. */
  function Handle(s: State, c: ConnId, m: ClientMessage, n: Nonce): Outcome
    requires c in s.net.live
  {
    match m
    case Register(email, password) => OnRegister(s, c, email, password, n)
    case Login(email, password) => OnLogin(s, c, email, password, n)
    case RegisterDevice(name) => OnRegisterDevice(s, c, name, n)
    case ListDevices =>
      (match s.net.live[c].account
       case None => Refuse(s, c, NotAuthenticated)
       case Some(id) => Outcome(s.db, s.net, Tell(c, DeviceList(Summaries(s, id))), NoStatus))
    case RequestConnection(target, credential) => OnRequestConnection(s, c, target, credential, n)
    case Relay(session, signal) => OnRelay(s, c, session, signal)
    case RequestTurnCredentials => Outcome(s.db, s.net, Tell(c, TurnCredentials(c)), NoStatus)
    case SetUnattendedPassword(target, password) => OnSetUnattendedPassword(s, c, target, password, n)
  }

  // ----- The HTTP front end (visuara-signaling/src/api) -----

  datatype Request =
    | PostRegister(email: string, password: string)
    | PostLogin(email: string, password: string)
    | PostLogout
    | DeleteOwnDevice(device: DeviceId)
    | AdminCreateAccount(email: string, password: string, wanted: Option<Role>)
    | AdminSetRole(account: AccountId, role: Role)
    | AdminDeleteAccount(account: AccountId)
    | AdminDeleteDevice(account: AccountId, device: DeviceId)
    | AdminSetRegistration(enabled: bool)
  {
    predicate NeedsAdmin() {
      AdminCreateAccount? || AdminSetRole? || AdminDeleteAccount? || AdminDeleteDevice? || AdminSetRegistration?
    }
  }

  function Reply(s: State, status: Status): Outcome { Outcome(s.db, s.net, Silent, status) }

  /** `current_account`. */
  function CurrentAccount(db: Db, cookie: Option<string>): Option<AccountId> {
    match Cookies.CookieValue(cookie, Cookies.SESSION_COOKIE)
    case None => None
    case Some(token) => FindLogin(db, token)
  }

  /** `require_admin`: the status of a refusal, or Ok. */
  function RequireAdmin(db: Db, cookie: Option<string>): (r: Status)
    ensures r == Ok || r == Unauthorized || r == Forbidden
  {
    match CurrentAccount(db, cookie)
    case None => Unauthorized
    case Some(id) => if id in db.accounts && db.accounts[id].role == Admin then Ok else Forbidden
  }

  function StartSession(s: State, db: Db, id: AccountId, n: Nonce): Outcome {
    match CreateLogin(db, n.token, id)
    case None => Outcome(db, s.net, Silent, ServerError)
    case Some(db') => Outcome(db', s.net, Silent, Ok)
  }

  function OnPostRegister(s: State, email: string, password: string, n: Nonce): Outcome {
    if Trim(email) == "" || password == "" then Reply(s, BadRequest)
    else if !RegistrationEnabled(s.db) then Reply(s, Forbidden)
    else
      match SignUp(s.db, Trim(email), Hash(password, n.salt))
      case None => Reply(s, Conflict)
      case Some((db, id)) => StartSession(s, db, id, n)
  }

  function OnPostLogin(s: State, email: string, password: string, n: Nonce): Outcome {
    match Credentials(s.db, Trim(email), password)
    case None => Reply(s, Unauthorized)
    case Some(id) => StartSession(s, s.db, id, n)
  }

  function OnPostLogout(s: State, cookie: Option<string>): Outcome {
    match Cookies.CookieValue(cookie, Cookies.SESSION_COOKIE)
    case None => Reply(s, NoContent)
    case Some(token) => Outcome(s.db.(logins := s.db.logins - {token}), s.net, Silent, NoContent)
  }

  /** Deletes the row of `d` and kicks its live connection (`delete_device` then `kick_device`). */
  function RemoveDevice(s: State, d: DeviceId): Outcome {
    Outcome(s.db.(devices := s.db.devices - {d}),
            s.net.(online := s.net.online - {d}, otp := s.net.otp - {d}),
            if d in s.net.online && s.net.online[d] in s.net.live then Tell(s.net.online[d], Error(DeviceRemoved)) else Silent,
            NoContent)
  }

  function OnDeleteOwnDevice(s: State, cookie: Option<string>, d: DeviceId): Outcome {
    match CurrentAccount(s.db, cookie)
    case None => Reply(s, Unauthorized)
    case Some(id) =>
      if d !in s.db.devices then Reply(s, NotFound)
      else if s.db.devices[d].owner != id then Reply(s, Forbidden)
      else RemoveDevice(s, d)
  }

  function OnAdminCreateAccount(s: State, email: string, password: string, role: Option<Role>, n: Nonce): Outcome {
    if Trim(email) == "" || password == "" then Reply(s, BadRequest)
    else
      match CreateAccount(s.db, Trim(email), Hash(password, n.salt), if role.Some? then role.value else User)
      case None => Reply(s, Conflict)
      case Some((db, _)) => Outcome(db, s.net, Silent, Created)
  }

  /** `guard_last_admin`: false when removing this admin would leave none. */
  predicate MayLoseAdmin(db: Db, id: AccountId) {
    id in db.accounts && db.accounts[id].role == Admin ==> |Admins(db.accounts)| > 1
  }

  function OnAdminSetRole(s: State, id: AccountId, role: Role): Outcome {
    if role != Admin && !MayLoseAdmin(s.db, id) then Reply(s, Conflict)
    else Outcome(SetRole(s.db, id, role), s.net, Silent, NoContent)
  }

  function OnAdminDeleteAccount(s: State, id: AccountId): Outcome {
    if !MayLoseAdmin(s.db, id) then Reply(s, Conflict)
    else Outcome(DeleteAccount(s.db, id), s.net, Silent, NoContent)
  }

  function OnAdminDeleteDevice(s: State, account: AccountId, d: DeviceId): Outcome {
    if d in s.db.devices && s.db.devices[d].owner == account then RemoveDevice(s, d) else Reply(s, NotFound)
  }

  function Serve(s: State, cookie: Option<string>, r: Request, n: Nonce): Outcome {
    if r.NeedsAdmin() && RequireAdmin(s.db, cookie) != Ok then Reply(s, RequireAdmin(s.db, cookie))
    else
      match r
      case PostRegister(email, password) => OnPostRegister(s, email, password, n)
      case PostLogin(email, password) => OnPostLogin(s, email, password, n)
      case PostLogout => OnPostLogout(s, cookie)
      case DeleteOwnDevice(d) => OnDeleteOwnDevice(s, cookie, d)
      case AdminCreateAccount(email, password, role) => OnAdminCreateAccount(s, email, password, role, n)
      case AdminSetRole(id, role) => OnAdminSetRole(s, id, role)
      case AdminDeleteAccount(id) => OnAdminDeleteAccount(s, id)
      case AdminDeleteDevice(account, d) => OnAdminDeleteDevice(s, account, d)
      case AdminSetRegistration(enabled) => Outcome(s.db.(registration := Some(enabled)), s.net, Silent, Ok)
  }

  // ----- Steps and runs -----

  datatype Event =
    | Connect(c: ConnId)
    | Receive(c: ConnId, m: ClientMessage, n: Nonce)
    | ReceiveGarbage(c: ConnId)
    | Disconnect(c: ConnId)
    | Http(cookie: Option<string>, r: Request, n: Nonce)

  /**
   * Generated values: a session id is new; a token was never stored; a device id either hits an existing row (and
   * the insert fails) or was never used.
   */
  predicate Fresh(s: State, n: Nonce) {
    && n.session !in s.net.sessions
    && n.token !in s.db.issuedTokens
    && (n.device in s.db.devices || n.device !in s.db.issuedDevices)
  }

  predicate Enabled(s: State, e: Event) {
    match e
    case Connect(c) => c !in s.net.queues
    case Receive(c, _, n) => c in s.net.live && Fresh(s, n)
    case ReceiveGarbage(c) => c in s.net.live
    case Disconnect(c) => c in s.net.live
    case Http(_, _, n) => Fresh(s, n)
  }

  /** What one `Out` adds to the channel of `c`. */
  function For(out: Out, c: ConnId): seq<ServerMessage> {
    match out
    case Silent => []
    case Tell(to, msg) => if c == to then [msg] else []
    case TellBoth(to, msg, to2, msg2) => (if c == to then [msg] else []) + (if c == to2 then [msg2] else [])
  }

  function Post(queues: map<ConnId, seq<ServerMessage>>, out: Out): map<ConnId, seq<ServerMessage>> {
    map c | c in queues :: queues[c] + For(out, c)
  }

  lemma PostOne(queues: map<ConnId, seq<ServerMessage>>, c: ConnId, m: ServerMessage)
    requires c in queues
    ensures Post(queues, Tell(c, m)) == queues[c := queues[c] + [m]]
  {
    assert forall c' :: c' in queues && c' != c ==> queues[c'] + [] == queues[c'];
  }

  lemma PostNone(queues: map<ConnId, seq<ServerMessage>>)
    ensures Post(queues, Silent) == queues
  {
    assert forall c :: c in queues ==> queues[c] + [] == queues[c];
  }

  lemma PostTwo(queues: map<ConnId, seq<ServerMessage>>, c: ConnId, m: ServerMessage, c2: ConnId, m2: ServerMessage)
    requires c in queues && c2 in queues
    ensures Post(queues, TellBoth(c, m, c2, m2)) ==
      var q := queues[c := queues[c] + [m]]; q[c2 := q[c2] + [m2]]
  {
    var q := queues[c := queues[c] + [m]];
    forall c' | c' in queues ensures queues[c'] + For(TellBoth(c, m, c2, m2), c') == q[c2 := q[c2] + [m2]][c'] {
      assert queues[c'] + [] == queues[c'] && queues[c'] + ([] + []) == queues[c'];
      assert queues[c'] + ([m] + [m2]) == queues[c'] + [m] + [m2];
      assert queues[c'] + ([m] + []) == queues[c'] + [m] && queues[c'] + ([] + [m2]) == queues[c'] + [m2];
    }
  }

  /** The end of `handle_socket`. */
  function Close(s: State, c: ConnId): State
    requires c in s.net.live
  {
    var gone := match s.net.live[c].device case None => {} case Some(d) => {d};
    s.(net := s.net.(live := s.net.live - {c}, online := s.net.online - gone, otp := s.net.otp - gone))
  }

  function React(s: State, e: Event): Outcome
    requires Enabled(s, e)
  {
    match e
    case Connect(c) =>
      Outcome(s.db, s.net.(live := s.net.live[c := Conn(None, None)], queues := s.net.queues[c := []]), Silent, NoStatus)
    case Receive(c, m, n) => Handle(s, c, m, n)
    case ReceiveGarbage(c) => Refuse(s, c, MalformedMessage)
    case Disconnect(c) => Outcome(s.db, Close(s, c).net, Silent, NoStatus)
    case Http(cookie, r, n) => Serve(s, cookie, r, n)
  }

  function Step(s: State, e: Event): State
    requires Enabled(s, e)
  {
    var o := React(s, e);
    State(o.db, o.net.(queues := Post(o.net.queues, o.out)))
  }

  /** Every event of the run was possible when it happened. */
  ghost predicate Run(s: State, es: seq<Event>)
    decreases |es|, 0
  {
    es == [] || (Run(s, es[..|es| - 1]) && Enabled(After(s, es[..|es| - 1]), es[|es| - 1]))
  }

  /** The state that a run from `s` ends in. */
  ghost function After(s: State, es: seq<Event>): State
    requires Run(s, es)
    decreases |es|, 1
  {
    if es == [] then s else Step(After(s, es[..|es| - 1]), es[|es| - 1])
  }

  /** One more event. */
  lemma Extend(s: State, es: seq<Event>, e: Event)
    requires Run(s, es) && Enabled(After(s, es), e)
    ensures Run(s, es + [e]) && After(s, es + [e]) == Step(After(s, es), e)
  {
    hide Step, Enabled;
    assert (es + [e])[..|es|] == es;
  }

  lemma {:induction false} RunPrefix(s: State, es: seq<Event>, k: nat)
    requires Run(s, es) && k <= |es|
    ensures Run(s, es[..k])
  {
    if k == |es| {
      assert es[..k] == es;
    } else {
      RunPrefix(s, es[..|es| - 1], k);
      assert es[..|es| - 1][..k] == es[..k];
    }
  }

  /** The part of a run from index `k` on is a run of its own, from the state reached there to the same end. */
  lemma {:induction false} RunSuffix(s: State, es: seq<Event>, k: nat)
    requires Run(s, es) && k <= |es|
    ensures Run(s, es[..k]) && Run(After(s, es[..k]), es[k..])
    ensures After(After(s, es[..k]), es[k..]) == After(s, es)
  {
    hide Step, Enabled;
    RunPrefix(s, es, k);
    if k == |es| {
      assert es[..k] == es && es[k..] == [];
    } else {
      var front := es[..|es| - 1];
      RunSuffix(s, front, k);
      assert front[..k] == es[..k] && front[k..] == es[k..][..|es| - 1 - k];
      assert es[k..][|es[k..]| - 1] == es[|es| - 1];
    }
  }
}
