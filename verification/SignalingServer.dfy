/**
 * The server as the program writes it: handlers that update the tables and shared maps in place. A ghost history
 * records every event, and a valid server is in the state that this run of the transition system ends in, so what is
 * proved of runs holds of this object after every entry point.
 */
module SignalingServer {
  import opened Text
  import opened Protocol
  import opened Signaling
  import Presence
  import Relaying
  import Accounts
  import Logins
  import Requests
  import Cookies

  class Server {
    // The database.
    var accounts: map<AccountId, Account>
    var emails: map<string, AccountId>
    var nextAccount: AccountId
    var devices: map<DeviceId, Device>
    var logins: map<Token, AccountId>
    var registration: Option<bool>
    ghost var issuedDevices: set<DeviceId>
    ghost var issuedTokens: set<Token>
    // The shared maps, and the locals of the socket tasks.
    var live: map<ConnId, Conn>
    var queues: map<ConnId, seq<ServerMessage>>
    var deviceOnline: map<DeviceId, ConnId>
    var otp: map<DeviceId, string>
    var sessions: map<SessionId, Peers>
    ghost var history: seq<Event>

    ghost function Tables(): Db
      reads this
    {
      Db(accounts, emails, nextAccount, devices, logins, registration, issuedDevices, issuedTokens)
    }

    ghost function Value(): State
      reads this
    {
      State(Tables(), Net(live, queues, deviceOnline, otp, sessions))
    }

    /** The server is where its history leads. */
    ghost predicate Valid()
      reads this
    {
      Run(INIT, history) && Value() == After(INIT, history)
    }

    /** Each endpoint's channel carries exactly what the other asked to relay since the session was opened. */
    ghost predicate RelaysExactly()
      reads this
    {
      forall k, x, peers, from :: Relaying.OpensAt(history, k, x, peers) && peers.Other(from).Some? ==>
        && peers.Other(from).value in queues
        && Relaying.Signals(queues[peers.Other(from).value], x)
           == Relaying.Requested(history[k + 1..], from, peers.Other(from).value, x)
    }

    ghost predicate Sound()
      reads this
    {
      Presence.Inv(Value()) && Accounts.DbOk(Tables()) && RelaysExactly()
    }

    /** What is proved of every run is true of the object. */
    lemma ValidIsSound()
      requires Valid()
      ensures Sound()
    {
      hide Run, After, Presence.Inv, Accounts.DbOk, Relaying.Opens, Relaying.Signals, Relaying.Requested;
      Presence.OnlineDevices(history);
      Accounts.DbFromStart(history);
      forall k, x, peers, from | Relaying.OpensAt(history, k, x, peers) && peers.Other(from).Some?
        ensures peers.Other(from).value in queues
        ensures Relaying.Signals(queues[peers.Other(from).value], x)
             == Relaying.Requested(history[k + 1..], from, peers.Other(from).value, x)
      {
        Relaying.RelayExact(history, k, x, peers, from, peers.Other(from).value);
      }
    }

    /** One more event: its step leads from where the history led to where the server is now. */
    ghost method Record(e: Event, s: State)
      requires Run(INIT, history) && s == After(INIT, history) && Enabled(s, e) && Value() == Step(s, e)
      modifies this`history
      ensures Valid() && Sound() && history == old(history) + [e]
    {
      hide Run, After, Step, Enabled, Sound;
      Extend(INIT, history, e);
      history := history + [e];
      ValidIsSound();
    }

    constructor ()
      ensures Valid() && history == []
    {
      accounts, emails, nextAccount, devices, logins, registration := map[], map[], 1, map[], map[], None;
      issuedDevices, issuedTokens := {}, {};
      live, queues, deviceOnline, otp, sessions := map[], map[], map[], map[], map[];
      history := [];
    }

    // ----- Database calls -----

    /** `Db::create_account`. */
    method InsertAccount(email: string, hash: Hash, role: Role) returns (id: Option<AccountId>)
      modifies this`accounts, this`emails, this`nextAccount
      ensures match CreateAccount(old(Tables()), email, hash, role)
              case None => id == None && Tables() == old(Tables())
              case Some((db, newId)) => id == Some(newId) && Tables() == db
    {
      if email in emails {
        return None;
      }
      id := Some(nextAccount);
      accounts := accounts[nextAccount := Account(email, hash, role)];
      emails := emails[email := nextAccount];
      nextAccount := nextAccount + 1;
    }

    /** `create_account_and_maybe_bootstrap_admin`. */
    method CreateAccountAndMaybeBootstrapAdmin(email: string, hash: Hash) returns (id: Option<AccountId>)
      modifies this`accounts, this`emails, this`nextAccount, this`registration
      ensures match SignUp(old(Tables()), email, hash)
              case None => id == None && Tables() == old(Tables())
              case Some((db, newId)) => id == Some(newId) && Tables() == db
    {
      var isFirst := |accounts| == 0;
      id := InsertAccount(email, hash, if isFirst then Admin else User);
      if id.Some? && isFirst {
        registration := Some(false);
      }
    }

    /** `Db::create_session`. */
    method InsertLogin(token: Token, id: AccountId) returns (ok: bool)
      modifies this`logins, this`issuedTokens
      ensures ok == CreateLogin(old(Tables()), token, id).Some?
      ensures Tables() == if ok then CreateLogin(old(Tables()), token, id).value else old(Tables())
    {
      ok := token !in logins && id in accounts;
      if ok {
        logins := logins[token := id];
        issuedTokens := issuedTokens + {token};
      }
    }

    /** `Db::create_device`. */
    method InsertDevice(d: DeviceId, owner: AccountId, name: string) returns (ok: bool)
      modifies this`devices, this`issuedDevices
      ensures ok == CreateDevice(old(Tables()), d, owner, name).Some?
      ensures Tables() == if ok then CreateDevice(old(Tables()), d, owner, name).value else old(Tables())
    {
      ok := d !in devices && owner in accounts;
      if ok {
        devices := devices[d := Device(owner, name, None)];
        issuedDevices := issuedDevices + {d};
      }
    }

    /** `Db::delete_account`: one transaction of three deletions. */
    method DeleteAccountRows(id: AccountId)
      modifies this`logins, this`devices, this`accounts, this`emails
      ensures Tables() == DeleteAccount(old(Tables()), id)
    {
      logins := map t | t in logins && logins[t] != id :: logins[t];
      devices := map d | d in devices && devices[d].owner != id :: devices[d];
      if id in accounts {
        emails := emails - {accounts[id].email};
      }
      accounts := accounts - {id};
    }

    /** `find_account_by_email` and the password check, shared by both logins. */
    method CheckCredentials(email: string, password: string) returns (id: Option<AccountId>)
      ensures id == Credentials(Tables(), email, password)
      ensures Accounts.IndexOk(Tables()) ==> forall a :: id == Some(a) <==>
        a in accounts && accounts[a].email == email && Verify(password, accounts[a].hash)
    {
      id := None;
      if email in emails && emails[email] in accounts && Verify(password, accounts[emails[email]].hash) {
        id := Some(emails[email]);
      }
    }

    // ----- The socket (visuara-signaling/src/ws.rs) -----

    method Send(c: ConnId, m: ServerMessage)
      requires c in queues
      modifies this`queues
      ensures queues == old(queues)[c := old(queues)[c] + [m]]
    {
      queues := queues[c := queues[c] + [m]];
    }

    method OpenConnection(c: ConnId)
      requires Valid() && c !in queues
      modifies this`live, this`queues, this`history
      ensures Valid() && Sound() && history == old(history) + [Connect(c)]
    {
      hide Run, After, Sound, Post;
      live := live[c := Conn(None, None)];
      queues := queues[c := []];
      PostNone(queues);
      Record(Connect(c), old(Value()));
    }

    /** The cleanup at the end of `handle_socket`. */
    method CloseConnection(c: ConnId)
      requires Valid() && c in live
      modifies this`live, this`deviceOnline, this`otp, this`history
      ensures Valid() && Sound() && history == old(history) + [Disconnect(c)]
    {
      hide Run, After, Sound, Post;
      var device := live[c].device;
      live := live - {c};
      if device.Some? {
        deviceOnline := deviceOnline - {device.value};
        otp := otp - {device.value};
      }
      assert old(deviceOnline) - {} == old(deviceOnline) && old(otp) - {} == old(otp);
      PostNone(queues);
      Record(Disconnect(c), old(Value()));
    }

    /** Every live connection has a channel. */
    lemma ValidChannels()
      requires Valid()
      ensures live.Keys <= queues.Keys
    {
      hide Run, After;
      Presence.OnlineDevices(history);
    }

    method RejectGarbage(c: ConnId)
      requires Valid() && c in live
      modifies this`queues, this`history
      ensures Valid() && Sound() && history == old(history) + [ReceiveGarbage(c)]
    {
      hide Run, After, Sound, Post;
      ValidChannels();
      PostOne(queues, c, Error(MalformedMessage));
      Send(c, Error(MalformedMessage));
      Record(ReceiveGarbage(c), old(Value()));
    }

    method HandleRegister(c: ConnId, email: string, password: string, n: Nonce)
      requires c in live && c in queues
      modifies this`accounts, this`emails, this`nextAccount, this`registration, this`live, this`queues
      ensures Value() == Presence.Settle(OnRegister(old(Value()), c, email, password, n))
    {
      hide Post;
      var enabled := registration == None || registration == Some(true);
      if !enabled {
        PostOne(queues, c, AuthError(RegistrationDisabled));
        Send(c, AuthError(RegistrationDisabled));
        return;
      }
      var id := CreateAccountAndMaybeBootstrapAdmin(email, Hash(password, n.salt));
      if id.Some? {
        live := live[c := live[c].(account := id)];
        PostOne(queues, c, AuthOk(n.token));
        Send(c, AuthOk(n.token));
      } else {
        PostOne(queues, c, AuthError(RegistrationFailed));
        Send(c, AuthError(RegistrationFailed));
      }
    }

    method HandleLogin(c: ConnId, email: string, password: string, n: Nonce)
      requires c in live && c in queues
      modifies this`live, this`queues
      ensures Value() == Presence.Settle(OnLogin(old(Value()), c, email, password, n))
    {
      var id := CheckCredentials(email, password);
      var reply := if id.Some? then AuthOk(n.token) else AuthError(InvalidLogin);
      if id.Some? {
        live := live[c := live[c].(account := id)];
      }
      PostOne(queues, c, reply);
      Send(c, reply);
    }

    method HandleRegisterDevice(c: ConnId, name: string, n: Nonce)
      requires c in live && c in queues
      modifies this`devices, this`issuedDevices, this`live, this`deviceOnline, this`otp, this`queues
      ensures Value() == Presence.Settle(OnRegisterDevice(old(Value()), c, name, n))
    {
      if live[c].account == None {
        PostOne(queues, c, Error(NotAuthenticated));
        Send(c, Error(NotAuthenticated));
        return;
      }
      var d := n.device;
      if live[c].device.Some? {
        d := live[c].device.value;
      } else {
        var ok := InsertDevice(d, live[c].account.value, name);
        if !ok {
          PostOne(queues, c, Error(DatabaseError));
          Send(c, Error(DatabaseError));
          return;
        }
        live := live[c := live[c].(device := Some(d))];
      }
      deviceOnline := deviceOnline[d := c];
      otp := otp[d := n.otp];
      PostOne(queues, c, DeviceRegistered(d, n.otp));
      Send(c, DeviceRegistered(d, n.otp));
    }

    method HandleRequestConnection(c: ConnId, target: DeviceId, credential: Credential, n: Nonce)
      requires c in live && live.Keys <= queues.Keys
      modifies this`sessions, this`queues
      ensures Value() == Presence.Settle(OnRequestConnection(old(Value()), c, target, credential, n))
    {
      var refusal := None;
      if live[c].account == None {
        refusal := Some(NotAuthenticated);
      } else if target !in devices {
        refusal := Some(UnknownDevice);
      } else {
        var ok := match credential
          case OneTimePassword(given) => target in otp && otp[target] == given
          case UnattendedPassword(pw) => devices[target].unattended.Some? && Verify(pw, devices[target].unattended.value);
        if !ok {
          refusal := Some(InvalidCredential);
        } else if target !in deviceOnline {
          refusal := Some(DeviceOffline);
        }
      }
      if refusal.Some? {
        PostOne(queues, c, Error(refusal.value));
        Send(c, Error(refusal.value));
        return;
      }
      var host := deviceOnline[target];
      sessions := sessions[n.session := Peers(c, host)];
      if host in live {
        PostTwo(queues, host, IncomingConnection(n.session), c, ConnectionEstablished(n.session, target));
        Send(host, IncomingConnection(n.session));
      } else {
        PostOne(queues, c, ConnectionEstablished(n.session, target));
      }
      Send(c, ConnectionEstablished(n.session, target));
    }

    /** `relay`. */
    method HandleRelay(c: ConnId, session: SessionId, signal: Signal)
      requires c in live && live.Keys <= queues.Keys
      modifies this`queues
      ensures Value() == Presence.Settle(OnRelay(old(Value()), c, session, signal))
    {
      var to, msg := c, Error(UnknownSession);
      if session in sessions {
        var other := sessions[session].Other(c);
        if other == None {
          msg := Error(NotPartOfSession);
        } else if other.value !in live {
          msg := Error(PeerDisconnected);
        } else {
          to, msg := other.value, Relayed(session, signal);
        }
      }
      PostOne(queues, to, msg);
      Send(to, msg);
    }

    method HandleSetUnattendedPassword(c: ConnId, target: DeviceId, password: string, n: Nonce)
      requires c in live && live.Keys <= queues.Keys
      modifies this`devices, this`queues
      ensures Value() == Presence.Settle(OnSetUnattendedPassword(old(Value()), c, target, password, n))
    {
      PostNone(queues);
      if live[c].account == None {
        PostOne(queues, c, Error(NotAuthenticated));
        Send(c, Error(NotAuthenticated));
      } else if target !in devices {
        PostOne(queues, c, Error(UnknownDevice));
        Send(c, Error(UnknownDevice));
      } else if devices[target].owner != live[c].account.value {
        PostOne(queues, c, Error(NotYourDevice));
        Send(c, Error(NotYourDevice));
      } else {
        devices := devices[target := devices[target].(unattended := Some(Hash(password, n.salt)))];
        if target in deviceOnline && deviceOnline[target] in live {
          PostOne(queues, deviceOnline[target], UnattendedPasswordUpdated(password));
          Send(deviceOnline[target], UnattendedPasswordUpdated(password));
        }
      }
    }

    method HandleListDevices(c: ConnId)
      requires c in live && c in queues
      modifies this`queues
      ensures Value() == Presence.Settle(
        match old(live)[c].account
        case None => Refuse(old(Value()), c, NotAuthenticated)
        case Some(id) => Outcome(old(Tables()), old(Value()).net, Tell(c, DeviceList(Summaries(old(Value()), id))), NoStatus))
    {
      if live[c].account == None {
        PostOne(queues, c, Error(NotAuthenticated));
        Send(c, Error(NotAuthenticated));
      } else {
        var id := live[c].account.value;
        var list := set d | d in devices && devices[d].owner == id ::
          DeviceSummary(d, devices[d].name, d in deviceOnline, devices[d].unattended.Some?);
        assert list == Summaries(Value(), id);
        PostOne(queues, c, DeviceList(list));
        Send(c, DeviceList(list));
      }
    }

    /** `handle_message`. It creates an account exactly for a sign-up with a new email while registration is open. */
    method HandleMessage(c: ConnId, m: ClientMessage, n: Nonce)
      requires Valid() && Enabled(Value(), Receive(c, m, n))
      modifies this
      ensures Valid() && Sound() && history == old(history) + [Receive(c, m, n)]
      ensures accounts != old(accounts) <==>
        m.Register? && !Logins.Taken(old(Tables()), m.email) && RegistrationOpen(old(accounts), old(history))
    {
      hide Run, After, Sound, Step, Enabled, Logins.Taken;
      Dispatch(c, m, n);
      Record(Receive(c, m, n), old(Value()));
      if m.Register? {
        Requests.SignUpExactly(old(history), Receive(c, m, n));
      } else {
        OnlyRegisterAddsAccounts(old(Value()), c, m, n);
      }
    }

    method Dispatch(c: ConnId, m: ClientMessage, n: Nonce)
      requires Valid() && Enabled(Value(), Receive(c, m, n))
      modifies this
      ensures Value() == Step(old(Value()), Receive(c, m, n)) && history == old(history)
    {
      hide OnRegister, OnLogin, OnRegisterDevice, OnRequestConnection, OnRelay, OnSetUnattendedPassword, Post, Run, After;
      ValidChannels();
      match m {
        case Register(email, password) => HandleRegister(c, email, password, n);
        case Login(email, password) => HandleLogin(c, email, password, n);
        case RegisterDevice(name) => HandleRegisterDevice(c, name, n);
        case ListDevices => HandleListDevices(c);
        case RequestConnection(target, credential) => HandleRequestConnection(c, target, credential, n);
        case Relay(session, signal) => HandleRelay(c, session, signal);
        case RequestTurnCredentials =>
          PostOne(queues, c, TurnCredentials(c));
          Send(c, TurnCredentials(c));
        case SetUnattendedPassword(target, password) => HandleSetUnattendedPassword(c, target, password, n);
      }
    }

    // ----- The HTTP front end (visuara-signaling/src/api and session.rs) -----

    /** `current_account`. */
    method ResolveCookie(cookie: Option<string>) returns (id: Option<AccountId>)
      ensures id == CurrentAccount(Tables(), cookie)
      ensures forall a :: id == Some(a) <==> a in accounts && exists t ::
        t in logins && logins[t] == a && Cookies.CookieValue(cookie, Cookies.SESSION_COOKIE) == Some(t)
    {
      id := None;
      var token := Cookies.CookieValue(cookie, Cookies.SESSION_COOKIE);
      if token.Some? && token.value in logins && logins[token.value] in accounts {
        id := Some(logins[token.value]);
      }
    }

    /** `require_admin`. */
    method CheckAdmin(cookie: Option<string>) returns (status: Status)
      ensures status == RequireAdmin(Tables(), cookie)
      ensures status == Ok <==> exists a :: a in Admins(accounts) && CurrentAccount(Tables(), cookie) == Some(a)
      ensures status == Unauthorized <==> CurrentAccount(Tables(), cookie) == None
    {
      hide Cookies.CookieValue;
      var id := ResolveCookie(cookie);
      if id == None {
        return Unauthorized;
      }
      status := if id.value in accounts && accounts[id.value].role == Admin then Ok else Forbidden;
    }

    /** `guard_last_admin`: refuses exactly for the only admin. */
    method GuardLastAdmin(id: AccountId) returns (ok: bool)
      ensures ok == MayLoseAdmin(Tables(), id)
      ensures !ok <==> Admins(accounts) == {id}
    {
      Accounts.GuardExact(Tables(), id);
      if id !in accounts || accounts[id].role != Admin {
        return true;
      }
      ok := |Admins(accounts)| > 1;
    }

    /** `delete_device` and then `kick_device`. */
    method DeleteAndKick(d: DeviceId) returns (status: Status)
      requires live.Keys <= queues.Keys
      modifies this`devices, this`deviceOnline, this`otp, this`queues
      ensures Value() == Presence.Settle(RemoveDevice(old(Value()), d)) && status == RemoveDevice(old(Value()), d).status
    {
      hide Post;
      devices := devices - {d};
      ghost var mid := Value();
      KickDevice(d);
      status := NoContent;
      assert RemoveDevice(mid, d).out == RemoveDevice(old(Value()), d).out;
    }

    method KickDevice(d: DeviceId)
      requires live.Keys <= queues.Keys
      modifies this`deviceOnline, this`otp, this`queues
      ensures deviceOnline == old(deviceOnline) - {d} && otp == old(otp) - {d}
      ensures queues == Post(old(queues), RemoveDevice(old(Value()), d).out)
    {
      hide Post;
      PostNone(queues);
      var kicked := if d in deviceOnline then Some(deviceOnline[d]) else None;
      deviceOnline := deviceOnline - {d};
      otp := otp - {d};
      if kicked.Some? && kicked.value in live {
        PostOne(queues, kicked.value, Error(DeviceRemoved));
        Send(kicked.value, Error(DeviceRemoved));
      }
    }

    method HandlePostRegister(email: string, password: string, n: Nonce) returns (status: Status)
      modifies this`accounts, this`emails, this`nextAccount, this`registration, this`logins, this`issuedTokens
      ensures var o := OnPostRegister(old(Value()), email, password, n);
        Tables() == o.db && status == o.status && o.net == old(Value()).net && o.out == Silent
    {
      hide Trim;
      var trimmed := Trim(email);
      if trimmed == "" || password == "" {
        return BadRequest;
      }
      if registration == Some(false) {
        return Forbidden;
      }
      var id := CreateAccountAndMaybeBootstrapAdmin(trimmed, Hash(password, n.salt));
      if id == None {
        return Conflict;
      }
      var ok := InsertLogin(n.token, id.value);
      status := if ok then Ok else ServerError;
    }

    method HandlePostLogin(email: string, password: string, n: Nonce) returns (status: Status)
      modifies this`logins, this`issuedTokens
      ensures var o := OnPostLogin(old(Value()), email, password, n);
        Tables() == o.db && status == o.status && o.net == old(Value()).net && o.out == Silent
    {
      hide Trim;
      var id := CheckCredentials(Trim(email), password);
      if id == None {
        return Unauthorized;
      }
      var ok := InsertLogin(n.token, id.value);
      status := if ok then Ok else ServerError;
    }

    method HandleDeleteOwnDevice(cookie: Option<string>, d: DeviceId) returns (status: Status)
      requires live.Keys <= queues.Keys
      modifies this`devices, this`deviceOnline, this`otp, this`queues
      ensures var o := OnDeleteOwnDevice(old(Value()), cookie, d); Value() == Presence.Settle(o) && status == o.status
    {
      hide CurrentAccount;
      PostNone(queues);
      var id := ResolveCookie(cookie);
      if id == None {
        return Unauthorized;
      }
      if d !in devices {
        return NotFound;
      }
      if devices[d].owner != id.value {
        return Forbidden;
      }
      status := DeleteAndKick(d);
    }

    /** The admin endpoints, past `require_admin`. */
    method HandleAdmin(r: Request, n: Nonce) returns (status: Status)
      requires r.NeedsAdmin() && live.Keys <= queues.Keys
      modifies this`accounts, this`emails, this`nextAccount, this`devices, this`logins, this`registration
      modifies this`deviceOnline, this`otp, this`queues
      ensures var o := AdminOutcome(old(Value()), r, n); Value() == Presence.Settle(o) && status == o.status
    {
      hide Trim, MayLoseAdmin, DeleteAccount, RemoveDevice, CreateAccount, Post;
      PostNone(queues);
      match r {
        case AdminCreateAccount(email, password, wanted) =>
          var trimmed := Trim(email);
          if trimmed == "" || password == "" {
            return BadRequest;
          }
          var id := InsertAccount(trimmed, Hash(password, n.salt), if wanted.Some? then wanted.value else User);
          status := if id == None then Conflict else Created;
        case AdminSetRole(id, role) =>
          if role != Admin {
            var ok := GuardLastAdmin(id);
            if !ok {
              return Conflict;
            }
          }
          if id in accounts {
            accounts := accounts[id := accounts[id].(role := role)];
          }
          status := NoContent;
        case AdminDeleteAccount(id) =>
          var ok := GuardLastAdmin(id);
          if !ok {
            return Conflict;
          }
          DeleteAccountRows(id);
          status := NoContent;
        case AdminDeleteDevice(account, d) =>
          if d in devices && devices[d].owner == account {
            status := DeleteAndKick(d);
          } else {
            status := NotFound;
          }
        case AdminSetRegistration(enabled) =>
          registration := Some(enabled);
          status := Ok;
      }
    }

    method HandlePostLogout(cookie: Option<string>) returns (status: Status)
      modifies this`logins
      ensures var o := OnPostLogout(old(Value()), cookie);
        Tables() == o.db && status == o.status && o.net == old(Value()).net && o.out == Silent
    {
      hide Cookies.CookieValue;
      var token := Cookies.CookieValue(cookie, Cookies.SESSION_COOKIE);
      if token.Some? {
        logins := logins - {token.value};
      }
      status := NoContent;
    }

    /** The endpoints that need no admin. */
    method HandlePublic(cookie: Option<string>, r: Request, n: Nonce) returns (status: Status)
      requires !r.NeedsAdmin() && live.Keys <= queues.Keys
      modifies this
      ensures history == old(history)
      ensures var o := Serve(old(Value()), cookie, r, n); Value() == Presence.Settle(o) && status == o.status
    {
      hide OnPostRegister, OnPostLogin, OnPostLogout, OnDeleteOwnDevice, Post;
      PostNone(queues);
      match r {
        case PostRegister(email, password) => status := HandlePostRegister(email, password, n);
        case PostLogin(email, password) => status := HandlePostLogin(email, password, n);
        case PostLogout => status := HandlePostLogout(cookie);
        case DeleteOwnDevice(d) => status := HandleDeleteOwnDevice(cookie, d);
      }
    }

    /**
     * One HTTP request. A sign-up creates an account exactly when it is well formed, with a new email, while registration
     * is open; an admin request is let through only for an account that is an admin at that moment.
     */
    method HandleRequest(cookie: Option<string>, r: Request, n: Nonce) returns (status: Status)
      requires Valid() && Fresh(Value(), n)
      modifies this
      ensures Valid() && Sound() && history == old(history) + [Http(cookie, r, n)]
      ensures status == Serve(old(Value()), cookie, r, n).status
      ensures r.PostRegister? ==> (accounts != old(accounts) <==>
        && Requests.IsSignUp(r.email, r.password) && !Logins.Taken(old(Tables()), Trim(r.email))
        && RegistrationOpen(old(accounts), old(history)))
      ensures r.NeedsAdmin() && status != Unauthorized && status != Forbidden ==>
        exists a :: a in Admins(old(accounts)) && CurrentAccount(old(Tables()), cookie) == Some(a)
    {
      hide Run, After, Sound, Step, Serve, CurrentAccount, Logins.Taken, Requests.IsSignUp, Trim;
      status := Respond(cookie, r, n);
      Record(Http(cookie, r, n), old(Value()));
      if r.PostRegister? { Requests.SignUpExactly(old(history), Http(cookie, r, n)); }
      if r.NeedsAdmin() && status != Unauthorized && status != Forbidden {
        Accounts.AdminOnly(old(Value()), cookie, r, n);
        var a := CurrentAccount(old(Tables()), cookie).value;
        assert a in Admins(old(accounts));
      }
    }

    method Respond(cookie: Option<string>, r: Request, n: Nonce) returns (status: Status)
      requires Valid() && Fresh(Value(), n)
      modifies this
      ensures Value() == Step(old(Value()), Http(cookie, r, n)) && history == old(history)
      ensures status == Serve(old(Value()), cookie, r, n).status
    {
      hide Serve, RequireAdmin, AdminOutcome, Post, Run, After;
      ValidChannels();
      if r.NeedsAdmin() {
        PostNone(queues);
        ServedByAdmin(Value(), cookie, r, n);
        status := CheckAdmin(cookie);
        if status == Ok {
          status := HandleAdmin(r, n);
        }
      } else {
        status := HandlePublic(cookie, r, n);
      }
    }
  }

  /** No account exists yet, or an admin switched registration on and none has switched it off since. */
  ghost predicate RegistrationOpen(accounts: map<AccountId, Account>, past: seq<Event>) {
    |accounts| == 0 || Accounts.SwitchedOn(past)
  }

  lemma OnlyRegisterAddsAccounts(s: State, c: ConnId, m: ClientMessage, n: Nonce)
    requires Enabled(s, Receive(c, m, n)) && !m.Register?
    ensures Step(s, Receive(c, m, n)).db.accounts == s.db.accounts
  {
    hide Post, Summaries, CredentialOk, Credentials;
  }

  ghost function AdminOutcome(s: State, r: Request, n: Nonce): Outcome
    requires r.NeedsAdmin()
  {
    match r
    case AdminCreateAccount(email, password, wanted) => OnAdminCreateAccount(s, email, password, wanted, n)
    case AdminSetRole(id, role) => OnAdminSetRole(s, id, role)
    case AdminDeleteAccount(id) => OnAdminDeleteAccount(s, id)
    case AdminDeleteDevice(account, d) => OnAdminDeleteDevice(s, account, d)
    case AdminSetRegistration(enabled) => Outcome(s.db.(registration := Some(enabled)), s.net, Silent, Ok)
  }

  lemma ServedByAdmin(s: State, cookie: Option<string>, r: Request, n: Nonce)
    requires r.NeedsAdmin()
    ensures Serve(s, cookie, r, n) ==
      if RequireAdmin(s.db, cookie) == Ok then AdminOutcome(s, r, n) else Reply(s, RequireAdmin(s.db, cookie))
  {
    hide RequireAdmin, OnAdminCreateAccount, OnAdminSetRole, OnAdminDeleteAccount, OnAdminDeleteDevice;
  }
}
