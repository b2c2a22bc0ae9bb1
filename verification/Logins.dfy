/** Whom a connection acts for: what Register and Login answer, and where a connection's account came from in any run. */
module Logins {
  import opened Text
  import opened Protocol
  import opened Signaling
  import Presence
  import Relaying
  import Accounts

  /** Account `id` is the one with this email and password. */
  predicate Holds(db: Db, id: AccountId, email: string, password: string) {
    id in db.accounts && db.accounts[id].email == email && Verify(password, db.accounts[id].hash)
  }

  predicate Taken(db: Db, email: string) {
    exists id: AccountId :: id in db.accounts && db.accounts[id].email == email
  }

  lemma TakenExact(db: Db, email: string)
    requires Accounts.IndexOk(db)
    ensures Taken(db, email) <==> email in db.emails
  {
    if email in db.emails { assert db.emails[email] in db.accounts; }
  }

  /** The network after `c` has been told `m` and acts for `account`. */
  function Told(net: Net, c: ConnId, account: Option<AccountId>, m: ServerMessage): Net
    requires c in net.live && c in net.queues
  {
    net.(live := net.live[c := net.live[c].(account := account)], queues := net.queues[c := net.queues[c] + [m]])
  }

  /** A login makes the connection act for the account with that email and password, and for no other; without one it changes nothing. */
  lemma LoginOutcome(s: State, c: ConnId, email: string, password: string, n: Nonce)
    requires Accounts.IndexOk(s.db) && Enabled(s, Receive(c, Login(email, password), n)) && c in s.net.queues
    ensures var s' := Step(s, Receive(c, Login(email, password), n));
      && s'.db == s.db
      && (forall id: AccountId :: Holds(s.db, id, email, password) ==> s'.net == Told(s.net, c, Some(id), AuthOk(n.token)))
      && ((forall id: AccountId :: !Holds(s.db, id, email, password)) ==> s'.net == Told(s.net, c, s.net.live[c].account, AuthError(InvalidLogin)))
  {
    hide Post, Credentials;
    var who := Credentials(s.db, email, password);
    forall id: AccountId ensures who == Some(id) <==> Holds(s.db, id, email, password) { Accounts.CredentialsExact(s.db, email, password, id); }
    PostOne(s.net.queues, c, if who.Some? then AuthOk(n.token) else AuthError(InvalidLogin));
    assert s.net.live[c := s.net.live[c].(account := s.net.live[c].account)] == s.net.live;
  }

  /**
   * A sign-up succeeds exactly when registration is open and the email is new; then the connection acts for a new
   * account with that email and password. Otherwise it changes nothing.
   */
  lemma RegisterOutcome(s: State, c: ConnId, email: string, password: string, n: Nonce)
    requires Accounts.DbOk(s.db) && Enabled(s, Receive(c, Register(email, password), n)) && c in s.net.queues
    ensures var s' := Step(s, Receive(c, Register(email, password), n)); var id := s.db.nextAccount;
      if RegistrationEnabled(s.db) && !Taken(s.db, email) then
        && id !in s.db.accounts && s'.db.accounts == s.db.accounts[id := s'.db.accounts[id]] && Holds(s'.db, id, email, password)
        && s'.net == Told(s.net, c, Some(id), AuthOk(n.token))
      else
        && s'.db == s.db
        && s'.net == Told(s.net, c, s.net.live[c].account,
                          AuthError(if RegistrationEnabled(s.db) then RegistrationFailed else RegistrationDisabled))
  {
    hide Post, Accounts.AdminExists, Accounts.FlagDecided, Accounts.NoDangling;
    TakenExact(s.db, email);
    PostOne(s.net.queues, c, AuthOk(n.token));
    PostOne(s.net.queues, c, AuthError(RegistrationFailed));
    PostOne(s.net.queues, c, AuthError(RegistrationDisabled));
    assert s.net.live[c := s.net.live[c].(account := s.net.live[c].account)] == s.net.live;
  }

  // ----- Over runs -----

  /** By `e` connection `c` logs in to account `id`, or creates it. */
  ghost predicate Authenticates(s: State, e: Event, c: ConnId, id: AccountId)
    requires Enabled(s, e)
  {
    && e.Receive? && e.c == c
    && match e.m
       case Login(email, password) => Holds(s.db, id, email, password)
       case Register(email, password) => id !in s.db.accounts && Holds(Step(s, e).db, id, email, password)
       case _ => false
  }

  /** No other message touches the account of any connection. */
  lemma HandlingAccounts(s: State, c: ConnId, m: ClientMessage, n: Nonce, c': ConnId)
    requires c in s.net.live && ((!m.Login? && !m.Register?) || c' != c)
    ensures var live := Handle(s, c, m, n).net.live;
      (c' in live <==> c' in s.net.live) && (c' in live ==> live[c'].account == s.net.live[c'].account)
  {
    hide Summaries, CredentialOk, Credentials, SignUp, CreateDevice;
    match m
    case Register(_, _) =>
    case Login(_, _) =>
    case RegisterDevice(_) =>
    case ListDevices =>
    case RequestConnection(_, _) =>
    case Relay(_, _) =>
    case RequestTurnCredentials =>
    case SetUnattendedPassword(_, _) =>
  }

  lemma OtherEventsKeep(s: State, e: Event, c: ConnId)
    requires Enabled(s, e) && c in Step(s, e).net.live && !(e.Receive? && e.c == c && (e.m.Login? || e.m.Register?))
    ensures if e == Connect(c) then Step(s, e).net.live[c].account == None
            else c in s.net.live && Step(s, e).net.live[c].account == s.net.live[c].account
  {
    hide Handle, Serve, Post;
    match e
    case Receive(c', m, n) => HandlingAccounts(s, c', m, n, c);
    case Http(cookie, r, n) => Relaying.ServingEffect(s, cookie, r, n);
    case _ =>
  }

  /** One step gives a connection the account it authenticates as, and leaves it the one it had otherwise. */
  lemma AccountStep(s: State, e: Event, c: ConnId)
    requires Accounts.DbOk(s.db) && s.net.live.Keys <= s.net.queues.Keys && Enabled(s, e) && c in Step(s, e).net.live
    ensures forall id: AccountId :: Authenticates(s, e, c, id) ==> Step(s, e).net.live[c].account == Some(id)
    ensures (forall id: AccountId :: !Authenticates(s, e, c, id)) && e != Connect(c) ==>
      c in s.net.live && Step(s, e).net.live[c].account == s.net.live[c].account
    ensures e == Connect(c) ==> Step(s, e).net.live[c].account == None
  {
    hide Step, Accounts.AdminExists, Accounts.FlagDecided, Accounts.NoDangling, RegistrationEnabled;
    if e.Receive? && e.c == c && e.m.Login? {
      LoginOutcome(s, c, e.m.email, e.m.password, e.n);
      assert forall id: AccountId :: Holds(s.db, id, e.m.email, e.m.password) ==> Authenticates(s, e, c, id);
    } else if e.Receive? && e.c == c && e.m.Register? {
      RegisterOutcome(s, c, e.m.email, e.m.password, e.n);
      assert forall id: AccountId :: id != s.db.nextAccount && id !in s.db.accounts ==> id !in Step(s, e).db.accounts;
      if RegistrationEnabled(s.db) && !Taken(s.db, e.m.email) {
        assert Authenticates(s, e, c, s.db.nextAccount);
      }
    } else {
      OtherEventsKeep(s, e, c);
    }
  }

  ghost predicate AuthenticatesAt(es: seq<Event>, k: nat, c: ConnId, id: AccountId) {
    k < |es| && Run(INIT, es[..k]) && Enabled(After(INIT, es[..k]), es[k]) && Authenticates(After(INIT, es[..k]), es[k], c, id)
  }

  /** The last time `c` authenticated in the run, by event `k`, it was as `id`. */
  ghost predicate LastAs(es: seq<Event>, k: nat, c: ConnId, id: AccountId) {
    && AuthenticatesAt(es, k, c, id)
    && forall l: nat, id': AccountId :: k < l < |es| ==> !AuthenticatesAt(es, l, c, id')
  }

  lemma AtInPrefix(es: seq<Event>, n: nat, k: nat, c: ConnId, id: AccountId)
    requires k < n <= |es|
    ensures AuthenticatesAt(es, k, c, id) <==> AuthenticatesAt(es[..n], k, c, id)
  {
    hide Run, After, Enabled, Authenticates;
    assert es[..n][..k] == es[..k];
  }

  /** A connection that authenticated has a channel ever after. */
  lemma {:induction false} KnownSince(es: seq<Event>, k: nat, c: ConnId, id: AccountId)
    requires Run(INIT, es) && AuthenticatesAt(es, k, c, id)
    ensures c in After(INIT, es).net.queues
  {
    hide Step, Holds, React, For;
    RunSuffix(INIT, es, k);
    Presence.OnlineDevices(es[..k]);
    ChannelStays(After(INIT, es[..k]), es[k..], c);
  }

  lemma {:induction false} ChannelStays(s: State, es: seq<Event>, c: ConnId)
    requires Run(s, es) && c in s.net.queues
    ensures c in After(s, es).net.queues
  {
    hide Step, Enabled, React, For;
    if es != [] {
      ChannelStays(s, es[..|es| - 1], c);
      Relaying.QueueStep(After(s, es[..|es| - 1]), es[|es| - 1], c);
    }
  }

  /**
   * In every run, a live connection acts for account `id` exactly when the last time it authenticated it logged in with
   * the email and password of `id`, or created `id` with them.
   */
  lemma {:induction false} ActsForLastLogin(es: seq<Event>, c: ConnId, id: AccountId)
    requires Run(INIT, es) && c in After(INIT, es).net.live
    ensures After(INIT, es).net.live[c].account == Some(id) <==> exists k: nat :: LastAs(es, k, c, id)
  {
    hide Step, Enabled, Authenticates, Accounts.DbOk, Presence.Inv;
    if es != [] {
      var n := |es| - 1;
      var front, e := es[..n], es[n];
      var s := After(INIT, front);
      Accounts.DbFromStart(front);
      ChannelsOfLive(front);
      AccountStep(s, e, c);
      if id0: AccountId :| Authenticates(s, e, c, id0) {
        assert AuthenticatesAt(es, n, c, id0);
        forall k: nat | LastAs(es, k, c, id) ensures k == n { OutOfRange(es, k, c, id); }
        if id == id0 { assert LastAs(es, n, c, id); }
      } else if e == Connect(c) {
        forall k: nat ensures !AuthenticatesAt(es, k, c, id) { NotBeforeConnect(es, k, c, id); }
      } else {
        ActsForLastLogin(front, c, id);
        forall k: nat ensures LastAs(es, k, c, id) <==> LastAs(front, k, c, id) { SameLast(es, n, k, c, id); }
      }
    }
  }

  lemma ChannelsOfLive(es: seq<Event>)
    requires Run(INIT, es)
    ensures After(INIT, es).net.live.Keys <= After(INIT, es).net.queues.Keys
  {
    Presence.OnlineDevices(es);
  }

  lemma NotBeforeConnect(es: seq<Event>, k: nat, c: ConnId, id: AccountId)
    requires Run(INIT, es) && es != [] && es[|es| - 1] == Connect(c)
    ensures !AuthenticatesAt(es, k, c, id)
  {
    hide Step, Holds;
    var n := |es| - 1;
    if k < n {
      AtInPrefix(es, n, k, c, id);
      if AuthenticatesAt(es[..n], k, c, id) { KnownSince(es[..n], k, c, id); }
    }
  }

  lemma SameLast(es: seq<Event>, n: nat, k: nat, c: ConnId, id: AccountId)
    requires |es| == n + 1 && forall id': AccountId :: !AuthenticatesAt(es, n, c, id')
    ensures LastAs(es, k, c, id) <==> LastAs(es[..n], k, c, id)
  {
    hide AuthenticatesAt;
    forall l: nat, id': AccountId | l < n ensures AuthenticatesAt(es, l, c, id') <==> AuthenticatesAt(es[..n], l, c, id') {
      AtInPrefix(es, n, l, c, id');
    }
    OutOfRange(es, k, c, id);
    OutOfRange(es[..n], k, c, id);
  }

  lemma OutOfRange(es: seq<Event>, k: nat, c: ConnId, id: AccountId)
    ensures AuthenticatesAt(es, k, c, id) ==> k < |es|
  {
  }
}
