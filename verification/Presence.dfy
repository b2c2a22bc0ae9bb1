/**
 * Who is online: what every step of the server keeps about connections, online devices and one-time passwords, and
 * what a deleted device can never do again.
 */
module Presence {
  import opened Text
  import opened Protocol
  import opened Signaling

  /** The device id and password of the last DeviceRegistered on a channel. */
  function LastRegistered(q: seq<ServerMessage>): Option<(DeviceId, string)> {
    if q == [] then None
    else
      var m := q[|q| - 1];
      if m.DeviceRegistered? then Some((m.device, m.otp)) else LastRegistered(q[..|q| - 1])
  }

  lemma LastRegisteredAppend(q: seq<ServerMessage>, m: ServerMessage)
    ensures LastRegistered(q + [m]) == if m.DeviceRegistered? then Some((m.device, m.otp)) else LastRegistered(q)
  {
    assert (q + [m])[..|q|] == q;
  }

  ghost predicate OnlineIsLive(net: Net) {
    forall d :: d in net.online ==> net.online[d] in net.live && net.live[net.online[d]].device == Some(d)
  }

  ghost predicate OneOwnerPerDevice(net: Net) {
    forall c, c' :: c in net.live && c' in net.live && net.live[c].device.Some? && net.live[c].device == net.live[c'].device
      ==> c == c'
  }

  ghost predicate OnlyIssued(s: State) {
    && s.db.devices.Keys <= s.db.issuedDevices
    && forall c :: c in s.net.live && s.net.live[c].device.Some? ==> s.net.live[c].device.value in s.db.issuedDevices
  }

  ghost predicate OtpIsLatest(net: Net)
    requires net.live.Keys <= net.queues.Keys && OnlineIsLive(net)
  {
    && net.online.Keys == net.otp.Keys
    && forall d :: d in net.online ==> LastRegistered(net.queues[net.online[d]]) == Some((d, net.otp[d]))
  }

  ghost predicate Inv(s: State) {
    && s.net.live.Keys <= s.net.queues.Keys
    && OnlineIsLive(s.net)
    && OneOwnerPerDevice(s.net)
    && OnlyIssued(s)
    && OtpIsLatest(s.net)
  }

  /** The new state once the handler's messages are queued. */
  function Settle(o: Outcome): State {
    State(o.db, o.net.(queues := Post(o.net.queues, o.out)))
  }

  predicate TellsRegistration(out: Out) {
    match out
    case Silent => false
    case Tell(_, m) => m.DeviceRegistered?
    case TellBoth(_, m, _, m2) => m.DeviceRegistered? || m2.DeviceRegistered?
  }

  lemma LastRegisteredUnchanged(q: seq<ServerMessage>, out: Out, c: ConnId)
    requires !TellsRegistration(out)
    ensures LastRegistered(q + For(out, c)) == LastRegistered(q)
  {
    match out
    case Silent => assert q + [] == q;
    case Tell(_, m) =>
      LastRegisteredAppend(q, m);
      assert q + [] == q;
    case TellBoth(to, m, to2, m2) =>
      var first := if c == to then [m] else [];
      LastRegisteredAppend(q, m);
      LastRegisteredAppend(q + first, m2);
      assert q + [] == q && (q + first) + [] == q + first;
      assert q + For(out, c) == (q + first) + (if c == to2 then [m2] else []);
  }

  /** The connections that stay keep their devices. */
  ghost predicate SameDevices(live: map<ConnId, Conn>, live': map<ConnId, Conn>) {
    && live'.Keys <= live.Keys
    && forall c :: c in live' ==> live'[c].device == live[c].device
  }

  /** A step that registers no device, in which the devices in `gone` go offline. */
  ghost predicate OnlyLeaves(s: State, o: Outcome, gone: set<DeviceId>) {
    && SameDevices(s.net.live, o.net.live)
    && o.net.queues == s.net.queues
    && !TellsRegistration(o.out)
    && o.net.online == s.net.online - gone
    && o.net.otp == s.net.otp - gone
    && o.db.devices.Keys <= s.db.devices.Keys
    && o.db.issuedDevices == s.db.issuedDevices
  }

  lemma KeepsWithoutRegistering(s: State, o: Outcome, gone: set<DeviceId>)
    requires Inv(s) && OnlyLeaves(s, o, gone)
    requires forall d :: d in o.net.online ==> o.net.online[d] in o.net.live
    ensures Inv(Settle(o))
  {
    var net := Settle(o).net;
    forall d | d in net.online
      ensures LastRegistered(net.queues[net.online[d]]) == Some((d, net.otp[d]))
    {
      LastRegisteredUnchanged(s.net.queues[s.net.online[d]], o.out, s.net.online[d]);
    }
  }

  lemma HandlingOnlyLeaves(s: State, c: ConnId, m: ClientMessage, n: Nonce)
    requires c in s.net.live && !m.RegisterDevice?
    ensures OnlyLeaves(s, Handle(s, c, m, n), {})
    ensures Handle(s, c, m, n).net.live.Keys == s.net.live.Keys
  {
    hide Summaries, CredentialOk, Credentials, SignUp;
    assert s.net.online - {} == s.net.online && s.net.otp - {} == s.net.otp;
    match m
    case Register(email, password) => SignUpKeepsDevices(s.db, email, Hash(password, n.salt));
    case Login(_, _) =>
    case ListDevices =>
    case RequestConnection(_, _) =>
    case Relay(_, _) =>
    case RequestTurnCredentials =>
    case SetUnattendedPassword(_, _) =>
  }

  lemma SignUpKeepsDevices(db: Db, email: string, hash: Hash)
    ensures var r := SignUp(db, email, hash); r.Some? ==>
      r.value.0.devices == db.devices && r.value.0.issuedDevices == db.issuedDevices
  {
  }

  /** The devices that an HTTP request takes offline. */
  ghost function KickedBy(r: Request, o: Outcome): set<DeviceId> {
    if (r.DeleteOwnDevice? || r.AdminDeleteDevice?) && o.status == NoContent then {r.device} else {}
  }

  /** Requests about accounts touch neither the connections nor, except by deleting, the devices. */
  lemma AccountRequestsKeepNet(s: State, cookie: Option<string>, r: Request, n: Nonce)
    requires !r.DeleteOwnDevice? && !r.AdminDeleteDevice?
    ensures var o := Serve(s, cookie, r, n);
      o.net == s.net && o.out == Silent && o.db.devices.Keys <= s.db.devices.Keys && o.db.issuedDevices == s.db.issuedDevices
  {
    hide CurrentAccount, Trim, Admins, RequireAdmin, Credentials, SetRole, SignUp, OnPostLogout;
    match r
    case PostRegister(email, password) => SignUpKeepsDevices(s.db, Trim(email), Hash(password, n.salt));
    case PostLogin(_, _) =>
    case PostLogout => LogoutKeepsDevices(s, cookie);
    case AdminCreateAccount(_, _, _) =>
    case AdminSetRole(id, role) => SetRoleKeepsDevices(s.db, id, role);
    case AdminDeleteAccount(_) =>
    case AdminSetRegistration(_) =>
  }

  lemma RemovalOnlyLeaves(s: State, d: DeviceId)
    ensures OnlyLeaves(s, RemoveDevice(s, d), {d})
    ensures RemoveDevice(s, d).net.live == s.net.live
  {
  }

  /** A request to delete a device either removes it or changes nothing. */
  lemma RemovesOrRefuses(s: State, cookie: Option<string>, r: Request, n: Nonce)
    requires r.DeleteOwnDevice? || r.AdminDeleteDevice?
    ensures var o := Serve(s, cookie, r, n);
      o == if o.status == NoContent then RemoveDevice(s, r.device) else Reply(s, o.status)
  {
    hide CurrentAccount, RequireAdmin;
  }

  lemma ServingOnlyLeaves(s: State, cookie: Option<string>, r: Request, n: Nonce)
    ensures OnlyLeaves(s, Serve(s, cookie, r, n), KickedBy(r, Serve(s, cookie, r, n)))
    ensures Serve(s, cookie, r, n).net.live == s.net.live
  {
    hide Serve, RemoveDevice;
    assert s.net.online - {} == s.net.online && s.net.otp - {} == s.net.otp;
    if r.DeleteOwnDevice? || r.AdminDeleteDevice? {
      RemovesOrRefuses(s, cookie, r, n);
      RemovalOnlyLeaves(s, r.device);
    } else {
      AccountRequestsKeepNet(s, cookie, r, n);
    }
  }

  lemma LogoutKeepsDevices(s: State, cookie: Option<string>)
    ensures var o := OnPostLogout(s, cookie);
      o.net == s.net && o.db.devices == s.db.devices && o.db.issuedDevices == s.db.issuedDevices && o.out == Silent
  {
  }

  lemma SetRoleKeepsDevices(db: Db, id: AccountId, role: Role)
    ensures SetRole(db, id, role).devices == db.devices && SetRole(db, id, role).issuedDevices == db.issuedDevices
  {
  }

  /** A new id is on no other connection, so exactly one channel learns about it. */
  ghost predicate Announces(s: State, c: ConnId, d: DeviceId) {
    && c in s.net.live
    && if s.net.live[c].device.Some? then s.net.live[c].device.value == d else d !in s.db.issuedDevices
  }

  ghost function Announced(s: State, db: Db, c: ConnId, d: DeviceId, otp: string): State
    requires c in s.net.live
  {
    Settle(Announce(db, s.net.(live := s.net.live[c := s.net.live[c].(device := Some(d))]), c, d, otp))
  }

  lemma AnnouncedOwners(s: State, db: Db, c: ConnId, d: DeviceId, otp: string)
    requires Inv(s) && Announces(s, c, d)
    ensures OnlineIsLive(Announced(s, db, c, d, otp).net)
    ensures OneOwnerPerDevice(Announced(s, db, c, d, otp).net)
  {
    hide OtpIsLatest;
  }

  /** Every other online device is on another connection, whose channel is left alone. */
  lemma OthersUndisturbed(s: State, db: Db, c: ConnId, d: DeviceId, otp: string, d': DeviceId)
    requires Inv(s) && Announces(s, c, d) && d' in s.net.online && d' != d
    ensures s.net.online[d'] in s.net.queues
    ensures Announced(s, db, c, d, otp).net.queues[s.net.online[d']] == s.net.queues[s.net.online[d']]
  {
    hide OneOwnerPerDevice, OtpIsLatest, OnlyIssued;
    assert s.net.online[d'] != c;
    var q := s.net.queues[s.net.online[d']];
    assert q + [] == q;
  }

  lemma AnnouncedOtp(s: State, db: Db, c: ConnId, d: DeviceId, otp: string)
    requires Inv(s) && Announces(s, c, d)
    requires OnlineIsLive(Announced(s, db, c, d, otp).net)
    ensures Announced(s, db, c, d, otp).net.live.Keys <= Announced(s, db, c, d, otp).net.queues.Keys
    ensures OtpIsLatest(Announced(s, db, c, d, otp).net)
  {
    hide OneOwnerPerDevice, OnlyIssued, OnlineIsLive, LastRegistered;
    var net := Announced(s, db, c, d, otp).net;
    LastRegisteredAppend(s.net.queues[c], DeviceRegistered(d, otp));
    forall d' | d' in net.online
      ensures net.online[d'] in net.queues && LastRegistered(net.queues[net.online[d']]) == Some((d', net.otp[d']))
    {
      if d' != d { OthersUndisturbed(s, db, c, d, otp, d'); }
    }
  }

  lemma RegisteringKeeps(s: State, c: ConnId, name: string, n: Nonce)
    requires Inv(s) && c in s.net.live && Fresh(s, n)
    ensures Inv(Settle(OnRegisterDevice(s, c, name, n)))
  {
    hide OneOwnerPerDevice, OtpIsLatest;
    var o := OnRegisterDevice(s, c, name, n);
    if !o.out.msg.DeviceRegistered? {
      assert s.net.online - {} == s.net.online && s.net.otp - {} == s.net.otp;
      KeepsWithoutRegistering(s, o, {});
    } else {
      var d := o.out.msg.device;
      assert s.net.live[c].device == Some(d) ==> s.net.live[c := s.net.live[c].(device := Some(d))] == s.net.live;
      AnnouncedOwners(s, o.db, c, d, n.otp);
      AnnouncedOtp(s, o.db, c, d, n.otp);
    }
  }

  lemma InvStep(s: State, e: Event)
    requires Inv(s) && Enabled(s, e)
    ensures Inv(Step(s, e))
  {
    hide Handle, Serve, OneOwnerPerDevice, OnlyIssued;
    match e
    case Connect(c) => ConnectingKeeps(s, c);
    case Receive(c, m, n) =>
      if m.RegisterDevice? {
        RegisteringKeeps(s, c, m.name, n);
        HandlesRegisterDevice(s, c, m, n);
      } else {
        HandlingOnlyLeaves(s, c, m, n);
        KeepsWithoutRegistering(s, Handle(s, c, m, n), {});
      }
    case ReceiveGarbage(c) =>
      assert s.net.online - {} == s.net.online && s.net.otp - {} == s.net.otp;
      KeepsWithoutRegistering(s, React(s, e), {});
    case Disconnect(c) =>
      var gone := match s.net.live[c].device case None => {} case Some(d) => {d};
      KeepsWithoutRegistering(s, React(s, e), gone);
    case Http(cookie, r, n) =>
      ServingOnlyLeaves(s, cookie, r, n);
      KeepsWithoutRegistering(s, Serve(s, cookie, r, n), KickedBy(r, Serve(s, cookie, r, n)));
  }

  lemma HandlesRegisterDevice(s: State, c: ConnId, m: ClientMessage, n: Nonce)
    requires c in s.net.live && m.RegisterDevice?
    ensures Handle(s, c, m, n) == OnRegisterDevice(s, c, m.name, n)
  {
    hide OnRegisterDevice;
  }

  lemma ConnectingKeeps(s: State, c: ConnId)
    requires Inv(s) && Enabled(s, Connect(c))
    ensures Inv(Step(s, Connect(c)))
  {
    var net := Step(s, Connect(c)).net;
    forall d | d in net.online
      ensures LastRegistered(net.queues[net.online[d]]) == Some((d, net.otp[d]))
    {
      LastRegisteredUnchanged(s.net.queues[s.net.online[d]], Silent, s.net.online[d]);
    }
  }

  /**
   * In every state of every run from `s`, each online device is on a live connection that recorded it, no two
   * connections hold one device, and its one-time password is the one last sent on that connection.
   */
  lemma {:induction false} InvAfter(s: State, es: seq<Event>)
    requires Inv(s) && Run(s, es)
    ensures Inv(After(s, es))
  {
    hide Inv, Step, Enabled;
    if es != [] {
      InvAfter(s, es[..|es| - 1]);
      InvStep(After(s, es[..|es| - 1]), es[|es| - 1]);
    }
  }

  lemma OnlineDevices(es: seq<Event>)
    requires Run(INIT, es)
    ensures Inv(After(INIT, es))
  {
    assert Inv(INIT);
    InvAfter(INIT, es);
  }

  // ----- Deleted devices -----

  /** An id that was used and has no row any more. */
  predicate Retired(s: State, d: DeviceId) {
    d in s.db.issuedDevices && d !in s.db.devices
  }

  lemma IssuedStep(s: State, e: Event, d: DeviceId)
    requires d in s.db.issuedDevices && Enabled(s, e)
    ensures d in Step(s, e).db.issuedDevices
  {
    hide Serve;
    match e
    case Receive(c, m, n) =>
      if !m.RegisterDevice? {
        hide Handle;
        HandlingOnlyLeaves(s, c, m, n);
      }
    case Http(cookie, r, n) => ServingOnlyLeaves(s, cookie, r, n);
    case _ =>
  }

  lemma RetiredStep(s: State, e: Event, d: DeviceId)
    requires Retired(s, d) && Enabled(s, e)
    ensures Retired(Step(s, e), d)
    ensures e.Receive? && e.m.RequestConnection? && e.m.target == d ==> Step(s, e).net.sessions == s.net.sessions
  {
    hide Serve, CredentialOk;
    match e
    case Receive(c, m, n) =>
      if m.RegisterDevice? {
      } else {
        HandlingOnlyLeaves(s, c, m, n);
      }
    case Http(cookie, r, n) => ServingOnlyLeaves(s, cookie, r, n);
    case _ =>
  }

  lemma {:induction false} RetiredAfter(s: State, es: seq<Event>, d: DeviceId)
    requires Retired(s, d) && Run(s, es)
    ensures Retired(After(s, es), d)
  {
    hide Retired, Step, Enabled;
    if es != [] {
      RetiredAfter(s, es[..|es| - 1], d);
      RetiredStep(After(s, es[..|es| - 1]), es[|es| - 1], d);
    }
  }

  /** Every accepted deletion retires the device: by its owner, by an admin, or with its account. */
  lemma DeletionRetires(s: State, cookie: Option<string>, r: Request, n: Nonce, d: DeviceId)
    requires Inv(s) && Fresh(s, n) && d in s.db.devices
    requires Serve(s, cookie, r, n).status == NoContent
    requires || ((r.DeleteOwnDevice? || r.AdminDeleteDevice?) && r.device == d)
             || (r.AdminDeleteAccount? && r.account == s.db.devices[d].owner)
    ensures Retired(Step(s, Http(cookie, r, n)), d)
  {
    if r.AdminDeleteAccount? {
      hide RequireAdmin, CurrentAccount, Admins;
    } else {
      hide Serve, Inv;
      assert d in s.db.issuedDevices by { assert OnlyIssued(s); }
      RemovesOrRefuses(s, cookie, r, n);
    }
  }

  /** Once a device row is gone, no request in any continuation of the run opens a session for its id. */
  lemma DeletedDeviceNeverPaired(s: State, es: seq<Event>, d: DeviceId, k: nat)
    requires Retired(s, d) && Run(s, es) && k < |es|
    requires es[k].Receive? && es[k].m.RequestConnection? && es[k].m.target == d
    ensures Run(s, es[..k]) && Run(s, es[..k + 1])
    ensures After(s, es[..k + 1]).net.sessions == After(s, es[..k]).net.sessions
  {
    hide Step, Enabled;
    RunPrefix(s, es, k);
    RunPrefix(s, es, k + 1);
    assert es[..k + 1][..k] == es[..k];
    RetiredAfter(s, es[..k], d);
    RetiredStep(After(s, es[..k]), es[k], d);
  }
}
