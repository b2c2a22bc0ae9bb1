/** What a socket message is answered with, and that nothing else happens. */
module Replies {
  import opened Text
  import opened Protocol
  import opened Signaling
  import Presence

  /** The state after `c` alone was sent `m`. */
  function Sent(s: State, c: ConnId, m: ServerMessage): State
    requires c in s.net.queues
  {
    s.(net := s.net.(queues := s.net.queues[c := s.net.queues[c] + [m]]))
  }

  // ----- Pairing -----

  predicate KnowsPassword(row: Device, credential: Credential) {
    credential.UnattendedPassword? && row.unattended.Some? && row.unattended.value.password == credential.password
  }

  /**
   * A refused pairing request changes nothing, and its error names the first thing that is wrong. Whoever knows the
   * unattended password is told that the device is offline; with a one-time password nobody ever is.
   */
  lemma PairingRefused(s: State, c: ConnId, d: DeviceId, credential: Credential, n: Nonce)
    requires Presence.Inv(s) && Enabled(s, Receive(c, RequestConnection(d, credential), n))
    ensures var s' := Step(s, Receive(c, RequestConnection(d, credential), n));
      n.session !in s'.net.sessions ==> s' == Sent(s, c, Error(
        if s.net.live[c].account == None then NotAuthenticated
        else if d !in s.db.devices then UnknownDevice
        else if KnowsPassword(s.db.devices[d], credential) then DeviceOffline
        else InvalidCredential))
  {
    hide Presence.OneOwnerPerDevice, Presence.OnlyIssued, Post;
    var o := OnRequestConnection(s, c, d, credential, n);
    if o.out.Tell? { PostOne(s.net.queues, c, o.out.msg); }
  }

  /** An accepted one opens exactly its session and tells the host first and then the requester. */
  lemma PairingAccepted(s: State, c: ConnId, d: DeviceId, credential: Credential, n: Nonce)
    requires Presence.Inv(s) && Enabled(s, Receive(c, RequestConnection(d, credential), n))
    requires n.session in Step(s, Receive(c, RequestConnection(d, credential), n)).net.sessions
    ensures d in s.net.online && s.net.online[d] in s.net.queues
    ensures var s' := Step(s, Receive(c, RequestConnection(d, credential), n)); var x, host := n.session, s.net.online[d];
      s' == Sent(Sent(s.(net := s.net.(sessions := s.net.sessions[x := Peers(c, host)])), host, IncomingConnection(x)),
                 c, ConnectionEstablished(x, d))
  {
    hide Presence.OneOwnerPerDevice, Presence.OnlyIssued, Presence.OtpIsLatest, CredentialOk, Post;
    PostTwo(s.net.queues, s.net.online[d], IncomingConnection(n.session), c, ConnectionEstablished(n.session, d));
  }

  // ----- Relaying -----

  /** A signal goes to the other endpoint of its session and nowhere else, or the sender is told what is wrong. */
  lemma RelayReply(s: State, c: ConnId, x: SessionId, signal: Signal, n: Nonce)
    requires Presence.Inv(s) && Enabled(s, Receive(c, Relay(x, signal), n))
    ensures var s' := Step(s, Receive(c, Relay(x, signal), n));
      if x !in s.net.sessions then s' == Sent(s, c, Error(UnknownSession))
      else if c != s.net.sessions[x].a && c != s.net.sessions[x].b then s' == Sent(s, c, Error(NotPartOfSession))
      else
        var other := if c == s.net.sessions[x].a then s.net.sessions[x].b else s.net.sessions[x].a;
        if other !in s.net.live then s' == Sent(s, c, Error(PeerDisconnected)) else s' == Sent(s, other, Relayed(x, signal))
  {
    hide Presence.OneOwnerPerDevice, Presence.OnlyIssued, Presence.OtpIsLatest, Post;
    var o := OnRelay(s, c, x, signal);
    PostOne(s.net.queues, o.out.to, o.out.msg);
  }

  // ----- Registering and listing devices -----

  /**
   * Registering stores one row, owned by the sender's account, the first time, and none later; either way the device is
   * online on this connection with the new password, and only this connection learns it.
   */
  lemma RegisterDeviceReply(s: State, c: ConnId, name: string, n: Nonce)
    requires Presence.Inv(s) && Enabled(s, Receive(c, RegisterDevice(name), n))
    ensures var s' := Step(s, Receive(c, RegisterDevice(name), n)); var conn := s.net.live[c];
      match conn.account
      case None => s' == Sent(s, c, Error(NotAuthenticated))
      case Some(id) =>
        if conn.device == None && (n.device in s.db.devices || id !in s.db.accounts) then s' == Sent(s, c, Error(DatabaseError))
        else
          var d := if conn.device.Some? then conn.device.value else n.device;
          && s'.db.devices == (if conn.device.Some? then s.db.devices else s.db.devices[d := Device(id, name, None)])
          && s'.db == s.db.(devices := s'.db.devices, issuedDevices := s'.db.issuedDevices)
          && s'.net == Sent(s, c, DeviceRegistered(d, n.otp)).net.(
               live := s.net.live[c := Conn(Some(id), Some(d))], online := s.net.online[d := c], otp := s.net.otp[d := n.otp])
  {
    hide Presence.OneOwnerPerDevice, Presence.OtpIsLatest, Post;
    var o := OnRegisterDevice(s, c, name, n);
    PostOne(s.net.queues, c, o.out.msg);
    if s.net.live[c].device.Some? { assert s.net.live[c := Conn(s.net.live[c].account, s.net.live[c].device)] == s.net.live; }
  }

  /** The list holds exactly one entry for each device of the sender's account, with its name, whether it is on a live connection, and whether a password is set. */
  lemma ListReply(s: State, c: ConnId, n: Nonce)
    requires Presence.Inv(s) && Enabled(s, Receive(c, ListDevices, n))
    ensures var s' := Step(s, Receive(c, ListDevices, n));
      match s.net.live[c].account
      case None => s' == Sent(s, c, Error(NotAuthenticated))
      case Some(id) => exists list: set<DeviceSummary> ::
        && s' == Sent(s, c, DeviceList(list))
        && (forall d :: d in s.db.devices && s.db.devices[d].owner == id ==> exists e: DeviceSummary :: e in list && e.device == d)
        && (forall e: DeviceSummary, e': DeviceSummary :: e in list && e' in list && e.device == e'.device ==> e == e')
        && (forall e: DeviceSummary :: e in list ==> Listed(s, id, e))
  {
    hide Presence.OneOwnerPerDevice, Presence.OnlyIssued, Presence.OtpIsLatest, Post;
    match s.net.live[c].account
    case None => PostOne(s.net.queues, c, Error(NotAuthenticated));
    case Some(id) =>
      var list := Summaries(s, id);
      PostOne(s.net.queues, c, DeviceList(list));
      forall d | d in s.db.devices && s.db.devices[d].owner == id ensures exists e: DeviceSummary :: e in list && e.device == d {
        assert DeviceSummary(d, s.db.devices[d].name, d in s.net.online, s.db.devices[d].unattended.Some?) in list;
      }
      forall e: DeviceSummary | e in list ensures Listed(s, id, e) {}
      assert Step(s, Receive(c, ListDevices, n)) == Sent(s, c, DeviceList(list));
  }

  ghost predicate Listed(s: State, id: AccountId, e: DeviceSummary) {
    && e.device in s.db.devices && s.db.devices[e.device].owner == id && e.name == s.db.devices[e.device].name
    && (e.online <==> e.device in s.net.online && s.net.online[e.device] in s.net.live)
    && (e.unattendedAccess <==> s.db.devices[e.device].unattended != None)
  }

  // ----- The rest -----

  lemma OtherReplies(s: State, c: ConnId, n: Nonce)
    requires Presence.Inv(s) && c in s.net.live && Fresh(s, n)
    ensures Step(s, Receive(c, RequestTurnCredentials, n)) == Sent(s, c, TurnCredentials(c))
    ensures Step(s, ReceiveGarbage(c)) == Sent(s, c, Error(MalformedMessage))
  {
    hide Presence.OneOwnerPerDevice, Presence.OnlyIssued, Presence.OtpIsLatest, Presence.OnlineIsLive, Post;
    PostOne(s.net.queues, c, TurnCredentials(c));
    PostOne(s.net.queues, c, Error(MalformedMessage));
  }

  /** A connection that closes takes its own device offline and nothing else: rows, sessions and channels stay. */
  lemma ClosingOutcome(s: State, c: ConnId)
    requires Presence.Inv(s) && c in s.net.live
    ensures var s' := Step(s, Disconnect(c));
      && s'.db == s.db && s'.net.sessions == s.net.sessions && s'.net.queues == s.net.queues && s'.net.live == s.net.live - {c}
      && (forall d :: d in s'.net.online <==> d in s.net.online && s.net.online[d] != c)
      && (forall d :: d in s'.net.online ==> s'.net.online[d] == s.net.online[d] && s'.net.otp[d] == s.net.otp[d])
  {
    hide Post;
    PostNone(s.net.queues);
    var s' := Step(s, Disconnect(c));
    forall d ensures d in s'.net.online <==> d in s.net.online && s.net.online[d] != c {
      if d in s.net.online && s.net.live[c].device == Some(d) { assert s.net.live[s.net.online[d]].device == Some(d); }
    }
    Presence.InvStep(s, Disconnect(c));
  }
}
