/** Runs that show the hypotheses of the other modules met: a host and a controller that get all the way. */
module Scenario {
  import opened Text
  import opened Protocol
  import opened Signaling
  import Presence
  import Relaying
  import Withdrawal

  // ----- The server's side: connection 1 registers device 7, connection 2 logs in to the same account -----

  function Draw(x: SessionId): Nonce { Nonce(7, x, "", 0, "") }

  const ONE_ACCOUNT := Db(map[1 := Account("", Hash("", 0), Admin)], map["" := 1], 2, map[], map[], Some(false), {}, {})
  const ONE_DEVICE := ONE_ACCOUNT.(devices := map[7 := Device(1, "", None)], issuedDevices := {7})

  /** Connection 1 alone. */
  function One(db: Db, a: Conn, q: seq<ServerMessage>): State {
    State(db, Net(map[1 := a], map[1 := q], map[], map[], map[]))
  }

  const HOST_READY := [AuthOk(""), DeviceRegistered(7, "")]
  const HOST := Conn(Some(1), Some(7))
  const REGISTERED := State(ONE_DEVICE, Net(map[1 := HOST], map[1 := HOST_READY], map[7 := 1], map[7 := ""], map[]))

  /** Both connections, with what their channels carry. */
  function Both(b: Conn, q1: seq<ServerMessage>, q2: seq<ServerMessage>, xs: map<SessionId, Peers>): State {
    State(ONE_DEVICE, Net(map[1 := HOST, 2 := b], map[1 := q1, 2 := q2], map[7 := 1], map[7 := ""], xs))
  }

  ghost predicate Goes(s: State, e: Event, s': State) {
    Enabled(s, e) && Step(s, e) == s'
  }

  lemma HostSignsUp()
    ensures Goes(INIT, Connect(1), One(EMPTY_DB, Conn(None, None), []))
    ensures Goes(One(EMPTY_DB, Conn(None, None), []), Receive(1, Register("", ""), Draw(0)), One(ONE_ACCOUNT, Conn(Some(1), None), [AuthOk("")]))
  {
    hide Post;
    PostNone(map[1 := []]);
    PostOne(map[1 := []], 1, AuthOk(""));
    assert [] + [AuthOk("")] == [AuthOk("")];
    assert map[1 := Conn(None, None)][1 := Conn(Some(1), None)] == map[1 := Conn(Some(1), None)];
    assert SignUp(EMPTY_DB, "", Hash("", 0)) == Some((ONE_ACCOUNT, 1));
  }

  lemma HostRegisters()
    ensures Goes(One(ONE_ACCOUNT, Conn(Some(1), None), [AuthOk("")]), Receive(1, RegisterDevice(""), Draw(0)), REGISTERED)
    ensures Goes(REGISTERED, Connect(2), Both(Conn(None, None), HOST_READY, [], map[]))
  {
    hide Post;
    PostOne(map[1 := [AuthOk("")]], 1, DeviceRegistered(7, ""));
    assert [AuthOk("")] + [DeviceRegistered(7, "")] == HOST_READY;
    assert map[1 := GUEST][1 := HOST] == map[1 := HOST];
    assert ONE_ACCOUNT.devices[7 := Device(1, "", None)] == ONE_DEVICE.devices && ONE_ACCOUNT.issuedDevices + {7} == {7};
    assert CreateDevice(ONE_ACCOUNT, 7, 1, "") == Some(ONE_DEVICE);
    PostNone(map[1 := HOST_READY, 2 := []]);
  }

  const LOGGED_IN := [AuthError(RegistrationDisabled), AuthOk("")]
  const GUEST := Conn(Some(1), None)

  lemma ControllerLogsIn(q: seq<ServerMessage>)
    ensures Goes(Both(Conn(None, None), q, [], map[]), Receive(2, Register("", ""), Draw(0)),
                 Both(Conn(None, None), q, [AuthError(RegistrationDisabled)], map[]))
    ensures Goes(Both(Conn(None, None), q, [AuthError(RegistrationDisabled)], map[]), Receive(2, Login("", ""), Draw(0)),
                 Both(GUEST, q, LOGGED_IN, map[]))
  {
    hide Post;
    PostOne(map[1 := q, 2 := []], 2, AuthError(RegistrationDisabled));
    PostOne(map[1 := q, 2 := [AuthError(RegistrationDisabled)]], 2, AuthOk(""));
    assert [] + [AuthError(RegistrationDisabled)] == [AuthError(RegistrationDisabled)];
    assert [AuthError(RegistrationDisabled)] + [AuthOk("")] == LOGGED_IN;
    assert map[1 := HOST, 2 := Conn(None, None)][2 := GUEST] == map[1 := HOST, 2 := GUEST];
    assert Credentials(ONE_DEVICE, "", "") == Some(1);
  }

  lemma AsksForTurn(b: Conn, q1: seq<ServerMessage>, q2: seq<ServerMessage>, xs: map<SessionId, Peers>)
    requires 0 !in xs
    ensures Goes(Both(b, q1, q2, xs), Receive(1, RequestTurnCredentials, Draw(0)), Both(b, q1 + [TurnCredentials(1)], q2, xs))
    ensures Goes(Both(b, q1, q2, xs), Receive(2, RequestTurnCredentials, Draw(0)), Both(b, q1, q2 + [TurnCredentials(2)], xs))
  {
    hide Post;
    PostOne(map[1 := q1, 2 := q2], 1, TurnCredentials(1));
    PostOne(map[1 := q1, 2 := q2], 2, TurnCredentials(2));
  }

  lemma Pairs(q1: seq<ServerMessage>, q2: seq<ServerMessage>)
    ensures Goes(Both(GUEST, q1, q2, map[]), Withdrawal.Ask(2, 7, "", Draw(1)),
                 Both(GUEST, q1 + [IncomingConnection(1)], q2 + [ConnectionEstablished(1, 7)], map[1 := Peers(2, 1)]))
  {
    hide Post;
    PostTwo(map[1 := q1, 2 := q2], 1, IncomingConnection(1), 2, ConnectionEstablished(1, 7));
  }

  lemma Relays(q1: seq<ServerMessage>, q2: seq<ServerMessage>, signal: Signal)
    ensures Goes(Both(GUEST, q1, q2, map[1 := Peers(2, 1)]), Receive(2, Relay(1, signal), Draw(0)),
                 Both(GUEST, q1 + [Relayed(1, signal)], q2, map[1 := Peers(2, 1)]))
    ensures Goes(Both(GUEST, q1, q2, map[1 := Peers(2, 1)]), Receive(1, Relay(1, signal), Draw(0)),
                 Both(GUEST, q1, q2 + [Relayed(1, signal)], map[1 := Peers(2, 1)]))
  {
    hide Post;
    PostOne(map[1 := q1, 2 := q2], 1, Relayed(1, signal));
    PostOne(map[1 := q1, 2 := q2], 2, Relayed(1, signal));
  }

  // ----- A one-time password used twice -----

  ghost predicate Reached(s: State) { exists es :: Run(INIT, es) && After(INIT, es) == s }

  lemma Onward(s: State, e: Event, s': State)
    requires Reached(s) && Goes(s, e, s')
    ensures Reached(s')
  {
    hide Run, After, Step, Enabled;
    var es :| Run(INIT, es) && After(INIT, es) == s;
    Extend(INIT, es, e);
  }

  lemma Start()
    ensures Reached(INIT)
  {
    assert Run(INIT, []) && After(INIT, []) == INIT;
  }

  lemma GuestReached()
    ensures Reached(Both(GUEST, HOST_READY, LOGGED_IN, map[]))
  {
    hide Reached, Goes, Both, One;
    Start();
    HostSignsUp();
    HostRegisters();
    ControllerLogsIn(HOST_READY);
    Onward(INIT, Connect(1), One(EMPTY_DB, Conn(None, None), []));
    Onward(One(EMPTY_DB, Conn(None, None), []), Receive(1, Register("", ""), Draw(0)), One(ONE_ACCOUNT, GUEST, [AuthOk("")]));
    Onward(One(ONE_ACCOUNT, GUEST, [AuthOk("")]), Receive(1, RegisterDevice(""), Draw(0)), REGISTERED);
    Onward(REGISTERED, Connect(2), Both(Conn(None, None), HOST_READY, [], map[]));
    Onward(Both(Conn(None, None), HOST_READY, [], map[]), Receive(2, Register("", ""), Draw(0)),
           Both(Conn(None, None), HOST_READY, [AuthError(RegistrationDisabled)], map[]));
    Onward(Both(Conn(None, None), HOST_READY, [AuthError(RegistrationDisabled)], map[]), Receive(2, Login("", ""), Draw(0)),
           Both(GUEST, HOST_READY, LOGGED_IN, map[]));
  }

  /** A run in which a password is presented twice, the second time after it opened a session, and opens two sessions. */
  lemma OneTimePasswordReused()
    ensures exists es ::
      && Run(INIT, es) && 1 in After(INIT, es).net.sessions && 2 in After(INIT, es).net.sessions
      && |es| >= 2 && es[|es| - 2] == Withdrawal.Ask(2, 7, "", Draw(1)) && es[|es| - 1] == Withdrawal.Ask(2, 7, "", Draw(2))
  {
    hide Run, After, Step, Presence.Inv;
    GuestReached();
    var s := Both(GUEST, HOST_READY, LOGGED_IN, map[]);
    var es :| Run(INIT, es) && After(INIT, es) == s;
    var e, e2 := Withdrawal.Ask(2, 7, "", Draw(1)), Withdrawal.Ask(2, 7, "", Draw(2));
    Presence.OnlineDevices(es);
    Withdrawal.PasswordOpensTwice(s, 2, 7, "", Draw(1), Draw(2));
    Extend(INIT, es, e);
    Extend(INIT, es + [e], e2);
    Presence.OnlineDevices(es + [e]);
    Relaying.SessionStep(Step(s, e), e2, 1);
    var all := es + [e] + [e2];
    assert all[|all| - 2] == e && all[|all| - 1] == e2;
  }
}
