/** A run of host, controller and server that ends with an accepted answer. */
module Handshake {
  import opened Text
  import opened Protocol
  import opened Signaling
  import opened Scenario
  import Clients
  import Negotiation
  import Relaying
  import Stall

  const PLAN := Clients.Plan("", "", "", 7, OneTimePassword(""))
  const LOGIN := [Register("", ""), Login("", ""), RequestTurnCredentials]
  const REQUESTED := LOGIN + [RequestConnection(7, OneTimePassword(""))]
  const HOSTING := [Register("", ""), RegisterDevice("")]

  ghost predicate Got(y: Negotiation.System) { exists ms :: Negotiation.Run(ms) && Negotiation.After(ms) == y }

  lemma Moves(y: Negotiation.System, m: Negotiation.Move)
    requires Got(y) && Negotiation.Possible(y, m)
    ensures Got(Negotiation.Next(y, m))
  {
    hide Negotiation.Next, Negotiation.Possible;
    var ms :| Negotiation.Run(ms) && Negotiation.After(ms) == y;
    Negotiation.Extend(ms, m);
  }

  /** The host alone, and with the controller. */
  function Solo(s: State, h: Clients.Client): Negotiation.System { Negotiation.System(s, map[1 := h]) }
  function Duo(s: State, h: Clients.Client, k: Clients.Client): Negotiation.System { Negotiation.System(s, map[1 := h, 2 := k]) }

  lemma Delivers(y: Negotiation.System, c: ConnId, n: Nonce, s': State)
    requires Got(y) && c in y.clients && y.clients[c].delivered < |y.clients[c].sent|
    requires Goes(y.server, Receive(c, y.clients[c].sent[y.clients[c].delivered], n), s')
    ensures Got(Negotiation.System(s', y.clients[c := y.clients[c].(delivered := y.clients[c].delivered + 1)]))
  {
    hide Got, Step, Enabled;
    Moves(y, Negotiation.Deliver(c, n));
  }

  lemma Acts(y: Negotiation.System, c: ConnId, sdp: string)
    requires Got(y) && c in y.clients && c in y.server.net.queues && y.clients[c].read < |y.server.net.queues[c]|
    ensures var cl := y.clients[c];
      Got(y.(clients := y.clients[c := Clients.React(cl, y.server.net.queues[c][cl.read], sdp, true).(read := cl.read + 1)]))
  {
    hide Got, Clients.React;
    Moves(y, Negotiation.Act(c, sdp, true));
  }

  lemma HostDelivers(s: State, h: Clients.Client, k: Clients.Client, n: Nonce, s': State)
    requires Got(Duo(s, h, k)) && h.delivered < |h.sent| && Goes(s, Receive(1, h.sent[h.delivered], n), s')
    ensures Got(Duo(s', h.(delivered := h.delivered + 1), k))
  {
    hide Got, Goes;
    Delivers(Duo(s, h, k), 1, n, s');
    var h' := h.(delivered := h.delivered + 1);
    assert map[1 := h, 2 := k][1 := h'] == map[1 := h', 2 := k];
  }

  lemma HostActs(s: State, h: Clients.Client, k: Clients.Client, m: ServerMessage, sdp: string)
    requires Got(Duo(s, h, k)) && 1 in s.net.queues && h.read < |s.net.queues[1]| && s.net.queues[1][h.read] == m
    ensures Got(Duo(s, Clients.React(h, m, sdp, true).(read := h.read + 1), k))
  {
    hide Got, Clients.React;
    Acts(Duo(s, h, k), 1, sdp);
    var h' := Clients.React(h, m, sdp, true).(read := h.read + 1);
    assert map[1 := h, 2 := k][1 := h'] == map[1 := h', 2 := k];
  }

  lemma ControllerDelivers(s: State, h: Clients.Client, k: Clients.Client, n: Nonce, s': State)
    requires Got(Duo(s, h, k)) && k.delivered < |k.sent| && Goes(s, Receive(2, k.sent[k.delivered], n), s')
    ensures Got(Duo(s', h, k.(delivered := k.delivered + 1)))
  {
    hide Got, Goes;
    Delivers(Duo(s, h, k), 2, n, s');
    var k' := k.(delivered := k.delivered + 1);
    assert map[1 := h, 2 := k][2 := k'] == map[1 := h, 2 := k'];
  }

  lemma ControllerActs(s: State, h: Clients.Client, k: Clients.Client, m: ServerMessage, sdp: string)
    requires Got(Duo(s, h, k)) && 2 in s.net.queues && k.read < |s.net.queues[2]| && s.net.queues[2][k.read] == m
    ensures Got(Duo(s, h, Clients.React(k, m, sdp, true).(read := k.read + 1)))
  {
    hide Got, Clients.React;
    Acts(Duo(s, h, k), 2, sdp);
    var k' := Clients.React(k, m, sdp, true).(read := k.read + 1);
    assert map[1 := h, 2 := k][2 := k'] == map[1 := h, 2 := k'];
  }

  // ----- The clients at the turning points -----

  function HostAt(phase: Clients.Phase, session: Option<SessionId>, sent: seq<ClientMessage>, delivered: nat, read: nat): Clients.Client {
    Clients.Client(Clients.Host, PLAN, phase, session, None, None, [], sent, delivered, read)
  }

  function ControllerAt(phase: Clients.Phase, sent: seq<ClientMessage>, delivered: nat, read: nat): Clients.Client {
    Clients.Client(Clients.Controller, PLAN, phase, None, None, None, [], sent, delivered, read)
  }

  const SERVING := HostAt(Clients.Serving, None, HOSTING, 2, 2)

  lemma HostServes()
    ensures Got(Solo(REGISTERED, SERVING))
  {
    hide Got, Goes;
    HostSignsUp();
    HostRegisters();
    var empty, joined := One(EMPTY_DB, Conn(None, None), []), One(ONE_ACCOUNT, GUEST, [AuthOk("")]);
    HostLaunches();
    var h := Clients.Launch(Clients.Host, PLAN);
    Delivers(Solo(empty, h), 1, Draw(0), joined);
    assert map[1 := h][1 := h.(delivered := 1)] == map[1 := h.(delivered := 1)];
    Acts(Solo(joined, h.(delivered := 1)), 1, "");
    var h2 := HostAt(Clients.AwaitingDevice, None, HOSTING, 1, 1);
    assert map[1 := h.(delivered := 1)][1 := h2] == map[1 := h2];
    assert [Register("", "")] + [RegisterDevice("")] == HOSTING;
    Delivers(Solo(joined, h2), 1, Draw(0), REGISTERED);
    assert map[1 := h2][1 := h2.(delivered := 2)] == map[1 := h2.(delivered := 2)];
    Acts(Solo(REGISTERED, h2.(delivered := 2)), 1, "");
    assert map[1 := h2.(delivered := 2)][1 := SERVING] == map[1 := SERVING];
  }

  lemma HostLaunches()
    ensures Got(Solo(One(EMPTY_DB, Conn(None, None), []), Clients.Launch(Clients.Host, PLAN)))
  {
    HostSignsUp();
    assert Negotiation.Run([]) && Negotiation.After([]) == Negotiation.START;
    assert Got(Negotiation.START);
    hide Got, Step, Enabled;
    Moves(Negotiation.START, Negotiation.Launches(1, Clients.Host, PLAN));
    assert map[][1 := Clients.Launch(Clients.Host, PLAN)] == map[1 := Clients.Launch(Clients.Host, PLAN)];
  }

  const GREETED := HOST_READY + [IncomingConnection(1)]
  const ADMITTED := LOGGED_IN + [TurnCredentials(2)]

  lemma ControllerLaunches()
    ensures Got(Duo(Both(Conn(None, None), HOST_READY, [], map[]), SERVING, Clients.Launch(Clients.Controller, PLAN)))
  {
    HostServes();
    HostRegisters();
    hide Got, Step, Enabled;
    Moves(Solo(REGISTERED, SERVING), Negotiation.Launches(2, Clients.Controller, PLAN));
    var k := Clients.Launch(Clients.Controller, PLAN);
    assert map[1 := SERVING][2 := k] == map[1 := SERVING, 2 := k];
  }

  lemma ControllerAdmitted()
    ensures Got(Duo(Both(GUEST, HOST_READY, ADMITTED, map[]), SERVING, ControllerAt(Clients.AwaitingSession, REQUESTED, 3, 3)))
  {
    hide Got, Goes, Both;
    ControllerLaunches();
    ControllerLogsIn(HOST_READY);
    var refused := [AuthError(RegistrationDisabled)];
    var out := Both(Conn(None, None), HOST_READY, [], map[]);
    BothQueues(Conn(None, None), HOST_READY, refused, map[]);
    BothQueues(GUEST, HOST_READY, LOGGED_IN, map[]);
    BothQueues(GUEST, HOST_READY, ADMITTED, map[]);
    ControllerDelivers(out, SERVING, Clients.Launch(Clients.Controller, PLAN), Draw(0), Both(Conn(None, None), HOST_READY, refused, map[]));
    ControllerActs(Both(Conn(None, None), HOST_READY, refused, map[]), SERVING, ControllerAt(Clients.SigningUp, [Register("", "")], 1, 0),
                   AuthError(RegistrationDisabled), "");
    assert [Register("", "")] + [Login("", "")] == LOGIN[..2];
    ControllerDelivers(Both(Conn(None, None), HOST_READY, refused, map[]), SERVING, ControllerAt(Clients.LoggingIn, LOGIN[..2], 1, 1), Draw(0),
                       Both(GUEST, HOST_READY, LOGGED_IN, map[]));
    ControllerActs(Both(GUEST, HOST_READY, LOGGED_IN, map[]), SERVING, ControllerAt(Clients.LoggingIn, LOGIN[..2], 2, 1), AuthOk(""), "");
    assert LOGIN[..2] + [RequestTurnCredentials] == LOGIN;
    AsksForTurn(GUEST, HOST_READY, LOGGED_IN, map[]);
    ControllerDelivers(Both(GUEST, HOST_READY, LOGGED_IN, map[]), SERVING, ControllerAt(Clients.AwaitingTurn, LOGIN, 2, 2), Draw(0),
                       Both(GUEST, HOST_READY, ADMITTED, map[]));
    ControllerActs(Both(GUEST, HOST_READY, ADMITTED, map[]), SERVING, ControllerAt(Clients.AwaitingTurn, LOGIN, 3, 2), TurnCredentials(2), "");
  }

  const PAIR := map[1 := Peers(2, 1)]
  const PAIRED := ADMITTED + [ConnectionEstablished(1, 7)]

  function Offering(offer: string, delivered: nat): Clients.Client {
    ControllerAt(Clients.AwaitingAnswer, REQUESTED + [Relay(1, Offer(offer))], delivered, 4).(session := Some(1), local := Some(offer))
  }

  lemma OfferMade(offer: string)
    ensures Got(Duo(Both(GUEST, GREETED, PAIRED, PAIR), SERVING, Offering(offer, 4)))
  {
    hide Got, Goes, Both;
    ControllerAdmitted();
    Pairs(HOST_READY, ADMITTED);
    BothQueues(GUEST, GREETED, PAIRED, PAIR);
    ControllerDelivers(Both(GUEST, HOST_READY, ADMITTED, map[]), SERVING, ControllerAt(Clients.AwaitingSession, REQUESTED, 3, 3), Draw(1),
                       Both(GUEST, GREETED, PAIRED, PAIR));
    ControllerActs(Both(GUEST, GREETED, PAIRED, PAIR), SERVING, ControllerAt(Clients.AwaitingSession, REQUESTED, 4, 3),
                   ConnectionEstablished(1, 7), offer);
  }

  const ANSWERING := HOSTING + [RequestTurnCredentials]

  lemma OfferDelivered(offer: string)
    ensures Got(Duo(Both(GUEST, GREETED + [TurnCredentials(1)] + [Relayed(1, Offer(offer))], PAIRED, PAIR),
                    HostAt(Clients.AwaitingOffer, Some(1), ANSWERING, 3, 4), Offering(offer, 5)))
  {
    hide Got, Goes, Both;
    OfferMade(offer);
    var met, ready := Both(GUEST, GREETED, PAIRED, PAIR), Both(GUEST, GREETED + [TurnCredentials(1)], PAIRED, PAIR);
    BothQueues(GUEST, GREETED, PAIRED, PAIR);
    BothQueues(GUEST, GREETED + [TurnCredentials(1)], PAIRED, PAIR);
    HostActs(met, SERVING, Offering(offer, 4), IncomingConnection(1), "");
    AsksForTurn(GUEST, GREETED, PAIRED, PAIR);
    HostDelivers(met, HostAt(Clients.AwaitingTurn, Some(1), ANSWERING, 2, 3), Offering(offer, 4), Draw(0), ready);
    HostActs(ready, HostAt(Clients.AwaitingTurn, Some(1), ANSWERING, 3, 3), Offering(offer, 4), TurnCredentials(1), "");
    Relays(GREETED + [TurnCredentials(1)], PAIRED, Offer(offer));
    ControllerDelivers(ready, HostAt(Clients.AwaitingOffer, Some(1), ANSWERING, 3, 4), Offering(offer, 4), Draw(0),
                       Both(GUEST, GREETED + [TurnCredentials(1)] + [Relayed(1, Offer(offer))], PAIRED, PAIR));
  }

  function Answered(offer: string, answer: string, delivered: nat): Clients.Client {
    HostAt(Clients.Streaming, Some(1), ANSWERING + [Relay(1, Answer(answer))], delivered, 5).(local := Some(answer), remote := Some(offer))
  }

  lemma AnswerDelivered(offer: string, answer: string)
    ensures Got(Duo(Both(GUEST, GREETED + [TurnCredentials(1)] + [Relayed(1, Offer(offer))], PAIRED + [Relayed(1, Answer(answer))], PAIR),
                    Answered(offer, answer, 4), Offering(offer, 5)))
  {
    hide Got, Goes, Both;
    var q1 := GREETED + [TurnCredentials(1)] + [Relayed(1, Offer(offer))];
    OfferDelivered(offer);
    BothQueues(GUEST, q1, PAIRED, PAIR);
    HostActs(Both(GUEST, q1, PAIRED, PAIR), HostAt(Clients.AwaitingOffer, Some(1), ANSWERING, 3, 4), Offering(offer, 5),
             Relayed(1, Offer(offer)), answer);
    Relays(q1, PAIRED, Answer(answer));
    HostDelivers(Both(GUEST, q1, PAIRED, PAIR), Answered(offer, answer, 3), Offering(offer, 5), Draw(0),
                 Both(GUEST, q1, PAIRED + [Relayed(1, Answer(answer))], PAIR));
  }

  function Accepted(offer: string, answer: string): Clients.Client {
    Offering(offer, 5).(remote := Some(answer), phase := Clients.Streaming, read := 5)
  }

  lemma AnswerAccepted(offer: string, answer: string)
    ensures Got(Duo(Both(GUEST, GREETED + [TurnCredentials(1)] + [Relayed(1, Offer(offer))], PAIRED + [Relayed(1, Answer(answer))], PAIR),
                    Answered(offer, answer, 4), Accepted(offer, answer)))
  {
    hide Got, Goes, Both;
    var q1 := GREETED + [TurnCredentials(1)] + [Relayed(1, Offer(offer))];
    var q2 := PAIRED + [Relayed(1, Answer(answer))];
    AnswerDelivered(offer, answer);
    BothQueues(GUEST, q1, q2, PAIR);
    ControllerActs(Both(GUEST, q1, q2, PAIR), Answered(offer, answer, 4), Offering(offer, 5), Relayed(1, Answer(answer)), "");
  }

  /** For any two descriptions there is a run that ends in a paired session with the controller holding the host's answer. */
  lemma Completes(offer: string, answer: string)
    ensures exists ms ::
      && Negotiation.Run(ms) && Negotiation.Paired(Negotiation.After(ms), 1, 2, 1)
      && var ctl := Negotiation.After(ms).clients[2];
         ctl.session == Some(1) && ctl.local == Some(offer) && ctl.remote == Some(answer) && ctl.phase == Clients.Streaming
  {
    hide Negotiation.Run, Negotiation.After;
    AnswerAccepted(offer, answer);
    var s := Both(GUEST, GREETED + [TurnCredentials(1)] + [Relayed(1, Offer(offer))], PAIRED + [Relayed(1, Answer(answer))], PAIR);
    var ms :| Negotiation.Run(ms) && Negotiation.After(ms) == Duo(s, Answered(offer, answer, 4), Accepted(offer, answer));
    assert Negotiation.Paired(Negotiation.After(ms), 1, 2, 1);
  }

  // ----- A lost offer -----

  lemma OfferMistaken(offer: string)
    ensures Got(Duo(Both(GUEST, GREETED + [Relayed(1, Offer(offer))], PAIRED, PAIR),
                    HostAt(Clients.AwaitingOffer, Some(1), ANSWERING, 2, 4), Offering(offer, 5)))
  {
    hide Got, Goes, Both;
    OfferMade(offer);
    var met, early := Both(GUEST, GREETED, PAIRED, PAIR), Both(GUEST, GREETED + [Relayed(1, Offer(offer))], PAIRED, PAIR);
    BothQueues(GUEST, GREETED, PAIRED, PAIR);
    BothQueues(GUEST, GREETED + [Relayed(1, Offer(offer))], PAIRED, PAIR);
    HostActs(met, SERVING, Offering(offer, 4), IncomingConnection(1), "");
    Relays(GREETED, PAIRED, Offer(offer));
    ControllerDelivers(met, HostAt(Clients.AwaitingTurn, Some(1), ANSWERING, 2, 3), Offering(offer, 4), Draw(0), early);
    HostActs(early, HostAt(Clients.AwaitingTurn, Some(1), ANSWERING, 2, 3), Offering(offer, 5), Relayed(1, Offer(offer)), "");
  }

  /** A run without any failure in which the offer overtakes the TURN reply, and the host waits for it in vain. */
  lemma OfferLost(offer: string)
    ensures exists ms ::
      && Negotiation.Run(ms) && Negotiation.Paired(Negotiation.After(ms), 1, 2, 1)
      && Stall.Stalled(Negotiation.After(ms), 1, 1) && Negotiation.After(ms).clients[1].phase == Clients.AwaitingOffer
  {
    hide Negotiation.Run, Negotiation.After;
    OfferMistaken(offer);
    var q := GREETED + [Relayed(1, Offer(offer))];
    var y := Duo(Both(GUEST, q, PAIRED, PAIR), HostAt(Clients.AwaitingOffer, Some(1), ANSWERING, 2, 4), Offering(offer, 5));
    var ms :| Negotiation.Run(ms) && Negotiation.After(ms) == y;
    assert q[..4] == q;
    Relaying.SignalsAppend(GREETED, Relayed(1, Offer(offer)), 1);
    assert Stall.Heard(y, 1, 1) == Relaying.Signals(q, 1);
    assert Negotiation.Paired(Negotiation.After(ms), 1, 2, 1);
  }

  lemma BothQueues(b: Conn, q1: seq<ServerMessage>, q2: seq<ServerMessage>, xs: map<SessionId, Peers>)
    ensures 1 in Both(b, q1, q2, xs).net.queues && Both(b, q1, q2, xs).net.queues[1] == q1
    ensures 2 in Both(b, q1, q2, xs).net.queues && Both(b, q1, q2, xs).net.queues[2] == q2
  {
  }
}
