/**
 * The server, any number of hosts and controllers running the client code, and arbitrary other connections, over whole
 * runs: offers, answers and candidates are applied in the order of section 3.2 of RFC 8829, and both ends of a session
 * agree on its descriptions.
 */
module Negotiation {
  import opened Text
  import opened Protocol
  import opened Clients
  import Signaling
  import Presence
  import Relaying

  datatype System = System(server: Signaling.State, clients: map<ConnId, Client>)

  const START := System(Signaling.INIT, map[])

  datatype Move =
    | Environment(e: Signaling.Event)
    | Launches(c: ConnId, side: Side, plan: Plan)
    | Deliver(c: ConnId, n: Signaling.Nonce)
    | Act(c: ConnId, sdp: string, ok: bool)
    | Gathers(c: ConnId, text: string)
    | Crash(c: ConnId)

  /** The server event that a move consists of. */
  function ServerEvent(y: System, m: Move): Signaling.Event
    requires m.Environment? || m.Launches? || (m.Deliver? && m.c in y.clients && y.clients[m.c].delivered < |y.clients[m.c].sent|)
  {
    match m
    case Environment(e) => e
    case Launches(c, _, _) => Signaling.Connect(c)
    case Deliver(c, n) => Signaling.Receive(c, y.clients[c].sent[y.clients[c].delivered], n)
  }

  predicate Possible(y: System, m: Move) {
    match m
    case Environment(e) =>
      // Whatever the others do; only the clients themselves write to their sockets.
      && Signaling.Enabled(y.server, e)
      && (e.Receive? || e.ReceiveGarbage? ==> e.c !in y.clients)
    case Launches(c, _, _) => Signaling.Enabled(y.server, Signaling.Connect(c))
    case Deliver(c, n) =>
      && c in y.clients && y.clients[c].delivered < |y.clients[c].sent|
      && Signaling.Enabled(y.server, ServerEvent(y, m))
    case Act(c, _, _) => c in y.clients && c in y.server.net.queues && y.clients[c].read < |y.server.net.queues[c]|
    case Gathers(c, _) => c in y.clients
    case Crash(c) => c in y.clients
  }

  function Next(y: System, m: Move): System
    requires Possible(y, m)
  {
    match m
    case Environment(e) => y.(server := Signaling.Step(y.server, e))
    case Launches(c, side, plan) =>
      System(Signaling.Step(y.server, Signaling.Connect(c)), y.clients[c := Launch(side, plan)])
    case Deliver(c, n) =>
      var cl := y.clients[c];
      System(Signaling.Step(y.server, ServerEvent(y, m)), y.clients[c := cl.(delivered := cl.delivered + 1)])
    case Act(c, sdp, ok) =>
      var cl := y.clients[c];
      y.(clients := y.clients[c := React(cl, y.server.net.queues[c][cl.read], sdp, ok).(read := cl.read + 1)])
    case Gathers(c, text) => y.(clients := y.clients[c := Gather(y.clients[c], text)])
    case Crash(c) => y.(clients := y.clients[c := y.clients[c].(phase := Stopped)])
  }

  ghost predicate Run(ms: seq<Move>)
    decreases |ms|, 0
  {
    ms == [] || (Run(ms[..|ms| - 1]) && Possible(After(ms[..|ms| - 1]), ms[|ms| - 1]))
  }

  ghost function After(ms: seq<Move>): System
    requires Run(ms)
    decreases |ms|, 1
  {
    if ms == [] then START else Next(After(ms[..|ms| - 1]), ms[|ms| - 1])
  }

  /** One more move. */
  lemma Extend(ms: seq<Move>, m: Move)
    requires Run(ms) && Possible(After(ms), m)
    ensures Run(ms + [m]) && After(ms + [m]) == Next(After(ms), m)
  {
    hide Next, Possible;
    assert (ms + [m])[..|ms|] == ms;
  }

  // ----- What a client has sent -----

  function SignalOf(m: ClientMessage, x: SessionId): seq<Signal> {
    if m.Relay? && m.session == x then [m.signal] else []
  }

  /** The signals for session `x` among the messages, in order. */
  function Sends(ms: seq<ClientMessage>, x: SessionId): seq<Signal> {
    if ms == [] then [] else Sends(ms[..|ms| - 1], x) + SignalOf(ms[|ms| - 1], x)
  }

  lemma SendsAppend(ms: seq<ClientMessage>, m: ClientMessage, x: SessionId)
    ensures Sends(ms + [m], x) == Sends(ms, x) + SignalOf(m, x)
  {
    assert (ms + [m])[..|ms|] == ms;
  }

  lemma {:induction false} SendsPrefix(ms: seq<ClientMessage>, i: nat, x: SessionId)
    requires i <= |ms|
    ensures Sends(ms[..i], x) <= Sends(ms, x)
  {
    if i == |ms| {
      assert ms[..i] == ms;
    } else {
      SendsPrefix(ms[..|ms| - 1], i, x);
      assert ms[..|ms| - 1][..i] == ms[..i];
    }
  }

  predicate NoSignals(ms: seq<ClientMessage>) {
    forall i :: 0 <= i < |ms| ==> !ms[i].Relay?
  }

  /** Every relayed message is for session `x`. */
  predicate OnlyFor(ms: seq<ClientMessage>, x: SessionId) {
    forall i :: 0 <= i < |ms| && ms[i].Relay? ==> ms[i].session == x
  }

  lemma {:induction false} OtherSessionsSilent(ms: seq<ClientMessage>, x: SessionId, y: SessionId)
    requires OnlyFor(ms, x) && x != y
    ensures Sends(ms, y) == []
  {
    if ms != [] { OtherSessionsSilent(ms[..|ms| - 1], x, y); }
  }

  lemma {:induction false} SilentSends(ms: seq<ClientMessage>, x: SessionId)
    requires NoSignals(ms)
    ensures Sends(ms, x) == []
  {
    if ms != [] { SilentSends(ms[..|ms| - 1], x); }
  }

  /** `first`, then nothing but candidates. */
  predicate Leads(signals: seq<Signal>, first: Signal) {
    && signals != [] && signals[0] == first
    && forall i :: 1 <= i < |signals| ==> signals[i].Candidate?
  }

  /** What each side has sent so far, by how far its negotiation has got. */
  ghost predicate ControllerOk(cl: Client) {
    match cl.session
    case None => NoSignals(cl.sent) && cl.remote == None && cl.candidates == [] && cl.phase !in {AwaitingAnswer, Streaming}
    case Some(x) =>
      && cl.phase in {AwaitingAnswer, Streaming, Stopped}
      && cl.local.Some? && OnlyFor(cl.sent, x) && Leads(Sends(cl.sent, x), Offer(cl.local.value))
      && (cl.remote == None ==> |Sends(cl.sent, x)| == 1)
      && (cl.phase == AwaitingAnswer ==> cl.remote == None) && (cl.phase == Streaming ==> cl.remote.Some?)
  }

  ghost predicate HostOk(cl: Client) {
    match cl.session
    case None => NoSignals(cl.sent) && cl.remote == None && cl.candidates == [] && cl.phase in {SigningUp, LoggingIn, AwaitingDevice, Serving, Stopped}
    case Some(x) =>
      && cl.phase in {AwaitingTurn, AwaitingOffer, Streaming, Stopped}
      && OnlyFor(cl.sent, x)
      && (cl.phase in {AwaitingTurn, AwaitingOffer} ==> cl.remote == None && NoSignals(cl.sent))
      && (cl.remote == None ==> NoSignals(cl.sent))
      && (cl.phase == Streaming ==> !NoSignals(cl.sent))
      && (!NoSignals(cl.sent) ==> cl.local.Some? && Leads(Sends(cl.sent, x), Answer(cl.local.value)))
  }

  ghost predicate ClientOk(cl: Client) {
    && cl.delivered <= |cl.sent|
    && if cl.side == Host then HostOk(cl) else ControllerOk(cl)
  }

  lemma AppendSilent(cl: Client, m: ClientMessage)
    requires !m.Relay?
    ensures NoSignals(cl.sent) ==> NoSignals(cl.sent + [m])
    ensures forall x :: OnlyFor(cl.sent, x) ==> OnlyFor(cl.sent + [m], x)
  {
  }

  lemma LaunchOk(side: Side, plan: Plan)
    ensures ClientOk(Launch(side, plan))
  {
  }

  lemma GatherOk(cl: Client, text: string)
    requires ClientOk(cl)
    ensures ClientOk(Gather(cl, text))
  {
    if cl.session.Some? {
      SendsAppend(cl.sent, Relay(cl.session.value, Candidate(text)), cl.session.value);
    }
  }

  lemma ControllerReactOk(cl: Client, m: ServerMessage, sdp: string, ok: bool)
    requires ClientOk(cl) && cl.side == Controller
    ensures ClientOk(ControllerReact(cl, m, sdp, ok))
  {
    hide Sends;
    if cl.phase == AwaitingSession && m.ConnectionEstablished? {
      SilentSends(cl.sent, m.session);
      SendsAppend(cl.sent, Relay(m.session, Offer(sdp)), m.session);
      assert Sends(cl.sent + [Relay(m.session, Offer(sdp))], m.session) == [Offer(sdp)];
    }
  }

  lemma HostReactOk(cl: Client, m: ServerMessage, sdp: string, ok: bool)
    requires ClientOk(cl) && cl.side == Host
    ensures ClientOk(HostReact(cl, m, sdp, ok))
  {
    match cl.phase
    case AwaitingOffer =>
      if m.Relayed? && cl.session == Some(m.session) && m.signal.Offer? && ok {
        AnsweringOk(cl, m, sdp);
      }
    case Serving => AppendSilent(cl, RequestTurnCredentials);
    case _ => hide Leads;
  }

  lemma AnsweringOk(cl: Client, m: ServerMessage, sdp: string)
    requires ClientOk(cl) && cl.side == Host && cl.phase == AwaitingOffer
    requires m.Relayed? && cl.session == Some(m.session) && m.signal.Offer?
    ensures ClientOk(HostReact(cl, m, sdp, true))
  {
    hide Sends;
    var answer := Relay(m.session, Answer(sdp));
    SilentSends(cl.sent, m.session);
    SendsAppend(cl.sent, answer, m.session);
    assert Sends(cl.sent + [answer], m.session) == [Answer(sdp)];
    assert (cl.sent + [answer])[|cl.sent|].Relay?;
  }

  // ----- The clients against the server -----

  /** The client's session is one the server opened for it in that role, and its remote description was relayed to it. */
  ghost predicate Linked(server: Signaling.State, c: ConnId, cl: Client) {
    && ClientOk(cl)
    && c in server.net.queues && cl.read <= |server.net.queues[c]|
    && (cl.session.Some? ==>
          && cl.session.value in server.net.sessions
          && c == if cl.side == Host then server.net.sessions[cl.session.value].b else server.net.sessions[cl.session.value].a)
    && (cl.remote.Some? ==>
          && cl.session.Some?
          && (if cl.side == Host then Offer(cl.remote.value) else Answer(cl.remote.value))
             in Relaying.Signals(server.net.queues[c], cl.session.value))
  }

  /** Of a client's relay requests for `x`, the other endpoint's channel carries a prefix, and all of them while it is live. */
  ghost predicate Carried(server: Signaling.State, c: ConnId, cl: Client, x: SessionId) {
    var net := server.net;
    x in net.sessions && net.sessions[x].a != net.sessions[x].b && net.sessions[x].Other(c).Some? ==>
      var to := net.sessions[x].Other(c).value;
      && to in net.queues && cl.delivered <= |cl.sent|
      && Relaying.Signals(net.queues[to], x) <= Sends(cl.sent[..cl.delivered], x)
      && (to in net.live ==> Relaying.Signals(net.queues[to], x) == Sends(cl.sent[..cl.delivered], x))
  }

  /** The distinct endpoints of session `x` run the controller code on `a` and the host code on `b`. */
  ghost predicate Paired(y: System, x: SessionId, a: ConnId, b: ConnId) {
    && x in y.server.net.sessions && y.server.net.sessions[x] == Signaling.Peers(a, b) && a != b
    && a in y.clients && y.clients[a].side == Controller
    && b in y.clients && y.clients[b].side == Host
  }

  /** A waiting controller has read no signal of the session yet, and neither side holds a candidate without a remote description. */
  ghost predicate Ordered(y: System, x: SessionId, a: ConnId, b: ConnId)
    requires Paired(y, x, a, b)
  {
    var ctl, host := y.clients[a], y.clients[b];
    && a in y.server.net.queues && ctl.read <= |y.server.net.queues[a]|
    && (ctl.session == Some(x) && ctl.phase == AwaitingAnswer ==> Relaying.Signals(y.server.net.queues[a][..ctl.read], x) == [])
    && (ctl.session == Some(x) && ctl.candidates != [] ==> ctl.remote.Some?)
    && (host.session == Some(x) && host.candidates != [] ==> host.remote.Some?)
  }

  ghost predicate Core(y: System) {
    && Relaying.Good(y.server)
    && (forall c :: c in y.clients ==> Linked(y.server, c, y.clients[c]))
    && (forall c, x :: c in y.clients ==> Carried(y.server, c, y.clients[c], x))
  }

  ghost predicate Inv(y: System) {
    && Core(y)
    && forall x, a, b :: Paired(y, x, a, b) ==> Ordered(y, x, a, b)
  }

  // ----- What the invariant means for one session -----

  /** A client sends nothing for a session it has not joined. */
  lemma NotJoinedSilent(server: Signaling.State, c: ConnId, cl: Client, x: SessionId)
    requires Linked(server, c, cl) && cl.session != Some(x)
    ensures Sends(cl.sent, x) == []
  {
    match cl.session
    case None => SilentSends(cl.sent, x);
    case Some(z) => OtherSessionsSilent(cl.sent, z, x);
  }

  /** What one endpoint has been sent for `x` is the beginning of what the other endpoint's client wrote. */
  lemma ChannelFollowsSender(y: System, x: SessionId, from: ConnId, to: ConnId)
    requires Core(y) && from in y.clients && x in y.server.net.sessions
    requires y.server.net.sessions[x].a != y.server.net.sessions[x].b && y.server.net.sessions[x].Other(from) == Some(to)
    ensures to in y.server.net.queues
    ensures Relaying.Signals(y.server.net.queues[to], x) <= Sends(y.clients[from].sent, x)
  {
    hide Relaying.Good, Sends, Relaying.Signals;
    var cl := y.clients[from];
    assert Linked(y.server, from, cl) && Carried(y.server, from, cl, x);
    SendsPrefix(cl.sent, cl.delivered, x);
  }

  /** An accepted answer is the host's answer to this controller's offer: both ends hold the same two descriptions. */
  lemma Agreement(y: System, x: SessionId, a: ConnId, b: ConnId)
    requires Core(y) && Paired(y, x, a, b)
    requires y.clients[a].session == Some(x) && y.clients[a].remote.Some?
    ensures y.clients[b].session == Some(x)
    ensures y.clients[b].local == y.clients[a].remote && y.clients[b].remote == y.clients[a].local
  {
    hide Relaying.Good, Sends, Relaying.Signals;
    var ctl, host := y.clients[a], y.clients[b];
    assert Linked(y.server, a, ctl) && Linked(y.server, b, host);
    ChannelFollowsSender(y, x, b, a);
    ChannelFollowsSender(y, x, a, b);
    if host.session != Some(x) {
      NotJoinedSilent(y.server, b, host, x);
    } else if NoSignals(host.sent) {
      SilentSends(host.sent, x);
    }
  }

  /** While the host has no remote description, no candidate of the session is on its channel. */
  lemma NoCandidateBeforeOffer(y: System, x: SessionId, a: ConnId, b: ConnId)
    requires Core(y) && Paired(y, x, a, b)
    requires y.clients[b].session == Some(x) && y.clients[b].remote == None
    ensures b in y.server.net.queues
    ensures forall i :: 0 <= i < |Relaying.Signals(y.server.net.queues[b], x)| ==> !Relaying.Signals(y.server.net.queues[b], x)[i].Candidate?
  {
    hide Relaying.Good, Sends, Relaying.Signals;
    var ctl := y.clients[a];
    assert Linked(y.server, a, ctl) && Linked(y.server, b, y.clients[b]);
    ChannelFollowsSender(y, x, a, b);
    if ctl.session != Some(x) {
      NotJoinedSilent(y.server, a, ctl, x);
    } else if ctl.remote.Some? {
      Agreement(y, x, a, b);
    }
  }

  /** The signals on the channel that leads to the controller start with the host's answer. */
  lemma AnswerLeads(y: System, x: SessionId, a: ConnId, b: ConnId)
    requires Core(y) && Paired(y, x, a, b)
    ensures a in y.server.net.queues
    ensures Relaying.Signals(y.server.net.queues[a], x) != [] ==> Relaying.Signals(y.server.net.queues[a], x)[0].Answer?
  {
    hide Relaying.Good, Sends, Relaying.Signals;
    var host := y.clients[b];
    assert Linked(y.server, b, host);
    ChannelFollowsSender(y, x, b, a);
    if host.session != Some(x) {
      NotJoinedSilent(y.server, b, host, x);
    } else if NoSignals(host.sent) {
      SilentSends(host.sent, x);
    }
  }

  /** The next message on a channel is the next signal. */
  lemma NextSignal(q: seq<ServerMessage>, i: nat, x: SessionId)
    requires i < |q| && q[i].Relayed? && q[i].session == x
    ensures Relaying.Signals(q[..i], x) + [q[i].signal] <= Relaying.Signals(q, x)
    ensures Relaying.Signals(q, x)[|Relaying.Signals(q[..i], x)|] == q[i].signal
  {
    Relaying.SignalsPrefix(q, i + 1, x);
    assert q[..i + 1] == q[..i] + [q[i]];
    Relaying.SignalsAppend(q[..i], q[i], x);
  }

  predicate IsCandidate(m: ServerMessage, x: SessionId) {
    m.Relayed? && m.session == x && m.signal.Candidate?
  }

  /** The candidate branches of the two waiting loops are never taken. */
  lemma WaitingMeetsNoCandidate(y: System, x: SessionId, a: ConnId, b: ConnId)
    requires Inv(y) && Paired(y, x, a, b)
    ensures a in y.server.net.queues && b in y.server.net.queues
    ensures var ctl := y.clients[a];
      ctl.session == Some(x) && ctl.phase == AwaitingAnswer && ctl.read < |y.server.net.queues[a]|
      ==> !IsCandidate(y.server.net.queues[a][ctl.read], x)
    ensures var host := y.clients[b];
      host.session == Some(x) && host.remote == None && host.read < |y.server.net.queues[b]|
      ==> !IsCandidate(y.server.net.queues[b][host.read], x)
  {
    hide Relaying.Good, Sends, Relaying.Signals;
    var ctl, host := y.clients[a], y.clients[b];
    assert Linked(y.server, a, ctl) && Linked(y.server, b, host);
    assert Ordered(y, x, a, b);
    var qa, qb := y.server.net.queues[a], y.server.net.queues[b];
    if ctl.read < |qa| && IsCandidate(qa[ctl.read], x) {
      AnswerLeads(y, x, a, b);
      NextSignal(qa, ctl.read, x);
    }
    if host.session == Some(x) && host.remote == None && host.read < |qb| && IsCandidate(qb[host.read], x) {
      NoCandidateBeforeOffer(y, x, a, b);
      NextSignal(qb, host.read, x);
    }
  }

  // ----- Moves of the server -----

  lemma LinkedStep(server: Signaling.State, e: Signaling.Event, c: ConnId, cl: Client)
    requires Relaying.Good(server) && Signaling.Enabled(server, e) && Linked(server, c, cl)
    ensures Linked(Signaling.Step(server, e), c, cl)
  {
    hide ClientOk, Presence.Inv, Relaying.Linked, Relaying.Signals, Signaling.Step, Signaling.Enabled, Relaying.Opens, Signaling.React, Signaling.For;
    Relaying.QueueStep(server, e, c);
    if cl.session.Some? {
      Relaying.SessionStep(server, e, cl.session.value);
      Relaying.SignalStep(server, e, cl.session.value, c);
    }
  }

  /** A new session finds every client silent about it. */
  lemma CarriedByNew(server: Signaling.State, e: Signaling.Event, c: ConnId, cl: Client, d: nat, x: SessionId)
    requires Relaying.Good(server) && Signaling.Enabled(server, e) && Linked(server, c, cl)
    requires x !in server.net.sessions && d <= |cl.sent|
    ensures Carried(Signaling.Step(server, e), c, cl.(delivered := d), x)
  {
    hide ClientOk, Presence.Inv, Relaying.Linked, Relaying.Signals, Signaling.Step, Signaling.Enabled, Relaying.Opens;
    var net := Signaling.Step(server, e).net;
    if x in net.sessions && net.sessions[x].Other(c).Some? {
      var to := net.sessions[x].Other(c).value;
      Relaying.SessionStep(server, e, x);
      Relaying.OpeningEffect(server, e, x, net.sessions[x]);
      Relaying.OpenedSilent(server, e, x, net.sessions[x], to);
      NotJoinedSilent(server, c, cl, x);
      SendsPrefix(cl.sent, d, x);
    }
  }

  /** A step in which `c` itself is not heard adds nothing to the channels that `c` feeds. */
  lemma CarriedStep(server: Signaling.State, e: Signaling.Event, c: ConnId, cl: Client, x: SessionId)
    requires Relaying.Good(server) && Signaling.Enabled(server, e) && Linked(server, c, cl) && Carried(server, c, cl, x)
    requires e.Receive? ==> e.c != c
    ensures Carried(Signaling.Step(server, e), c, cl, x)
  {
    hide ClientOk, Presence.Inv, Relaying.Linked, Relaying.Signals, Signaling.Step, Signaling.Enabled, Relaying.Opens, Sends;
    if x !in server.net.sessions {
      assert cl.delivered <= |cl.sent| by { assert ClientOk(cl); DeliveredBound(cl); }
      CarriedByNew(server, e, c, cl, cl.delivered, x);
    } else {
      Relaying.SessionStep(server, e, x);
      var peers := server.net.sessions[x];
      if peers.a != peers.b && peers.Other(c).Some? {
        var to := peers.Other(c).value;
        Relaying.SignalStep(server, e, x, to);
        Relaying.LiveStep(server, e, to);
        Relaying.OneSender(peers, c, to);
      }
    }
  }

  lemma DeliveredBound(cl: Client)
    requires ClientOk(cl)
    ensures cl.delivered <= |cl.sent|
  {
  }

  /** Delivering the next message of `c` forwards exactly its signal, as long as the other endpoint is live. */
  lemma CarriedDelivery(server: Signaling.State, c: ConnId, cl: Client, n: Signaling.Nonce, x: SessionId)
    requires Linked(server, c, cl) && Carried(server, c, cl, x) && cl.delivered < |cl.sent|
    requires Relaying.Good(server) && Signaling.Enabled(server, Signaling.Receive(c, cl.sent[cl.delivered], n))
    ensures Carried(Signaling.Step(server, Signaling.Receive(c, cl.sent[cl.delivered], n)), c, cl.(delivered := cl.delivered + 1), x)
  {
    hide ClientOk, Presence.Inv, Relaying.Linked, Relaying.Signals, Signaling.Step, Signaling.Enabled, Relaying.Opens, Sends;
    var d, m := cl.delivered, cl.sent[cl.delivered];
    var e := Signaling.Receive(c, m, n);
    if x !in server.net.sessions {
      CarriedByNew(server, e, c, cl, d + 1, x);
    } else {
      Relaying.SessionStep(server, e, x);
      var peers := server.net.sessions[x];
      if peers.a != peers.b && peers.Other(c).Some? {
        var to := peers.Other(c).value;
        Relaying.SignalStep(server, e, x, to);
        Relaying.LiveStep(server, e, to);
        assert cl.sent[..d + 1] == cl.sent[..d] + [m];
        SendsAppend(cl.sent[..d], m, x);
      }
    }
  }

  /** What a server step does to every pairing: nothing, or a new session that nobody has joined. */
  lemma OrderedAfterServer(y: System, e: Signaling.Event, clients: map<ConnId, Client>, x: SessionId, a: ConnId, b: ConnId)
    requires Inv(y) && Signaling.Enabled(y.server, e)
    requires var y' := System(Signaling.Step(y.server, e), clients); Paired(y', x, a, b)
    requires a in y.clients && b in y.clients
    requires clients[a] == y.clients[a].(delivered := clients[a].delivered) && clients[b] == y.clients[b].(delivered := clients[b].delivered)
    ensures Ordered(System(Signaling.Step(y.server, e), clients), x, a, b)
  {
    hide ClientOk, Presence.Inv, Relaying.Linked, Relaying.Signals, Signaling.Step, Signaling.Enabled, Relaying.Opens, Sends, Carried,
         Signaling.React, Signaling.For;
    assert Linked(y.server, a, y.clients[a]) && Linked(y.server, b, y.clients[b]);
    Relaying.QueueStep(y.server, e, a);
    Relaying.SessionStep(y.server, e, x);
    var q, q' := y.server.net.queues[a], Signaling.Step(y.server, e).net.queues[a];
    assert q'[..y.clients[a].read] == q[..y.clients[a].read];
    if x in y.server.net.sessions {
      assert Paired(y, x, a, b);
    }
  }

  lemma ServerMoveKeeps(y: System, m: Move)
    requires Inv(y) && Possible(y, m) && (m.Environment? || m.Deliver?)
    ensures Inv(Next(y, m))
  {
    hide ClientOk, Presence.Inv, Relaying.Linked, Relaying.Signals, Signaling.Step, Signaling.Enabled, Relaying.Opens, Sends, Linked, Carried, Ordered;
    var e := ServerEvent(y, m);
    var y' := Next(y, m);
    Relaying.GoodStep(y.server, e);
    forall c | c in y'.clients ensures Linked(y'.server, c, y'.clients[c]) {
      LinkedStep(y.server, e, c, y.clients[c]);
      if m.Deliver? && c == m.c { DeliveredLinked(y'.server, c, y.clients[c]); }
    }
    forall c, x | c in y'.clients ensures Carried(y'.server, c, y'.clients[c], x) {
      if m.Deliver? && c == m.c {
        CarriedDelivery(y.server, c, y.clients[c], m.n, x);
      } else {
        CarriedStep(y.server, e, c, y.clients[c], x);
      }
    }
    forall x, a, b | Paired(y', x, a, b)
      ensures Ordered(y', x, a, b)
    {
      OrderedAfterServer(y, e, y'.clients, x, a, b);
    }
  }

  lemma DeliveredLinked(server: Signaling.State, c: ConnId, cl: Client)
    requires Linked(server, c, cl) && cl.delivered < |cl.sent|
    ensures Linked(server, c, cl.(delivered := cl.delivered + 1))
  {
    hide Sends, Relaying.Signals, Leads, NoSignals, OnlyFor;
  }

  lemma LaunchKeeps(y: System, m: Move)
    requires Inv(y) && Possible(y, m) && m.Launches?
    ensures Inv(Next(y, m))
  {
    hide ClientOk, Presence.Inv, Relaying.Signals, Signaling.Step, Relaying.Opens, Sends, Linked, Carried, Ordered;
    var e := Signaling.Connect(m.c);
    var y' := Next(y, m);
    Relaying.GoodStep(y.server, e);
    LaunchLinked(y.server, m.c, m.side, m.plan);
    assert m.c !in y.clients by {
      if m.c in y.clients { QueueOfClient(y, m.c); }
    }
    forall c | c in y'.clients ensures Linked(y'.server, c, y'.clients[c]) {
      if c != m.c { LinkedStep(y.server, e, c, y.clients[c]); }
    }
    forall c, x | c in y'.clients ensures Carried(y'.server, c, y'.clients[c], x) {
      if c != m.c { CarriedStep(y.server, e, c, y.clients[c], x); } else { NoSessionYet(y.server, c, y'.clients[c], x); }
    }
    forall x, a, b | Paired(y', x, a, b)
      ensures Ordered(y', x, a, b)
    {
      NoSessionYet(y.server, m.c, y'.clients[m.c], x);
      OrderedAfterServer(y, e, y'.clients, x, a, b);
    }
  }

  lemma QueueOfClient(y: System, c: ConnId)
    requires Core(y) && c in y.clients
    ensures c in y.server.net.queues
  {
    assert Linked(y.server, c, y.clients[c]);
  }

  lemma LaunchLinked(server: Signaling.State, c: ConnId, side: Side, plan: Plan)
    requires Signaling.Enabled(server, Signaling.Connect(c))
    ensures Linked(Signaling.Step(server, Signaling.Connect(c)), c, Launch(side, plan))
  {
    LaunchOk(side, plan);
  }

  /** A connection that was just opened is an endpoint of no session. */
  lemma NoSessionYet(server: Signaling.State, c: ConnId, cl: Client, x: SessionId)
    requires Relaying.Good(server) && Signaling.Enabled(server, Signaling.Connect(c))
    ensures var net := Signaling.Step(server, Signaling.Connect(c)).net;
      x in net.sessions ==> net.sessions[x].a != c && net.sessions[x].b != c
    ensures Carried(Signaling.Step(server, Signaling.Connect(c)), c, cl, x)
  {
    hide Presence.Inv, Relaying.Signals, Relaying.ChannelOk, Sends;
    var net := Signaling.Step(server, Signaling.Connect(c)).net;
    if x in net.sessions {
      assert Relaying.AnnouncedToHost(server.net, x);
    }
  }

  // ----- Moves of a client -----

  /** What reacting and gathering leave alone. */
  ghost predicate SameHistory(cl: Client, cl': Client) {
    cl'.side == cl.side && cl'.delivered == cl.delivered && cl.sent <= cl'.sent
  }

  lemma ReactKeepsHistory(cl: Client, m: ServerMessage, sdp: string, ok: bool)
    ensures SameHistory(cl, React(cl, m, sdp, ok)) && React(cl, m, sdp, ok).read == cl.read
  {
  }

  lemma CarriedAfterClient(server: Signaling.State, c: ConnId, cl: Client, cl': Client, x: SessionId)
    requires Carried(server, c, cl, x) && SameHistory(cl, cl') && cl.delivered <= |cl.sent|
    ensures Carried(server, c, cl', x)
  {
    hide Sends, Relaying.Signals;
    assert cl'.sent[..cl'.delivered] == cl.sent[..cl.delivered];
  }

  lemma CoreAfterClient(y: System, c: ConnId, cl': Client)
    requires Core(y) && c in y.clients && SameHistory(y.clients[c], cl') && Linked(y.server, c, cl')
    ensures Core(y.(clients := y.clients[c := cl']))
  {
    hide Relaying.Good, Linked, Carried;
    var y' := y.(clients := y.clients[c := cl']);
    forall c', x | c' in y'.clients ensures Carried(y'.server, c', y'.clients[c'], x) {
      if c' == c {
        BoundOfClient(y, c);
        CarriedAfterClient(y.server, c, y.clients[c], cl', x);
      }
    }
  }

  lemma BoundOfClient(y: System, c: ConnId)
    requires Core(y) && c in y.clients
    ensures y.clients[c].delivered <= |y.clients[c].sent|
  {
    hide Relaying.Good;
    assert Linked(y.server, c, y.clients[c]);
  }

  /** The message a client reads next, as the server's invariant describes it. */
  lemma NextMessageOk(y: System, c: ConnId)
    requires Core(y) && c in y.clients && c in y.server.net.queues && y.clients[c].read < |y.server.net.queues[c]|
    ensures Relaying.MessageOk(y.server.net.sessions, c, y.server.net.queues[c], y.clients[c].read)
  {
    hide Presence.Inv;
  }

  /** A client joins the session that the server announced to it, and takes over only what was relayed to it. */
  lemma ActLinked(y: System, c: ConnId, sdp: string, ok: bool)
    requires Core(y) && Possible(y, Act(c, sdp, ok))
    ensures Linked(y.server, c, Next(y, Act(c, sdp, ok)).clients[c])
  {
    hide Relaying.Good, Relaying.Signals, ClientOk, HostReact, ControllerReact, Carried;
    var cl, q := y.clients[c], y.server.net.queues[c];
    var m := q[cl.read];
    assert Linked(y.server, c, cl);
    NextMessageOk(y, c);
    if m.Relayed? { NextSignal(q, cl.read, m.session); }
    ActOk(cl, m, sdp, ok);
    Joins(cl, m, sdp, ok);
  }

  lemma Joins(cl: Client, m: ServerMessage, sdp: string, ok: bool)
    requires ClientOk(cl)
    ensures var cl' := React(cl, m, sdp, ok);
      && cl'.side == cl.side
      && (cl'.session == cl.session
          || (cl.session == None && cl'.remote == None
              && if cl.side == Host then m.IncomingConnection? && cl'.session == Some(m.session)
                 else m.ConnectionEstablished? && cl'.session == Some(m.session)))
      && (cl'.remote == cl.remote
          || (cl'.session == cl.session && m.Relayed? && cl.session == Some(m.session)
              && m.signal == if cl.side == Host then Offer(cl'.remote.value) else Answer(cl'.remote.value)))
  {
    hide Sends, Leads, NoSignals, OnlyFor;
  }

  lemma ActOk(cl: Client, m: ServerMessage, sdp: string, ok: bool)
    requires ClientOk(cl)
    ensures ClientOk(React(cl, m, sdp, ok).(read := cl.read + 1))
    ensures cl.remote.Some? ==> React(cl, m, sdp, ok).session == cl.session
  {
    hide Sends, Leads, NoSignals, OnlyFor;
    if cl.side == Host { HostReactOk(cl, m, sdp, ok); } else { ControllerReactOk(cl, m, sdp, ok); }
    ReactKeepsHistory(cl, m, sdp, ok);
  }

  /** A waiting controller that reads a signal of its session reads the answer. */
  lemma ControllerReads(y: System, x: SessionId, a: ConnId, b: ConnId)
    requires Inv(y) && Paired(y, x, a, b) && a in y.server.net.queues && y.clients[a].read < |y.server.net.queues[a]|
    requires y.clients[a].session == Some(x) && y.clients[a].phase == AwaitingAnswer
    ensures var m := y.server.net.queues[a][y.clients[a].read]; m.Relayed? && m.session == x ==> m.signal.Answer?
    ensures var m := y.server.net.queues[a][y.clients[a].read]; !(m.Relayed? && m.session == x) ==>
      Relaying.Signals(y.server.net.queues[a][..y.clients[a].read + 1], x) == []
  {
    hide Relaying.Good, Sends, Relaying.Signals, Linked, Carried;
    var q, i := y.server.net.queues[a], y.clients[a].read;
    assert Ordered(y, x, a, b);
    AnswerLeads(y, x, a, b);
    if q[i].Relayed? && q[i].session == x { NextSignal(q, i, x); }
    assert q[..i + 1] == q[..i] + [q[i]];
    Relaying.SignalsAppend(q[..i], q[i], x);
  }

  lemma ControllerActOrdered(y: System, x: SessionId, a: ConnId, b: ConnId, sdp: string, ok: bool)
    requires Inv(y) && Paired(y, x, a, b) && Possible(y, Act(a, sdp, ok))
    ensures var ctl := Next(y, Act(a, sdp, ok)).clients[a];
      && ctl.read <= |y.server.net.queues[a]|
      && (ctl.session == Some(x) && ctl.phase == AwaitingAnswer ==> Relaying.Signals(y.server.net.queues[a][..ctl.read], x) == [])
      && (ctl.session == Some(x) && ctl.candidates != [] ==> ctl.remote.Some?)
  {
    hide Relaying.Good, Relaying.Signals, Sends, Leads, NoSignals, OnlyFor, Carried;
    var ctl, q := y.clients[a], y.server.net.queues[a];
    var m := q[ctl.read];
    assert Linked(y.server, a, ctl) && Ordered(y, x, a, b);
    WaitingMeetsNoCandidate(y, x, a, b);
    if ctl.phase == AwaitingAnswer && ctl.session == Some(x) {
      ControllerReads(y, x, a, b);
    } else if ctl.phase == AwaitingSession {
      NextMessageOk(y, a);
      assert q[..ctl.read + 1] == q[..ctl.read] + [m];
      Relaying.SignalsAppend(q[..ctl.read], m, x);
    }
  }

  lemma HostActOrdered(y: System, x: SessionId, a: ConnId, b: ConnId, sdp: string, ok: bool)
    requires Inv(y) && Paired(y, x, a, b) && Possible(y, Act(b, sdp, ok))
    ensures var host := Next(y, Act(b, sdp, ok)).clients[b];
      host.session == Some(x) && host.candidates != [] ==> host.remote.Some?
  {
    hide Relaying.Good, Relaying.Signals, Sends, Leads, NoSignals, OnlyFor, Carried;
    var host := y.clients[b];
    assert Linked(y.server, b, host) && Ordered(y, x, a, b);
    WaitingMeetsNoCandidate(y, x, a, b);
  }

  lemma ActKeeps(y: System, m: Move)
    requires Inv(y) && Possible(y, m) && m.Act?
    ensures Inv(Next(y, m))
  {
    hide Linked, Carried, Relaying.Good, Relaying.Signals, HostReact, ControllerReact;
    var y' := Next(y, m);
    ActLinked(y, m.c, m.sdp, m.ok);
    ReactKeepsHistory(y.clients[m.c], y.server.net.queues[m.c][y.clients[m.c].read], m.sdp, m.ok);
    CoreAfterClient(y, m.c, y'.clients[m.c]);
    forall x, a, b | Paired(y', x, a, b)
      ensures Ordered(y', x, a, b)
    {
      assert Paired(y, x, a, b) && Ordered(y, x, a, b);
      if m.c == a { ControllerActOrdered(y, x, a, b, m.sdp, m.ok); }
      if m.c == b { HostActOrdered(y, x, a, b, m.sdp, m.ok); }
    }
  }

  lemma QuietMoveKeeps(y: System, m: Move)
    requires Inv(y) && Possible(y, m) && (m.Gathers? || m.Crash?)
    ensures Inv(Next(y, m))
  {
    hide Carried, Relaying.Good, Relaying.Signals, Sends, Leads, NoSignals, OnlyFor;
    var y' := Next(y, m);
    var cl := y.clients[m.c];
    assert Linked(y.server, m.c, cl);
    if m.Gathers? { GatherOk(cl, m.text); }
    CoreAfterClient(y, m.c, y'.clients[m.c]);
    forall x, a, b | Paired(y', x, a, b)
      ensures Ordered(y', x, a, b)
    {
      assert Paired(y, x, a, b) && Ordered(y, x, a, b);
    }
  }

  // ----- Whole runs -----

  lemma InvStep(y: System, m: Move)
    requires Inv(y) && Possible(y, m)
    ensures Inv(Next(y, m))
  {
    hide Inv, Next;
    match m
    case Environment(_) => ServerMoveKeeps(y, m);
    case Deliver(_, _) => ServerMoveKeeps(y, m);
    case Launches(_, _, _) => LaunchKeeps(y, m);
    case Act(_, _, _) => ActKeeps(y, m);
    case Gathers(_, _) => QuietMoveKeeps(y, m);
    case Crash(_) => QuietMoveKeeps(y, m);
  }

  lemma {:induction false} InvAfter(ms: seq<Move>)
    requires Run(ms)
    ensures Inv(After(ms))
  {
    if ms == [] {
      Relaying.GoodFromStart([]);
    } else {
      hide Inv, Next, Possible;
      InvAfter(ms[..|ms| - 1]);
      InvStep(After(ms[..|ms| - 1]), ms[|ms| - 1]);
    }
  }

  /**
   * In every run, whatever all other connections send: when the two distinct endpoints of a session run the controller
   * and the host code, neither adds a remote candidate before it has set its remote description.
   */
  lemma CandidatesAfterDescriptions(ms: seq<Move>, x: SessionId, a: ConnId, b: ConnId)
    requires Run(ms) && Paired(After(ms), x, a, b)
    ensures var ctl, host := After(ms).clients[a], After(ms).clients[b];
      && (ctl.session == Some(x) && ctl.candidates != [] ==> ctl.remote.Some?)
      && (host.session == Some(x) && host.candidates != [] ==> host.remote.Some?)
  {
    hide Next, Possible, Core;
    InvAfter(ms);
    assert Ordered(After(ms), x, a, b);
  }

  /** The candidate branches of the host's pre-offer loop and the controller's pre-answer loop are unreachable. */
  lemma CandidateBranchesUnreachable(ms: seq<Move>, x: SessionId, a: ConnId, b: ConnId)
    requires Run(ms) && Paired(After(ms), x, a, b)
    ensures var net, ctl, host := After(ms).server.net, After(ms).clients[a], After(ms).clients[b];
      && a in net.queues && b in net.queues
      && (ctl.session == Some(x) && ctl.phase == AwaitingAnswer && ctl.read < |net.queues[a]| ==> !IsCandidate(net.queues[a][ctl.read], x))
      && (host.session == Some(x) && host.phase == AwaitingOffer && host.read < |net.queues[b]| ==> !IsCandidate(net.queues[b][host.read], x))
  {
    hide Next, Possible;
    InvAfter(ms);
    WaitingMeetsNoCandidate(After(ms), x, a, b);
    assert Linked(After(ms).server, b, After(ms).clients[b]);
  }

  /** An answer that a controller accepted is the one its session's host computed from that controller's own offer. */
  lemma AnswersMatchOffers(ms: seq<Move>, x: SessionId, a: ConnId, b: ConnId)
    requires Run(ms) && Paired(After(ms), x, a, b)
    requires After(ms).clients[a].session == Some(x) && After(ms).clients[a].remote.Some?
    ensures var ctl, host := After(ms).clients[a], After(ms).clients[b];
      host.session == Some(x) && host.remote == ctl.local && host.local == ctl.remote
  {
    hide Next, Possible, Core;
    InvAfter(ms);
    Agreement(After(ms), x, a, b);
  }
}
