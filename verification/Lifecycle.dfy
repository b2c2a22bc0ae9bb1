/** When a client stops, and which session a host serves. */
module Lifecycle {
  import opened Text
  import opened Protocol
  import opened Clients
  import Signaling
  import Relaying
  import opened Negotiation
  import opened Candidates

  /** Reading `m` makes the client call into its peer connection. */
  predicate Calls(cl: Client, m: ServerMessage) {
    || (cl.side == Controller && cl.phase == AwaitingSession && m.ConnectionEstablished?)
    || (&& m.Relayed? && cl.session == Some(m.session)
        && (|| (m.signal.Offer? && cl.phase == AwaitingOffer) || (m.signal.Answer? && cl.phase == AwaitingAnswer)
            || (m.signal.Candidate? && Listening(cl))))
  }

  /** A failed call ends the client, except that a streaming controller goes on as if nothing had come; it sends and adds nothing. */
  lemma FailureEnds(cl: Client, m: ServerMessage, sdp: string)
    requires ClientOk(cl)
    ensures var cl' := React(cl, m, sdp, false);
      if !Calls(cl, m) then cl' == React(cl, m, sdp, true)
      else if cl.side == Controller && cl.phase == Streaming then cl' == cl
      else cl'.phase == Stopped && cl'.sent == cl.sent && cl'.candidates == cl.candidates && cl'.session == cl.session && cl'.local == cl.local
  {
    hide Sends, Leads, NoSignals, OnlyFor;
  }

  /** Reading `m` is the end of the client: it is not the reply it must have, or a call fails. */
  predicate Ends(cl: Client, m: ServerMessage, ok: bool) {
    || (cl.phase == SigningUp && !m.AuthOk? && !m.AuthError?)
    || (cl.phase == LoggingIn && !m.AuthOk?)
    || (cl.side == Host && cl.phase == AwaitingDevice && !m.DeviceRegistered?)
    || (cl.side == Controller && cl.phase == AwaitingSession && !m.ConnectionEstablished?)
    || (Calls(cl, m) && !ok && !(cl.side == Controller && cl.phase == Streaming))
  }

  /** Nothing else a client reads stops it. */
  lemma ReadingStops(cl: Client, m: ServerMessage, sdp: string, ok: bool)
    requires ClientOk(cl) && cl.phase != Stopped
    ensures React(cl, m, sdp, ok).phase == Stopped <==> Ends(cl, m, ok)
  {
    hide Sends, Leads, NoSignals, OnlyFor;
  }

  /** A running client is stopped by a move exactly when it crashes, or reads its end. */
  lemma StopsExactly(y: System, m: Move, c: ConnId)
    requires Inv(y) && Possible(y, m) && c in y.clients && y.clients[c].phase != Stopped
    ensures c in Next(y, m).clients
    ensures Next(y, m).clients[c].phase == Stopped <==>
      || m == Crash(c)
      || (m.Act? && m.c == c && Ends(y.clients[c], y.server.net.queues[c][y.clients[c].read], m.ok))
  {
    hide Relaying.Good, Carried, ClientOk, React, Ordered, Signaling.Step, Signaling.Enabled, Ends;
    assert Linked(y.server, c, y.clients[c]);
    LaunchIsNew(y, m);
    if m.Act? && m.c == c { ReadingStops(y.clients[c], y.server.net.queues[c][y.clients[c].read], m.sdp, m.ok); }
  }

  // ----- The session that a host serves -----

  /** The first session announced on a channel. */
  function FirstIncoming(q: seq<ServerMessage>): Option<SessionId> {
    if q == [] then None
    else
      match FirstIncoming(q[..|q| - 1])
      case Some(x) => Some(x)
      case None => if q[|q| - 1].IncomingConnection? then Some(q[|q| - 1].session) else None
  }

  ghost predicate ServesFirst(y: System, c: ConnId) {
    c in y.clients && y.clients[c].side == Host && y.clients[c].phase != Stopped ==>
      && c in y.server.net.queues && y.clients[c].read <= |y.server.net.queues[c]|
      && y.clients[c].session == FirstIncoming(y.server.net.queues[c][..y.clients[c].read])
  }

  lemma FirstIncomingAppend(q: seq<ServerMessage>, m: ServerMessage)
    ensures FirstIncoming(q + [m]) ==
      if FirstIncoming(q).Some? then FirstIncoming(q) else if m.IncomingConnection? then Some(m.session) else None
  {
    assert (q + [m])[..|q|] == q;
  }

  lemma HostJoins(cl: Client, m: ServerMessage, sdp: string, ok: bool)
    requires ClientOk(cl) && cl.side == Host && cl.phase != Stopped && React(cl, m, sdp, ok).phase != Stopped
    ensures React(cl, m, sdp, ok).session == if cl.session == None && m.IncomingConnection? then Some(m.session) else cl.session
  {
    hide Sends, Leads, NoSignals, OnlyFor;
  }

  lemma ServesFirstActs(y: System, m: Move)
    requires Inv(y) && Possible(y, m) && m.Act? && ServesFirst(y, m.c)
    ensures ServesFirst(Next(y, m), m.c)
  {
    hide Relaying.Good, Carried, ClientOk, React, Ordered, FirstIncoming;
    var cl, q := y.clients[m.c], y.server.net.queues[m.c];
    var msg := q[cl.read];
    assert Linked(y.server, m.c, cl);
    StoppedReads(cl, msg, m.sdp, m.ok);
    ReactKeepsHistory(cl, msg, m.sdp, m.ok);
    if cl.side == Host && React(cl, msg, m.sdp, m.ok).phase != Stopped {
      HostJoins(cl, msg, m.sdp, m.ok);
      assert q[..cl.read + 1] == q[..cl.read] + [msg];
      FirstIncomingAppend(q[..cl.read], msg);
    }
  }

  lemma StoppedReads(cl: Client, m: ServerMessage, sdp: string, ok: bool)
    ensures cl.phase == Stopped ==> React(cl, m, sdp, ok).phase == Stopped
  {
  }

  lemma ServesFirstStep(y: System, m: Move, c: ConnId)
    requires Inv(y) && Possible(y, m) && ServesFirst(y, c)
    ensures ServesFirst(Next(y, m), c)
  {
    if m.Act? && m.c == c {
      hide Inv, Next, ServesFirst;
      ServesFirstActs(y, m);
    } else if c in y.clients {
      hide Inv, FirstIncoming, Signaling.Step, Signaling.Enabled, React;
      OtherMovesKeep(y, m, c);
      SameSide(y, m, c);
      var q, q', r := y.server.net.queues[c], Next(y, m).server.net.queues[c], y.clients[c].read;
      assert r <= |q| ==> q'[..r] == q[..r];
    } else {
      hide Inv;
      LaunchedBlank(y, m, c);
    }
  }

  lemma SameSide(y: System, m: Move, c: ConnId)
    requires Inv(y) && Possible(y, m) && c in y.clients && !(m.Act? && m.c == c)
    ensures c in Next(y, m).clients && Next(y, m).clients[c].side == y.clients[c].side
    ensures Next(y, m).clients[c].phase == y.clients[c].phase || Next(y, m).clients[c].phase == Stopped
  {
    hide Core, Signaling.Step, Signaling.Enabled, React;
    QueueOfClient(y, c);
    LaunchIsNew(y, m);
  }

  /** In every run, a host that has not stopped is in the first session announced to it that it has read of, and in none before. */
  lemma {:induction false} HostServesFirst(ms: seq<Move>, c: ConnId)
    requires Run(ms)
    ensures ServesFirst(After(ms), c)
  {
    if ms != [] {
      hide ServesFirst, Next, Possible, Inv;
      HostServesFirst(ms[..|ms| - 1], c);
      InvAfter(ms[..|ms| - 1]);
      ServesFirstStep(After(ms[..|ms| - 1]), ms[|ms| - 1], c);
    }
  }
}
