/** Clients do what their users asked for: what they write, and which device a controller's session leads to. */
module Purpose {
  import opened Text
  import opened Protocol
  import opened Clients
  import Signaling
  import Relaying
  import opened Negotiation
  import Candidates

  // ----- What a client writes -----

  /** The messages that a client with this side, plan and session has reason to write. */
  predicate OnPlan(cl: Client, w: ClientMessage) {
    match w
    case Register(email, password) => email == cl.plan.email && password == cl.plan.password
    case Login(email, password) => email == cl.plan.email && password == cl.plan.password
    case RegisterDevice(name) => cl.side == Host && name == cl.plan.deviceName
    case RequestConnection(target, credential) => cl.side == Controller && target == cl.plan.target && credential == cl.plan.credential
    case Relay(x, signal) => cl.session == Some(x) && (signal.Offer? ==> cl.side == Controller) && (signal.Answer? ==> cl.side == Host)
    case RequestTurnCredentials => true
    case _ => false
  }

  ghost predicate AllOnPlan(cl: Client) {
    forall i :: 0 <= i < |cl.sent| ==> OnPlan(cl, cl.sent[i])
  }

  lemma HostOnPlan(cl: Client, m: ServerMessage, sdp: string, ok: bool)
    requires ClientOk(cl) && AllOnPlan(cl) && cl.side == Host
    ensures var cl' := HostReact(cl, m, sdp, ok); AllOnPlan(cl') && cl'.plan == cl.plan
  {
    hide Sends, Leads;
  }

  lemma ControllerOnPlan(cl: Client, m: ServerMessage, sdp: string, ok: bool)
    requires ClientOk(cl) && AllOnPlan(cl) && cl.side == Controller
    ensures var cl' := ControllerReact(cl, m, sdp, ok); AllOnPlan(cl') && cl'.plan == cl.plan
  {
    hide Sends, Leads;
  }

  lemma ReactOnPlan(cl: Client, m: ServerMessage, sdp: string, ok: bool)
    requires ClientOk(cl) && AllOnPlan(cl)
    ensures AllOnPlan(React(cl, m, sdp, ok)) && React(cl, m, sdp, ok).plan == cl.plan
  {
    hide HostReact, ControllerReact, AllOnPlan, ClientOk;
    if cl.side == Host { HostOnPlan(cl, m, sdp, ok); } else { ControllerOnPlan(cl, m, sdp, ok); }
  }

  lemma OnPlanStep(y: System, m: Move, c: ConnId)
    requires Inv(y) && Possible(y, m) && (c in y.clients ==> AllOnPlan(y.clients[c]))
    ensures c in Next(y, m).clients ==> AllOnPlan(Next(y, m).clients[c])
  {
    hide Relaying.Good, Carried, ClientOk, React, Ordered, Signaling.Step, Signaling.Enabled;
    if c in y.clients {
      assert Linked(y.server, c, y.clients[c]);
      if m.Act? && m.c == c { ReactOnPlan(y.clients[c], y.server.net.queues[c][y.clients[c].read], m.sdp, m.ok); }
    }
  }

  /** In every run, everything that any client has written follows from its plan and its session. */
  lemma {:induction false} ClientsKeepToPlan(ms: seq<Move>, c: ConnId)
    requires Run(ms)
    ensures c in After(ms).clients ==> AllOnPlan(After(ms).clients[c])
  {
    if ms != [] {
      hide AllOnPlan, Next, Possible, Inv;
      ClientsKeepToPlan(ms[..|ms| - 1], c);
      InvAfter(ms[..|ms| - 1]);
      OnPlanStep(After(ms[..|ms| - 1]), ms[|ms| - 1], c);
    }
  }

  // ----- The server's part of a run -----

  predicate TouchesServer(m: Move) { m.Environment? || m.Launches? || m.Deliver? }

  /** The events that the moves consist of. */
  ghost function Events(ms: seq<Move>): seq<Signaling.Event>
    requires Run(ms)
  {
    if ms == [] then []
    else
      var y, m := After(ms[..|ms| - 1]), ms[|ms| - 1];
      Events(ms[..|ms| - 1]) + if TouchesServer(m) then [ServerEvent(y, m)] else []
  }

  lemma ServerMove(y: System, m: Move)
    requires Possible(y, m)
    ensures if TouchesServer(m) then Signaling.Enabled(y.server, ServerEvent(y, m)) && Next(y, m).server == Signaling.Step(y.server, ServerEvent(y, m))
            else Next(y, m).server == y.server
  {
    hide Signaling.Step, Signaling.Enabled, React;
  }

  /** They are a run of the server, to the same state. */
  lemma {:induction false} ServerRuns(ms: seq<Move>)
    requires Run(ms)
    ensures Signaling.Run(Signaling.INIT, Events(ms)) && Signaling.After(Signaling.INIT, Events(ms)) == After(ms).server
  {
    if ms != [] {
      hide Next, Possible, Signaling.Step, Signaling.Enabled, Signaling.Run, Signaling.After, ServerEvent;
      var front, m := ms[..|ms| - 1], ms[|ms| - 1];
      ServerRuns(front);
      ServerMove(After(front), m);
      if TouchesServer(m) {
        Signaling.Extend(Signaling.INIT, Events(front), ServerEvent(After(front), m));
      } else {
        assert Events(front) + [] == Events(front);
      }
    } else {
      assert Signaling.Run(Signaling.INIT, []);
    }
  }

  // ----- Where a client's messages come from -----

  /** What the server has handled for a client is what that client wrote. */
  ghost predicate Wrote(y: System, e: Signaling.Event) {
    e.Receive? && e.c in y.clients ==> e.m in y.clients[e.c].sent
  }

  lemma WroteStep(y: System, m: Move, e: Signaling.Event)
    requires Inv(y) && Possible(y, m) && Wrote(y, e) && (e.Receive? ==> e.c in y.server.net.queues)
    ensures Wrote(Next(y, m), e)
  {
    hide Core, Signaling.Step, Signaling.Enabled, HostReact, ControllerReact;
    Candidates.LaunchIsNew(y, m);
    if m.Act? { ReactKeepsHistory(y.clients[m.c], y.server.net.queues[m.c][y.clients[m.c].read], m.sdp, m.ok); }
  }

  lemma NewEventWritten(y: System, m: Move)
    requires Inv(y) && Possible(y, m) && TouchesServer(m)
    ensures Wrote(Next(y, m), ServerEvent(y, m))
    ensures ServerEvent(y, m).Receive? ==> ServerEvent(y, m).c in Next(y, m).server.net.queues
  {
    hide Signaling.Step, React, Signaling.React, Signaling.For, Relaying.Linked, Linked, Carried, Ordered;
    var e := ServerEvent(y, m);
    if e.Receive? { Relaying.QueueStep(y.server, e, e.c); }
  }

  ghost predicate AllWritten(y: System, es: seq<Signaling.Event>) {
    forall k :: 0 <= k < |es| ==> Wrote(y, es[k]) && (es[k].Receive? ==> es[k].c in y.server.net.queues)
  }

  lemma KnownStays(y: System, m: Move, c: ConnId)
    requires Possible(y, m) && c in y.server.net.queues
    ensures c in Next(y, m).server.net.queues
  {
    hide Signaling.Step, Signaling.Enabled, React, Signaling.React, Signaling.For;
    if TouchesServer(m) { Relaying.QueueStep(y.server, ServerEvent(y, m), c); }
  }

  lemma {:induction false} EventsWritten(ms: seq<Move>)
    requires Run(ms)
    ensures AllWritten(After(ms), Events(ms))
  {
    if ms != [] {
      hide Next, Possible, Inv, Wrote, ServerEvent;
      var front, m := ms[..|ms| - 1], ms[|ms| - 1];
      var y, es := After(front), Events(ms);
      EventsWritten(front);
      InvAfter(front);
      if TouchesServer(m) { NewEventWritten(y, m); }
      forall k | 0 <= k < |es| ensures Wrote(After(ms), es[k]) && (es[k].Receive? ==> es[k].c in After(ms).server.net.queues) {
        if k < |Events(front)| {
          assert es[k] == Events(front)[k];
          WroteStep(y, m, es[k]);
          if es[k].Receive? { KnownStays(y, m, es[k].c); }
        }
      }
    }
  }

  /**
   * In every run, the session that a controller is in was opened by that controller's own request, with the credential
   * its user gave, valid at that moment, for the device its user named, which was online on the session's host.
   */
  lemma ControllerGetsItsDevice(ms: seq<Move>, c: ConnId, x: SessionId) returns (k: nat)
    requires Run(ms) && c in After(ms).clients && After(ms).clients[c].side == Controller && After(ms).clients[c].session == Some(x)
    ensures x in After(ms).server.net.sessions
    ensures Relaying.OpensAt(Events(ms), k, x, After(ms).server.net.sessions[x]) && After(ms).server.net.sessions[x].a == c
    ensures Events(ms)[k].c == c
    ensures Events(ms)[k].m == RequestConnection(After(ms).clients[c].plan.target, After(ms).clients[c].plan.credential)
  {
    hide Next, Possible, Signaling.Run, Signaling.After, Signaling.Step, Signaling.Enabled, Relaying.Good, Carried, Ordered, Sends, Relaying.Signals, Wrote;
    var y, es := After(ms), Events(ms);
    InvAfter(ms);
    ServerRuns(ms);
    EventsWritten(ms);
    ClientsKeepToPlan(ms, c);
    assert Linked(y.server, c, y.clients[c]);
    Relaying.SessionOrigin(es, x);
    k :| 0 <= k < |es| && Relaying.OpensAt(es, k, x, y.server.net.sessions[x]);
    assert Wrote(y, es[k]);
    WrittenOnPlan(y, es[k], c);
  }

  lemma WrittenOnPlan(y: System, e: Signaling.Event, c: ConnId)
    requires Wrote(y, e) && e.Receive? && e.c == c && c in y.clients && AllOnPlan(y.clients[c])
    ensures OnPlan(y.clients[c], e.m)
  {
  }
}
