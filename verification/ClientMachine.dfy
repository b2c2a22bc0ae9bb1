/**
 * The host and the controller as the program writes them, updating their state message by message. Each entry point is
 * a move of the whole system, so what is proved of its runs holds of these objects.
 */
module ClientMachine {
  import opened Text
  import opened Protocol
  import opened Clients
  import Negotiation
  import Candidates

  class Machine {
    const side: Side
    const plan: Plan
    var phase: Phase
    var session: Option<SessionId>
    var local: Option<string>
    var remote: Option<string>
    var candidates: seq<string>
    var sent: seq<ClientMessage>
    ghost var delivered: nat
    var read: nat

    ghost function Value(): Client
      reads this
    {
      Client(side, plan, phase, session, local, remote, candidates, sent, delivered, read)
    }

    /** The object is the client on connection `c` after the moves `ms`. */
    ghost predicate Follows(ms: seq<Negotiation.Move>, c: ConnId)
      reads this
    {
      Negotiation.Run(ms) && c in Negotiation.After(ms).clients && Negotiation.After(ms).clients[c] == Value()
    }

    /** It still is, whatever the server, the network and everyone else do. */
    ghost method Observe(ms: seq<Negotiation.Move>, m: Negotiation.Move, c: ConnId)
      requires Follows(ms, c) && Negotiation.Possible(Negotiation.After(ms), m)
      requires m.Act? || m.Gathers? || m.Crash? ==> m.c != c
      modifies this`delivered
      ensures Follows(ms + [m], c)
    {
      if m.Deliver? && m.c == c {
        delivered := delivered + 1;
      }
      hide Negotiation.Run, Negotiation.After, Negotiation.Core;
      Negotiation.Extend(ms, m);
      if m.Launches? {
        Negotiation.InvAfter(ms);
        Negotiation.QueueOfClient(Negotiation.After(ms), c);
      }
    }

    constructor (side: Side, plan: Plan, ghost ms: seq<Negotiation.Move>, ghost c: ConnId)
      requires Negotiation.Run(ms) && Negotiation.Possible(Negotiation.After(ms), Negotiation.Launches(c, side, plan))
      ensures Value() == Launch(side, plan)
      ensures Follows(ms + [Negotiation.Launches(c, side, plan)], c)
    {
      this.side, this.plan := side, plan;
      phase := SigningUp;
      session, local, remote, candidates := None, None, None, [];
      sent := [Register(plan.email, plan.password)];
      delivered, read := 0, 0;
      new;
      hide Negotiation.Run, Negotiation.After;
      Negotiation.Extend(ms, Negotiation.Launches(c, side, plan));
    }

    method Send(m: ClientMessage)
      modifies this`sent
      ensures sent == old(sent) + [m]
    {
      sent := sent + [m];
    }

    /** `authenticate`, up to the first request of the side's own protocol. */
    method Authenticate(m: ServerMessage)
      modifies this`phase, this`sent
      ensures Value() == OnAuth(old(Value()), m)
    {
      if m.AuthOk? {
        if side == Host {
          Send(RegisterDevice(plan.deviceName));
          phase := AwaitingDevice;
        } else {
          Send(RequestTurnCredentials);
          phase := AwaitingTurn;
        }
      } else if m.AuthError? && phase == SigningUp {
        Send(Login(plan.email, plan.password));
        phase := LoggingIn;
      } else {
        phase := Stopped;
      }
    }

    method AddCandidate(text: string, ok: bool)
      modifies this`candidates, this`phase
      ensures Value() == OnCandidate(old(Value()), text, ok)
    {
      if ok {
        candidates := candidates + [text];
      } else if side == Host || phase != Streaming {
        phase := Stopped;
      }
    }

    /** One turn of `serve_connections` or of a loop in `handle_one_connection`. */
    method HostStep(m: ServerMessage, sdp: string, ok: bool)
      modifies this`phase, this`session, this`local, this`remote, this`candidates, this`sent
      ensures Value() == HostReact(old(Value()), m, sdp, ok)
    {
      var mine := m.Relayed? && session == Some(m.session);
      match phase {
        case SigningUp => Authenticate(m);
        case LoggingIn => Authenticate(m);
        case AwaitingDevice => phase := if m.DeviceRegistered? then Serving else Stopped;
        case Serving =>
          if m.IncomingConnection? {
            session := Some(m.session);
            Send(RequestTurnCredentials);
            phase := AwaitingTurn;
          }
        case AwaitingTurn => phase := AwaitingOffer;
        case AwaitingOffer =>
          if mine && m.signal.Offer? {
            remote := Some(m.signal.sdp);
            if ok {
              local := Some(sdp);
              Send(Relay(m.session, Answer(sdp)));
              phase := Streaming;
            } else {
              phase := Stopped;
            }
          } else if mine && m.signal.Candidate? {
            AddCandidate(m.signal.text, ok);
          }
        case Streaming => if mine && m.signal.Candidate? { AddCandidate(m.signal.text, ok); }
        case _ =>
      }
    }

    /** One turn of `connect` or of its background loop. */
    method ControllerStep(m: ServerMessage, sdp: string, ok: bool)
      modifies this`phase, this`session, this`local, this`remote, this`candidates, this`sent
      ensures Value() == ControllerReact(old(Value()), m, sdp, ok)
    {
      var mine := m.Relayed? && session == Some(m.session);
      match phase {
        case SigningUp => Authenticate(m);
        case LoggingIn => Authenticate(m);
        case AwaitingTurn =>
          Send(RequestConnection(plan.target, plan.credential));
          phase := AwaitingSession;
        case AwaitingSession =>
          if m.ConnectionEstablished? && ok {
            session := Some(m.session);
            local := Some(sdp);
            Send(Relay(m.session, Offer(sdp)));
            phase := AwaitingAnswer;
          } else {
            phase := Stopped;
          }
        case AwaitingAnswer =>
          if mine && m.signal.Answer? {
            if ok {
              remote := Some(m.signal.sdp);
            }
            phase := if ok then Streaming else Stopped;
          } else if mine && m.signal.Candidate? {
            AddCandidate(m.signal.text, ok);
          }
        case Streaming => if mine && m.signal.Candidate? { AddCandidate(m.signal.text, ok); }
        case _ =>
      }
    }

    /** The next message on the channel, which is no candidate while the client waits; and the client stays in order. */
    method Receive(m: ServerMessage, sdp: string, ok: bool, ghost ms: seq<Negotiation.Move>, ghost c: ConnId)
      requires Follows(ms, c) && Negotiation.Possible(Negotiation.After(ms), Negotiation.Act(c, sdp, ok))
      requires m == Negotiation.After(ms).server.net.queues[c][read]
      modifies this
      ensures Follows(ms + [Negotiation.Act(c, sdp, ok)], c)
      ensures NoEarlyCandidate(Negotiation.After(ms), c, old(Value()), m)
      ensures InStep(Negotiation.After(ms + [Negotiation.Act(c, sdp, ok)]), c, Value())
      ensures AddsAll(ms + [Negotiation.Act(c, sdp, ok)], c, Value())
    {
      hide Negotiation.Run, Negotiation.After, NoEarlyCandidate, InStep, AddsAll;
      ghost var y := Negotiation.After(ms);
      NeverEarly(ms, c);
      Advance(m, sdp, ok);
      Negotiation.Extend(ms, Negotiation.Act(c, sdp, ok));
      AlwaysInStep(ms + [Negotiation.Act(c, sdp, ok)], c);
      AlwaysAddsAll(ms + [Negotiation.Act(c, sdp, ok)], c);
    }

    method Advance(m: ServerMessage, sdp: string, ok: bool)
      modifies this
      ensures Value() == React(old(Value()), m, sdp, ok).(read := old(read) + 1)
    {
      if side == Host {
        HostStep(m, sdp, ok);
      } else {
        ControllerStep(m, sdp, ok);
      }
      read := read + 1;
    }

    /** The arm of the final loop that drains locally gathered candidates. */
    method SendCandidate(text: string, ghost ms: seq<Negotiation.Move>, ghost c: ConnId)
      requires Follows(ms, c)
      modifies this`sent
      ensures Value() == Gather(old(Value()), text)
      ensures Follows(ms + [Negotiation.Gathers(c, text)], c)
    {
      if phase == Streaming && session.Some? {
        Send(Relay(session.value, Candidate(text)));
      }
      hide Negotiation.Run, Negotiation.After;
      Negotiation.Extend(ms, Negotiation.Gathers(c, text));
    }
  }

  // ----- The theorems about whole runs, seen from one end of a session whose ends both run the client code -----

  /** A waiting client does not find a candidate of its session next. */
  ghost predicate NoEarlyCandidate(y: Negotiation.System, c: ConnId, cl: Client, m: ServerMessage) {
    forall x: SessionId, a: ConnId, b: ConnId :: Negotiation.Paired(y, x, a, b) && (c == a || c == b) && cl.session == Some(x) ==>
      cl.phase == AwaitingOffer || cl.phase == AwaitingAnswer ==> !Negotiation.IsCandidate(m, x)
  }

  /** Candidates came after the remote description, and an accepted answer is the host's, to this client's own offer. */
  ghost predicate InStep(y: Negotiation.System, c: ConnId, cl: Client) {
    forall x: SessionId, a: ConnId, b: ConnId :: Negotiation.Paired(y, x, a, b) && cl.session == Some(x) ==>
      && ((c == a || c == b) && cl.candidates != [] ==> cl.remote.Some?)
      && (c == a && cl.remote.Some? ==> y.clients[b].local == cl.remote && y.clients[b].remote == cl.local)
  }

  /** A client in a session has added all candidates it was sent and has read, in order, exactly when it missed none. */
  ghost predicate AddsAll(ms: seq<Negotiation.Move>, c: ConnId, cl: Client)
    requires Negotiation.Run(ms)
  {
    var y := Negotiation.After(ms);
    && c in y.clients && c in y.server.net.queues && y.clients[c].read <= |y.server.net.queues[c]|
    && (cl.session.Some? ==> (cl.candidates == Candidates.Offered(y, c, cl.session.value) <==> Candidates.MissCount(ms, c) == 0))
  }

  lemma AlwaysAddsAll(ms: seq<Negotiation.Move>, c: ConnId)
    requires Negotiation.Run(ms) && c in Negotiation.After(ms).clients
    ensures AddsAll(ms, c, Negotiation.After(ms).clients[c])
  {
    hide Negotiation.Run, Negotiation.After, Candidates.MissCount;
    Candidates.TallyAfter(ms, c);
  }

  lemma NeverEarly(ms: seq<Negotiation.Move>, c: ConnId)
    requires Negotiation.Run(ms) && c in Negotiation.After(ms).clients && c in Negotiation.After(ms).server.net.queues
    requires Negotiation.After(ms).clients[c].read < |Negotiation.After(ms).server.net.queues[c]|
    ensures var y := Negotiation.After(ms); NoEarlyCandidate(y, c, y.clients[c], y.server.net.queues[c][y.clients[c].read])
  {
    hide Negotiation.Run, Negotiation.After, Negotiation.IsCandidate;
    var y := Negotiation.After(ms);
    var cl := y.clients[c];
    forall x: SessionId, a: ConnId, b: ConnId | Negotiation.Paired(y, x, a, b) && (c == a || c == b) && cl.session == Some(x)
        && (cl.phase == AwaitingOffer || cl.phase == AwaitingAnswer)
      ensures !Negotiation.IsCandidate(y.server.net.queues[c][cl.read], x)
    {
      Negotiation.CandidateBranchesUnreachable(ms, x, a, b);
      WaitsByRole(ms, c);
    }
  }

  /** Only a host waits for an offer, and only a controller for an answer. */
  lemma WaitsByRole(ms: seq<Negotiation.Move>, c: ConnId)
    requires Negotiation.Run(ms) && c in Negotiation.After(ms).clients && Negotiation.After(ms).clients[c].session.Some?
    ensures var cl := Negotiation.After(ms).clients[c];
      (cl.phase == AwaitingOffer ==> cl.side == Host) && (cl.phase == AwaitingAnswer ==> cl.side == Controller)
  {
    hide Negotiation.Run, Negotiation.After, Negotiation.Sends, Negotiation.Carried;
    Negotiation.InvAfter(ms);
    assert Negotiation.Linked(Negotiation.After(ms).server, c, Negotiation.After(ms).clients[c]);
  }

  lemma AlwaysInStep(ms: seq<Negotiation.Move>, c: ConnId)
    requires Negotiation.Run(ms) && c in Negotiation.After(ms).clients
    ensures InStep(Negotiation.After(ms), c, Negotiation.After(ms).clients[c])
  {
    hide Negotiation.Run, Negotiation.After;
    var y := Negotiation.After(ms);
    var cl := y.clients[c];
    forall x: SessionId, a: ConnId, b: ConnId | Negotiation.Paired(y, x, a, b) && cl.session == Some(x)
      ensures (c == a || c == b) && cl.candidates != [] ==> cl.remote.Some?
      ensures c == a && cl.remote.Some? ==> y.clients[b].local == cl.remote && y.clients[b].remote == cl.local
    {
      Negotiation.CandidatesAfterDescriptions(ms, x, a, b);
      if c == a && cl.remote.Some? { Negotiation.AnswersMatchOffers(ms, x, a, b); }
    }
  }
}
