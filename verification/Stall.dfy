/**
 * The one way in which a negotiation between two clients hangs without a failure: the host takes the next message
 * after its TURN request for the reply, and if that is the offer, the offer is lost for good.
 */
module Stall {
  import opened Text
  import opened Protocol
  import opened Clients
  import Signaling
  import Relaying
  import opened Negotiation
  import Candidates

  /** The signals of session `x` that client `c` has read. */
  ghost function Heard(y: System, c: ConnId, x: SessionId): seq<Signal>
    requires c in y.clients && c in y.server.net.queues && y.clients[c].read <= |y.server.net.queues[c]|
  {
    Relaying.Signals(y.server.net.queues[c][..y.clients[c].read], x)
  }

  ghost predicate HasHeard(y: System, c: ConnId, x: SessionId) {
    c in y.clients && c in y.server.net.queues && y.clients[c].read <= |y.server.net.queues[c]| && Heard(y, c, x) != []
  }

  /** The host in session `x` has read signals of it, and holds no remote description. */
  ghost predicate Stalled(y: System, x: SessionId, b: ConnId) {
    && HasHeard(y, b, x) && y.clients[b].session == Some(x) && y.clients[b].remote == None
    && (y.clients[b].phase == AwaitingOffer || y.clients[b].phase == Stopped)
  }

  /** Then its controller has no answer, and has sent nothing but its offer. */
  lemma StalledIsSilent(y: System, x: SessionId, a: ConnId, b: ConnId)
    requires Inv(y) && Paired(y, x, a, b) && b in y.clients && y.clients[b].session == Some(x) && y.clients[b].remote == None
    ensures y.clients[a].session == Some(x) ==> y.clients[a].remote == None
    ensures b in y.server.net.queues && |Relaying.Signals(y.server.net.queues[b], x)| <= 1
    ensures Relaying.Signals(y.server.net.queues[b], x) != [] ==>
      y.clients[a].session == Some(x) && y.clients[a].local.Some? && Relaying.Signals(y.server.net.queues[b], x) == [Offer(y.clients[a].local.value)]
  {
    hide Relaying.Good, Sends, Relaying.Signals, Carried, Ordered;
    var ctl := y.clients[a];
    assert Linked(y.server, a, ctl) && Linked(y.server, b, y.clients[b]);
    ChannelFollowsSender(y, x, a, b);
    if ctl.session != Some(x) {
      NotJoinedSilent(y.server, a, ctl, x);
    } else if ctl.remote.Some? {
      Agreement(y, x, a, b);
    }
  }

  /** A pair stays a pair. */
  lemma PairedStays(y: System, m: Move, x: SessionId, a: ConnId, b: ConnId)
    requires Inv(y) && Possible(y, m) && Paired(y, x, a, b)
    ensures Paired(Next(y, m), x, a, b)
  {
    hide Relaying.Signals, Carried, ClientOk, Signaling.Step, Signaling.Enabled, HostReact, ControllerReact, Ordered, Relaying.Good, Linked;
    if m.Environment? || m.Launches? || m.Deliver? { Candidates.SameSession(y.server, ServerEvent(y, m), x); }
    QueueOfClient(y, a);
    QueueOfClient(y, b);
    Candidates.LaunchIsNew(y, m);
    if m.Act? { ReactKeepsHistory(y.clients[m.c], y.server.net.queues[m.c][y.clients[m.c].read], m.sdp, m.ok); }
  }

  /** Moves other than its own reading leave a client in its phase, or stop it. */
  lemma OtherMovesPhase(y: System, m: Move, c: ConnId)
    requires Inv(y) && Possible(y, m) && c in y.clients && !(m.Act? && m.c == c)
    ensures c in Next(y, m).clients && Next(y, m).clients[c].session == y.clients[c].session && Next(y, m).clients[c].remote == y.clients[c].remote
    ensures Next(y, m).clients[c].phase == y.clients[c].phase || Next(y, m).clients[c].phase == Stopped
  {
    hide Core, Signaling.Step, Signaling.Enabled, React;
    QueueOfClient(y, c);
    Candidates.LaunchIsNew(y, m);
  }

  lemma HeardKept(y: System, m: Move, c: ConnId, x: SessionId)
    requires Inv(y) && Possible(y, m) && c in y.clients && !(m.Act? && m.c == c)
    requires c in y.server.net.queues && y.clients[c].read <= |y.server.net.queues[c]|
    ensures c in Next(y, m).clients && c in Next(y, m).server.net.queues && Next(y, m).clients[c].read <= |Next(y, m).server.net.queues[c]|
    ensures Heard(Next(y, m), c, x) == Heard(y, c, x)
  {
    hide Inv, Next, Possible;
    Candidates.OtherMovesKeep(y, m, c);
    var q, q', r := y.server.net.queues[c], Next(y, m).server.net.queues[c], y.clients[c].read;
    assert q'[..r] == q[..r];
  }

  lemma HeardMore(y: System, m: Move, x: SessionId)
    requires Possible(y, m) && m.Act?
    ensures m.c in Next(y, m).clients && m.c in Next(y, m).server.net.queues && Next(y, m).clients[m.c].read <= |Next(y, m).server.net.queues[m.c]|
    ensures Heard(Next(y, m), m.c, x) ==
      Heard(y, m.c, x) + Relaying.SignalIn(y.server.net.queues[m.c][y.clients[m.c].read], x)
  {
    hide Relaying.Signals, HostReact, ControllerReact;
    var q, i := y.server.net.queues[m.c], y.clients[m.c].read;
    ReactKeepsHistory(y.clients[m.c], q[i], m.sdp, m.ok);
    assert q[..i + 1] == q[..i] + [q[i]];
    Relaying.SignalsAppend(q[..i], q[i], x);
  }

  /** A stalled host has heard all there is. */
  lemma StalledHearsNoMore(y: System, m: Move, x: SessionId, a: ConnId, b: ConnId)
    requires Inv(y) && Paired(y, x, a, b) && Stalled(y, x, b) && Possible(y, m) && m.Act? && m.c == b
    ensures Relaying.SignalIn(y.server.net.queues[b][y.clients[b].read], x) == []
  {
    hide Inv, Relaying.Signals;
    StalledIsSilent(y, x, a, b);
    var q, i := y.server.net.queues[b], y.clients[b].read;
    if q[i].Relayed? && q[i].session == x { NextSignal(q, i, x); }
  }

  lemma StalledActs(y: System, m: Move, x: SessionId, a: ConnId, b: ConnId)
    requires Inv(y) && Paired(y, x, a, b) && Stalled(y, x, b) && Possible(y, m) && m.Act? && m.c == b
    ensures Stalled(Next(y, m), x, b)
  {
    hide Inv, Heard, ControllerReact;
    StalledHearsNoMore(y, m, x, a, b);
    HeardMore(y, m, x);
  }

  lemma StalledStep(y: System, m: Move, x: SessionId, a: ConnId, b: ConnId)
    requires Inv(y) && Paired(y, x, a, b) && Stalled(y, x, b) && Possible(y, m)
    ensures Stalled(Next(y, m), x, b)
  {
    if m.Act? && m.c == b {
      hide Inv, Stalled, Next;
      StalledActs(y, m, x, a, b);
    } else {
      hide Inv, Heard, Next, Possible;
      HeardKept(y, m, b, x);
      OtherMovesPhase(y, m, b);
    }
  }

  /** Two descriptions that were never exchanged: no continuation of a stalled run gives either side its remote description. */
  lemma {:induction false} StalledForGood(ms: seq<Move>, more: seq<Move>, x: SessionId, a: ConnId, b: ConnId)
    requires Run(ms) && Paired(After(ms), x, a, b) && Stalled(After(ms), x, b) && Run(ms + more)
    ensures var y := After(ms + more);
      && Paired(y, x, a, b) && Stalled(y, x, b) && y.clients[b].remote == None
      && (y.clients[a].session == Some(x) ==> y.clients[a].remote == None)
  {
    hide Next, Possible, Inv, Stalled, Paired;
    InvAfter(ms + more);
    if more == [] {
      assert ms + more == ms;
    } else {
      var front, m := more[..|more| - 1], more[|more| - 1];
      assert (ms + more)[..|ms + more| - 1] == ms + front;
      StalledForGood(ms, front, x, a, b);
      InvAfter(ms + front);
      PairedStays(After(ms + front), m, x, a, b);
      StalledStep(After(ms + front), m, x, a, b);
    }
    StalledNothing(After(ms + more), x, a, b);
  }

  lemma StalledNothing(y: System, x: SessionId, a: ConnId, b: ConnId)
    requires Inv(y) && Paired(y, x, a, b) && Stalled(y, x, b)
    ensures y.clients[b].remote == None && (y.clients[a].session == Some(x) ==> y.clients[a].remote == None)
  {
    hide Inv;
    StalledIsSilent(y, x, a, b);
  }

  // ----- Exactly when it happens -----

  /** By move `m` host `b` takes a signal of its session `x` for the TURN reply. */
  predicate TakesForTurn(y: System, m: Move, x: SessionId, b: ConnId) {
    && m.Act? && m.c == b && Possible(y, m) && y.clients[b].session == Some(x) && y.clients[b].phase == AwaitingTurn
    && Relaying.SignalIn(y.server.net.queues[b][y.clients[b].read], x) != []
  }

  ghost predicate TakesForTurnAt(ms: seq<Move>, k: nat, x: SessionId, b: ConnId) {
    k < |ms| && Run(ms[..k]) && TakesForTurn(After(ms[..k]), ms[k], x, b)
  }

  /** A host in session `x` has heard nothing of it yet when it waits for its TURN reply. */
  ghost predicate FreshWait(y: System, b: ConnId) {
    b in y.clients && y.clients[b].side == Host && y.clients[b].phase == AwaitingTurn && y.clients[b].session.Some? ==>
      !HasHeard(y, b, y.clients[b].session.value)
  }

  lemma FreshWaitActs(y: System, m: Move)
    requires Inv(y) && Possible(y, m) && m.Act?
    ensures FreshWait(Next(y, m), m.c)
  {
    hide Relaying.Good, Carried, Relaying.Signals, Sends, Leads, NoSignals, OnlyFor, Ordered, ControllerReact;
    var b := m.c;
    assert Linked(y.server, b, y.clients[b]);
    var cl := y.clients[b];
    var msg := y.server.net.queues[b][cl.read];
    if cl.side == Host && cl.phase == Serving && msg.IncomingConnection? {
      NextMessageOk(y, b);
      HeardMore(y, m, msg.session);
    }
    ReactKeepsHistory(cl, msg, m.sdp, m.ok);
  }

  lemma FreshWaitStep(y: System, m: Move, b: ConnId)
    requires Inv(y) && Possible(y, m) && FreshWait(y, b)
    ensures FreshWait(Next(y, m), b)
  {
    if m.Act? && m.c == b {
      hide Inv, Next, FreshWait;
      FreshWaitActs(y, m);
    } else if b in y.clients {
      hide Inv, Heard, Signaling.Step, Signaling.Enabled, React;
      InvQueues(y, b);
      Candidates.OtherMovesKeep(y, m, b);
      if y.clients[b].session.Some? { HeardKept(y, m, b, y.clients[b].session.value); }
    } else {
      hide Inv, Heard;
      Candidates.LaunchedBlank(y, m, b);
    }
  }

  lemma InvQueues(y: System, c: ConnId)
    requires Inv(y) && c in y.clients
    ensures c in y.server.net.queues && y.clients[c].read <= |y.server.net.queues[c]|
  {
    hide Relaying.Good;
    assert Linked(y.server, c, y.clients[c]);
  }

  lemma {:induction false} FreshWaitAfter(ms: seq<Move>, b: ConnId)
    requires Run(ms)
    ensures FreshWait(After(ms), b)
  {
    if ms != [] {
      hide FreshWait, Next, Possible, Inv;
      FreshWaitAfter(ms[..|ms| - 1], b);
      InvAfter(ms[..|ms| - 1]);
      FreshWaitStep(After(ms[..|ms| - 1]), ms[|ms| - 1], b);
    }
  }

  /** How a waiting host comes to have heard a signal: it had already, or takes it for its TURN reply just now. */
  lemma HeardStep(y: System, m: Move, x: SessionId, a: ConnId, b: ConnId)
    requires Inv(y) && Possible(y, m) && Paired(Next(y, m), x, a, b) && FreshWait(y, b)
    requires b in Next(y, m).clients && Next(y, m).clients[b].session == Some(x) && Next(y, m).clients[b].phase == AwaitingOffer
    ensures b in y.clients && y.clients[b].session == Some(x) && Paired(y, x, a, b)
    ensures y.clients[b].phase == AwaitingOffer || y.clients[b].phase == AwaitingTurn
    ensures HasHeard(Next(y, m), b, x) <==> TakesForTurn(y, m, x, b) || (y.clients[b].phase == AwaitingOffer && HasHeard(y, b, x))
  {
    hide Relaying.Good, Carried, Relaying.Signals, Sends, Leads, NoSignals, OnlyFor, Signaling.Step, Signaling.Enabled, Ordered;
    Candidates.HadLaunched(y, m, b);
    InvQueues(y, b);
    assert Linked(y.server, b, y.clients[b]);
    if m.Act? && m.c == b {
      Candidates.PairedBefore(y, m, x, a, b, b);
      HeardMore(y, m, x);
      FirstIsOffer(y, x, a, b);
    } else {
      Candidates.OtherMovesKeep(y, m, b);
      HeardKept(y, m, b, x);
      Candidates.PairedBefore(y, m, x, a, b, b);
    }
  }

  /** The first signal that a waiting host meets is the offer. */
  lemma FirstIsOffer(y: System, x: SessionId, a: ConnId, b: ConnId)
    requires Inv(y) && Paired(y, x, a, b) && y.clients[b].session == Some(x) && y.clients[b].remote == None
    ensures b in y.server.net.queues
    ensures forall i :: 0 <= i < |y.server.net.queues[b]| && y.server.net.queues[b][i].Relayed? && y.server.net.queues[b][i].session == x ==>
      y.clients[a].local.Some? && y.server.net.queues[b][i].signal == Offer(y.clients[a].local.value)
  {
    hide Inv, Relaying.Signals;
    StalledIsSilent(y, x, a, b);
    var q := y.server.net.queues[b];
    forall i | 0 <= i < |q| && q[i].Relayed? && q[i].session == x
      ensures y.clients[a].local.Some? && q[i].signal == Offer(y.clients[a].local.value)
    {
      NextSignal(q, i, x);
    }
  }

  ghost predicate Taken(ms: seq<Move>, x: SessionId, b: ConnId) {
    exists k: nat :: TakesForTurnAt(ms, k, x, b)
  }

  lemma TakenSnoc(ms: seq<Move>, x: SessionId, b: ConnId)
    requires Run(ms) && ms != []
    ensures Taken(ms, x, b) <==> Taken(ms[..|ms| - 1], x, b) || TakesForTurn(After(ms[..|ms| - 1]), ms[|ms| - 1], x, b)
  {
    hide TakesForTurn, Next, Possible;
    var front, n := ms[..|ms| - 1], |ms| - 1;
    forall k: nat | k < n ensures TakesForTurnAt(ms, k, x, b) <==> TakesForTurnAt(front, k, x, b) { assert front[..k] == ms[..k]; }
    assert TakesForTurnAt(ms, n, x, b) <==> TakesForTurn(After(front), ms[n], x, b);
    if Taken(ms, x, b) {
      var k: nat :| TakesForTurnAt(ms, k, x, b);
      assert k < n ==> TakesForTurnAt(front, k, x, b);
    }
    if Taken(front, x, b) {
      var k: nat :| TakesForTurnAt(front, k, x, b);
      assert TakesForTurnAt(ms, k, x, b);
    }
  }

  /** Client `b` is not past its wait for the TURN reply in session `x`. */
  predicate StillBefore(y: System, x: SessionId, b: ConnId) {
    b !in y.clients || y.clients[b].session == None || (y.clients[b].session == Some(x) && y.clients[b].phase == AwaitingTurn)
  }

  lemma ReadsFromBefore(cl: Client, m: ServerMessage, sdp: string, ok: bool)
    requires ClientOk(cl) && cl.session.Some?
    ensures React(cl, m, sdp, ok).session == cl.session && React(cl, m, sdp, ok).phase != AwaitingTurn
  {
    hide Sends, Leads, NoSignals, OnlyFor;
  }

  lemma BeforeStep(y: System, m: Move, x: SessionId, b: ConnId)
    requires Inv(y) && Possible(y, m) && StillBefore(Next(y, m), x, b)
    ensures StillBefore(y, x, b) && !TakesForTurn(y, m, x, b)
  {
    if b in y.clients {
      if m.Act? && m.c == b {
        hide Relaying.Good, Carried, ClientOk, React, Ordered;
        assert Linked(y.server, b, y.clients[b]);
        if y.clients[b].session.Some? { ReadsFromBefore(y.clients[b], y.server.net.queues[b][y.clients[b].read], m.sdp, m.ok); }
      } else {
        hide Inv, Next;
        OtherMovesPhase(y, m, b);
      }
    }
  }

  lemma {:induction false} NotTakenBefore(ms: seq<Move>, x: SessionId, b: ConnId)
    requires Run(ms) && StillBefore(After(ms), x, b)
    ensures !Taken(ms, x, b)
  {
    if ms != [] {
      hide Next, Possible, Inv, StillBefore, TakesForTurn, TakesForTurnAt;
      InvAfter(ms[..|ms| - 1]);
      BeforeStep(After(ms[..|ms| - 1]), ms[|ms| - 1], x, b);
      NotTakenBefore(ms[..|ms| - 1], x, b);
      TakenSnoc(ms, x, b);
    }
  }

  /**
   * In every run with both ends of a session running the client code: a host that waits for the offer has lost it
   * exactly when it took it for its TURN reply.
   */
  lemma {:induction false} StalledExactly(ms: seq<Move>, x: SessionId, a: ConnId, b: ConnId)
    requires Run(ms) && Paired(After(ms), x, a, b)
    requires After(ms).clients[b].session == Some(x) && After(ms).clients[b].phase == AwaitingOffer
    ensures Stalled(After(ms), x, b) <==> Taken(ms, x, b)
  {
    hide Next, Possible, Inv, HasHeard, TakesForTurn, Taken, FreshWait;
    InvAfter(ms);
    WaitingHasNone(After(ms), x, a, b);
    if ms != [] {
      var front, m := ms[..|ms| - 1], ms[|ms| - 1];
      var y := After(front);
      InvAfter(front);
      FreshWaitAfter(front, b);
      HeardStep(y, m, x, a, b);
      TakenSnoc(ms, x, b);
      if y.clients[b].phase == AwaitingOffer {
        WaitingHasNone(y, x, a, b);
        StalledExactly(front, x, a, b);
      } else {
        NotTakenBefore(front, x, b);
      }
    }
  }

  lemma WaitingHasNone(y: System, x: SessionId, a: ConnId, b: ConnId)
    requires Inv(y) && Paired(y, x, a, b) && y.clients[b].phase == AwaitingOffer
    ensures y.clients[b].remote == None
  {
    hide Relaying.Good, Carried, Ordered;
    assert Linked(y.server, b, y.clients[b]);
  }

  /** A host that has not lost it answers: the next signal it reads is the controller's offer, and unless a call fails it sends an answer to it. */
  lemma UnstalledAnswers(y: System, x: SessionId, a: ConnId, b: ConnId, sdp: string)
    requires Inv(y) && Paired(y, x, a, b) && y.clients[b].session == Some(x) && y.clients[b].phase == AwaitingOffer
    requires Possible(y, Act(b, sdp, true)) && Relaying.SignalIn(y.server.net.queues[b][y.clients[b].read], x) != []
    ensures var host := Next(y, Act(b, sdp, true)).clients[b];
      && host.phase == Streaming && host.local == Some(sdp) && host.remote == y.clients[a].local && host.remote.Some?
      && host.sent == y.clients[b].sent + [Relay(x, Answer(sdp))]
  {
    hide Inv, Heard;
    WaitingHasNone(y, x, a, b);
    FirstIsOffer(y, x, a, b);
  }
}
