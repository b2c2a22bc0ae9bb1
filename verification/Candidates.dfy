/**
 * Which remote candidates reach a peer connection, over whole runs: all that were relayed to the client, in order,
 * except those it read at the wrong moment or failed to add; and between two clients, what the other end gathered.
 */
module Candidates {
  import opened Text
  import opened Protocol
  import opened Clients
  import Signaling
  import Relaying
  import opened Negotiation

  /** The candidates among the signals, in order. */
  function Texts(signals: seq<Signal>): seq<string> {
    if signals == [] then []
    else Texts(signals[..|signals| - 1]) + (if signals[|signals| - 1].Candidate? then [signals[|signals| - 1].text] else [])
  }

  lemma TextsAppend(signals: seq<Signal>, s: Signal)
    ensures Texts(signals + [s]) == Texts(signals) + (if s.Candidate? then [s.text] else [])
  {
    assert (signals + [s])[..|signals|] == signals;
  }

  lemma {:induction false} TextsPrefix(some: seq<Signal>, all: seq<Signal>)
    requires some <= all
    ensures Texts(some) <= Texts(all)
  {
    if some == all {
    } else {
      TextsPrefix(some, all[..|all| - 1]);
    }
  }

  // ----- What a client has read -----

  /** The candidates for session `x` among what client `c` has read. */
  ghost function Offered(y: System, c: ConnId, x: SessionId): seq<string>
    requires c in y.clients && c in y.server.net.queues && y.clients[c].read <= |y.server.net.queues[c]|
  {
    Texts(Relaying.Signals(y.server.net.queues[c][..y.clients[c].read], x))
  }

  /** A client that adds what it reads: in one of the loops that handle candidates. */
  predicate Listening(cl: Client) {
    cl.phase == AwaitingOffer || cl.phase == AwaitingAnswer || cl.phase == Streaming
  }

  /** By move `m` client `c` reads a candidate of its session without adding it: as its TURN reply, after it has stopped, or with a failure. */
  predicate Misses(y: System, m: Move, c: ConnId) {
    && m.Act? && m.c == c && Possible(y, m) && y.clients[c].session.Some?
    && IsCandidate(y.server.net.queues[c][y.clients[c].read], y.clients[c].session.value)
    && !(m.ok && Listening(y.clients[c]))
  }

  ghost function MissCount(ms: seq<Move>, c: ConnId): nat
    requires Run(ms)
  {
    if ms == [] then 0
    else MissCount(ms[..|ms| - 1], c) + if Misses(After(ms[..|ms| - 1]), ms[|ms| - 1], c) then 1 else 0
  }

  /** What client `c` has added falls short of what it was offered by the missed ones. */
  ghost predicate Tallied(y: System, c: ConnId, missed: nat) {
    c in y.clients ==>
      && c in y.server.net.queues && y.clients[c].read <= |y.server.net.queues[c]|
      && match y.clients[c].session
         case None => missed == 0
         case Some(x) =>
           && |y.clients[c].candidates| + missed == |Offered(y, c, x)|
           && (missed == 0 ==> y.clients[c].candidates == Offered(y, c, x))
  }

  /** Reading one message adds its candidate exactly when a listening client succeeds. */
  lemma ReactAdds(cl: Client, m: ServerMessage, sdp: string, ok: bool)
    requires ClientOk(cl)
    ensures var cl' := React(cl, m, sdp, ok);
      && (cl.session.Some? ==> cl'.session == cl.session)
      && cl'.candidates == cl.candidates +
           (if cl.session.Some? && IsCandidate(m, cl.session.value) && ok && Listening(cl) then [m.signal.text] else [])
  {
    hide Sends, Leads, NoSignals, OnlyFor;
    assert cl.candidates + [] == cl.candidates;
  }

  lemma ReadsOne(q: seq<ServerMessage>, i: nat, x: SessionId)
    requires i < |q|
    ensures Texts(Relaying.Signals(q[..i + 1], x)) ==
      Texts(Relaying.Signals(q[..i], x)) + (if IsCandidate(q[i], x) then [q[i].signal.text] else [])
  {
    hide Relaying.Signals, Texts;
    assert q[..i + 1] == q[..i] + [q[i]];
    Relaying.SignalsAppend(q[..i], q[i], x);
    var before := Relaying.Signals(q[..i], x);
    assert before + [] == before && Texts(before) + [] == Texts(before);
    if q[i].Relayed? && q[i].session == x { TextsAppend(before, q[i].signal); }
  }

  lemma ActTallies(y: System, m: Move, missed: nat)
    requires Inv(y) && Possible(y, m) && m.Act? && Tallied(y, m.c, missed)
    ensures Tallied(Next(y, m), m.c, missed + if Misses(y, m, m.c) then 1 else 0)
  {
    hide Relaying.Good, Relaying.Signals, Carried, ClientOk, React, Texts;
    var c := m.c;
    var cl, q := y.clients[c], y.server.net.queues[c];
    var msg := q[cl.read];
    assert Linked(y.server, c, cl);
    ReactAdds(cl, msg, m.sdp, m.ok);
    match cl.session
    case Some(x) => ReadsOne(q, cl.read, x);
    case None =>
      NoneYet(cl);
      Joins(cl, msg, m.sdp, m.ok);
      NextMessageOk(y, c);
      var cl' := React(cl, msg, m.sdp, m.ok);
      if cl'.session.Some? {
        ReadsOne(q, cl.read, cl'.session.value);
        assert Texts([]) == [] by { EmptyTexts(); }
      }
  }

  lemma EmptyTexts()
    ensures Texts([]) == []
  {
  }

  lemma NoneYet(cl: Client)
    requires ClientOk(cl) && cl.session == None
    ensures cl.candidates == []
  {
  }

  /** Moves other than its own reading leave a client's candidates, session and position alone. */
  lemma OtherMovesKeep(y: System, m: Move, c: ConnId)
    requires Inv(y) && Possible(y, m) && c in y.clients && !(m.Act? && m.c == c)
    ensures c in Next(y, m).clients && c in y.server.net.queues && c in Next(y, m).server.net.queues
    ensures var cl, cl' := y.clients[c], Next(y, m).clients[c];
      cl'.session == cl.session && cl'.candidates == cl.candidates && cl'.read == cl.read
    ensures y.server.net.queues[c] <= Next(y, m).server.net.queues[c]
  {
    hide Core, Signaling.Step, Signaling.Enabled, Signaling.React, Signaling.For, React;
    QueueOfClient(y, c);
    if m.Environment? || m.Launches? || m.Deliver? { ChannelsGrow(y, ServerEvent(y, m), c); }
    assert m.Launches? ==> m.c !in y.server.net.queues by { LaunchIsNew(y, m); }
  }

  lemma ChannelsGrow(y: System, e: Signaling.Event, c: ConnId)
    requires Signaling.Enabled(y.server, e) && c in y.server.net.queues
    ensures c in Signaling.Step(y.server, e).net.queues
    ensures y.server.net.queues[c] <= Signaling.Step(y.server, e).net.queues[c]
  {
    hide Signaling.Step, Signaling.Enabled, Signaling.React, Signaling.For;
    Relaying.QueueStep(y.server, e, c);
  }

  lemma LaunchIsNew(y: System, m: Move)
    requires Possible(y, m)
    ensures m.Launches? ==> m.c !in y.server.net.queues
  {
  }

  lemma TallyStep(y: System, m: Move, c: ConnId, missed: nat)
    requires Inv(y) && Possible(y, m) && Tallied(y, c, missed) && (c !in y.clients ==> missed == 0)
    ensures Tallied(Next(y, m), c, missed + if Misses(y, m, c) then 1 else 0)
    ensures c !in Next(y, m).clients ==> missed == 0 && !Misses(y, m, c)
  {
    if m.Act? && m.c == c {
      hide Inv, Next, React;
      ActTallies(y, m, missed);
      ActorStays(y, m);
    } else if c in y.clients {
      hide Inv, Next, Possible;
      OtherMovesKeep(y, m, c);
      var q, q', r := y.server.net.queues[c], Next(y, m).server.net.queues[c], y.clients[c].read;
      assert q'[..r] == q[..r];
    } else {
      hide Inv, React;
      LaunchedBlank(y, m, c);
    }
  }

  lemma ActorStays(y: System, m: Move)
    requires Possible(y, m) && m.Act?
    ensures m.c in Next(y, m).clients
  {
  }

  lemma LaunchedBlank(y: System, m: Move, c: ConnId)
    requires Possible(y, m) && c !in y.clients && !(m.Act? && m.c == c)
    ensures c in Next(y, m).clients ==>
      Next(y, m).clients[c].session == None && Next(y, m).clients[c].read == 0 && c in Next(y, m).server.net.queues
  {
  }

  /** Only a connection that is a client already can be past its launch. */
  lemma HadLaunched(y: System, m: Move, c: ConnId)
    requires Possible(y, m) && c in Next(y, m).clients && Next(y, m).clients[c].session.Some?
    ensures c in y.clients
  {
    hide Next, Possible;
    if c !in y.clients {
      NoActBefore(y, m, c);
      LaunchedBlank(y, m, c);
    }
  }

  lemma NoActBefore(y: System, m: Move, c: ConnId)
    requires Possible(y, m) && c !in y.clients
    ensures !(m.Act? && m.c == c)
  {
  }

  lemma {:induction false} TallyAfter(ms: seq<Move>, c: ConnId)
    requires Run(ms)
    ensures Tallied(After(ms), c, MissCount(ms, c))
    ensures c !in After(ms).clients ==> MissCount(ms, c) == 0
  {
    if ms != [] {
      hide Tallied, Misses, Next, Possible, Inv;
      TallyAfter(ms[..|ms| - 1], c);
      InvAfter(ms[..|ms| - 1]);
      TallyStep(After(ms[..|ms| - 1]), ms[|ms| - 1], c, MissCount(ms[..|ms| - 1], c));
    }
  }

  /**
   * In every run, a client in a session has added exactly the candidates relayed to it for that session that it has
   * read, in order, if and only if it read none of them as its TURN reply, after it had stopped, or with a failure.
   */
  lemma CandidatesExact(ms: seq<Move>, c: ConnId, x: SessionId)
    requires Run(ms) && c in After(ms).clients && After(ms).clients[c].session == Some(x)
    ensures c in After(ms).server.net.queues && After(ms).clients[c].read <= |After(ms).server.net.queues[c]|
    ensures After(ms).clients[c].candidates == Offered(After(ms), c, x) <==> MissCount(ms, c) == 0
  {
    hide Run, After, MissCount;
    TallyAfter(ms, c);
  }

  // ----- What a client has gathered -----

  /** The candidates that client `c` gathered while it was streaming, in order. */
  ghost function Gathered(ms: seq<Move>, c: ConnId): seq<string>
    requires Run(ms)
  {
    if ms == [] then []
    else
      var y, m := After(ms[..|ms| - 1]), ms[|ms| - 1];
      Gathered(ms[..|ms| - 1], c) + if m.Gathers? && m.c == c && y.clients[c].phase == Streaming then [m.text] else []
  }

  /** What a client in session `x` has sent holds exactly the candidates it gathered. */
  ghost predicate SentOn(cl: Client, gathered: seq<string>) {
    match cl.session
    case None => gathered == []
    case Some(x) => Texts(Sends(cl.sent, x)) == gathered
  }

  /** Reacting writes at most one message, and that is no candidate. */
  lemma ReactSendsNone(cl: Client, m: ServerMessage, sdp: string, ok: bool, x: SessionId)
    ensures Texts(Sends(React(cl, m, sdp, ok).sent, x)) == Texts(Sends(cl.sent, x))
  {
    hide Sends, Texts;
    var cl' := React(cl, m, sdp, ok);
    if cl'.sent != cl.sent {
      WritesOne(cl, m, sdp, ok);
      var w := cl'.sent[|cl.sent|];
      var before := Sends(cl.sent, x);
      SendsAppend(cl.sent, w, x);
      assert before + [] == before;
      if w.Relay? && w.session == x {
        TextsAppend(before, w.signal);
        assert Texts(before) + [] == Texts(before);
      }
    }
  }

  lemma WritesOne(cl: Client, m: ServerMessage, sdp: string, ok: bool)
    ensures var sent := React(cl, m, sdp, ok).sent;
      sent == cl.sent || (|sent| == |cl.sent| + 1 && sent == cl.sent + [sent[|cl.sent|]]
                          && !(sent[|cl.sent|].Relay? && sent[|cl.sent|].signal.Candidate?))
  {
  }

  lemma ReactSentOn(cl: Client, m: ServerMessage, sdp: string, ok: bool, gathered: seq<string>)
    requires ClientOk(cl) && SentOn(cl, gathered)
    ensures SentOn(React(cl, m, sdp, ok), gathered)
  {
    hide Sends, Texts, React, ClientOk;
    var cl' := React(cl, m, sdp, ok);
    ReactAdds(cl, m, sdp, ok);
    if cl'.session.Some? {
      ReactSendsNone(cl, m, sdp, ok, cl'.session.value);
      if cl.session == None {
        SilentBefore(cl, cl'.session.value);
        EmptyTexts();
      }
    }
  }

  lemma SilentBefore(cl: Client, x: SessionId)
    requires ClientOk(cl) && cl.session == None
    ensures Sends(cl.sent, x) == []
  {
    SilentSends(cl.sent, x);
  }

  lemma GatherSentOn(cl: Client, text: string, gathered: seq<string>)
    requires ClientOk(cl) && SentOn(cl, gathered)
    ensures SentOn(Gather(cl, text), gathered + if cl.phase == Streaming then [text] else [])
  {
    hide Sends, Texts, Leads, NoSignals, OnlyFor;
    assert gathered + [] == gathered;
    if cl.session.Some? {
      var x := cl.session.value;
      SendsAppend(cl.sent, Relay(x, Candidate(text)), x);
      TextsAppend(Sends(cl.sent, x), Candidate(text));
    }
  }

  lemma SentOnStep(y: System, m: Move, c: ConnId, gathered: seq<string>)
    requires Inv(y) && Possible(y, m) && c in y.clients && SentOn(y.clients[c], gathered)
    ensures c in Next(y, m).clients
    ensures SentOn(Next(y, m).clients[c], gathered + if m.Gathers? && m.c == c && y.clients[c].phase == Streaming then [m.text] else [])
  {
    hide Relaying.Good, Carried, Sends, Texts, ClientOk, React, Gather, Signaling.Step, Signaling.Enabled;
    assert gathered + [] == gathered;
    assert Linked(y.server, c, y.clients[c]);
    assert m.Launches? ==> m.c !in y.server.net.queues by { LaunchIsNew(y, m); }
    if m.Act? && m.c == c {
      ReactSentOn(y.clients[c], y.server.net.queues[c][y.clients[c].read], m.sdp, m.ok, gathered);
    } else if m.Gathers? && m.c == c {
      GatherSentOn(y.clients[c], m.text, gathered);
    }
  }

  lemma {:induction false} SentOnAfter(ms: seq<Move>, c: ConnId)
    requires Run(ms)
    ensures if c in After(ms).clients then SentOn(After(ms).clients[c], Gathered(ms, c)) else Gathered(ms, c) == []
  {
    if ms != [] {
      hide SentOn, Next, Possible, Inv;
      var front, m := ms[..|ms| - 1], ms[|ms| - 1];
      SentOnAfter(front, c);
      InvAfter(front);
      if c in After(front).clients {
        SentOnStep(After(front), m, c, Gathered(front, c));
      } else {
        NewcomerSentOn(After(front), m, c);
      }
    }
  }

  lemma NewcomerSentOn(y: System, m: Move, c: ConnId)
    requires Possible(y, m) && c !in y.clients
    ensures !(m.Gathers? && m.c == c)
    ensures c in Next(y, m).clients ==> SentOn(Next(y, m).clients[c], [])
  {
  }

  // ----- Two clients in one session -----

  ghost predicate AlwaysAdds(ms: seq<Move>, c: ConnId) {
    forall i :: 0 <= i < |ms| && ms[i].Act? && ms[i].c == c ==> ms[i].ok
  }

  lemma StoppedStays(y: System, m: Move, c: ConnId)
    requires Possible(y, m) && c in y.clients && y.clients[c].phase == Stopped && !(m.Launches? && m.c == c)
    ensures c in Next(y, m).clients && Next(y, m).clients[c].phase == Stopped
  {
  }

  /** A session that a client has joined had both its ends when it was opened. */
  lemma PairedBefore(y: System, m: Move, x: SessionId, a: ConnId, b: ConnId, c: ConnId)
    requires Inv(y) && Possible(y, m) && Paired(Next(y, m), x, a, b) && (c == a || c == b)
    requires c in y.clients && y.clients[c].session == Some(x)
    ensures Paired(y, x, a, b)
  {
    hide Relaying.Signals, Carried, ClientOk, Signaling.Step, Signaling.Enabled, Relaying.Opens, HostReact, ControllerReact,
         Relaying.ChannelOk, Ordered;
    assert Linked(y.server, c, y.clients[c]);
    if m.Environment? || m.Launches? || m.Deliver? { SameSession(y.server, ServerEvent(y, m), x); }
    assert a in y.server.net.queues && b in y.server.net.queues by { assert Relaying.AnnouncedToHost(y.server.net, x); }
    assert m.Launches? ==> m.c !in y.server.net.queues by { LaunchIsNew(y, m); }
    if m.Act? { ReactKeepsHistory(y.clients[m.c], y.server.net.queues[m.c][y.clients[m.c].read], m.sdp, m.ok); }
  }

  lemma SameSession(s: Signaling.State, e: Signaling.Event, x: SessionId)
    requires Relaying.Good(s) && Signaling.Enabled(s, e) && x in s.net.sessions
    ensures x in Signaling.Step(s, e).net.sessions && Signaling.Step(s, e).net.sessions[x] == s.net.sessions[x]
  {
    hide Signaling.Step, Signaling.Enabled, Relaying.Opens;
    Relaying.SessionStep(s, e, x);
  }

  /** Between two clients a candidate is never taken for a TURN reply, so a client misses none unless it fails or stops. */
  lemma PairedMisses(y: System, m: Move, x: SessionId, a: ConnId, b: ConnId, c: ConnId)
    requires Inv(y) && Paired(y, x, a, b) && (c == a || c == b) && c in y.clients && y.clients[c].session == Some(x)
    requires y.clients[c].phase != Stopped && (m.Act? && m.c == c ==> m.ok)
    ensures !Misses(y, m, c)
  {
    hide Relaying.Good, Relaying.Signals, Carried, Sends, Leads, NoSignals, OnlyFor, Ordered;
    assert Linked(y.server, c, y.clients[c]);
    WaitingMeetsNoCandidate(y, x, a, b);
  }

  lemma {:induction false} PairedMissesNone(ms: seq<Move>, x: SessionId, a: ConnId, b: ConnId, c: ConnId)
    requires Run(ms) && Paired(After(ms), x, a, b) && (c == a || c == b) && AlwaysAdds(ms, c)
    requires c in After(ms).clients && After(ms).clients[c].session == Some(x) && After(ms).clients[c].phase != Stopped
    ensures MissCount(ms, c) == 0
  {
    if ms != [] {
      hide Next, Possible, Inv, Paired, Tallied, Misses;
      var front, m := ms[..|ms| - 1], ms[|ms| - 1];
      var y := After(front);
      InvAfter(front);
      TallyAfter(front, c);
      TallyAfter(ms, c);
      if c in y.clients {
        assert y.clients[c].phase != Stopped by { if y.clients[c].phase == Stopped { StillStopped(y, m, c); } }
        if y.clients[c].session == Some(x) {
          PairedBefore(y, m, x, a, b, c);
          PairedMissesNone(front, x, a, b, c);
          assert m.Act? && m.c == c ==> m.ok;
          PairedMisses(y, m, x, a, b, c);
        } else {
          FirstOfSession(y, m, x, c, MissCount(front, c));
        }
      } else {
        MissesOnlyClients(y, m, c);
      }
    }
  }

  lemma StillStopped(y: System, m: Move, c: ConnId)
    requires Inv(y) && Possible(y, m) && c in y.clients && y.clients[c].phase == Stopped
    ensures c in Next(y, m).clients && Next(y, m).clients[c].phase == Stopped
  {
    hide Core, Next;
    QueueOfClient(y, c);
    LaunchIsNew(y, m);
    StoppedStays(y, m, c);
  }

  lemma MissesOnlyClients(y: System, m: Move, c: ConnId)
    requires c !in y.clients
    ensures !Misses(y, m, c)
  {
  }

  /** Before its session a client misses nothing. */
  lemma FirstOfSession(y: System, m: Move, x: SessionId, c: ConnId, missed: nat)
    requires Inv(y) && Possible(y, m) && c in y.clients && Tallied(y, c, missed)
    requires c in Next(y, m).clients && Next(y, m).clients[c].session == Some(x) && y.clients[c].session != Some(x)
    ensures missed == 0 && !Misses(y, m, c)
  {
    hide Relaying.Good, Relaying.Signals, Carried, ClientOk, React, Texts, Signaling.Step, Signaling.Enabled;
    assert Linked(y.server, c, y.clients[c]);
    if m.Act? && m.c == c {
      ReactAdds(y.clients[c], y.server.net.queues[c][y.clients[c].read], m.sdp, m.ok);
    } else {
      OtherMovesKeep(y, m, c);
    }
  }

  /**
   * In every run, when both ends of a session run the client code and `to` neither stopped nor failed to add a
   * candidate: what `to` has added is the beginning of what `from` gathered while streaming, in order, each once; and
   * all of it once everything `from` wrote was delivered and `to`, still connected, has read its channel to the end.
   */
  lemma CandidatesArrive(ms: seq<Move>, x: SessionId, a: ConnId, b: ConnId, from: ConnId, to: ConnId)
    requires Run(ms) && Paired(After(ms), x, a, b) && ((from == a && to == b) || (from == b && to == a))
    requires AlwaysAdds(ms, to) && After(ms).clients[to].session == Some(x) && After(ms).clients[to].phase != Stopped
    ensures var y := After(ms);
      && to in y.server.net.queues
      && y.clients[to].candidates <= Gathered(ms, from)
      && (&& y.clients[from].session == Some(x) && y.clients[from].delivered == |y.clients[from].sent|
          && to in y.server.net.live && y.clients[to].read == |y.server.net.queues[to]|
          ==> y.clients[to].candidates == Gathered(ms, from))
  {
    hide Run, After, MissCount, Gathered, Sends, Texts, Relaying.Signals, Relaying.Good, Ordered;
    var y := After(ms);
    PairedMissesNone(ms, x, a, b, to);
    CandidatesExact(ms, to, x);
    SentOnAfter(ms, from);
    InvAfter(ms);
    var q, r := y.server.net.queues[to], y.clients[to].read;
    Relaying.SignalsPrefix(q, r, x);
    TextsPrefix(Relaying.Signals(q[..r], x), Relaying.Signals(q, x));
    ChannelFollowsSender(y, x, from, to);
    TextsPrefix(Relaying.Signals(q, x), Sends(y.clients[from].sent, x));
    assert Linked(y.server, from, y.clients[from]) && Carried(y.server, from, y.clients[from], x);
    if y.clients[from].session != Some(x) {
      NotJoinedSilent(y.server, from, y.clients[from], x);
      EmptyTexts();
    } else {
      assert q[..|q|] == q && y.clients[from].sent[..|y.clients[from].sent|] == y.clients[from].sent;
    }
  }
}
