/**
 * Sessions and the relay: a session's endpoints are fixed by one accepted request, and each endpoint's channel carries
 * exactly what the other endpoint asked to relay.
 */
module Relaying {
  import opened Text
  import opened Protocol
  import opened Signaling
  import Presence

  // ----- What a channel carries for one session -----

  function SignalIn(m: ServerMessage, x: SessionId): seq<Signal> {
    if m.Relayed? && m.session == x then [m.signal] else []
  }

  /** The relayed signals of session `x` on a channel, in order. */
  function Signals(q: seq<ServerMessage>, x: SessionId): seq<Signal> {
    if q == [] then [] else Signals(q[..|q| - 1], x) + SignalIn(q[|q| - 1], x)
  }

  lemma SignalsAppend(q: seq<ServerMessage>, m: ServerMessage, x: SessionId)
    ensures Signals(q + [m], x) == Signals(q, x) + SignalIn(m, x)
  {
    assert (q + [m])[..|q|] == q;
  }

  lemma {:induction false} SignalsPrefix(q: seq<ServerMessage>, i: nat, x: SessionId)
    requires i <= |q|
    ensures Signals(q[..i], x) <= Signals(q, x)
  {
    if i == |q| {
      assert q[..i] == q;
    } else {
      SignalsPrefix(q[..|q| - 1], i, x);
      assert q[..|q| - 1][..i] == q[..i];
    }
  }

  predicate TellsSignal(out: Out) {
    match out
    case Silent => false
    case Tell(_, m) => m.Relayed?
    case TellBoth(_, m, _, m2) => m.Relayed? || m2.Relayed?
  }

  /** Messages that name a session. */
  predicate AboutSession(m: ServerMessage) {
    m.Relayed? || m.IncomingConnection? || m.ConnectionEstablished?
  }

  predicate TellsSession(out: Out) {
    match out
    case Silent => false
    case Tell(_, m) => AboutSession(m)
    case TellBoth(_, m, _, m2) => AboutSession(m) || AboutSession(m2)
  }

  lemma SignalsQuiet(q: seq<ServerMessage>, more: seq<ServerMessage>, x: SessionId)
    requires |more| <= 1 && (more != [] ==> !more[0].Relayed?)
    ensures Signals(q + more, x) == Signals(q, x)
  {
    if more == [] {
      assert q + more == q;
    } else {
      assert more == [more[0]];
      SignalsAppend(q, more[0], x);
    }
  }

  lemma SignalsUnchanged(q: seq<ServerMessage>, out: Out, c: ConnId, x: SessionId)
    requires !TellsSignal(out)
    ensures Signals(q + For(out, c), x) == Signals(q, x)
  {
    hide Signals;
    match out
    case Silent => SignalsQuiet(q, [], x);
    case Tell(to, m) => SignalsQuiet(q, if c == to then [m] else [], x);
    case TellBoth(to, m, to2, m2) =>
      var first, second := if c == to then [m] else [], if c == to2 then [m2] else [];
      SignalsQuiet(q, first, x);
      SignalsQuiet(q + first, second, x);
      assert q + (first + second) == (q + first) + second;
  }

  // ----- One step -----

  /** `e` is an accepted pairing request for session `x` between `peers`. */
  ghost predicate Opens(s: State, e: Event, x: SessionId, peers: Peers) {
    && e.Receive? && e.m.RequestConnection? && e.n.session == x
    && e.c in s.net.live && s.net.live[e.c].account.Some?
    && e.m.target in s.db.devices && CredentialOk(s, e.m.target, e.m.credential)
    && e.m.target in s.net.online && s.net.online[e.m.target] in s.net.live
    && peers == Peers(e.c, s.net.online[e.m.target])
  }

  /** What `e` adds to the channel of `to` for session `x`. */
  ghost function Forwarded(s: State, e: Event, x: SessionId, to: ConnId): seq<Signal> {
    if && e.Receive? && e.m.Relay? && e.m.session == x
       && x in s.net.sessions && s.net.sessions[x].Other(e.c) == Some(to) && to in s.net.live
    then [e.m.signal] else []
  }

  /** Only a pairing request touches the sessions, and only a relay request sends a signal. */
  lemma HandlingEffect(s: State, c: ConnId, m: ClientMessage, n: Nonce)
    requires c in s.net.live
    ensures var o := Handle(s, c, m, n);
      && (!m.RequestConnection? ==> o.net.sessions == s.net.sessions)
      && (!m.Relay? ==> !TellsSignal(o.out))
      && (!m.Relay? && !m.RequestConnection? ==> !TellsSession(o.out))
      && o.net.queues == s.net.queues
  {
    hide Summaries, CredentialOk, Credentials, SignUp, CreateDevice;
    match m
    case Register(_, _) =>
    case Login(_, _) =>
    case RegisterDevice(_) =>
    case ListDevices =>
    case RequestConnection(_, _) =>
    case Relay(_, _) =>
    case RequestTurnCredentials =>
    case SetUnattendedPassword(_, _) =>
  }

  lemma ServingEffect(s: State, cookie: Option<string>, r: Request, n: Nonce)
    ensures var o := Serve(s, cookie, r, n);
      && o.net.sessions == s.net.sessions && !TellsSignal(o.out) && !TellsSession(o.out)
      && o.net.queues == s.net.queues && o.net.live == s.net.live
  {
    hide Serve;
    if r.DeleteOwnDevice? || r.AdminDeleteDevice? {
      Presence.RemovesOrRefuses(s, cookie, r, n);
    } else {
      Presence.AccountRequestsKeepNet(s, cookie, r, n);
    }
  }

  /** A channel only ever grows, by what the handler sent on it. */
  lemma QueueStep(s: State, e: Event, c: ConnId)
    requires Enabled(s, e) && c in s.net.queues
    ensures c in Step(s, e).net.queues
    ensures Step(s, e).net.queues[c] == s.net.queues[c] + For(React(s, e).out, c)
  {
    hide Handle, Serve;
    match e
    case Receive(c', m, n) => HandlingEffect(s, c', m, n);
    case Http(cookie, r, n) => ServingEffect(s, cookie, r, n);
    case _ =>
  }

  /** The only change to any channel's signals is the one forwarded. */
  lemma SignalStep(s: State, e: Event, x: SessionId, to: ConnId)
    requires Enabled(s, e) && to in s.net.queues
    ensures to in Step(s, e).net.queues
    ensures Signals(Step(s, e).net.queues[to], x) == Signals(s.net.queues[to], x) + Forwarded(s, e, x, to)
  {
    hide Handle, Serve, Step, Close;
    QueueStep(s, e, to);
    var q := s.net.queues[to];
    if e.Receive? && e.m.Relay? {
      RelayOutcome(s, e.c, e.m, e.n);
      var o := OnRelay(s, e.c, e.m.session, e.m.signal);
      SignalsAppend(q, o.out.msg, x);
      assert q + [] == q;
    } else {
      match e {
        case Receive(c, m, n) => HandlingEffect(s, c, m, n);
        case Http(cookie, r, n) => ServingEffect(s, cookie, r, n);
        case _ =>
      }
      SignalsUnchanged(q, React(s, e).out, to, x);
    }
  }

  lemma RelayOutcome(s: State, c: ConnId, m: ClientMessage, n: Nonce)
    requires c in s.net.live && m.Relay?
    ensures Handle(s, c, m, n) == OnRelay(s, c, m.session, m.signal)
  {
    hide OnRelay;
  }

  /** Sessions are never removed or changed, and a new one is opened by an accepted request. */
  lemma SessionStep(s: State, e: Event, x: SessionId)
    requires Presence.Inv(s) && Enabled(s, e)
    ensures x in s.net.sessions ==> x in Step(s, e).net.sessions && Step(s, e).net.sessions[x] == s.net.sessions[x]
    ensures x !in s.net.sessions && x in Step(s, e).net.sessions ==> Opens(s, e, x, Step(s, e).net.sessions[x])
  {
    hide Serve, CredentialOk, Presence.OneOwnerPerDevice, Presence.OtpIsLatest, Presence.OnlyIssued;
    match e
    case Receive(c, m, n) =>
      if !m.RequestConnection? {
        hide Handle;
        HandlingEffect(s, c, m, n);
      }
    case Http(cookie, r, n) => ServingEffect(s, cookie, r, n);
    case _ =>
  }

  // ----- What every channel holds -----

  /** A message about a session is on an endpoint's channel, and an announcement comes before any signal. */
  ghost predicate MessageOk(sessions: map<SessionId, Peers>, c: ConnId, q: seq<ServerMessage>, i: nat)
    requires i < |q|
  {
    match q[i]
    case Relayed(x, _) => x in sessions && (sessions[x].a == c || sessions[x].b == c)
    case IncomingConnection(x) => x in sessions && sessions[x].b == c && Signals(q[..i], x) == []
    case ConnectionEstablished(x, _) => x in sessions && sessions[x].a == c && Signals(q[..i], x) == []
    case _ => true
  }

  ghost predicate ChannelOk(sessions: map<SessionId, Peers>, c: ConnId, q: seq<ServerMessage>) {
    forall i :: 0 <= i < |q| ==> MessageOk(sessions, c, q, i)
  }

  /** The host's channel announces the session. */
  ghost predicate AnnouncedToHost(net: Net, x: SessionId)
    requires x in net.sessions
  {
    net.sessions[x].b in net.queues && IncomingConnection(x) in net.queues[net.sessions[x].b]
  }

  ghost predicate Linked(net: Net) {
    && (forall x :: x in net.sessions ==> net.sessions[x].a in net.queues && AnnouncedToHost(net, x))
    && (forall c :: c in net.queues ==> ChannelOk(net.sessions, c, net.queues[c]))
  }

  lemma ChannelAppend(sessions: map<SessionId, Peers>, c: ConnId, q: seq<ServerMessage>, m: ServerMessage)
    requires ChannelOk(sessions, c, q) && MessageOk(sessions, c, q + [m], |q|)
    ensures ChannelOk(sessions, c, q + [m])
  {
    forall i | 0 <= i < |q + [m]| ensures MessageOk(sessions, c, q + [m], i) {
      if i < |q| {
        assert MessageOk(sessions, c, q, i);
        assert (q + [m])[..i] == q[..i];
      }
    }
  }

  lemma {:induction false} UnknownSessionSilent(sessions: map<SessionId, Peers>, c: ConnId, q: seq<ServerMessage>, x: SessionId)
    requires ChannelOk(sessions, c, q) && x !in sessions
    ensures Signals(q, x) == []
  {
    if q != [] {
      var front := q[..|q| - 1];
      assert MessageOk(sessions, c, q, |q| - 1);
      assert front + [q[|q| - 1]] == q;
      forall i | 0 <= i < |front| ensures MessageOk(sessions, c, front, i) {
        assert MessageOk(sessions, c, q, i) && front[..i] == q[..i];
      }
      UnknownSessionSilent(sessions, c, front, x);
    }
  }

  lemma UnrelatedAppend(sessions: map<SessionId, Peers>, c: ConnId, q: seq<ServerMessage>, out: Out)
    requires ChannelOk(sessions, c, q) && !TellsSession(out)
    ensures ChannelOk(sessions, c, q + For(out, c))
  {
    hide ChannelOk;
    match out
    case Silent => assert q + [] == q;
    case Tell(to, m) =>
      assert q + [] == q;
      if c == to { ChannelAppend(sessions, c, q, m); }
    case TellBoth(to, m, to2, m2) =>
      var first := if c == to then [m] else [];
      assert q + [] == q && (q + first) + [] == q + first;
      if c == to { ChannelAppend(sessions, c, q, m); }
      if c == to2 { ChannelAppend(sessions, c, q + first, m2); }
      assert q + For(out, c) == (q + first) + (if c == to2 then [m2] else []);
  }

  lemma ChannelAppendMaybe(sessions: map<SessionId, Peers>, c: ConnId, q: seq<ServerMessage>, more: seq<ServerMessage>)
    requires ChannelOk(sessions, c, q) && |more| <= 1
    requires more != [] ==> MessageOk(sessions, c, q + [more[0]], |q|)
    ensures ChannelOk(sessions, c, q + more)
  {
    hide ChannelOk, MessageOk;
    if more == [] {
      assert q + more == q;
    } else {
      assert more == [more[0]];
      ChannelAppend(sessions, c, q, more[0]);
    }
  }

  lemma MoreSessions(sessions: map<SessionId, Peers>, c: ConnId, q: seq<ServerMessage>, x: SessionId, peers: Peers)
    requires ChannelOk(sessions, c, q) && x !in sessions
    ensures ChannelOk(sessions[x := peers], c, q)
  {
    var sessions' := sessions[x := peers];
    forall i | 0 <= i < |q| ensures MessageOk(sessions', c, q, i) {
      assert MessageOk(sessions, c, q, i);
    }
  }

  /** Opening session `x`: nothing was relayed for it before, so both announcements may follow. */
  lemma OpeningAppend(sessions: map<SessionId, Peers>, c: ConnId, q: seq<ServerMessage>, x: SessionId, peers: Peers, d: DeviceId)
    requires ChannelOk(sessions, c, q) && x !in sessions
    ensures ChannelOk(sessions[x := peers], c, q + For(TellBoth(peers.b, IncomingConnection(x), peers.a, ConnectionEstablished(x, d)), c))
  {
    hide ChannelOk, Signals;
    var sessions' := sessions[x := peers];
    var first := if c == peers.b then [IncomingConnection(x)] else [];
    var second := if c == peers.a then [ConnectionEstablished(x, d)] else [];
    UnknownSessionSilent(sessions, c, q, x);
    MoreSessions(sessions, c, q, x, peers);
    assert (q + [IncomingConnection(x)])[..|q|] == q;
    ChannelAppendMaybe(sessions', c, q, first);
    SignalsQuiet(q, first, x);
    var q' := q + first;
    assert (q' + [ConnectionEstablished(x, d)])[..|q'|] == q';
    ChannelAppendMaybe(sessions', c, q', second);
    assert q + (first + second) == q' + second;
  }

  lemma ChannelStep(s: State, e: Event, c: ConnId)
    requires Presence.Inv(s) && Linked(s.net) && Enabled(s, e) && c in s.net.queues
    ensures c in Step(s, e).net.queues
    ensures ChannelOk(Step(s, e).net.sessions, c, Step(s, e).net.queues[c])
  {
    hide Handle, Serve, Presence.OneOwnerPerDevice, Presence.OtpIsLatest, Presence.OnlyIssued, ChannelOk;
    QueueStep(s, e, c);
    var q := s.net.queues[c];
    var o := React(s, e);
    match e
    case Receive(c', m, n) =>
      HandlingEffect(s, c', m, n);
      if m.Relay? {
        RelayOutcome(s, c', m, n);
        assert q + [] == q;
        if o.out.to == c { ChannelAppend(s.net.sessions, c, q, o.out.msg); }
      } else if m.RequestConnection? {
        PairingOutcome(s, c', m, n);
        if n.session in o.net.sessions {
          OpeningAppend(s.net.sessions, c, q, n.session, o.net.sessions[n.session], m.target);
        } else {
          UnrelatedAppend(s.net.sessions, c, q, o.out);
        }
      } else {
        UnrelatedAppend(s.net.sessions, c, q, o.out);
      }
    case Http(cookie, r, n) =>
      ServingEffect(s, cookie, r, n);
      UnrelatedAppend(s.net.sessions, c, q, o.out);
    case _ => UnrelatedAppend(s.net.sessions, c, q, o.out);
  }

  /** A pairing request either opens exactly its session and tells both endpoints, or changes nothing. */
  lemma PairingOutcome(s: State, c: ConnId, m: ClientMessage, n: Nonce)
    requires Presence.Inv(s) && c in s.net.live && m.RequestConnection? && n.session !in s.net.sessions
    ensures var o := Handle(s, c, m, n);
      if n.session in o.net.sessions then
        && m.target in s.net.online
        && var peers := Peers(c, s.net.online[m.target]);
        && o.net.sessions == s.net.sessions[n.session := peers]
        && o.out == TellBoth(peers.b, IncomingConnection(n.session), peers.a, ConnectionEstablished(n.session, m.target))
      else o.net == s.net && o.out.Tell? && o.out.to == c && o.out.msg.Error?
  {
    hide CredentialOk, Presence.OneOwnerPerDevice, Presence.OtpIsLatest, Presence.OnlyIssued;
  }

  lemma LinkedStep(s: State, e: Event)
    requires Presence.Inv(s) && Linked(s.net) && Enabled(s, e)
    ensures Linked(Step(s, e).net)
  {
    hide Handle, Serve, Close, ChannelOk, Presence.OneOwnerPerDevice, Presence.OtpIsLatest, Presence.OnlyIssued;
    var net := Step(s, e).net;
    forall c | c in net.queues ensures ChannelOk(net.sessions, c, net.queues[c]) {
      if c in s.net.queues { ChannelStep(s, e, c); } else { OnlyConnectOpens(s, e, c); }
    }
    forall x | x in net.sessions ensures net.sessions[x].a in net.queues && AnnouncedToHost(net, x) {
      SessionStep(s, e, x);
      var p := net.sessions[x];
      QueueStep(s, e, p.a);
      QueueStep(s, e, p.b);
      if x !in s.net.sessions { PairingOutcome(s, e.c, e.m, e.n); }
    }
  }

  lemma OnlyConnectOpens(s: State, e: Event, c: ConnId)
    requires Enabled(s, e) && c in Step(s, e).net.queues && c !in s.net.queues
    ensures e == Connect(c) && ChannelOk(Step(s, e).net.sessions, c, Step(s, e).net.queues[c])
  {
    hide Handle, Serve;
    match e
    case Receive(c', m, n) => HandlingEffect(s, c', m, n);
    case Http(cookie, r, n) => ServingEffect(s, cookie, r, n);
    case _ =>
  }

  // ----- Whole runs -----

  ghost predicate Good(s: State) {
    Presence.Inv(s) && Linked(s.net)
  }

  lemma GoodStep(s: State, e: Event)
    requires Good(s) && Enabled(s, e)
    ensures Good(Step(s, e))
  {
    hide Presence.Inv, Linked, Step, Enabled;
    Presence.InvStep(s, e);
    LinkedStep(s, e);
  }

  lemma {:induction false} GoodAfter(s: State, es: seq<Event>)
    requires Good(s) && Run(s, es)
    ensures Good(After(s, es))
  {
    hide Good, Step, Enabled;
    if es != [] {
      GoodAfter(s, es[..|es| - 1]);
      GoodStep(After(s, es[..|es| - 1]), es[|es| - 1]);
    }
  }

  lemma GoodFromStart(es: seq<Event>)
    requires Run(INIT, es)
    ensures Good(After(INIT, es))
  {
    assert Presence.Inv(INIT) && Linked(INIT.net);
    GoodAfter(INIT, es);
  }

  /** The session was announced on its host's channel before anything was relayed there for it. */
  lemma AnnouncedFirst(es: seq<Event>, x: SessionId)
    requires Run(INIT, es) && x in After(INIT, es).net.sessions
    ensures var net := After(INIT, es).net; var b := net.sessions[x].b;
      b in net.queues &&
      exists j :: 0 <= j < |net.queues[b]| && net.queues[b][j] == IncomingConnection(x) && Signals(net.queues[b][..j], x) == []
  {
    hide Step, Enabled, Presence.Inv;
    GoodFromStart(es);
    var net := After(INIT, es).net;
    assert AnnouncedToHost(net, x);
    var b := net.sessions[x].b;
    var j :| 0 <= j < |net.queues[b]| && net.queues[b][j] == IncomingConnection(x);
    assert MessageOk(net.sessions, b, net.queues[b], j);
  }

  /** Event `k` of the run is the accepted request that opened session `x` between `peers`. */
  ghost predicate OpensAt(es: seq<Event>, k: nat, x: SessionId, peers: Peers) {
    k < |es| && Run(INIT, es[..k]) && Opens(After(INIT, es[..k]), es[k], x, peers)
  }

  /**
   * Every session's endpoints were fixed by an authenticated request that carried a credential valid at that moment
   * for a registered device online on the host endpoint.
   */
  lemma {:induction false} SessionOrigin(es: seq<Event>, x: SessionId)
    requires Run(INIT, es) && x in After(INIT, es).net.sessions
    ensures exists k :: 0 <= k < |es| && OpensAt(es, k, x, After(INIT, es).net.sessions[x])
  {
    hide Step, Enabled, Opens, Presence.Inv;
    if es != [] {
      var n := |es| - 1;
      var s := After(INIT, es[..n]);
      GoodFromStart(es[..n]);
      SessionStep(s, es[n], x);
      if x in s.net.sessions {
        SessionOrigin(es[..n], x);
        var k :| 0 <= k < n && OpensAt(es[..n], k, x, s.net.sessions[x]);
        assert es[..n][..k] == es[..k];
        assert OpensAt(es, k, x, s.net.sessions[x]);
      } else {
        assert OpensAt(es, n, x, After(INIT, es).net.sessions[x]);
      }
    }
  }

  /** In any continuation the endpoints of a session stay what they are. */
  lemma {:induction false} SessionFixed(s: State, es: seq<Event>, x: SessionId)
    requires Good(s) && Run(s, es) && x in s.net.sessions
    ensures x in After(s, es).net.sessions && After(s, es).net.sessions[x] == s.net.sessions[x]
  {
    hide Step, Enabled, Opens, Presence.Inv, Linked;
    if es != [] {
      SessionFixed(s, es[..|es| - 1], x);
      GoodAfter(s, es[..|es| - 1]);
      SessionStep(After(s, es[..|es| - 1]), es[|es| - 1], x);
    }
  }

  ghost predicate Leaves(es: seq<Event>, c: ConnId) {
    es != [] && (Leaves(es[..|es| - 1], c) || es[|es| - 1] == Disconnect(c))
  }

  /** The relay requests for `x` that `from` made in these events before `to` left. */
  ghost function Requested(es: seq<Event>, from: ConnId, to: ConnId, x: SessionId): seq<Signal> {
    if es == [] then []
    else
      var front, e := es[..|es| - 1], es[|es| - 1];
      Requested(front, from, to, x) +
      if e.Receive? && e.c == from && e.m.Relay? && e.m.session == x && !Leaves(front, to) then [e.m.signal] else []
  }

  lemma LiveStep(s: State, e: Event, c: ConnId)
    requires Enabled(s, e) && c in s.net.queues
    ensures c in Step(s, e).net.live <==> c in s.net.live && e != Disconnect(c)
  {
    hide Serve, CredentialOk, Credentials, SignUp, Summaries, CreateDevice;
    match e
    case Receive(c', m, n) => if !m.RegisterDevice? { hide Handle; Presence.HandlingOnlyLeaves(s, c', m, n); }
    case Http(cookie, r, n) => ServingEffect(s, cookie, r, n);
    case _ =>
  }

  /** A connection is live until its own Disconnect, whatever else happens. */
  lemma {:induction false} LiveAfter(s: State, es: seq<Event>, c: ConnId)
    requires Run(s, es) && c in s.net.live && c in s.net.queues
    ensures c in After(s, es).net.queues
    ensures c in After(s, es).net.live <==> !Leaves(es, c)
  {
    hide Step, Enabled;
    if es != [] {
      var mid, e := After(s, es[..|es| - 1]), es[|es| - 1];
      LiveAfter(s, es[..|es| - 1], c);
      QueueStep(mid, e, c);
      LiveStep(mid, e, c);
    }
  }

  /** From any state with the session open: the other endpoint's requests, in order, each once, nothing else. */
  lemma {:induction false} RelayAfter(s: State, es: seq<Event>, x: SessionId, from: ConnId, to: ConnId)
    requires Good(s) && Run(s, es)
    requires x in s.net.sessions && s.net.sessions[x].Other(from) == Some(to) && to in s.net.live && to in s.net.queues
    ensures var net := After(s, es).net;
      && to in net.queues
      && Signals(net.queues[to], x) == Signals(s.net.queues[to], x) + Requested(es, from, to, x)
      && (to in net.live <==> !Leaves(es, to))
  {
    hide Step, Enabled, Good, Signals;
    if es == [] {
      assert Signals(s.net.queues[to], x) + [] == Signals(s.net.queues[to], x);
    } else {
      var front, e := es[..|es| - 1], es[|es| - 1];
      var mid := After(s, front);
      RelayAfter(s, front, x, from, to);
      SessionFixed(s, front, x);
      SignalStep(mid, e, x, to);
      LiveStep(mid, e, to);
      OneSender(mid.net.sessions[x], from, to);
    }
  }

  lemma OneSender(peers: Peers, from: ConnId, to: ConnId)
    requires peers.Other(from) == Some(to)
    ensures forall c :: peers.Other(c) == Some(to) ==> c == from
  {
  }

  /**
   * For every session of every run and either direction: the signals queued to one endpoint are exactly the relay
   * requests that the other endpoint made after the session was opened and before the first endpoint left.
   */
  lemma RelayExact(es: seq<Event>, k: nat, x: SessionId, peers: Peers, from: ConnId, to: ConnId)
    requires Run(INIT, es) && OpensAt(es, k, x, peers) && peers.Other(from) == Some(to)
    ensures to in After(INIT, es).net.queues
    ensures Signals(After(INIT, es).net.queues[to], x) == Requested(es[k + 1..], from, to, x)
  {
    hide Step, Enabled, Opens, Signals, Good, Requested;
    RunPrefix(INIT, es, k + 1);
    RunSuffix(INIT, es, k + 1);
    GoodFromStart(es[..k]);
    GoodFromStart(es[..k + 1]);
    assert es[..k + 1][..k] == es[..k];
    OpeningEffect(After(INIT, es[..k]), es[k], x, peers);
    OpenedSilent(After(INIT, es[..k]), es[k], x, peers, to);
    RelayAfter(After(INIT, es[..k + 1]), es[k + 1..], x, from, to);
    assert [] + Requested(es[k + 1..], from, to, x) == Requested(es[k + 1..], from, to, x);
  }

  lemma OpeningEffect(s: State, e: Event, x: SessionId, peers: Peers)
    requires Good(s) && Enabled(s, e) && Opens(s, e, x, peers)
    ensures x !in s.net.sessions
    ensures x in Step(s, e).net.sessions && Step(s, e).net.sessions[x] == peers
    ensures peers.a in Step(s, e).net.live && peers.b in Step(s, e).net.live
    ensures peers.a in Step(s, e).net.queues && peers.b in Step(s, e).net.queues
    ensures peers.a in s.net.queues && peers.b in s.net.queues
  {
    hide CredentialOk, Presence.OneOwnerPerDevice, Presence.OtpIsLatest, Presence.OnlyIssued, Linked;
  }

  lemma OpenedSilent(s: State, e: Event, x: SessionId, peers: Peers, c: ConnId)
    requires Good(s) && Enabled(s, e) && Opens(s, e, x, peers) && c in s.net.queues
    ensures c in Step(s, e).net.queues && Signals(Step(s, e).net.queues[c], x) == []
  {
    hide CredentialOk, Presence.Inv, ChannelOk, Step;
    UnknownSessionSilent(s.net.sessions, c, s.net.queues[c], x);
    SignalStep(s, e, x, c);
  }

  // ----- Where every relayed message came from -----

  /** Event `k` of the run asks to relay `signal` for session `x`. */
  predicate AsksAt(es: seq<Event>, k: nat, x: SessionId, signal: Signal) {
    k < |es| && es[k].Receive? && es[k].m == Relay(x, signal)
  }

  lemma RelayedStep(s: State, e: Event, c: ConnId, i: nat, x: SessionId, signal: Signal)
    requires Good(s) && Enabled(s, e) && c in Step(s, e).net.queues
    requires i < |Step(s, e).net.queues[c]| && Step(s, e).net.queues[c][i] == Relayed(x, signal)
    requires !(c in s.net.queues && i < |s.net.queues[c]|)
    ensures e.Receive? && e.m == Relay(x, signal) && x in s.net.sessions && s.net.sessions[x].Other(e.c) == Some(c)
  {
    hide Handle, Serve, Close, Linked, Presence.Inv;
    if c !in s.net.queues {
      OnlyConnectOpens(s, e, c);
    } else {
      QueueStep(s, e, c);
      var more := For(React(s, e).out, c);
      assert more[i - |s.net.queues[c]|] == Relayed(x, signal);
      match e {
        case Receive(c', m, n) =>
          HandlingEffect(s, c', m, n);
          if m.Relay? { RelayOutcome(s, c', m, n); }
        case Http(cookie, r, n) => ServingEffect(s, cookie, r, n);
        case _ =>
      }
    }
  }

  /**
   * In every run, whatever is relayed on whatever channel was asked for by the other endpoint of its session, and by
   * nobody else.
   */
  lemma {:induction false} RelayedOrigin(es: seq<Event>, c: ConnId, i: nat)
    requires Run(INIT, es) && c in After(INIT, es).net.queues
    requires i < |After(INIT, es).net.queues[c]| && After(INIT, es).net.queues[c][i].Relayed?
    ensures var net := After(INIT, es).net; var m := net.queues[c][i];
      && m.session in net.sessions
      && exists k :: 0 <= k < |es| && AsksAt(es, k, m.session, m.signal) && net.sessions[m.session].Other(es[k].c) == Some(c)
  {
    hide Step, Enabled, Good, React, For;
    if es != [] {
      var n := |es| - 1;
      var front, e := es[..n], es[n];
      var s := After(INIT, front);
      var m := After(INIT, es).net.queues[c][i];
      GoodFromStart(front);
      if c in s.net.queues && i < |s.net.queues[c]| {
        QueueStep(s, e, c);
        RelayedOrigin(front, c, i);
        GoodMeansPresent(s);
        SessionStep(s, e, m.session);
        var k :| 0 <= k < n && AsksAt(front, k, m.session, m.signal) && s.net.sessions[m.session].Other(front[k].c) == Some(c);
        assert AsksAt(es, k, m.session, m.signal);
      } else {
        RelayedStep(s, e, c, i, m.session, m.signal);
        GoodMeansPresent(s);
        SessionStep(s, e, m.session);
        assert AsksAt(es, n, m.session, m.signal);
      }
    }
  }

  lemma GoodMeansPresent(s: State)
    requires Good(s)
    ensures Presence.Inv(s)
  {
  }
}
