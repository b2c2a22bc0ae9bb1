/**
 * The two ends of a negotiation as they talk to the server: the host that answers (visuara-client/src/host.rs) and the
 * controller that offers (visuara-client/src/controller.rs). Each blocking `recv` is a phase; the loops that wait, skip
 * and break are phases that stay.
 */
module Clients {
  import opened Text
  import opened Protocol

  datatype Side = Host | Controller

  datatype Phase =
    | SigningUp | LoggingIn
    | AwaitingDevice | Serving | AwaitingOffer          // the host's own phases
    | AwaitingSession | AwaitingAnswer                  // the controller's own phases
    | AwaitingTurn | Streaming | Stopped

  /** What the user asked for. */
  datatype Plan = Plan(email: string, password: string, deviceName: string, target: DeviceId, credential: Credential)

  /**
   * `local` and `remote` are the session descriptions set on the peer connection and `candidates` the remote ICE
   * candidates added to it. `sent` is everything written to the socket, of which the server has handled the first
   * `delivered`; `read` counts the server messages consumed.
   */
  datatype Client = Client(
    side: Side, plan: Plan, phase: Phase,
    session: Option<SessionId>, local: Option<string>, remote: Option<string>, candidates: seq<string>,
    sent: seq<ClientMessage>, delivered: nat, read: nat)

  function Launch(side: Side, plan: Plan): Client {
    Client(side, plan, SigningUp, None, None, None, [], [Register(plan.email, plan.password)], 0, 0)
  }

  function Say(cl: Client, m: ClientMessage, phase: Phase): Client {
    cl.(sent := cl.sent + [m], phase := phase)
  }

  /** `SignalingClient::authenticate`, and what each side sends once it is logged in. */
  function OnAuth(cl: Client, m: ServerMessage): Client {
    if m.AuthOk? then
      if cl.side == Host then Say(cl, RegisterDevice(cl.plan.deviceName), AwaitingDevice)
      else Say(cl, RequestTurnCredentials, AwaitingTurn)
    else if m.AuthError? && cl.phase == SigningUp then Say(cl, Login(cl.plan.email, cl.plan.password), LoggingIn)
    else cl.(phase := Stopped)
  }

  /** A candidate for this session; a failed add ends the host and a controller that still waits. */
  function OnCandidate(cl: Client, text: string, ok: bool): Client {
    if ok then cl.(candidates := cl.candidates + [text])
    else if cl.side == Controller && cl.phase == Streaming then cl
    else cl.(phase := Stopped)
  }

  /**
   * The host consumes one message. `sdp` is the description its peer connection produces if asked, and `ok` whether
   * the calls into WebRTC succeed; creating or setting the answer may fail after the offer was set.
   */
  function HostReact(cl: Client, m: ServerMessage, sdp: string, ok: bool): Client {
    match cl.phase
    case SigningUp => OnAuth(cl, m)
    case LoggingIn => OnAuth(cl, m)
    case AwaitingDevice => cl.(phase := if m.DeviceRegistered? then Serving else Stopped)
    case Serving =>
      if m.IncomingConnection? then Say(cl, RequestTurnCredentials, AwaitingTurn).(session := Some(m.session)) else cl
    case AwaitingTurn => cl.(phase := AwaitingOffer)
    case AwaitingOffer =>
      if m.Relayed? && cl.session == Some(m.session) && m.signal.Offer? then
        var applied := cl.(remote := Some(m.signal.sdp));
        if ok then Say(applied, Relay(m.session, Answer(sdp)), Streaming).(local := Some(sdp)) else applied.(phase := Stopped)
      else if m.Relayed? && cl.session == Some(m.session) && m.signal.Candidate? then OnCandidate(cl, m.signal.text, ok)
      else cl
    case Streaming =>
      if m.Relayed? && cl.session == Some(m.session) && m.signal.Candidate? then OnCandidate(cl, m.signal.text, ok) else cl
    case _ => cl
  }

  /** The controller consumes one message. */
  function ControllerReact(cl: Client, m: ServerMessage, sdp: string, ok: bool): Client {
    match cl.phase
    case SigningUp => OnAuth(cl, m)
    case LoggingIn => OnAuth(cl, m)
    case AwaitingTurn => Say(cl, RequestConnection(cl.plan.target, cl.plan.credential), AwaitingSession)
    case AwaitingSession =>
      if m.ConnectionEstablished? && ok then
        Say(cl, Relay(m.session, Offer(sdp)), AwaitingAnswer).(session := Some(m.session), local := Some(sdp))
      else cl.(phase := Stopped)
    case AwaitingAnswer =>
      if m.Relayed? && cl.session == Some(m.session) && m.signal.Answer? then
        if ok then cl.(remote := Some(m.signal.sdp), phase := Streaming) else cl.(phase := Stopped)
      else if m.Relayed? && cl.session == Some(m.session) && m.signal.Candidate? then OnCandidate(cl, m.signal.text, ok)
      else cl
    case Streaming =>
      if m.Relayed? && cl.session == Some(m.session) && m.signal.Candidate? then OnCandidate(cl, m.signal.text, ok) else cl
    case _ => cl
  }

  function React(cl: Client, m: ServerMessage, sdp: string, ok: bool): Client {
    if cl.side == Host then HostReact(cl, m, sdp, ok) else ControllerReact(cl, m, sdp, ok)
  }

  /** A locally gathered candidate leaves only from the final loop of either side. */
  function Gather(cl: Client, text: string): Client {
    if cl.phase == Streaming && cl.session.Some? then Say(cl, Relay(cl.session.value, Candidate(text)), Streaming) else cl
  }
}
