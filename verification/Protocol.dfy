/** Messages between clients and the signaling server (visuara-common/src/signaling.rs). */
module Protocol {
  // Identifiers are only ever compared for equality.
  type ConnId = nat
  type SessionId = nat
  type DeviceId = nat
  type AccountId = nat
  type Token = string

  datatype Credential = OneTimePassword(otp: string) | UnattendedPassword(password: string)

  /** What the server relays without looking inside: the SdpOffer, SdpAnswer and IceCandidate variants. */
  datatype Signal = Offer(sdp: string) | Answer(sdp: string) | Candidate(text: string)

  datatype ClientMessage =
    | Register(email: string, password: string)
    | Login(email: string, password: string)
    | RegisterDevice(name: string)
    | ListDevices
    | RequestConnection(target: DeviceId, credential: Credential)
    | Relay(session: SessionId, signal: Signal)
    | RequestTurnCredentials
    | SetUnattendedPassword(target: DeviceId, password: string)

  datatype DeviceSummary = DeviceSummary(device: DeviceId, name: string, online: bool, unattendedAccess: bool)

  /** The texts of the server's errors. */
  datatype Reason =
    | RegistrationDisabled | RegistrationFailed | InvalidLogin
    | NotAuthenticated | DatabaseError | UnknownDevice | InvalidCredential | DeviceOffline
    | UnknownSession | NotPartOfSession | PeerDisconnected | NotYourDevice
    | MalformedMessage | DeviceRemoved

  datatype ServerMessage =
    | AuthOk(token: Token)
    | AuthError(reason: Reason)
    | DeviceRegistered(device: DeviceId, otp: string)
    | DeviceList(devices: set<DeviceSummary>)
    | IncomingConnection(session: SessionId)
    | ConnectionEstablished(session: SessionId, target: DeviceId)
    | Relayed(session: SessionId, signal: Signal)
    | TurnCredentials(username: ConnId)
    | UnattendedPasswordUpdated(password: string)
    | Error(reason: Reason)
}
