/** Where the credential that opened a session came from. */
module Pairing {
  import opened Text
  import opened Protocol
  import opened Signaling
  import Presence
  import Relaying
  import Ownership

  /** The password was set by a connection logged in to the device's owner, and has not been replaced since. */
  ghost predicate SetByOwner(past: seq<Event>, d: DeviceId, owner: AccountId, password: string) {
    exists j, h :: 0 <= j < |past| && Ownership.SetsPasswordAt(past, j, d, owner, h) && h.password == password
                   && Ownership.UnchangedSince(past, j, d)
  }

  /**
   * Whoever opened a session knew a secret of the device: the one-time password last sent on the very connection that
   * became the host endpoint, or the unattended password last set by the device's owner.
   */
  lemma CredentialOrigin(es: seq<Event>, k: nat, x: SessionId, peers: Peers)
    requires Run(INIT, es) && Relaying.OpensAt(es, k, x, peers)
    ensures var s, m := After(INIT, es[..k]), es[k].m;
      && peers.b in s.net.queues && m.target in s.db.devices
      && match m.credential
         case OneTimePassword(otp) => Presence.LastRegistered(s.net.queues[peers.b]) == Some((m.target, otp))
         case UnattendedPassword(pw) => SetByOwner(es[..k], m.target, s.db.devices[m.target].owner, pw)
  {
    hide Step, Enabled, Run, After, Presence.OneOwnerPerDevice, Presence.OnlyIssued, Presence.LastRegistered, Ownership.SetsPassword,
         Ownership.UnchangedSince;
    var past, e := es[..k], es[k];
    var s := After(INIT, past);
    Relaying.GoodFromStart(past);
    match e.m.credential
    case OneTimePassword(otp) =>
    case UnattendedPassword(pw) =>
      Ownership.PasswordSetByOwner(past, e.m.target);
      var row := s.db.devices[e.m.target];
      var j :| 0 <= j < |past| && Ownership.SetsPasswordAt(past, j, e.m.target, row.owner, row.unattended.value)
               && Ownership.UnchangedSince(past, j, e.m.target);
      assert row.unattended.value.password == pw;
  }

  // ----- When an unattended password opens a session -----

  function AskUnattended(c: ConnId, d: DeviceId, password: string, n: Nonce): Event {
    Receive(c, RequestConnection(d, UnattendedPassword(password)), n)
  }

  /** Exactly when the requester is logged in, the device has a row and is online, and the row holds a hash of it. */
  lemma UnattendedExact(s: State, c: ConnId, d: DeviceId, password: string, n: Nonce)
    requires Presence.Inv(s) && Enabled(s, AskUnattended(c, d, password, n))
    ensures var s' := Step(s, AskUnattended(c, d, password, n));
      && (n.session in s'.net.sessions <==>
            && s.net.live[c].account.Some? && d in s.db.devices && d in s.net.online
            && s.db.devices[d].unattended.Some? && s.db.devices[d].unattended.value.password == password)
      && (n.session in s'.net.sessions ==> s'.net.sessions[n.session] == Peers(c, s.net.online[d]))
  {
    hide Presence.OnlineIsLive, Presence.OneOwnerPerDevice, Presence.OnlyIssued;
  }

  /**
   * Setting the password is obeyed exactly for a connection logged in to the owner: then only that column of that row
   * changes, and only the device's own connection learns the password. Otherwise only an error is sent.
   */
  lemma SettingOutcome(s: State, c: ConnId, d: DeviceId, password: string, n: Nonce)
    requires Presence.Inv(s) && Enabled(s, Receive(c, SetUnattendedPassword(d, password), n))
    ensures var s' := Step(s, Receive(c, SetUnattendedPassword(d, password), n)); var q := s.net.queues;
      if d in s.db.devices && s.net.live[c].account == Some(s.db.devices[d].owner) then
        && s'.db == s.db.(devices := s.db.devices[d := s.db.devices[d].(unattended := Some(Hash(password, n.salt)))])
        && s'.net == if d !in s.net.online then s.net
                     else var host := s.net.online[d]; s.net.(queues := q[host := q[host] + [UnattendedPasswordUpdated(password)]])
      else
        var reason := if s.net.live[c].account == None then NotAuthenticated else if d !in s.db.devices then UnknownDevice else NotYourDevice;
        s' == s.(net := s.net.(queues := q[c := q[c] + [Error(reason)]]))
  {
    hide Presence.OneOwnerPerDevice, Presence.OnlyIssued, Presence.OtpIsLatest, Post;
    var q := s.net.queues;
    PostNone(q);
    if d in s.net.online { PostOne(q, s.net.online[d], UnattendedPasswordUpdated(password)); }
    PostOne(q, c, Error(NotAuthenticated));
    PostOne(q, c, Error(UnknownDevice));
    PostOne(q, c, Error(NotYourDevice));
  }

  /** A password that was set and not changed since is the one in the row. */
  lemma {:induction false} PasswordKept(es: seq<Event>, k: nat, d: DeviceId, owner: AccountId, h: Hash)
    requires Run(INIT, es) && d in After(INIT, es).db.devices && After(INIT, es).db.devices[d].owner == owner
    requires Ownership.SetsPasswordAt(es, k, d, owner, h) && Ownership.UnchangedSince(es, k, d)
    ensures After(INIT, es).db.devices[d].unattended == Some(h)
  {
    hide Step, Enabled, Presence.Inv;
    var n := |es| - 1;
    var front, e := es[..n], es[n];
    var s := After(INIT, front);
    Ownership.RowStep(s, e, d);
    if k == n {
      Presence.OnlineDevices(front);
      Ownership.OwnerStep(s, e, d);
      SettingOutcome(s, e.c, d, e.m.password, e.n);
    } else {
      assert Ownership.RowKeptAt(es, n, d);
      Ownership.OwnerStep(s, e, d);
      assert front[..k] == es[..k];
      forall l | k < l < n ensures Ownership.RowKeptAt(front, l, d) {
        assert Ownership.RowKeptAt(es, l, d) && front[..l] == es[..l];
      }
      PasswordKept(front, k, d, owner, h);
    }
  }

  /**
   * In every run, an unattended password opens a session exactly when the requester is logged in, the device has a row
   * and is online, and the password is the one that a connection logged in to the owner set last.
   */
  lemma UnattendedOpensExactly(es: seq<Event>, c: ConnId, d: DeviceId, password: string, n: Nonce)
    requires Run(INIT, es) && Enabled(After(INIT, es), AskUnattended(c, d, password, n))
    ensures var s := After(INIT, es);
      n.session in Step(s, AskUnattended(c, d, password, n)).net.sessions <==>
        && s.net.live[c].account.Some? && d in s.db.devices && d in s.net.online
        && SetByOwner(es, d, s.db.devices[d].owner, password)
  {
    hide Step, Run, After, Presence.Inv, Ownership.SetsPasswordAt, Ownership.UnchangedSince;
    var s := After(INIT, es);
    Presence.OnlineDevices(es);
    UnattendedExact(s, c, d, password, n);
    if d in s.db.devices {
      var row := s.db.devices[d];
      if row.unattended.Some? {
        Ownership.PasswordSetByOwner(es, d);
        var k :| 0 <= k < |es| && Ownership.SetsPasswordAt(es, k, d, row.owner, row.unattended.value) && Ownership.UnchangedSince(es, k, d);
      }
      if SetByOwner(es, d, row.owner, password) {
        var j, h :| 0 <= j < |es| && Ownership.SetsPasswordAt(es, j, d, row.owner, h) && h.password == password && Ownership.UnchangedSince(es, j, d);
        PasswordKept(es, j, d, row.owner, h);
      }
    }
  }

  /** Once the owner has set a password, anyone logged in who knows it is paired with the device while it is online. */
  lemma SetThenOpens(s: State, c: ConnId, d: DeviceId, password: string, n: Nonce, c2: ConnId, n2: Nonce)
    requires Presence.Inv(s) && Enabled(s, Receive(c, SetUnattendedPassword(d, password), n))
    requires d in s.db.devices && s.net.live[c].account == Some(s.db.devices[d].owner)
    requires d in s.net.online && c2 in s.net.live && s.net.live[c2].account.Some? && Fresh(s, n2)
    ensures var s' := Step(s, Receive(c, SetUnattendedPassword(d, password), n));
      Enabled(s', AskUnattended(c2, d, password, n2)) && n2.session in Step(s', AskUnattended(c2, d, password, n2)).net.sessions
  {
    hide Step, Presence.Inv;
    var e := Receive(c, SetUnattendedPassword(d, password), n);
    SettingOutcome(s, c, d, password, n);
    Presence.InvStep(s, e);
    UnattendedExact(Step(s, e), c2, d, password, n2);
  }
}
