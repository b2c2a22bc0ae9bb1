/**
 * What ends a one-time password, and what a kick does: a password opens any number of sessions until its device
 * registers again, disconnects or is deleted, and a kicked connection is told but stays.
 */
module Withdrawal {
  import opened Text
  import opened Protocol
  import opened Signaling
  import Presence
  import Relaying

  // ----- One-time passwords -----

  /** The server pairs whoever presents `otp` with the device. */
  predicate Accepts(s: State, d: DeviceId, otp: string) {
    d in s.db.devices && d in s.net.online && d in s.net.otp && s.net.otp[d] == otp
  }

  function Ask(c: ConnId, d: DeviceId, otp: string, n: Nonce): Event {
    Receive(c, RequestConnection(d, OneTimePassword(otp)), n)
  }

  /** That is: a request with this password opens its session exactly when the requester is logged in and the password accepted. */
  lemma AcceptsExact(s: State, c: ConnId, d: DeviceId, otp: string, n: Nonce)
    requires Presence.Inv(s) && Enabled(s, Ask(c, d, otp, n))
    ensures n.session in Step(s, Ask(c, d, otp, n)).net.sessions <==> s.net.live[c].account.Some? && Accepts(s, d, otp)
    ensures n.session in Step(s, Ask(c, d, otp, n)).net.sessions ==>
      Step(s, Ask(c, d, otp, n)).net.sessions[n.session] == Peers(c, s.net.online[d])
  {
    hide Presence.OnlineIsLive, Presence.OneOwnerPerDevice, Presence.OnlyIssued;
  }

  /** An accepted deletion of the device: by its owner, by an admin, or with its account. */
  ghost predicate Deletes(s: State, e: Event, d: DeviceId) {
    && e.Http? && d in s.db.devices && Serve(s, e.cookie, e.r, e.n).status == NoContent
    && (|| ((e.r.DeleteOwnDevice? || e.r.AdminDeleteDevice?) && e.r.device == d)
        || (e.r.AdminDeleteAccount? && e.r.account == s.db.devices[d].owner))
  }

  /** The device's connection registers it again, and a new password is drawn. */
  predicate Renews(s: State, e: Event, d: DeviceId) {
    && e.Receive? && e.m.RegisterDevice? && e.c in s.net.live && s.net.live[e.c].account.Some?
    && d in s.net.online && e.c == s.net.online[d]
  }

  /** The events after which `otp` is no longer accepted for `d`. */
  ghost predicate Ends(s: State, e: Event, d: DeviceId, otp: string) {
    || (d in s.net.online && e == Disconnect(s.net.online[d]))
    || Deletes(s, e, d)
    || (Renews(s, e, d) && e.n.otp != otp)
  }

  /** Rows go only by an accepted deletion. */
  lemma RowStays(s: State, cookie: Option<string>, r: Request, n: Nonce, d: DeviceId)
    requires d in s.db.devices
    ensures d in Serve(s, cookie, r, n).db.devices <==> !Deletes(s, Http(cookie, r, n), d)
  {
    hide CurrentAccount, Trim, Admins, RequireAdmin, Credentials, SetRole, SignUp, OnPostLogout, MayLoseAdmin;
    match r
    case PostRegister(email, password) => Presence.SignUpKeepsDevices(s.db, Trim(email), Hash(password, n.salt));
    case PostLogout => Presence.LogoutKeepsDevices(s, cookie);
    case AdminSetRole(id, role) => Presence.SetRoleKeepsDevices(s.db, id, role);
    case PostLogin(_, _) =>
    case DeleteOwnDevice(_) =>
    case AdminCreateAccount(_, _, _) =>
    case AdminDeleteAccount(_) =>
    case AdminDeleteDevice(_, _) =>
    case AdminSetRegistration(_) =>
  }

  lemma ServingPassword(s: State, e: Event, d: DeviceId, otp: string)
    requires Presence.Inv(s) && Enabled(s, e) && Accepts(s, d, otp) && e.Http?
    ensures Accepts(Step(s, e), d, otp) <==> !Deletes(s, e, d)
    ensures !Deletes(s, e, d) ==> Step(s, e).net.online[d] == s.net.online[d]
  {
    hide Serve, Presence.Inv;
    RowStays(s, e.cookie, e.r, e.n, d);
    Presence.ServingOnlyLeaves(s, e.cookie, e.r, e.n);
  }

  /** Registering touches the password of the registering connection's own device only. */
  lemma RegisteringPassword(s: State, e: Event, d: DeviceId, otp: string)
    requires Presence.Inv(s) && Enabled(s, e) && Accepts(s, d, otp) && e.Receive? && e.m.RegisterDevice?
    ensures Accepts(Step(s, e), d, if Renews(s, e, d) then e.n.otp else otp)
    ensures Step(s, e).net.online[d] == s.net.online[d]
  {
    hide Presence.OnlyIssued, Presence.OtpIsLatest, Post;
    assert s.net.online[d] in s.net.live && s.net.live[s.net.online[d]].device == Some(d);
  }

  lemma KeptRows(s: State, c: ConnId, m: ClientMessage, n: Nonce)
    requires c in s.net.live && !m.RegisterDevice?
    ensures Handle(s, c, m, n).db.devices.Keys == s.db.devices.Keys
  {
    hide Summaries, CredentialOk, Credentials, SignUp;
    if m.Register? { Presence.SignUpKeepsDevices(s.db, m.email, Hash(m.password, n.salt)); }
  }

  /** One step ends a password exactly when its device's connection closes, the device is deleted, or another password is drawn. */
  lemma PasswordStep(s: State, e: Event, d: DeviceId, otp: string)
    requires Presence.Inv(s) && Enabled(s, e) && Accepts(s, d, otp)
    ensures Accepts(Step(s, e), d, otp) <==> !Ends(s, e, d, otp)
    ensures Renews(s, e, d) ==> Accepts(Step(s, e), d, e.n.otp)
    ensures d in Step(s, e).net.online ==> Step(s, e).net.online[d] == s.net.online[d]
  {
    hide Handle, Serve, Post, Presence.OnlyIssued, Presence.OtpIsLatest;
    match e
    case Receive(c, m, n) =>
      if m.RegisterDevice? {
        RegisteringPassword(s, e, d, otp);
      } else {
        KeptRows(s, c, m, n);
        Presence.HandlingOnlyLeaves(s, c, m, n);
      }
    case Http(cookie, r, n) =>
      ServingPassword(s, e, d, otp);
      Presence.ServingOnlyLeaves(s, cookie, r, n);
    case Disconnect(c) => assert s.net.live[s.net.online[d]].device == Some(d);
    case _ =>
  }

  ghost predicate AcceptsAt(s: State, es: seq<Event>, k: nat, d: DeviceId, otp: string) {
    k <= |es| && Run(s, es[..k]) && Accepts(After(s, es[..k]), d, otp)
  }

  ghost predicate EndsAt(s: State, es: seq<Event>, k: nat, d: DeviceId, otp: string) {
    k < |es| && Run(s, es[..k]) && Ends(After(s, es[..k]), es[k], d, otp)
  }

  lemma PasswordStepAt(s: State, es: seq<Event>, k: nat, d: DeviceId, otp: string)
    requires Presence.Inv(s) && Run(s, es) && k < |es| && AcceptsAt(s, es, k, d, otp)
    ensures AcceptsAt(s, es, k + 1, d, otp) <==> !EndsAt(s, es, k, d, otp)
  {
    hide Step, Enabled, Accepts, Ends, Presence.Inv;
    RunPrefix(s, es, k + 1);
    assert es[..k + 1][..k] == es[..k];
    Presence.InvAfter(s, es[..k]);
    PasswordStep(After(s, es[..k]), es[k], d, otp);
  }

  lemma {:induction false} AcceptsUntil(s: State, es: seq<Event>, k: nat, d: DeviceId, otp: string)
    requires Presence.Inv(s) && Run(s, es) && k <= |es| && Accepts(s, d, otp)
    requires forall l :: 0 <= l < k ==> !EndsAt(s, es, l, d, otp)
    ensures AcceptsAt(s, es, k, d, otp)
  {
    hide Accepts, EndsAt, Presence.Inv;
    if k > 0 {
      AcceptsUntil(s, es, k - 1, d, otp);
      PasswordStepAt(s, es, k - 1, d, otp);
    }
  }

  /**
   * From any state in which a one-time password is accepted, it stays accepted throughout a run exactly when the run
   * holds no Disconnect of the device's connection, no accepted deletion of the device and no registration that draws
   * another password. In particular no pairing consumes it.
   */
  lemma PasswordLasts(s: State, es: seq<Event>, d: DeviceId, otp: string)
    requires Presence.Inv(s) && Run(s, es) && Accepts(s, d, otp)
    ensures (forall k :: 0 <= k <= |es| ==> AcceptsAt(s, es, k, d, otp)) <==> (forall k :: 0 <= k < |es| ==> !EndsAt(s, es, k, d, otp))
  {
    hide AcceptsAt, EndsAt, Presence.Inv;
    if forall k :: 0 <= k <= |es| ==> AcceptsAt(s, es, k, d, otp) {
      forall k | 0 <= k < |es| ensures !EndsAt(s, es, k, d, otp) {
        assert AcceptsAt(s, es, k, d, otp) && AcceptsAt(s, es, k + 1, d, otp);
        PasswordStepAt(s, es, k, d, otp);
      }
    } else if forall k :: 0 <= k < |es| ==> !EndsAt(s, es, k, d, otp) {
      forall k | 0 <= k <= |es| ensures AcceptsAt(s, es, k, d, otp) { AcceptsUntil(s, es, k, d, otp); }
    }
  }

  /** Wherever a password is accepted, anyone logged in can open one session after another with it. */
  lemma PasswordOpensTwice(s: State, c: ConnId, d: DeviceId, otp: string, n: Nonce, n2: Nonce)
    requires Presence.Inv(s) && Accepts(s, d, otp) && Enabled(s, Ask(c, d, otp, n)) && s.net.live[c].account.Some?
    requires Fresh(s, n2) && n2.session != n.session
    ensures var s' := Step(s, Ask(c, d, otp, n));
      && n.session in s'.net.sessions && Enabled(s', Ask(c, d, otp, n2))
      && n2.session in Step(s', Ask(c, d, otp, n2)).net.sessions
  {
    hide Presence.Inv;
    var e := Ask(c, d, otp, n);
    AcceptsExact(s, c, d, otp, n);
    PasswordStep(s, e, d, otp);
    Presence.InvStep(s, e);
    AcceptsExact(Step(s, e), c, d, otp, n2);
  }

  // ----- Kicking -----

  /** An accepted device deletion leaves every connection live, the device's own with its device; that one alone is told. */
  lemma KickOnlyTells(s: State, cookie: Option<string>, r: Request, n: Nonce)
    requires Presence.Inv(s) && Fresh(s, n) && (r.DeleteOwnDevice? || r.AdminDeleteDevice?)
    requires Serve(s, cookie, r, n).status == NoContent
    ensures var s' := Step(s, Http(cookie, r, n));
      && s'.net.live == s.net.live && s'.net.sessions == s.net.sessions && s'.net.queues.Keys == s.net.queues.Keys
      && r.device !in s'.net.online && r.device !in s'.net.otp
      && (forall c :: c in s.net.queues ==>
            s'.net.queues[c] == s.net.queues[c] + (if r.device in s.net.online && s.net.online[r.device] == c then [Error(DeviceRemoved)] else []))
      && (r.device in s.net.online ==>
            s.net.online[r.device] in s'.net.live && s'.net.live[s.net.online[r.device]].device == Some(r.device))
  {
    hide Serve, Presence.OneOwnerPerDevice, Presence.OnlyIssued, Presence.OtpIsLatest;
    Presence.RemovesOrRefuses(s, cookie, r, n);
  }

  /** So a kicked connection goes on until it disconnects itself. */
  lemma KickedStays(s: State, cookie: Option<string>, r: Request, n: Nonce, es: seq<Event>)
    requires Presence.Inv(s) && Fresh(s, n) && (r.DeleteOwnDevice? || r.AdminDeleteDevice?)
    requires Serve(s, cookie, r, n).status == NoContent && r.device in s.net.online
    requires Run(Step(s, Http(cookie, r, n)), es)
    ensures var c := s.net.online[r.device];
      c in After(Step(s, Http(cookie, r, n)), es).net.live <==> !Relaying.Leaves(es, c)
  {
    hide Serve, Step, Run, After, Presence.OneOwnerPerDevice, Presence.OnlyIssued, Presence.OtpIsLatest;
    KickOnlyTells(s, cookie, r, n);
    Relaying.LiveAfter(Step(s, Http(cookie, r, n)), es, s.net.online[r.device]);
  }
}
