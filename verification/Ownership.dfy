/** Who owns a device and who set its unattended password, traced back through the run. */
module Ownership {
  import opened Text
  import opened Protocol
  import opened Signaling
  import Presence

  /** `e` stores the row of device `d` for the account that the sending connection is logged in to. */
  ghost predicate Registers(s: State, e: Event, d: DeviceId, owner: AccountId) {
    && Enabled(s, e) && e.Receive? && e.m.RegisterDevice?
    && s.net.live[e.c].account == Some(owner)
    && d !in s.db.devices && d in Step(s, e).db.devices && Step(s, e).db.devices[d] == Device(owner, e.m.name, None)
  }

  /** `e` sets the unattended password of `d` from a connection logged in to `owner`. */
  ghost predicate SetsPassword(s: State, e: Event, d: DeviceId, owner: AccountId, h: Hash) {
    && e.Receive? && e.m.SetUnattendedPassword? && e.m.target == d && h == Hash(e.m.password, e.n.salt)
    && e.c in s.net.live && s.net.live[e.c].account == Some(owner)
  }

  /** `e` changes the stored password of `d`. */
  ghost predicate ChangesPassword(s: State, e: Event, d: DeviceId)
    requires Enabled(s, e)
  {
    && d in s.db.devices && d in Step(s, e).db.devices
    && Step(s, e).db.devices[d].unattended != s.db.devices[d].unattended
  }

  /** A row is new and registered by its owner, or old with only its password set by its owner, or unchanged. */
  lemma RowStep(s: State, e: Event, d: DeviceId)
    requires Enabled(s, e) && d in Step(s, e).db.devices
    ensures var row := Step(s, e).db.devices[d];
      if d !in s.db.devices then Registers(s, e, d, row.owner) && row.unattended == None
      else (|| row == s.db.devices[d]
            || (row.unattended.Some? && row == s.db.devices[d].(unattended := row.unattended)
                && SetsPassword(s, e, d, row.owner, row.unattended.value)))
  {
    hide Serve, Summaries, CredentialOk, Credentials, SignUp;
    match e
    case Receive(c, m, n) =>
      if m.Register? { hide CreateDevice; Presence.SignUpKeepsDevices(s.db, m.email, Hash(m.password, n.salt)); }
    case Http(cookie, r, n) => ServedRows(s, cookie, r, n, d);
    case _ =>
  }

  /** HTTP requests delete rows but change none. */
  lemma ServedRows(s: State, cookie: Option<string>, r: Request, n: Nonce, d: DeviceId)
    requires d in Serve(s, cookie, r, n).db.devices
    ensures d in s.db.devices && Serve(s, cookie, r, n).db.devices[d] == s.db.devices[d]
  {
    hide CurrentAccount, Trim, Admins, RequireAdmin, Credentials, SetRole, SignUp, OnPostLogout;
    match r
    case PostRegister(email, password) => Presence.SignUpKeepsDevices(s.db, Trim(email), Hash(password, n.salt));
    case PostLogout => Presence.LogoutKeepsDevices(s, cookie);
    case AdminSetRole(id, role) => Presence.SetRoleKeepsDevices(s.db, id, role);
    case PostLogin(_, _) =>
    case DeleteOwnDevice(_) =>
    case AdminCreateAccount(_, _, _) =>
    case AdminDeleteAccount(_) =>
    case AdminDeleteDevice(_, _) =>
    case AdminSetRegistration(_) =>
  }

  lemma OwnerStep(s: State, e: Event, d: DeviceId)
    requires Enabled(s, e) && d in s.db.devices && d in Step(s, e).db.devices
    ensures Step(s, e).db.devices[d].owner == s.db.devices[d].owner
  {
    hide Step, Registers, SetsPassword;
    RowStep(s, e, d);
  }

  /** A device that has a row now and at the end of any continuation has the same owner: a row that went never comes back. */
  lemma {:induction false} OwnerNeverChanges(s: State, es: seq<Event>, d: DeviceId)
    requires Presence.OnlyIssued(s) && Run(s, es) && d in s.db.devices && d in After(s, es).db.devices
    ensures After(s, es).db.devices[d].owner == s.db.devices[d].owner
  {
    hide Step, Enabled;
    if es != [] {
      var n := |es| - 1;
      var front := es[..n];
      var mid := After(s, front);
      IssuedAfter(s, front, d);
      if d !in mid.db.devices {
        Presence.RetiredStep(mid, es[n], d);
      } else {
        OwnerNeverChanges(s, front, d);
        OwnerStep(mid, es[n], d);
      }
    }
  }

  /** A used id stays used. */
  lemma {:induction false} IssuedAfter(s: State, es: seq<Event>, d: DeviceId)
    requires Run(s, es) && d in s.db.issuedDevices
    ensures d in After(s, es).db.issuedDevices
  {
    hide Step, Enabled;
    if es != [] {
      IssuedAfter(s, es[..|es| - 1], d);
      Presence.IssuedStep(After(s, es[..|es| - 1]), es[|es| - 1], d);
    }
  }

  ghost predicate RegistersAt(es: seq<Event>, k: nat, d: DeviceId, owner: AccountId) {
    k < |es| && Run(INIT, es[..k]) && Registers(After(INIT, es[..k]), es[k], d, owner)
  }

  ghost predicate SetsPasswordAt(es: seq<Event>, k: nat, d: DeviceId, owner: AccountId, h: Hash) {
    k < |es| && Run(INIT, es[..k]) && SetsPassword(After(INIT, es[..k]), es[k], d, owner, h)
  }

  /** After `l` events of the run the device has a row, owned by `owner`. */
  ghost predicate OwnedAt(es: seq<Event>, l: nat, d: DeviceId, owner: AccountId) {
    && l <= |es| && Run(INIT, es[..l])
    && d in After(INIT, es[..l]).db.devices && After(INIT, es[..l]).db.devices[d].owner == owner
  }

  /**
   * Every device row was stored by a RegisterDevice from a connection logged in to the account that owns it now, and
   * has been there with that owner ever since.
   */
  lemma {:induction false} RegisteredByOwner(es: seq<Event>, d: DeviceId)
    requires Run(INIT, es) && d in After(INIT, es).db.devices
    ensures var owner := After(INIT, es).db.devices[d].owner;
      exists k :: 0 <= k < |es| && RegistersAt(es, k, d, owner) && forall l :: k < l <= |es| ==> OwnedAt(es, l, d, owner)
  {
    hide Step, Enabled, Registers, SetsPassword;
    if es != [] {
      var n := |es| - 1;
      var front := es[..n];
      var s := After(INIT, front);
      var owner := After(INIT, es).db.devices[d].owner;
      RowStep(s, es[n], d);
      assert es[..n + 1] == es;
      if d in s.db.devices {
        RegisteredByOwner(front, d);
        var k :| 0 <= k < n && RegistersAt(front, k, d, owner) && forall l :: k < l <= n ==> OwnedAt(front, l, d, owner);
        assert front[..k] == es[..k];
        assert RegistersAt(es, k, d, owner);
        forall l | k < l <= |es| ensures OwnedAt(es, l, d, owner) {
          if l <= n { assert OwnedAt(front, l, d, owner) && front[..l] == es[..l]; }
        }
      } else {
        assert RegistersAt(es, n, d, owner);
        assert OwnedAt(es, n + 1, d, owner);
      }
    }
  }

  /** The run after event `k` holds no change of the stored password of `d`. */
  ghost predicate UnchangedSince(es: seq<Event>, k: nat, d: DeviceId) {
    forall l :: k < l < |es| ==> RowKeptAt(es, l, d)
  }

  ghost predicate RowKeptAt(es: seq<Event>, l: nat, d: DeviceId) {
    && l < |es| && Run(INIT, es[..l]) && Enabled(After(INIT, es[..l]), es[l])
    && d in After(INIT, es[..l]).db.devices
    && !ChangesPassword(After(INIT, es[..l]), es[l], d)
  }

  /** A stored unattended password was last written by a connection logged in to the device's owner. */
  lemma {:induction false} PasswordSetByOwner(es: seq<Event>, d: DeviceId)
    requires Run(INIT, es) && d in After(INIT, es).db.devices && After(INIT, es).db.devices[d].unattended.Some?
    ensures var row := After(INIT, es).db.devices[d];
      exists k :: 0 <= k < |es| && SetsPasswordAt(es, k, d, row.owner, row.unattended.value) && UnchangedSince(es, k, d)
  {
    hide Step, Enabled, Registers, SetsPassword;
    if es != [] {
      var n := |es| - 1;
      var front := es[..n];
      var s, row := After(INIT, front), After(INIT, es).db.devices[d];
      RowStep(s, es[n], d);
      if row == s.db.devices[d] {
        PasswordSetByOwner(front, d);
        var k :| 0 <= k < n && SetsPasswordAt(front, k, d, row.owner, row.unattended.value) && UnchangedSince(front, k, d);
        assert front[..k] == es[..k];
        assert SetsPasswordAt(es, k, d, row.owner, row.unattended.value);
        forall l | k < l < |es| ensures RowKeptAt(es, l, d) {
          if l < n {
            assert RowKeptAt(front, l, d) && front[..l] == es[..l];
          }
        }
      } else {
        assert SetsPasswordAt(es, n, d, row.owner, row.unattended.value) && UnchangedSince(es, n, d);
      }
    }
  }
}
