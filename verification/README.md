# Visuara: a verified model

Visuara is a self-hosted remote-desktop tool. A signaling server keeps accounts and devices, pairs a controller with a
host and relays their WebRTC negotiation; the two clients then exchange clipboard texts and files directly. This
project models five parts of it in Dafny and proves what they promise over whole runs. `dafny verify dfyconfig.toml`
checks everything.

| part | files | form |
|---|---|---|
| signaling server, both front ends | `Signaling` (the step function), `SignalingServer` (the code that changes tables and maps in place) | a class whose ghost history is a run |
| what the server keeps | `Presence`, `Withdrawal`, `Relaying`, `Pairing`, `Ownership`, `Accounts`, `Logins`, `Cookies` | lemmas over every run |
| what each message and request achieves | `Replies`, `Requests` | lemmas over every state |
| host, controller and server together | `Clients` (reactions), `ClientMachine` (the code), `Negotiation` (the composition), `Candidates`, `Stall`, `Lifecycle`, `Purpose` | lemmas over every run |
| runs that meet the hypotheses | `Scenario`, `Handshake` | explicit runs |
| file transfer | `FileNames`, `FileTransfer`, `Interleaving` | loops, a class, lemmas over every interleaving |
| clipboard sync | `Clipboard` | a class, lemmas over every run |
| embedded config | `Json`, `EmbeddedConfig` | functions, buffers filled in place, round trips |

`Text`, `Bytes` and `Protocol` hold what the parts share.

## How to read it

A run is a sequence of events; `Run` says that every event was possible when it happened and `After` gives the state
reached. Each request handler is one step. Random values (ids, tokens, passwords, salts) are part of the event.
Everything below holds for all runs, including those in which other connections send any message at any time.

The classes carry ghost state that ties them to these runs: `Server.history` is the run the server has made so far,
`FileReceiver.log` the messages received, and `Machine.Follows` says that a client object is the client on one
connection of the whole system. The lemmas about runs therefore hold of the objects; `SignalingServer.Server.Sound` and
the contracts of `HandleMessage`, `HandleRequest` and `Machine.Receive` state the main consequences outright.

Assumptions, all visible in `Signaling.Enabled`, `Signaling.Fresh` and the datatypes:

- UUIDs and login tokens are new. A generated device id either hits an existing row, and the insert fails as in the
  program, or was never used before.
- Database calls fail only on UNIQUE, PRIMARY KEY and REFERENCES; the bundled SQLite enforces the last. Sending on the
  channel of a live connection succeeds. A message that a client has sent is handled later or never, in order.
- Password hashing is symbolic: a hash matches exactly the password it was made from.
- Calls into WebRTC may fail at any point (`ok`), and a client may stop at any time (`Crash`).
- A clipboard write succeeds. `Clipboard.AgreementAtQuiet`, `OneSided` and `OneSidedAgreement` need ordered, lossless
  delivery; the bounds on traffic, `AgreementExact` and `OneSidedExact` do not.
- Strings are UTF-8.

## What the proofs found

- Negotiation: the host takes whatever comes next after its TURN request for the reply. If the offer overtakes the
  reply it is lost, and the session hangs for good without any failure. `Handshake.OfferLost` is such a run,
  `Stall.StalledExactly` says that this happens exactly then, and `Stall.StalledForGood` that nothing recovers it.
- File names: with all 10,000 candidate names taken, an offer falls back on the original name and empties that file
  (`FileTransfer.FullDirectoryClobbers`); `FileTransfer.OfferSparesFiles` gives the exact condition.
- Clipboard: edits on both sides whose updates cross leave the clipboards swapped (`Clipboard.CrossingSwaps`). Each update
  is sent from a task of its own and a failed send is ignored, so even one-sided editing can end in disagreement
  (`Clipboard.ReorderingDisagrees`). `Clipboard.AgreementExact` says for every run, with reordering and loss, exactly when
  the clipboards agree; `Clipboard.OneSidedExact` and `Clipboard.AgreementAtQuiet` do so for edits on one side and for
  ordered delivery.
- Chunk numbers wrap for files over 2^46 bytes and for no others (`FileTransfer.SequenceNumbersFit`).
- The comment in `embedded_config.rs` says that an un-patched build does not contain the marker. Every build contains
  it, with an empty slot, and reading any binary with that slot is an error (`EmbeddedConfig.UnpatchedIsUnreadable`); a
  config counts as absent exactly when there is no marker or the first one ends the data (`EmbeddedConfig.AbsentExactly`).
- One-time passwords are not used up: there is a run in which one password opens two sessions
  (`Scenario.OneTimePasswordReused`), and `Withdrawal.PasswordLasts` says exactly which events end a password.
- `kick_device` does not disconnect, although its comment says so: the connection is told, keeps its device and stays
  live until its own Disconnect (`Withdrawal.KickOnlyTells`, `Withdrawal.KickedStays`). It can register again, but cannot
  be paired with (`Presence.DeletedDeviceNeverPaired`).

## Model

| member | source | states |
|---|---|---|
| `Negotiation.CandidatesAfterDescriptions` | visuara-client/src/host.rs:231-247 | in every run, when the two distinct endpoints of a session run the controller and host code, neither side has added a remote ICE candidate without having set its remote description, whatever all other connections send |
| `Negotiation.CandidateBranchesUnreachable` | visuara-client/src/controller.rs:157-166 | in every run the next message of a host waiting for the offer, or of a controller waiting for the answer, is never a candidate of their session: the ICE branches of both waiting loops are dead |
| `Negotiation.AnswersMatchOffers` | visuara-client/src/controller.rs:151-168 | whenever a controller has accepted an answer, its session's host is in that session, has that text as its own local description, and holds as remote description the very offer this controller sent |
| `Negotiation.InvStep` | visuara-signaling/src/ws.rs:292-309 | every move of the server, a client or anyone else keeps the joint invariant: what an endpoint was sent is the beginning of what the other endpoint's client wrote, in order, and all that was delivered while it is live |
| `Candidates.CandidatesExact` | visuara-client/src/controller.rs:182-196 | in every run, a client in a session has added exactly the candidates relayed to it that it has read, in order, if and only if it read none of them as its TURN reply, after it stopped, or with a failure |
| `Candidates.CandidatesArrive` | visuara-client/src/host.rs:291-313 | between two clients, what one has added is the beginning of what the other gathered while streaming, in order, each once, unless it failed or stopped; and all of it once everything is delivered and read |
| `Stall.StalledExactly` | visuara-client/src/host.rs:108-114 | in every run, a host waiting for the offer has lost it exactly when it took it for its TURN reply |
| `Stall.StalledForGood` | visuara-client/src/host.rs:231-247 | no continuation of such a run gives either side its remote description |
| `Stall.UnstalledAnswers` | visuara-client/src/host.rs:231-247 | a waiting host that reads a signal of its session reads its controller's offer, and unless a call fails it answers it |
| `Handshake.OfferLost` | visuara-client/src/host.rs:108-114 | a run without failures in which the offer is lost |
| `Lifecycle.StopsExactly` | visuara-client/src/controller.rs:63-66 | a move stops a client exactly when it crashes, reads something else than the one reply it must have, or a call on its peer connection fails while it is not a streaming controller |
| `Lifecycle.FailureEnds` | visuara-client/src/controller.rs:187-191 | a failed call makes a client send and add nothing and stop, except that a streaming controller goes on as it was; where no call is made a failure changes nothing |
| `Lifecycle.HostServesFirst` | visuara-client/src/host.rs:84-100 | in every run, a running host is in the first session announced to it that it has read of |
| `Purpose.ClientsKeepToPlan` | visuara-client/src/signaling_client.rs:49-62 | in every run, all that a client wrote is a login with its user's account, its device's name, its user's target and credential, or a signal of its own role for its own session |
| `Purpose.ControllerGetsItsDevice` | visuara-client/src/controller.rs:60-66 | in every run, a controller's session was opened by its own request, with its user's credential, valid then, for its user's target, online on the session's host |
| `Handshake.Completes` | visuara-client/src/controller.rs:52-168 | for any offer and answer there is a run of server, host and controller that ends in a paired session with the controller holding that answer to that offer |
| `ClientMachine.Machine.constructor` | visuara-client/src/signaling_client.rs:49-62 | a started client is the client that its launch adds to the system |
| `ClientMachine.Machine.Receive` | visuara-client/src/host.rs:84-114 | one turn of the host's or controller's receive loops is the system's move on that connection; a waiting client never finds a candidate next, has no candidate without a remote description, has added every candidate it read exactly when it missed none, and an accepted answer is the host's to its own offer |
| `ClientMachine.Machine.SendCandidate` | visuara-client/src/host.rs:292-297 | own candidates leave only in the final loop, as the system's move |
| `Relaying.RelayExact` | visuara-signaling/src/ws.rs:221-244 | for every session of every run and either direction, the signals queued to one endpoint are exactly the relay requests the other made after the session was opened and before the first left: same order, each once, nothing added |
| `Relaying.SignalStep` | visuara-signaling/src/ws.rs:292-309 | one step changes the signals on a channel only by the one forwarded, which needs a request by the other endpoint of a known session to a live peer |
| `Relaying.RelayedOrigin` | visuara-signaling/src/ws.rs:292-309 | in every run each relayed message on any channel of any connection was asked for by the other endpoint of its session |
| `Relaying.SessionOrigin` | visuara-signaling/src/ws.rs:169-219 | every session in every run was opened by an authenticated request with a credential valid at that moment for a registered device online on a live connection, and joins exactly the requester and that connection |
| `Relaying.SessionFixed` | visuara-signaling/src/state.rs:23-25 | in every continuation the endpoints of a session stay what they are |
| `Relaying.PairingOutcome` | visuara-signaling/src/ws.rs:192-219 | a pairing request opens exactly its session and announces it to host and requester, in that order, or changes nothing and reports an error |
| `Replies.PairingRefused` | visuara-signaling/src/ws.rs:173-203 | a refused request changes nothing and names the first thing wrong; only whoever knows the unattended password learns that a device is offline, and nobody does with a one-time password |
| `Relaying.AnnouncedFirst` | visuara-signaling/src/ws.rs:204-218 | in every run the host's channel holds IncomingConnection for a session before any signal relayed for it |
| `Pairing.CredentialOrigin` | visuara-signaling/src/ws.rs:180-197 | whoever opened a session presented the one-time password last sent on the connection that became the host endpoint, or the unattended password last set by a connection logged in to the device's owner |
| `Pairing.UnattendedExact` | visuara-signaling/src/ws.rs:186-218 | an unattended password opens its session exactly when the requester is logged in, the device has a row and is online, and the row holds a hash of that password |
| `Pairing.UnattendedOpensExactly` | visuara-signaling/src/ws.rs:186-218 | in every run it does so exactly when, besides, that password is the one a connection logged in to the owner set last |
| `Pairing.SettingOutcome` | visuara-signaling/src/ws.rs:256-280 | setting the password is obeyed exactly for a connection logged in to the owner, changes that column only, and tells the device's connection alone |
| `Pairing.SetThenOpens` | visuara-signaling/src/ws.rs:256-280 | after that, anyone logged in who presents it is paired with the device while it is online |
| `Presence.OnlineDevices` | visuara-signaling/src/ws.rs:134-152 | in every state of every run each online device is on a live connection that recorded it, no two connections hold one device, a one-time password exists exactly for online devices, and it is the one last sent on that connection |
| `Presence.InvStep` | visuara-signaling/src/ws.rs:76-80 | every step, closing and kicking included, keeps that |
| `Replies.ClosingOutcome` | visuara-signaling/src/ws.rs:76-82 | closing takes exactly the devices on that connection offline; all else stays |
| `Replies.ListReply` | visuara-signaling/src/ws.rs:154-167 | the list has exactly one entry for each device of the account, online exactly when it is on a live connection |
| `Presence.DeletionRetires` | visuara-signaling/src/api/devices.rs:35-50 | an accepted deletion by the owner, by an admin or with the account leaves a used id without a row |
| `Presence.DeletedDeviceNeverPaired` | visuara-signaling/src/ws.rs:174-178 | once a device row is gone, no request in any continuation opens a session for its id, even if its connection registers again |
| `Withdrawal.AcceptsExact` | visuara-signaling/src/ws.rs:180-203 | a request with a one-time password opens its session exactly when the requester is logged in, the device has a row and is online, and the password is the current one |
| `Withdrawal.PasswordStep` | visuara-signaling/src/ws.rs:146-147 | one step ends a one-time password exactly when its device's connection closes, the device is deleted, or its connection registers again and draws another password, which then counts |
| `Withdrawal.PasswordLasts` | visuara-signaling/src/ws.rs:181-185 | in every run from any state that accepts a password, it is accepted throughout exactly when none of those events happens; no pairing consumes it |
| `Withdrawal.PasswordOpensTwice` | visuara-signaling/src/ws.rs:192-219 | wherever a password is accepted, anyone logged in can open one session after another with it |
| `Scenario.OneTimePasswordReused` | visuara-signaling/src/ws.rs:181-185 | a run from the empty database in which one password opens two sessions |
| `Withdrawal.KickOnlyTells` | visuara-signaling/src/api/devices.rs:54-62 | an accepted device deletion leaves every connection live, the kicked one with its device, takes the device offline, and adds exactly one DeviceRemoved error to exactly that channel |
| `Withdrawal.KickedStays` | visuara-signaling/src/api/devices.rs:54-62 | in every continuation a kicked connection is live exactly until its own Disconnect |
| `Ownership.RegisteredByOwner` | visuara-signaling/src/ws.rs:136-144 | every device row was stored by a RegisterDevice from a connection logged in to the account that owns it now, and was there with that owner at every moment since |
| `Ownership.OwnerNeverChanges` | visuara-signaling/src/db.rs:331-344 | a device with a row now and at the end of any continuation has the same owner: a row that went never comes back |
| `Ownership.PasswordSetByOwner` | visuara-signaling/src/ws.rs:256-273 | a stored unattended hash was last written by a connection logged in to the device's owner, and nothing changed it since |
| `Accounts.DbFromStart` | visuara-signaling/src/db.rs:78-99 | in every run from an empty database an admin exists whenever an account does, the registration flag is undecided exactly before the first account, every device and login row refers to an existing account, and emails are unique |
| `Accounts.BootstrapOnce` | visuara-signaling/src/session.rs:78-84 | after the first account the table is never empty again, so the first-account rule applies at most once |
| `Accounts.SignUpKeeps` | visuara-signaling/src/session.rs:69-85 | sign-up appends one account: an admin, closing registration, if the table was empty, else an ordinary user, leaving the flag |
| `Accounts.GuardExact` | visuara-signaling/src/api/admin.rs:294-309 | the guard refuses exactly for the only admin |
| `Accounts.GuardLeavesAdmin` | visuara-signaling/src/api/admin.rs:294-309 | when the guard agrees, some admin other than the account in question remains |
| `Accounts.SetRoleKeeps` | visuara-signaling/src/api/admin.rs:257-275 | a role change past the guard keeps every table invariant and a non-empty table |
| `Accounts.DeleteAccountKeeps` | visuara-signaling/src/db.rs:228-240 | deleting an account past the guard keeps every table invariant, no row is left dangling, and the table stays non-empty |
| `Accounts.SignUpGate` | visuara-signaling/src/api/auth.rs:35-39 | every successful public sign-up, over either front end, is the very first account or follows an admin switching registration on with none switching it off in between |
| `Accounts.FlagExact` | visuara-signaling/src/api/admin.rs:348-360 | in every run the registration flag is on exactly when an admin switched it on and none off since |
| `Requests.SignUpExactly` | visuara-signaling/src/session.rs:69-85 | in every run a public sign-up, over either front end, creates an account exactly when it is well formed, its email is new, and it is the very first or registration is switched on |
| `Accounts.OneSignUpBeforeEnabling` | visuara-signaling/src/ws.rs:93-101 | two successful public sign-ups in a run have an admin enabling registration before the second |
| `Accounts.AdminOnly` | visuara-signaling/src/session.rs:54-61 | an admin request is let through exactly when its cookie resolves to an account that is an admin in that very state; otherwise nothing changes |
| `Accounts.DeletedAccountTokensDie` | visuara-signaling/src/db.rs:256-272 | after an account is deleted its tokens resolve to nobody in any continuation |
| `Accounts.CredentialsExact` | visuara-signaling/src/db.rs:184-198 | the account found for a login is exactly the one with that email and a matching password |
| `Logins.LoginOutcome` | visuara-signaling/src/ws.rs:116-132 | a login makes the connection act for exactly the account with that email and password, and without one leaves it as it was with an error |
| `Logins.RegisterOutcome` | visuara-signaling/src/ws.rs:93-114 | a sign-up succeeds exactly while registration is open and for a new email; the connection then acts for a new account with that email and password |
| `Logins.ActsForLastLogin` | visuara-signaling/src/ws.rs:116-125 | in every run, a live connection acts for an account exactly when the last time it authenticated it logged in with that account's email and password, or created it with them |
| `Requests.PostRegisterOutcome` | visuara-signaling/src/api/auth.rs:30-57 | sign-up over HTTP is accepted exactly with email and password, while open, for a new email, adds one account and a token that resolves to it; each refusal has its status and changes nothing |
| `Requests.PostLoginOutcome` | visuara-signaling/src/api/auth.rs:65-84 | login over HTTP is accepted exactly with an account's email and password, and its token resolves to that account |
| `Requests.LogoutEndsToken` | visuara-signaling/src/api/auth.rs:86-93 | the token in the cookie resolves to nobody in any continuation, and every other token as before |
| `Requests.RoleOutcome` | visuara-signaling/src/api/admin.rs:257-275 | a role change is obeyed exactly for an admin and unless it demotes the only one; that account alone then has that role |
| `Requests.RoleDecides` | visuara-signaling/src/session.rs:54-61 | after a role change, requests of that account pass the admin check exactly when it was made an admin, and all others as before |
| `Requests.CreateOutcome` | visuara-signaling/src/api/admin.rs:220-250 | an admin creates an account exactly with email and password and for a new email, with the wanted role, whether registration is open or not |
| `Requests.DeletionOutcome` | visuara-signaling/src/api/admin.rs:277-288 | an account is deleted exactly by an admin and unless it is the only one; its rows go, its email is free again, and everyone else keeps account, devices and tokens |
| `Requests.DeviceDeletionOutcome` | visuara-signaling/src/api/devices.rs:35-50 | a device is deleted exactly by its owner's cookie or by an admin who names its owner; no other row changes, and a refusal changes nothing |
| `Accounts.SessionCookieWorks` | visuara-signaling/src/api/auth.rs:65-84 | after a successful login, a request whose cookie header carries the token that was set resolves to that account |
| `Cookies.CookieRoundTrip` | visuara-signaling/src/session.rs:22-28 | in a header built from legal pairs as in section 4.2.1 of RFC 6265 a lookup yields the value of the first pair of that name, and nothing when there is none or no header |
| `Text.TrimExact` | visuara-signaling/src/api/auth.rs:31-31 | trimming takes away whitespace at both ends, all of it, and nothing else |
| `SignalingServer.Server.ValidIsSound` | visuara-signaling/src/state.rs:13-25 | in whatever state the entry points leave the server, the facts about online devices and tables hold and every session's channels carry exactly what the other endpoint asked to relay |
| `SignalingServer.Server.constructor` | visuara-signaling/src/state.rs:13-25 | a new server has made the empty run |
| `SignalingServer.Server.OpenConnection` | visuara-signaling/src/ws.rs:31-47 | the server's run goes on with Connect |
| `SignalingServer.Server.CloseConnection` | visuara-signaling/src/ws.rs:76-82 | the cleanup continues the run with Disconnect |
| `SignalingServer.Server.RejectGarbage` | visuara-signaling/src/ws.rs:68-73 | a malformed message continues the run, with an error as its only effect |
| `SignalingServer.Server.HandleMessage` | visuara-signaling/src/ws.rs:84-283 | handling any client message in place continues the run by that event; it creates an account exactly for a sign-up with a new email, as the first or with registration switched on |
| `SignalingServer.Server.HandleRequest` | visuara-signaling/src/api/mod.rs:19-42 | serving any HTTP request in place continues the run by that event, with its status; sign-up creates an account under the same exact condition, and an admin request passes only for an account that is an admin at that moment |
| `Interleaving.DiskAfterInterleaving` | visuara-client/src/file_transfer.rs:81-108 | after any interleaving of any number of transfers for which names sufficed: old files unchanged, each transfer not cancelled in a new place of its own, named as offered or with a number, with exactly its bytes, cancelled ones without a file, and no other file |
| `Interleaving.FileArrives` | visuara-client/src/file_transfer.rs:88-98 | a transfer whose whole stream has arrived, however interleaved, is logged under the offered name or that name with a number, and its file equals the source byte for byte |
| `Interleaving.StreamPayload` | visuara-client/src/file_transfer.rs:22-54 | a stream carries the data, and its offer announces the name and the size of just that |
| `Interleaving.SmallDirectoryIsRoomy` | visuara-client/src/file_transfer.rs:118-128 | names suffice whenever old entries and transfers together are at most 10,000 |
| `Interleaving.StreamIsSane` | visuara-client/src/file_transfer.rs:22-54 | every beginning of what the sender sends is a stream the previous rows speak about |
| `FileTransfer.FileReceiver.HandleMessage` | visuara-client/src/file_transfer.rs:81-108 | the receiver and its disk are always where the messages so far lead, for every message in every state |
| `FileTransfer.SendFile` | visuara-client/src/file_transfer.rs:22-54 | the messages sent are the offer, the chunks in order and the completion |
| `FileTransfer.ChunksCarryData` | visuara-client/src/file_transfer.rs:40-50 | the chunks concatenate to the data |
| `FileTransfer.ChunksNumbered` | visuara-client/src/file_transfer.rs:40-50 | there are as many as the size says, numbered consecutively modulo 2^32 |
| `FileTransfer.ChunkSizes` | visuara-client/src/file_transfer.rs:40-50 | every chunk but the last is full, and none is empty |
| `FileTransfer.SequenceNumbersFit` | visuara-client/src/file_transfer.rs:45-45 | the numbers are 0, 1, 2, ... without wrap-around exactly for files of at most 2^46 bytes |
| `FileTransfer.OfferSparesFiles` | visuara-client/src/file_transfer.rs:83-87 | an offer leaves all existing files as they are exactly when a candidate name is free or the file it falls back on is empty |
| `FileTransfer.FullDirectoryClobbers` | visuara-client/src/file_transfer.rs:118-128 | with all 10,000 names of a file taken, an offer of it empties the existing file of that name |
| `FileNames.UniqueDestinationPath` | visuara-client/src/file_transfer.rs:111-129 | the loop's result is free exactly when some candidate is, and then it is the first free one |
| `FileNames.NumberBeforeExtension` | visuara-client/src/file_transfer.rs:116-122 | for every stem and extension, a numbered name is the stem, the number in parentheses, a dot and the extension |
| `FileNames.NumberAtEnd` | visuara-client/src/file_transfer.rs:116-122 | a name without a dot, or with one in front only, gets the number at its end |
| `FileNames.NameKinds` | visuara-client/src/file_transfer.rs:116-117 | every name is of one of these two kinds |
| `FileNames.DecimalReadsBack` | visuara-client/src/file_transfer.rs:120-121 | a printed number is all digits, without leading zero, with that value |
| `FileNames.SearchFindsFirstFree` | visuara-client/src/file_transfer.rs:111-129 | the search yields the first free candidate in order, and the original name exactly when all are taken |
| `FileNames.CandidatesDistinct` | visuara-client/src/file_transfer.rs:119-122 | no two candidate names of a file are equal |
| `FileNames.SmallDirectoryHasRoom` | visuara-client/src/file_transfer.rs:118-118 | fewer than 10,000 entries always leave a candidate free |
| `Clipboard.Sync.Poll` | visuara-client/src/clipboard_sync.rs:50-62 | one turn drains the inbox, ends synced, and reports a text exactly when nothing came in and the clipboard differs from the baseline: nothing received is echoed |
| `Clipboard.PollIsTurn` | visuara-client/src/clipboard_sync.rs:50-62 | such a turn is a run of the pair: the arrival of each text in the inbox and then one look |
| `Clipboard.Sync.ApplyRemoteUpdate` | visuara-client/src/clipboard_sync.rs:69-71 | whatever waits already, the next turn ends with this text as clipboard and baseline and reports nothing |
| `Clipboard.NoEchoStorm` | visuara-client/src/clipboard_sync.rs:49-62 | in every run of two fresh peers, however texts are delayed, reordered or lost, updates sent are at most the edits plus two |
| `Clipboard.GoesQuiet` | visuara-client/src/clipboard_sync.rs:49-62 | without further edits the steps that change something and the remaining measure together never exceed the measure at the start |
| `Clipboard.QuietIsIdle` | visuara-client/src/clipboard_sync.rs:49-62 | the measure is zero exactly when nothing but an edit can change anything |
| `Clipboard.AgreementExact` | visuara-client/src/clipboard_sync.rs:49-62 | from an agreed state, however texts are edited, delayed, reordered or lost, once all is quiet the clipboards are equal exactly when the last update of the one side, in or out, has the text of the other's |
| `Clipboard.OneSidedExact` | visuara-client/src/clipboard_sync.rs:49-62 | with all edits on one side, either one, and any reordering and loss, they are equal exactly when the text that came in last is the one sent last |
| `Clipboard.AgreementAtQuiet` | visuara-client/src/clipboard_sync.rs:51-60 | from an agreed state with ordered delivery, once all is quiet the clipboards are equal exactly when the two sides' last updates did not cross, or crossed with one text |
| `Clipboard.OneSided` | visuara-client/src/clipboard_sync.rs:51-60 | with all edits on one side, either one, and ordered delivery, the other never sends, and its clipboard followed by the texts under way ends in the editor's baseline |
| `Clipboard.OneSidedAgreement` | visuara-client/src/clipboard_sync.rs:51-60 | so both clipboards are equal at quiescence |
| `Clipboard.CrossingSwaps` | visuara-client/src/clipboard_sync.rs:51-60 | a run in which crossing edits end quiet with the clipboards swapped |
| `Clipboard.ReorderingDisagrees` | visuara-client/src/host.rs:172-180 | a run in which two reordered updates end quiet in disagreement |
| `EmbeddedConfig.PatchThenFind` | visuara-common/src/embedded_config.rs:57-92 | whenever patching succeeds, on any template, reading the result yields exactly the same config |
| `EmbeddedConfig.PatchKeepsTheRest` | visuara-common/src/embedded_config.rs:81-92 | length, every byte outside the slot and the first marker's position are unchanged, and the slot holds the config |
| `EmbeddedConfig.PatchTwice` | visuara-common/src/embedded_config.rs:81-92 | patching a patched binary gives the same result as patching the template |
| `EmbeddedConfig.PatchSucceedsExactly` | visuara-common/src/embedded_config.rs:81-92 | patching succeeds exactly when there is a marker, the first one is followed by a whole slot, and the JSON has at most 4096 bytes; otherwise the refusal says which failed first |
| `EmbeddedConfig.FullSlotWorks` | visuara-common/src/embedded_config.rs:35-46 | a JSON of exactly 4096 bytes is patched in and found again |
| `EmbeddedConfig.FullSlotExists` | visuara-common/src/embedded_config.rs:35-46 | there is a config that prints exactly 4096 bytes |
| `EmbeddedConfig.SlotRoundTrip` | visuara-common/src/embedded_config.rs:35-51 | whenever the JSON fits, reading a slot undoes writing it |
| `EmbeddedConfig.ParsePrint` | visuara-common/src/embedded_config.rs:26-30 | parsing the printed object gives the config back |
| `EmbeddedConfig.ParseAnyLayout` | visuara-common/src/embedded_config.rs:50-50 | with any whitespace, member order and unknown members an object reads as the values given for the two fields, and is refused exactly when a field is given twice or something but whitespace follows |
| `EmbeddedConfig.PrintHasNoNul` | visuara-common/src/embedded_config.rs:49-49 | the printed JSON never contains the byte that ends a slot |
| `EmbeddedConfig.FindMarker` | visuara-common/src/embedded_config.rs:95-97 | the position found is the first occurrence, and none is found only when there is none |
| `EmbeddedConfig.UnpatchedIsUnreadable` | visuara-common/src/embedded_config.rs:107-115 | in every binary whose first marker starts an un-patched slot, the config is found and is an error |
| `EmbeddedConfig.AbsentExactly` | visuara-common/src/embedded_config.rs:57-67 | a config is absent exactly when no marker occurs or the first one ends the data |
| `EmbeddedConfig.FillSlot` | visuara-common/src/embedded_config.rs:35-46 | the buffer filled in place is the NUL-padded JSON, and there is one exactly when the JSON has at most 4096 bytes |
| `EmbeddedConfig.PatchCopy` | visuara-common/src/embedded_config.rs:81-92 | the copy overwritten in place is the specified patch; the template is not touched |
| `EmbeddedConfig.BuildMarkerSlot` | visuara-common/src/embedded_config.rs:107-115 | the loop fills in the marker and leaves NULs |
| `Json.ReadsString` | visuara-common/src/embedded_config.rs:36-36 | reading a printed string gives its bytes back, whatever follows, for all escapes of section 7 of RFC 8259 that the printer uses |
| `Json.ReadsUnicodeEscape` | visuara-common/src/embedded_config.rs:50-50 | a four-digit escape reads as the well-formed UTF-8 of its code point; a second half of a surrogate pair is an error, and a first half exactly when no escape for a second half follows |
| `Json.ReadsSurrogatePair` | visuara-common/src/embedded_config.rs:50-50 | a surrogate pair reads as the well-formed UTF-8 of the code point beyond U+FFFF it encodes |

## Left out

- Screen capture, video coding, input injection, OS clipboard access: foreign calls into platform libraries.
- WebRTC itself, ICE gathering and the wire encodings (bincode, the JSON of the signaling messages): library code.
- Password hashing, random generation and TURN credentials: symbolic or carried by the event.
- Read-only endpoints (`me`, `devices`, account lists, settings views), the settings other than the registration flag, release fetching and downloads: they read or store single values and take part in none of the runs.
- Interleaving inside one request handler: handlers are steps, so the check-then-act gap the program accepts in `session.rs` is not modelled.
- Receive loops as loops: the client code blocks on the network, so its loops are phases of a state machine; that every negotiation completes is not claimed, and the program does not guarantee it (`Handshake.Completes` shows that it can).
- Error texts and log lines: errors are constructors, so wording is not captured.
- File names with several path components, directories among the entries, I/O errors: names are single components, as `send_file` sends them.
- Json.ParseValue: members with values other than strings and null are refused, although the program ignores unknown fields of any kind and would take the two fields from an array; no printed config contains them.
- Accounts.SignUpGate: HTTP bodies and headers that are not valid text are not modelled.
