/**
 * Any number of transfers whose messages arrive in any interleaving: the disk afterwards holds the old files untouched
 * and exactly one new file for each transfer that was not cancelled, with exactly the bytes sent for it.
 */
module Interleaving {
  import opened Bytes
  import opened FileNames
  import opened FileTransfer

  /** The messages of one transfer, in order. */
  function OfId(ms: seq<Message>, id: TransferId): seq<Message> {
    if ms == [] then []
    else OfId(ms[..|ms| - 1], id) + (if ms[|ms| - 1].id == id then [ms[|ms| - 1]] else [])
  }

  predicate Final(m: Message) { m.Complete? || m.Cancel? }

  /** An offer, then chunks, then at most one Complete or Cancel, which comes last. */
  predicate Sane(p: seq<Message>) {
    if p == [] then true
    else if |p| == 1 then p[0].Offer?
    else
      var front, last := p[..|p| - 1], p[|p| - 1];
      Sane(front) && !Final(front[|front| - 1]) && (last.Chunk? || Final(last))
  }

  ghost predicate Interleaved(ms: seq<Message>) {
    forall id :: Sane(OfId(ms, id))
  }

  ghost function Ids(ms: seq<Message>): set<TransferId> {
    set i | 0 <= i < |ms| :: ms[i].id
  }

  // ----- The state after an interleaving -----

  type Places = map<TransferId, string>

  /** The destination of every transfer that was not cancelled. */
  ghost function PlacesOf(r: Receiver): Places {
    r.received + map id | id in r.inProgress :: r.inProgress[id].name
  }

  /** The old files are where they were, with the bytes they had. */
  ghost predicate OldKept(r0: Receiver, r: Receiver) {
    && |r0.bodies| <= |r.bodies| && r.bodies[..|r0.bodies|] == r0.bodies
    && forall n :: n in r0.entries ==> n in r.entries && r.entries[n] == r0.entries[n]
  }

  /** Every placed transfer has its own new name and its own new body, neither among the old ones. */
  ghost predicate Apart<K, N>(names: set<N>, floor: nat, places: map<K, N>, entries: map<N, nat>) {
    && (forall id :: id in places ==> places[id] in entries && places[id] !in names && entries[places[id]] >= floor)
    && (forall id, id' :: id in places && id' in places && id != id' ==>
          places[id] != places[id'] && entries[places[id]] != entries[places[id']])
  }

  ghost predicate IsPlace<K, N>(places: map<K, N>, n: N) {
    exists id :: id in places && places[id] == n
  }

  /** There are no other names than the old ones and the places. */
  ghost predicate NothingElse<K, N>(names: set<N>, places: map<K, N>, entries: map<N, nat>) {
    && (forall n :: n in entries && n !in names ==> IsPlace(places, n))
    && |entries| == |names| + |places|
  }

  /** An open handle stands at the end of the body its name points to. */
  ghost predicate HandlesAtEnd(r: Receiver)
    requires ValidDisk(r)
  {
    && r.inProgress.Keys !! r.received.Keys
    && forall id :: id in r.inProgress ==>
         var h := r.inProgress[id];
         h.name in r.entries && r.entries[h.name] == h.body && h.offset == |r.bodies[h.body]|
  }

  ghost predicate Shape(r0: Receiver, r: Receiver) {
    && ValidDisk(r) && OldKept(r0, r) && HandlesAtEnd(r)
    && Apart(r0.entries.Keys, |r0.bodies|, PlacesOf(r), r.entries) && NothingElse(r0.entries.Keys, PlacesOf(r), r.entries)
  }

  ghost predicate Holds(r: Receiver, id: TransferId, bytes: seq<byte>)
    requires ValidDisk(r)
  {
    id in PlacesOf(r) && PlacesOf(r)[id] in r.entries && r.bodies[r.entries[PlacesOf(r)[id]]] == bytes
  }

  /** What is placed, what is open and what is written follow from each transfer's own messages. */
  ghost predicate Follows(r: Receiver, id: TransferId, p: seq<Message>)
    requires ValidDisk(r)
  {
    && (id in PlacesOf(r) <==> p != [] && !p[|p| - 1].Cancel?)
    && (id in r.inProgress <==> p != [] && !Final(p[|p| - 1]))
    && (id in PlacesOf(r) ==> Holds(r, id, Payload(p)))
  }

  ghost predicate Inv(r0: Receiver, r: Receiver, ms: seq<Message>) {
    Shape(r0, r) && forall id :: Follows(r, id, OfId(ms, id))
  }

  // ----- One message -----

  lemma AddPlace<K, N>(names: set<N>, floor: nat, places: map<K, N>, entries: map<N, nat>, id: K, path: N, body: nat)
    requires Apart(names, floor, places, entries) && NothingElse(names, places, entries)
    requires id !in places && path !in entries && path !in names && body >= floor
    requires forall n :: n in entries ==> entries[n] < body
    ensures Apart(names, floor, places[id := path], entries[path := body])
    ensures NothingElse(names, places[id := path], entries[path := body])
  {
    AddApart(names, floor, places, entries, id, path, body);
    AddNothingElse(names, places, entries, id, path, body);
  }

  lemma AddApart<K, N>(names: set<N>, floor: nat, places: map<K, N>, entries: map<N, nat>, id: K, path: N, body: nat)
    requires Apart(names, floor, places, entries) && path !in entries && path !in names && body >= floor
    requires forall n :: n in entries ==> entries[n] < body
    requires id !in places
    ensures Apart(names, floor, places[id := path], entries[path := body])
  {
  }

  lemma AddNothingElse<K, N>(names: set<N>, places: map<K, N>, entries: map<N, nat>, id: K, path: N, body: nat)
    requires NothingElse(names, places, entries) && id !in places && path !in entries
    ensures NothingElse(names, places[id := path], entries[path := body])
  {
    var places' := places[id := path];
    forall n | n in entries[path := body] && n !in names ensures IsPlace(places', n) {
      if n == path {
        assert places'[id] == n;
      } else {
        assert IsPlace(places, n);
        var i :| i in places && places[i] == n;
        assert places'[i] == n;
      }
    }
  }

  lemma RemovePlace<K, N>(names: set<N>, floor: nat, places: map<K, N>, entries: map<N, nat>, id: K)
    requires Apart(names, floor, places, entries) && NothingElse(names, places, entries) && id in places
    ensures Apart(names, floor, places - {id}, entries - {places[id]})
    ensures NothingElse(names, places - {id}, entries - {places[id]})
  {
    var places', entries' := places - {id}, entries - {places[id]};
    forall n | n in entries' && n !in names ensures IsPlace(places', n) {
      assert IsPlace(places, n);
      var i :| i in places && places[i] == n;
      assert places'[i] == n;
    }
    assert entries'.Keys == entries.Keys - {places[id]} && places'.Keys == places.Keys - {id};
  }

  lemma PlacesPut(r: Receiver, r': Receiver, id: TransferId, h: Handle)
    requires r'.received == r.received && r'.inProgress == r.inProgress[id := h]
    ensures PlacesOf(r') == PlacesOf(r)[id := h.name]
  {
  }

  lemma PlacesClosed(r: Receiver, r': Receiver, id: TransferId)
    requires id in r.inProgress && r.inProgress.Keys !! r.received.Keys
    requires r'.inProgress == r.inProgress - {id} && r'.received == r.received[id := r.inProgress[id].name]
    ensures PlacesOf(r') == PlacesOf(r)
  {
  }

  lemma PlacesDropped(r: Receiver, r': Receiver, id: TransferId)
    requires id in r.inProgress && r.inProgress.Keys !! r.received.Keys
    requires r'.inProgress == r.inProgress - {id} && r'.received == r.received
    ensures PlacesOf(r') == PlacesOf(r) - {id}
  {
  }

  /** What each message does to the places. */
  lemma Effect(r: Receiver, m: Message)
    requires ValidDisk(r) && r.inProgress.Keys !! r.received.Keys
    requires !m.Offer? ==> m.id in r.inProgress
    ensures var places, places' := PlacesOf(r), PlacesOf(Receive(r, m));
      match m
      case Offer(id, name, _) => places' == places[id := Search(r.entries.Keys, name, 0)]
      case Cancel(id) => places' == places - {id}
      case _ => places' == places
    ensures m.id in r.inProgress ==> m.id in PlacesOf(r) && PlacesOf(r)[m.id] == r.inProgress[m.id].name
  {
    hide PlacesOf, Search, WriteAt, ValidDisk;
    var r' := Receive(r, m);
    if m.id in r.inProgress { Placed(r, m.id); }
    match m
    case Offer(id, _, _) => PlacesPut(r, r', id, r'.inProgress[id]);
    case Chunk(id, _, _) =>
      PlacesPut(r, r', id, r'.inProgress[id]);
      assert PlacesOf(r)[id := r.inProgress[id].name] == PlacesOf(r);
    case Complete(id) => PlacesClosed(r, r', id);
    case Cancel(id) => PlacesDropped(r, r', id);
    case _ =>
  }

  lemma OfferKeeps(r0: Receiver, r: Receiver, m: Message)
    requires Shape(r0, r) && m.Offer? && m.id !in PlacesOf(r) && HasFreeCandidate(r.entries.Keys, m.name)
    ensures Shape(r0, Receive(r, m))
  {
    hide PlacesOf, Apart, NothingElse, Search;
    SearchFindsFirstFree(r.entries.Keys, m.name);
    Effect(r, m);
    var r' := Receive(r, m);
    AddPlace(r0.entries.Keys, |r0.bodies|, PlacesOf(r), r.entries, m.id, Search(r.entries.Keys, m.name, 0), |r.bodies|);
    assert r'.bodies[..|r0.bodies|] == r.bodies[..|r0.bodies|];
    assert m.id !in r.received by { NotPlaced(r, m.id); }
  }

  lemma NotPlaced(r: Receiver, id: TransferId)
    requires id !in PlacesOf(r)
    ensures id !in r.received && id !in r.inProgress
  {
  }

  lemma OpenApart(r0: Receiver, r: Receiver, id: TransferId, id': TransferId)
    requires Shape(r0, r) && id in r.inProgress && id' in PlacesOf(r) && id != id'
    ensures PlacesOf(r)[id'] != r.inProgress[id].name && PlacesOf(r)[id'] in r.entries
    ensures r.entries[PlacesOf(r)[id']] != r.inProgress[id].body
    ensures id' in r.inProgress ==> r.inProgress[id'].body != r.inProgress[id].body && r.inProgress[id'].name != r.inProgress[id].name
  {
    hide NothingElse, OldKept;
    assert PlacesOf(r)[id] == r.inProgress[id].name;
  }

  lemma ChunkKeeps(r0: Receiver, r: Receiver, m: Message)
    requires Shape(r0, r) && m.Chunk? && m.id in r.inProgress
    ensures Shape(r0, Receive(r, m))
  {
    hide PlacesOf, NothingElse, Search, Create, WriteAt;
    Effect(r, m);
    var h := r.inProgress[m.id];
    AppendsAtEnd(r.bodies[h.body], m.data);
    assert h.body >= |r0.bodies|;
    assert Receive(r, m).bodies[..|r0.bodies|] == r.bodies[..|r0.bodies|];
    forall id | id in r.inProgress && id != m.id ensures r.inProgress[id].body != h.body {
      Placed(r, id);
      OpenApart(r0, r, m.id, id);
    }
  }

  lemma PlaceIsNew(r0: Receiver, r: Receiver, id: TransferId)
    requires Shape(r0, r) && id in PlacesOf(r)
    ensures PlacesOf(r)[id] !in r0.entries.Keys
  {
    hide NothingElse, OldKept, HandlesAtEnd;
  }

  lemma Placed(r: Receiver, id: TransferId)
    requires id in r.inProgress
    ensures id in PlacesOf(r) && PlacesOf(r)[id] == r.inProgress[id].name
  {
  }

  lemma AppendsAtEnd(body: seq<byte>, data: seq<byte>)
    ensures WriteAt(body, |body|, data) == body + data
  {
  }

  lemma CompleteKeeps(r0: Receiver, r: Receiver, m: Message)
    requires Shape(r0, r) && m.Complete? && m.id in r.inProgress
    ensures Shape(r0, Receive(r, m))
  {
    hide PlacesOf, Apart, NothingElse, Search, Create, WriteAt;
    Effect(r, m);
  }

  lemma CancelKeeps(r0: Receiver, r: Receiver, m: Message)
    requires Shape(r0, r) && m.Cancel? && m.id in r.inProgress
    ensures Shape(r0, Receive(r, m))
  {
    hide PlacesOf, Apart, NothingElse, OldKept, HandlesAtEnd, Search, Create, WriteAt;
    CancelHandles(r0, r, m);
    assert r.inProgress.Keys !! r.received.Keys by { assert HandlesAtEnd(r); ClosedApart(r); }
    Effect(r, m);
    RemovePlace(r0.entries.Keys, |r0.bodies|, PlacesOf(r), r.entries, m.id);
  }

  lemma ClosedApart(r: Receiver)
    requires ValidDisk(r) && HandlesAtEnd(r)
    ensures r.inProgress.Keys !! r.received.Keys
  {
  }

  lemma CancelHandles(r0: Receiver, r: Receiver, m: Message)
    requires Shape(r0, r) && m.Cancel? && m.id in r.inProgress
    ensures OldKept(r0, Receive(r, m)) && HandlesAtEnd(Receive(r, m))
  {
    hide PlacesOf, Apart, NothingElse, Search, Create, WriteAt;
    Placed(r, m.id);
    PlaceIsNew(r0, r, m.id);
    forall id | id in r.inProgress && id != m.id ensures r.inProgress[id].name != r.inProgress[m.id].name {
      Placed(r, id);
      OpenApart(r0, r, m.id, id);
    }
  }

  /** A message writes to no file but its own transfer's, and appends to that. */
  lemma Writes(r0: Receiver, r: Receiver, m: Message, id: TransferId, bytes: seq<byte>)
    requires Shape(r0, r) && Holds(r, id, bytes)
    requires if m.Offer? then id != m.id && HasFreeCandidate(r.entries.Keys, m.name) else m.id in r.inProgress
    requires m.Cancel? ==> id != m.id
    ensures Holds(Receive(r, m), id, bytes + if m.Chunk? && m.id == id then m.data else [])
  {
    hide PlacesOf, Apart, NothingElse, OldKept, Search;
    Effect(r, m);
    assert bytes + [] == bytes;
    if m.Offer? {
      SearchFindsFirstFree(r.entries.Keys, m.name);
    } else {
      if id != m.id { OpenApart(r0, r, m.id, id); }
      if m.Chunk? { AppendsAtEnd(r.bodies[r.inProgress[m.id].body], m.data); }
    }
  }

  lemma OfferOpens(r: Receiver, m: Message)
    requires ValidDisk(r) && m.Offer? && r.inProgress.Keys !! r.received.Keys
    ensures m.id in Receive(r, m).inProgress && Holds(Receive(r, m), m.id, [])
  {
    Effect(r, m);
  }

  lemma OfIdAppend(ms: seq<Message>, m: Message, id: TransferId)
    ensures OfId(ms + [m], id) == OfId(ms, id) + (if m.id == id then [m] else [])
  {
    assert (ms + [m])[..|ms|] == ms;
  }

  /** The next message of a sane stream: an offer opens it, and only an open one goes on. */
  lemma SaneNext(p: seq<Message>, m: Message)
    requires Sane(p + [m])
    ensures Sane(p)
    ensures if p == [] then m.Offer? else !Final(p[|p| - 1]) && (m.Chunk? || Final(m))
  {
    assert (p + [m])[..|p|] == p;
  }

  lemma ShapeStep(r0: Receiver, r: Receiver, m: Message)
    requires Shape(r0, r)
    requires if m.Offer? then m.id !in PlacesOf(r) && HasFreeCandidate(r.entries.Keys, m.name) else m.id in r.inProgress
    ensures Shape(r0, Receive(r, m))
  {
    hide OldKept, HandlesAtEnd, Apart, NothingElse, PlacesOf, Receive;
    match m
    case Offer(_, _, _) => OfferKeeps(r0, r, m);
    case Chunk(_, _, _) => ChunkKeeps(r0, r, m);
    case Complete(_) => CompleteKeeps(r0, r, m);
    case Cancel(_) => CancelKeeps(r0, r, m);
    case _ => Ignored(r, m);
  }

  lemma Ignored(r: Receiver, m: Message)
    requires ValidDisk(r) && (m.Accept? || m.Reject?)
    ensures Receive(r, m) == r
  {
  }

  lemma OpenAfter(r: Receiver, m: Message, id: TransferId)
    requires ValidDisk(r)
    ensures id in Receive(r, m).inProgress <==> if m.id != id then id in r.inProgress else m.Offer? || (id in r.inProgress && !Final(m))
  {
    hide Search, Create, WriteAt;
  }

  lemma FollowsStep(r0: Receiver, r: Receiver, ms: seq<Message>, m: Message, id: TransferId)
    requires Inv(r0, r, ms) && Sane(OfId(ms + [m], m.id))
    requires m.Offer? ==> HasFreeCandidate(r.entries.Keys, m.name)
    ensures Shape(r0, Receive(r, m)) && Follows(Receive(r, m), id, OfId(ms + [m], id))
  {
    hide OldKept, Apart, NothingElse, Sane, Receive, OfId, Payload, Holds, PlacesOf;
    var p := OfId(ms, id);
    assert Follows(r, id, p) && Follows(r, m.id, OfId(ms, m.id));
    OfIdAppend(ms, m, m.id);
    OfIdAppend(ms, m, id);
    assert p + [] == p && Payload(p) + [] == Payload(p);
    SaneNext(OfId(ms, m.id), m);
    PayloadAppend(p, m);
    ShapeStep(r0, r, m);
    OpenAfter(r, m, id);
    Effect(r, m);
    if id in PlacesOf(r) && (m.Cancel? ==> id != m.id) { Writes(r0, r, m, id, Payload(p)); }
    if m.Offer? && id == m.id {
      OfferOpens(r, m);
      EmptyPayload();
    }
  }

  lemma EmptyPayload()
    ensures Payload([]) == []
  {
  }

  // ----- Whole interleavings -----

  lemma {:induction false} SeenIds(ms: seq<Message>, id: TransferId)
    ensures id in Ids(ms) <==> OfId(ms, id) != []
  {
    if ms != [] {
      var front, m := ms[..|ms| - 1], ms[|ms| - 1];
      SeenIds(front, id);
      IdsAppend(front, m);
      assert ms == front + [m];
    }
  }

  lemma IdsAppend(ms: seq<Message>, m: Message)
    ensures Ids(ms + [m]) == Ids(ms) + {m.id}
  {
    assert forall i :: 0 <= i < |ms| ==> (ms + [m])[i] == ms[i];
    assert (ms + [m])[|ms|] == m;
  }

  /** An interleaving stays one when its last message is taken off. */
  lemma InterleavedPrefix(ms: seq<Message>, m: Message)
    requires Interleaved(ms + [m])
    ensures Interleaved(ms)
  {
    forall id ensures Sane(OfId(ms, id)) {
      OfIdAppend(ms, m, id);
      assert Sane(OfId(ms + [m], id));
      if m.id == id { SaneNext(OfId(ms, id), m); } else { assert OfId(ms, id) + [] == OfId(ms, id); }
    }
  }

  /** A new offer finds a directory with fewer than 10,000 entries. */
  lemma RoomForOffer(r0: Receiver, r: Receiver, ms: seq<Message>, m: Message)
    requires Inv(r0, r, ms) && m.Offer? && Sane(OfId(ms + [m], m.id))
    requires |r0.entries| + |Ids(ms + [m])| <= MAX_CANDIDATES
    ensures HasFreeCandidate(r.entries.Keys, m.name)
  {
    hide OldKept, Apart, HandlesAtEnd, PlacesOf, OfId, Sane, Ids, Holds, Payload;
    OfIdAppend(ms, m, m.id);
    SaneNext(OfId(ms, m.id), m);
    SeenIds(ms, m.id);
    IdsAppend(ms, m);
    forall id | id in PlacesOf(r) ensures id in Ids(ms) {
      assert Follows(r, id, OfId(ms, id));
      SeenIds(ms, id);
    }
    SubsetSize(PlacesOf(r).Keys, Ids(ms));
    SmallDirectoryHasRoom(r.entries.Keys, m.name);
  }

  ghost predicate Idle(r: Receiver) {
    ValidDisk(r) && r.inProgress == map[] && r.received == map[]
  }

  /** Whenever an offer arrived, one of its 10,000 candidate names was free. */
  ghost predicate Roomy(r0: Receiver, ms: seq<Message>)
    requires ValidDisk(r0)
  {
    ms == [] ||
    (var front, m := ms[..|ms| - 1], ms[|ms| - 1];
     Roomy(r0, front) && (m.Offer? ==> HasFreeCandidate(ReceiveAll(r0, front).entries.Keys, m.name)))
  }

  lemma {:induction false} InvAfter(r0: Receiver, ms: seq<Message>)
    requires Idle(r0) && Interleaved(ms) && Roomy(r0, ms)
    ensures Inv(r0, ReceiveAll(r0, ms), ms)
  {
    if ms == [] {
      assert PlacesOf(r0) == map[];
    } else {
      hide Inv, Receive, Shape, Follows, Sane;
      var front, m := ms[..|ms| - 1], ms[|ms| - 1];
      assert ms == front + [m];
      InterleavedPrefix(front, m);
      InvAfter(r0, front);
      assert Sane(OfId(front + [m], m.id));
      InvStep(r0, ReceiveAll(r0, front), front, m);
    }
  }

  /** Old entries and transfers together within the bound are enough room. */
  lemma {:induction false} SmallDirectoryIsRoomy(r0: Receiver, ms: seq<Message>)
    requires Idle(r0) && Interleaved(ms) && |r0.entries| + |Ids(ms)| <= MAX_CANDIDATES
    ensures Roomy(r0, ms)
  {
    if ms != [] {
      hide Inv, Receive, Sane;
      var front, m := ms[..|ms| - 1], ms[|ms| - 1];
      assert ms == front + [m];
      InterleavedPrefix(front, m);
      IdsAppend(front, m);
      SubsetSize(Ids(front), Ids(ms));
      SmallDirectoryIsRoomy(r0, front);
      InvAfter(r0, front);
      assert Sane(OfId(front + [m], m.id));
      if m.Offer? { RoomForOffer(r0, ReceiveAll(r0, front), front, m); }
    }
  }

  lemma InvStep(r0: Receiver, r: Receiver, ms: seq<Message>, m: Message)
    requires Inv(r0, r, ms) && Sane(OfId(ms + [m], m.id))
    requires m.Offer? ==> HasFreeCandidate(r.entries.Keys, m.name)
    ensures Inv(r0, Receive(r, m), ms + [m])
  {
    hide Receive, Sane, OldKept, Apart, NothingElse, HandlesAtEnd, Follows, OfId;
    forall id ensures Shape(r0, Receive(r, m)) && Follows(Receive(r, m), id, OfId(ms + [m], id)) {
      FollowsStep(r0, r, ms, m, id);
    }
  }

  /** `path` is one of the names tried for `name`. */
  ghost predicate NamedAfter(path: string, name: string) {
    exists k: nat :: k < MAX_CANDIDATES && path == Candidate(name, k)
  }

  lemma SearchNames(dir: set<string>, name: string)
    requires HasFreeCandidate(dir, name)
    ensures NamedAfter(Search(dir, name, 0), name)
  {
    SearchFindsFirstFree(dir, name);
  }

  /** The place of transfer `id` carries the name its offer asked for, or that name with a number. */
  ghost predicate Named(places: Places, id: TransferId, p: seq<Message>) {
    id in places ==> p != [] && p[0].Offer? && NamedAfter(places[id], p[0].name)
  }

  lemma NamedStep(places: Places, places': Places, id: TransferId, p: seq<Message>, m: Message, path: string)
    requires Named(places, id, p) && (m.Offer? && m.id == id ==> p == []) && (m.Offer? ==> NamedAfter(path, m.name))
    requires match m
             case Offer(i, _, _) => places' == places[i := path]
             case Cancel(i) => places' == places - {i}
             case _ => places' == places
    ensures Named(places', id, p + (if m.id == id then [m] else []))
  {
    hide NamedAfter;
    assert p + [] == p;
  }

  lemma {:induction false} PlacesNamed(r0: Receiver, ms: seq<Message>, id: TransferId)
    requires Idle(r0) && Interleaved(ms) && Roomy(r0, ms)
    ensures Named(PlacesOf(ReceiveAll(r0, ms)), id, OfId(ms, id))
  {
    if ms != [] {
      hide Receive, Inv, Named, Sane, PlacesOf, NamedAfter, Search, OfId, HasFreeCandidate;
      var front, m := ms[..|ms| - 1], ms[|ms| - 1];
      var r := ReceiveAll(r0, front);
      assert ms == front + [m];
      InterleavedPrefix(front, m);
      PlacesNamed(r0, front, id);
      OfIdAppend(front, m, id);
      assert Sane(OfId(front + [m], m.id));
      GoesOn(r0, front, m);
      Effect(r, m);
      if m.Offer? { SearchNames(r.entries.Keys, m.name); }
      NamedStep(PlacesOf(r), PlacesOf(Receive(r, m)), id, OfId(front, id), m, if m.Offer? then Search(r.entries.Keys, m.name, 0) else "");
    } else {
      assert PlacesOf(r0) == map[];
    }
  }

  /** A message that is no offer belongs to an open transfer. */
  lemma GoesOn(r0: Receiver, ms: seq<Message>, m: Message)
    requires Idle(r0) && Interleaved(ms) && Roomy(r0, ms) && Sane(OfId(ms + [m], m.id))
    ensures !m.Offer? ==> m.id in ReceiveAll(r0, ms).inProgress
    ensures m.Offer? ==> OfId(ms, m.id) == []
    ensures ReceiveAll(r0, ms).inProgress.Keys !! ReceiveAll(r0, ms).received.Keys
  {
    hide Receive, Sane, PlacesOf, OldKept, Apart, NothingElse, Holds;
    InvAfter(r0, ms);
    OfIdAppend(ms, m, m.id);
    SaneNext(OfId(ms, m.id), m);
    assert Follows(ReceiveAll(r0, ms), m.id, OfId(ms, m.id));
  }

  /**
   * After any interleaving of any number of transfers for which the names sufficed: every old file is unchanged, every
   * transfer not cancelled has a place of its own that is new and holds exactly the bytes of its chunks, a cancelled
   * one has none, and there are no other files. A place carries the name that was offered, or that name with a number.
   */
  lemma DiskAfterInterleaving(r0: Receiver, ms: seq<Message>)
    requires Idle(r0) && Interleaved(ms) && Roomy(r0, ms)
    ensures var r := ReceiveAll(r0, ms); var places := PlacesOf(r);
      && (forall n :: n in Files(r0) ==> n in Files(r) && Files(r)[n] == Files(r0)[n])
      && (forall id :: id in places <==> OfId(ms, id) != [] && !OfId(ms, id)[|OfId(ms, id)| - 1].Cancel?)
      && (forall id :: id in places ==> places[id] !in Files(r0) && places[id] in Files(r) && Files(r)[places[id]] == Payload(OfId(ms, id)))
      && (forall id, id' :: id in places && id' in places && id != id' ==> places[id] != places[id'])
      && (forall n :: n in Files(r) ==> n in Files(r0) || IsPlace(places, n))
      && (forall id :: id in places ==> OfId(ms, id)[0].Offer? && NamedAfter(places[id], OfId(ms, id)[0].name))
  {
    hide Receive, Sane, OfId, Payload, PlacesOf, NamedAfter, OldKept, HandlesAtEnd;
    InvAfter(r0, ms);
    var r := ReceiveAll(r0, ms);
    OldFilesKept(r0, r);
    assert forall id :: Follows(r, id, OfId(ms, id));
    forall id | id in PlacesOf(r) ensures Named(PlacesOf(r), id, OfId(ms, id)) { PlacesNamed(r0, ms, id); }
  }

  lemma OldFilesKept(r0: Receiver, r: Receiver)
    requires ValidDisk(r0) && ValidDisk(r) && OldKept(r0, r)
    ensures forall n :: n in Files(r0) ==> n in Files(r) && Files(r)[n] == Files(r0)[n]
  {
    forall n | n in r0.entries ensures r.bodies[r.entries[n]] == r0.bodies[r0.entries[n]] {
      assert r.bodies[..|r0.bodies|][r0.entries[n]] == r0.bodies[r0.entries[n]];
    }
  }

  // ----- The streams of `send_file` -----

  /** Every beginning of what `send_file` sends is a sane stream of its own id. */
  lemma {:induction false} StreamIsSane(id: TransferId, name: string, data: seq<byte>, k: nat)
    requires k <= |Stream(id, name, data)|
    ensures Sane(Stream(id, name, data)[..k])
    ensures forall i :: 0 <= i < k ==> Stream(id, name, data)[i].id == id
  {
    var stream := Stream(id, name, data);
    ChunksNumbered(id, data, 0);
    if k >= 2 {
      StreamIsSane(id, name, data, k - 1);
      assert stream[..k][..k - 1] == stream[..k - 1];
    }
  }

  /** A stream carries the data, and its offer announces the name and the size of just that. */
  lemma StreamPayload(id: TransferId, name: string, data: seq<byte>)
    ensures Payload(Stream(id, name, data)) == data
    ensures Stream(id, name, data)[0] == Offer(id, name, |Payload(Stream(id, name, data))|)
  {
    var offer := Offer(id, name, |data|);
    PayloadAppend([], offer);
    assert [] + [offer] == [offer];
    PayloadConcat([offer], Chunks(id, data, 0));
    ChunksCarryData(id, data, 0);
    PayloadAppend([offer] + Chunks(id, data, 0), Complete(id));
  }

  /** A transfer whose whole stream has arrived, however interleaved, is logged and its file equals the source byte for byte. */
  lemma FileArrives(r0: Receiver, ms: seq<Message>, id: TransferId, name: string, data: seq<byte>)
    requires Idle(r0) && Interleaved(ms) && Roomy(r0, ms)
    requires OfId(ms, id) == Stream(id, name, data)
    ensures var r := ReceiveAll(r0, ms);
      id in r.received && r.received[id] in Files(r) && Files(r)[r.received[id]] == data && r.received[id] !in Files(r0)
      && NamedAfter(r.received[id], name)
  {
    hide Receive, Sane, OfId, Payload, NothingElse, OldKept, NamedAfter;
    InvAfter(r0, ms);
    PlacesNamed(r0, ms, id);
    StreamPayload(id, name, data);
    var r := ReceiveAll(r0, ms);
    var s := Stream(id, name, data);
    assert s[|s| - 1] == Complete(id);
    assert Follows(r, id, s);
    assert PlacesOf(r)[id] == r.received[id];
  }
}
