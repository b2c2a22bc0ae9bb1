/**
 * Sending files in chunks and receiving any number of them at once (visuara-client/src/file_transfer.rs). The file
 * system below the destination directory is a table of names, each pointing to a file body; an open handle points to
 * a body and an offset, so writing, truncating and unlinking act as they do on a real disk.
 */
module FileTransfer {
  import opened Bytes
  import opened FileNames

  const CHUNK_SIZE: nat := 16_384

  type TransferId = nat  // a random UUID, only compared for equality

  datatype Message =
    | Offer(id: TransferId, name: string, size: nat)
    | Accept(id: TransferId)
    | Reject(id: TransferId)
    | Chunk(id: TransferId, sequence: nat, data: seq<byte>)
    | Complete(id: TransferId)
    | Cancel(id: TransferId)

  // ----- The sender -----

  /** `sequence as u32`. */
  function AsU32(n: nat): nat { n % 0x1_0000_0000 }

  function ChunkCount(size: nat): nat { (size + CHUNK_SIZE - 1) / CHUNK_SIZE }

  /** The chunk messages for everything from chunk `k` on. */
  function Chunks(id: TransferId, data: seq<byte>, k: nat): seq<Message>
    decreases |data|
  {
    if data == [] then []
    else if |data| <= CHUNK_SIZE then [Chunk(id, AsU32(k), data)]
    else [Chunk(id, AsU32(k), data[..CHUNK_SIZE])] + Chunks(id, data[CHUNK_SIZE..], k + 1)
  }

  /** Everything `send_file` sends for one file. */
  function Stream(id: TransferId, name: string, data: seq<byte>): seq<Message> {
    [Offer(id, name, |data|)] + Chunks(id, data, 0) + [Complete(id)]
  }

  /** `send_file`; the messages are returned in the order they are sent. */
  method SendFile(id: TransferId, name: string, data: seq<byte>) returns (sent: seq<Message>)
    ensures sent == Stream(id, name, data)
  {
    sent := [Offer(id, name, |data|)];
    var pos, k := 0, 0;
    while pos < |data|
      invariant pos <= |data|
      invariant sent + Chunks(id, data[pos..], k) == [Offer(id, name, |data|)] + Chunks(id, data, 0)
    {
      var rest := data[pos..];
      var end := if |rest| <= CHUNK_SIZE then |data| else pos + CHUNK_SIZE;
      var chunk := Chunk(id, AsU32(k), data[pos..end]);
      assert |rest| > CHUNK_SIZE ==> rest[..CHUNK_SIZE] == data[pos..end] && rest[CHUNK_SIZE..] == data[end..];
      assert |rest| <= CHUNK_SIZE ==> rest == data[pos..end] && data[end..] == [];
      assert Chunks(id, rest, k) == [chunk] + Chunks(id, data[end..], k + 1);
      assert sent + Chunks(id, rest, k) == (sent + [chunk]) + Chunks(id, data[end..], k + 1);
      sent := sent + [chunk];
      pos, k := end, k + 1;
    }
    sent := sent + [Complete(id)];
  }

  /** The bytes carried by a sequence of messages. */
  function Payload(ms: seq<Message>): seq<byte> {
    if ms == [] then []
    else Payload(ms[..|ms| - 1]) + (if ms[|ms| - 1].Chunk? then ms[|ms| - 1].data else [])
  }

  lemma PayloadAppend(ms: seq<Message>, m: Message)
    ensures Payload(ms + [m]) == Payload(ms) + (if m.Chunk? then m.data else [])
  {
    assert (ms + [m])[..|ms|] == ms;
  }

  lemma {:induction false} PayloadConcat(ms: seq<Message>, ns: seq<Message>)
    ensures Payload(ms + ns) == Payload(ms) + Payload(ns)
  {
    if ns == [] {
      assert ms + ns == ms;
    } else {
      hide Payload;
      var front, last := ns[..|ns| - 1], ns[|ns| - 1];
      PayloadConcat(ms, front);
      PayloadAppend(ms + front, last);
      PayloadAppend(front, last);
      assert ns == front + [last];
      assert ms + ns == (ms + front) + [last];
    }
  }

  /** The chunks carry the data. */
  lemma {:induction false} ChunksCarryData(id: TransferId, data: seq<byte>, k: nat)
    ensures Payload(Chunks(id, data, k)) == data
    decreases |data|
  {
    if |data| > CHUNK_SIZE {
      var first, rest := Chunk(id, AsU32(k), data[..CHUNK_SIZE]), data[CHUNK_SIZE..];
      ChunksCarryData(id, rest, k + 1);
      PayloadAppend([], first);
      assert [] + [first] == [first];
      PayloadConcat([first], Chunks(id, rest, k + 1));
      assert data == data[..CHUNK_SIZE] + rest;
    } else if data != [] {
      PayloadAppend([], Chunk(id, AsU32(k), data));
      assert [] + [Chunk(id, AsU32(k), data)] == Chunks(id, data, k);
    }
  }

  /** They are as many as the size says, belong to `id`, and are numbered from `k` modulo 2^32. */
  lemma {:induction false} ChunksNumbered(id: TransferId, data: seq<byte>, k: nat)
    ensures |Chunks(id, data, k)| == ChunkCount(|data|)
    ensures forall i :: 0 <= i < |Chunks(id, data, k)| ==>
      var c := Chunks(id, data, k)[i]; c.Chunk? && c.id == id && c.sequence == AsU32(k + i)
    decreases |data|
  {
    hide AsU32;
    if |data| > CHUNK_SIZE {
      var rest := data[CHUNK_SIZE..];
      ChunksNumbered(id, rest, k + 1);
      var cs := Chunks(id, data, k);
      forall i | 0 <= i < |cs| ensures cs[i].Chunk? && cs[i].id == id && cs[i].sequence == AsU32(k + i) {
        if i > 0 { assert cs[i] == Chunks(id, rest, k + 1)[i - 1] && k + i == k + 1 + (i - 1); }
      }
    }
  }

  /** Every chunk is full but the last, and none is empty. */
  lemma {:induction false} ChunkSizes(id: TransferId, data: seq<byte>, k: nat)
    ensures forall i :: 0 <= i < |Chunks(id, data, k)| ==>
      var c := Chunks(id, data, k)[i];
      c.Chunk? && 0 < |c.data| <= CHUNK_SIZE && (i < |Chunks(id, data, k)| - 1 ==> |c.data| == CHUNK_SIZE)
    decreases |data|
  {
    if |data| > CHUNK_SIZE {
      var rest := data[CHUNK_SIZE..];
      ChunkSizes(id, rest, k + 1);
      var cs, more := Chunks(id, data, k), Chunks(id, rest, k + 1);
      forall i | 0 <= i < |cs|
        ensures cs[i].Chunk? && 0 < |cs[i].data| <= CHUNK_SIZE && (i < |cs| - 1 ==> |cs[i].data| == CHUNK_SIZE)
      {
        if i > 0 { assert cs[i] == more[i - 1]; }
      }
    }
  }

  /** The sequence numbers are 0, 1, 2, ... without wrap-around exactly for files of at most 2^46 bytes. */
  lemma SequenceNumbersFit(id: TransferId, data: seq<byte>)
    ensures (forall i :: 0 <= i < |Chunks(id, data, 0)| ==> Chunks(id, data, 0)[i].Chunk? && Chunks(id, data, 0)[i].sequence == i)
      <==> |data| <= 0x4000_0000_0000
  {
    ChunksNumbered(id, data, 0);
    var cs := Chunks(id, data, 0);
    if |data| > 0x4000_0000_0000 {
      assert |cs| > 0x1_0000_0000;
      assert cs[0x1_0000_0000].sequence == 0;
    }
  }

  // ----- The receiver -----

  datatype Handle = Handle(name: string, body: nat, offset: nat)

  /** `received` is the log of completed transfers and the paths they were written to. */
  datatype Receiver = Receiver(
    entries: map<string, nat>, bodies: seq<seq<byte>>,
    inProgress: map<TransferId, Handle>, received: map<TransferId, string>)

  ghost predicate ValidDisk(r: Receiver) {
    && (forall n :: n in r.entries ==> r.entries[n] < |r.bodies|)
    && (forall id :: id in r.inProgress ==> r.inProgress[id].body < |r.bodies|)
  }

  /** What a reader finds under each name. */
  ghost function Files(r: Receiver): map<string, seq<byte>>
    requires ValidDisk(r)
  {
    map n | n in r.entries :: r.bodies[r.entries[n]]
  }

  /** Writing `data` at `offset`, past the end if need be. */
  function WriteAt(body: seq<byte>, offset: nat, data: seq<byte>): seq<byte> {
    var padded := if |body| < offset then body + Zeros(offset - |body|) else body;
    padded[..offset] + data + (if offset + |data| < |padded| then padded[offset + |data|..] else [])
  }

  /** `File::create`: truncates an existing file, or makes a new one. */
  function Create(r: Receiver, name: string): (Receiver, nat)
    requires ValidDisk(r)
  {
    if name in r.entries then (r.(bodies := r.bodies[r.entries[name] := []]), r.entries[name])
    else (r.(entries := r.entries[name := |r.bodies|], bodies := r.bodies + [[]]), |r.bodies|)
  }

  /** `FileReceiver::handle`. */
  function Receive(r: Receiver, m: Message): (r': Receiver)
    requires ValidDisk(r)
    ensures ValidDisk(r')
  {
    match m
    case Offer(id, name, _) =>
      var path := Search(r.entries.Keys, name, 0);
      var (created, body) := Create(r, path);
      created.(inProgress := r.inProgress[id := Handle(path, body, 0)])
    case Chunk(id, _, data) =>
      if id !in r.inProgress then r
      else
        var h := r.inProgress[id];
        r.(bodies := r.bodies[h.body := WriteAt(r.bodies[h.body], h.offset, data)],
           inProgress := r.inProgress[id := h.(offset := h.offset + |data|)])
    case Complete(id) =>
      if id !in r.inProgress then r
      else r.(inProgress := r.inProgress - {id}, received := r.received[id := r.inProgress[id].name])
    case Cancel(id) =>
      if id !in r.inProgress then r
      else r.(inProgress := r.inProgress - {id}, entries := r.entries - {r.inProgress[id].name})
    case Accept(_) => r
    case Reject(_) => r
  }

  ghost function ReceiveAll(r: Receiver, ms: seq<Message>): (r': Receiver)
    requires ValidDisk(r)
    ensures ValidDisk(r')
  {
    if ms == [] then r else Receive(ReceiveAll(r, ms[..|ms| - 1]), ms[|ms| - 1])
  }

  /** `FileReceiver`, changing its map and the disk in place. */
  class FileReceiver {
    var entries: map<string, nat>
    var bodies: seq<seq<byte>>
    var inProgress: map<TransferId, Handle>
    var received: map<TransferId, string>
    ghost var start: Receiver
    ghost var log: seq<Message>

    ghost function Value(): Receiver
      reads this
    {
      Receiver(entries, bodies, inProgress, received)
    }

    /** The receiver is where the messages so far lead from its first state. */
    ghost predicate Valid()
      reads this
    {
      ValidDisk(start) && Value() == ReceiveAll(start, log)
    }

    constructor (entries: map<string, nat>, bodies: seq<seq<byte>>)
      requires forall n :: n in entries ==> entries[n] < |bodies|
      ensures Valid() && start == Receiver(entries, bodies, map[], map[]) && log == []
    {
      this.entries, this.bodies, inProgress, received := entries, bodies, map[], map[];
      start, log := Receiver(entries, bodies, map[], map[]), [];
    }

    method CreateFile(name: string) returns (body: nat)
      requires ValidDisk(Value())
      modifies this`entries, this`bodies
      ensures (Value(), body) == Create(old(Value()), name)
    {
      if name in entries {
        body := entries[name];
        bodies := bodies[body := []];
      } else {
        body := |bodies|;
        bodies := bodies + [[]];
        entries := entries[name := body];
      }
    }

    method HandleMessage(m: Message)
      requires Valid()
      modifies this`entries, this`bodies, this`inProgress, this`received, this`log
      ensures Valid() && log == old(log) + [m]
    {
      Apply(m);
      log := log + [m];
      assert log[..|log| - 1] == old(log);
    }

    method Apply(m: Message)
      requires ValidDisk(Value())
      modifies this`entries, this`bodies, this`inProgress, this`received
      ensures Value() == Receive(old(Value()), m)
    {
      match m
      case Offer(id, name, _) =>
        var path := UniqueDestinationPath(entries.Keys, name);
        var body := CreateFile(path);
        inProgress := inProgress[id := Handle(path, body, 0)];
      case Chunk(id, _, data) =>
        if id in inProgress {
          var h := inProgress[id];
          bodies := bodies[h.body := WriteAt(bodies[h.body], h.offset, data)];
          inProgress := inProgress[id := h.(offset := h.offset + |data|)];
        }
      case Complete(id) =>
        if id in inProgress {
          received := received[id := inProgress[id].name];
          inProgress := inProgress - {id};
        }
      case Cancel(id) =>
        if id in inProgress {
          entries := entries - {inProgress[id].name};
          inProgress := inProgress - {id};
        }
      case Accept(_) =>
      case Reject(_) =>
    }
  }

  // ----- When an offer spares every existing file -----

  /** An offer leaves all existing files as they are exactly when a candidate is free or the file it falls back on is empty. */
  lemma OfferSparesFiles(r: Receiver, id: TransferId, name: string, size: nat)
    requires ValidDisk(r)
    ensures var r' := Receive(r, Offer(id, name, size));
      (forall n :: n in Files(r) ==> n in Files(r') && Files(r')[n] == Files(r)[n])
      <==> HasFreeCandidate(r.entries.Keys, name) || Files(r)[name] == []
  {
    SearchFindsFirstFree(r.entries.Keys, name);
    var r' := Receive(r, Offer(id, name, size));
    if !HasFreeCandidate(r.entries.Keys, name) {
      assert name in r.entries;
      assert Files(r')[name] == [];
    }
  }

  /** The case the bound leaves open: with all 10,000 names of a file taken, an offer of it empties the old file. */
  lemma FullDirectoryClobbers(r: Receiver, id: TransferId, name: string, size: nat)
    requires ValidDisk(r) && FirstCandidates(name, MAX_CANDIDATES) <= r.entries.Keys
    ensures var files := Files(Receive(r, Offer(id, name, size))); name in files && files[name] == []
  {
    assert !HasFreeCandidate(r.entries.Keys, name) by {
      forall k: nat | k < MAX_CANDIDATES ensures Candidate(name, k) in r.entries.Keys {
        assert Candidate(name, k) in FirstCandidates(name, MAX_CANDIDATES);
      }
    }
    SearchFindsFirstFree(r.entries.Keys, name);
  }
}
