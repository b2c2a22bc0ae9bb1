/**
 * Two peers that keep each other's clipboard in step (visuara-client/src/clipboard_sync.rs): each polls its own
 * clipboard, reports a text that differs from the last one it saw, and applies the texts the other reports.
 */
module Clipboard {

  // ----- One peer -----

  datatype Peer = Peer(clip: string, lastSeen: string)

  /** A turn of the inner loop: apply one remote text. */
  function Apply(p: Peer, text: string): Peer { Peer(text, text) }

  predicate Unsynced(p: Peer) { p.clip != p.lastSeen }

  /** The check after the inner loop: what is reported, if anything, becomes the baseline. */
  function Check(p: Peer): Peer { if Unsynced(p) then p.(lastSeen := p.clip) else p }

  function Drain(p: Peer, inbox: seq<string>): Peer
    decreases |inbox|
  {
    if inbox == [] then p else Drain(Apply(p, inbox[0]), inbox[1..])
  }

  /** What a turn reports: the clipboard, if it was edited and nothing came in. */
  function Reports(p: Peer, inbox: seq<string>): seq<string> {
    if inbox == [] && Unsynced(p) then [p.clip] else []
  }

  /** Only the last of the texts that came in counts. */
  lemma {:induction false} DrainKeepsLast(p: Peer, inbox: seq<string>, text: string)
    ensures Drain(p, inbox + [text]) == Peer(text, text)
    decreases |inbox|
  {
    if inbox == [] {
      assert inbox + [text] == [text];
      assert Drain(Apply(p, text), []) == Apply(p, text);
    } else {
      assert (inbox + [text])[1..] == inbox[1..] + [text];
      DrainKeepsLast(Apply(p, inbox[0]), inbox[1..], text);
    }
  }

  /** The polling thread's state, changed in place. */
  class Sync {
    var clip: string
    var lastSeen: string
    var inbox: seq<string>
    var reported: seq<string>

    ghost function Value(): Peer
      reads this
    {
      Peer(clip, lastSeen)
    }

    constructor (clip: string)
      ensures Value() == Peer(clip, "") && inbox == [] && reported == []
    {
      this.clip, lastSeen, inbox, reported := clip, "", [], [];
    }

    /** `apply_remote_update`: whatever waits already, the next turn ends with this text, synced, and reports nothing. */
    method ApplyRemoteUpdate(text: string)
      modifies this`inbox
      ensures inbox == old(inbox) + [text]
      ensures Check(Drain(Value(), inbox)) == Peer(text, text) && Reports(Value(), inbox) == []
    {
      inbox := inbox + [text];
      DrainKeepsLast(Value(), old(inbox), text);
    }

    /** One turn of the endless loop; a text that came from the other peer is never reported back. */
    method Poll()
      modifies this
      ensures Value() == Check(Drain(old(Value()), old(inbox))) && inbox == []
      ensures reported == old(reported) + Reports(old(Value()), old(inbox))
      ensures !Unsynced(Value())
    {
      ghost var start := Value();
      while inbox != []
        invariant Drain(Value(), inbox) == Drain(start, old(inbox))
        invariant reported == old(reported)
        invariant (inbox == old(inbox) && Value() == start) || (!Unsynced(Value()) && old(inbox) != [])
        decreases |inbox|
      {
        clip := inbox[0];
        lastSeen := inbox[0];
        inbox := inbox[1..];
      }
      if clip != lastSeen {
        lastSeen := clip;
        reported := reported + [clip];
      }
    }
  }

  // ----- Two peers and what is under way between them -----

  datatype Side = Left | Right

  function Other(w: Side): Side { if w == Left then Right else Left }

  /** `toLeft` and `toRight` hold the texts under way to each side; `edits` and `sends` count what has happened. */
  datatype Pair = Pair(left: Peer, right: Peer, toLeft: seq<string>, toRight: seq<string>, edits: nat, sends: nat)

  function At(y: Pair, w: Side): Peer { if w == Left then y.left else y.right }
  function Flight(y: Pair, w: Side): seq<string> { if w == Left then y.toLeft else y.toRight }

  function SetPeer(y: Pair, w: Side, p: Peer): Pair { if w == Left then y.(left := p) else y.(right := p) }
  function SetFlight(y: Pair, w: Side, f: seq<string>): Pair { if w == Left then y.(toLeft := f) else y.(toRight := f) }

  /** An edit by the user, a poll's check, the arrival of the `i`-th text on its way to a peer, or its loss. */
  datatype Event = Edit(who: Side, text: string) | Look(who: Side) | Arrive(who: Side, i: nat) | Lose(who: Side, i: nat)

  predicate Enabled(y: Pair, e: Event) {
    e.Arrive? || e.Lose? ==> e.i < |Flight(y, e.who)|
  }

  function Without(f: seq<string>, i: nat): seq<string>
    requires i < |f|
  {
    f[..i] + f[i + 1..]
  }

  function Step(y: Pair, e: Event): Pair
    requires Enabled(y, e)
  {
    match e
    case Edit(w, text) => SetPeer(y, w, At(y, w).(clip := text)).(edits := y.edits + 1)
    case Look(w) =>
      if Unsynced(At(y, w)) then
        SetFlight(SetPeer(y, w, Check(At(y, w))), Other(w), Flight(y, Other(w)) + [At(y, w).clip]).(sends := y.sends + 1)
      else y
    case Arrive(w, i) => SetFlight(SetPeer(y, w, Apply(At(y, w), Flight(y, w)[i])), w, Without(Flight(y, w), i))
    case Lose(w, i) => SetFlight(y, w, Without(Flight(y, w), i))
  }

  ghost predicate Run(y: Pair, es: seq<Event>)
    decreases |es|, 0
  {
    es == [] || (Run(y, es[..|es| - 1]) && Enabled(After(y, es[..|es| - 1]), es[|es| - 1]))
  }

  ghost function After(y: Pair, es: seq<Event>): Pair
    requires Run(y, es)
    decreases |es|, 1
  {
    if es == [] then y else Step(After(y, es[..|es| - 1]), es[|es| - 1])
  }

  /** Two freshly started peers, whatever their clipboards hold. */
  function Fresh(left: string, right: string): Pair { Pair(Peer(left, ""), Peer(right, ""), [], [], 0, 0) }

  // ----- No echo storm -----

  function Pending(y: Pair): nat { (if Unsynced(y.left) then 1 else 0) + (if Unsynced(y.right) then 1 else 0) }

  /** Twice the unsynced peers plus the texts under way. */
  function Measure(y: Pair): nat { 2 * Pending(y) + |y.toLeft| + |y.toRight| }

  /** A step that is neither an edit nor idle brings the measure down; only an edit may raise what is pending. */
  lemma StepMeasure(y: Pair, e: Event)
    requires Enabled(y, e)
    ensures !e.Edit? ==> Step(y, e) == y || Measure(Step(y, e)) < Measure(y)
    ensures Step(y, e).sends + Pending(Step(y, e)) - Step(y, e).edits <= y.sends + Pending(y) - y.edits
  {
  }

  lemma {:induction false} SendsBoundedFrom(y: Pair, es: seq<Event>)
    requires Run(y, es)
    ensures After(y, es).sends + Pending(After(y, es)) - After(y, es).edits <= y.sends + Pending(y) - y.edits
  {
    if es != [] {
      SendsBoundedFrom(y, es[..|es| - 1]);
      StepMeasure(After(y, es[..|es| - 1]), es[|es| - 1]);
    }
  }

  /** However texts are delayed, reordered or lost, the peers send at most one update per edit and two more. */
  lemma NoEchoStorm(left: string, right: string, es: seq<Event>)
    requires Run(Fresh(left, right), es)
    ensures After(Fresh(left, right), es).sends <= After(Fresh(left, right), es).edits + 2
  {
    SendsBoundedFrom(Fresh(left, right), es);
  }

  /** The steps of a run that changed something. */
  ghost function Changes(y: Pair, es: seq<Event>): nat
    requires Run(y, es)
  {
    if es == [] then 0
    else Changes(y, es[..|es| - 1]) + (if After(y, es) == After(y, es[..|es| - 1]) then 0 else 1)
  }

  /** Without further edits, a run can change something at most as often as the measure says; then it is quiet. */
  lemma {:induction false} GoesQuiet(y: Pair, es: seq<Event>)
    requires Run(y, es) && forall i :: 0 <= i < |es| ==> !es[i].Edit?
    ensures Changes(y, es) + Measure(After(y, es)) <= Measure(y)
  {
    if es != [] {
      GoesQuiet(y, es[..|es| - 1]);
      StepMeasure(After(y, es[..|es| - 1]), es[|es| - 1]);
    }
  }

  ghost predicate Quiet(y: Pair) { Measure(y) == 0 }

  /** Quiet means that nothing but an edit can change anything. */
  lemma QuietIsIdle(y: Pair)
    ensures Quiet(y) <==> forall e :: Enabled(y, e) && !e.Edit? ==> Step(y, e) == y
  {
    if Unsynced(y.left) { assert Enabled(y, Look(Left)) && Step(y, Look(Left)) != y; }
    else if Unsynced(y.right) { assert Enabled(y, Look(Right)) && Step(y, Look(Right)) != y; }
    else if y.toLeft != [] { assert Enabled(y, Lose(Left, 0)) && |Step(y, Lose(Left, 0)).toLeft| < |y.toLeft|; }
    else if y.toRight != [] { assert Enabled(y, Lose(Right, 0)) && |Step(y, Lose(Right, 0)).toRight| < |y.toRight|; }
  }

  // ----- One turn of the loop is a run of the pair -----

  lemma Empty(y: Pair)
    ensures Run(y, []) && After(y, []) == y
  {
  }

  /** One more step of a run. */
  lemma Extend(y: Pair, es: seq<Event>, z: Pair, e: Event)
    requires Run(y, es) && After(y, es) == z && Enabled(z, e)
    ensures Run(y, es + [e]) && After(y, es + [e]) == Step(z, e)
  {
    assert (es + [e])[..|es|] == es;
  }

  /** `n` texts arrive in order, and then the clipboard is looked at. */
  function Arrivals(w: Side, n: nat): seq<Event> { seq(n, _ => Arrive(w, 0)) }
  function Turn(w: Side, n: nat): seq<Event> { Arrivals(w, n) + [Look(w)] }

  function Drained(y: Pair, w: Side, n: nat): Pair
    requires n <= |Flight(y, w)|
  {
    SetFlight(SetPeer(y, w, Drain(At(y, w), Flight(y, w)[..n])), w, Flight(y, w)[n..])
  }

  lemma DrainOne(y: Pair, w: Side, n: nat)
    requires n < |Flight(y, w)|
    ensures Enabled(Drained(y, w, n), Arrive(w, 0)) && Step(Drained(y, w, n), Arrive(w, 0)) == Drained(y, w, n + 1)
  {
    var f := Flight(y, w);
    assert f[..n + 1] == f[..n] + [f[n]] && Without(f[n..], 0) == f[n + 1..];
    DrainKeepsLast(At(y, w), f[..n], f[n]);
  }

  lemma DrainNone(y: Pair, w: Side)
    ensures Drained(y, w, 0) == y
  {
    assert Flight(y, w)[0..] == Flight(y, w);
  }

  lemma {:induction false} ArrivalsDrain(y: Pair, w: Side, n: nat)
    requires n <= |Flight(y, w)|
    ensures Run(y, Arrivals(w, n)) && After(y, Arrivals(w, n)) == Drained(y, w, n)
  {
    hide Drained, Step, Run, After;
    if n == 0 {
      DrainNone(y, w);
      Empty(y);
      assert Arrivals(w, 0) == [];
    } else {
      ArrivalsDrain(y, w, n - 1);
      DrainOne(y, w, n - 1);
      Extend(y, Arrivals(w, n - 1), Drained(y, w, n - 1), Arrive(w, 0));
      assert Arrivals(w, n) == Arrivals(w, n - 1) + [Arrive(w, 0)];
    }
  }

  /** What `Poll` does with an inbox is what these events do with the texts it holds. */
  lemma PollIsTurn(y: Pair, w: Side, inbox: seq<string>)
    requires inbox <= Flight(y, w)
    ensures Run(y, Turn(w, |inbox|))
    ensures var z := After(y, Turn(w, |inbox|)); var p := At(y, w);
      && At(z, w) == Check(Drain(p, inbox)) && At(z, Other(w)) == At(y, Other(w))
      && Flight(z, w) == Flight(y, w)[|inbox|..] && Flight(z, Other(w)) == Flight(y, Other(w)) + Reports(p, inbox)
      && z.sends == y.sends + |Reports(p, inbox)| && z.edits == y.edits
  {
    hide Run, After, Drain;
    var n, p := |inbox|, At(y, w);
    ArrivalsDrain(y, w, n);
    Extend(y, Arrivals(w, n), Drained(y, w, n), Look(w));
    assert Flight(y, w)[..n] == inbox;
    DrainSyncs(p, inbox);
  }

  lemma DrainSyncs(p: Peer, inbox: seq<string>)
    ensures if inbox == [] then Drain(p, inbox) == p else !Unsynced(Drain(p, inbox))
  {
    if inbox != [] {
      DrainKeepsLast(p, inbox[..|inbox| - 1], inbox[|inbox| - 1]);
      assert inbox[..|inbox| - 1] + [inbox[|inbox| - 1]] == inbox;
    }
  }

  // ----- Agreement -----

  datatype Deed = Nothing | SentOne | GotOne

  /** What a side has sent and got so far, and whether its last update went out or came in. */
  datatype Track = Track(sent: seq<string>, got: seq<string>, deed: Deed)

  ghost function TrackOf(y: Pair, es: seq<Event>, w: Side): Track
    requires Run(y, es)
  {
    if es == [] then Track([], [], Nothing)
    else
      Follow(TrackOf(y, es[..|es| - 1], w), After(y, es[..|es| - 1]), es[|es| - 1], w)
  }

  function Follow(past: Track, before: Pair, e: Event, w: Side): Track {
    if e.who != w then past
    else if e.Look? && Unsynced(At(before, w)) then past.(sent := past.sent + [At(before, w).clip], deed := SentOne)
    else if e.Arrive? && Enabled(before, e) then past.(got := past.got + [Flight(before, w)[e.i]], deed := GotOne)
    else past
  }

  predicate Agreed(y: Pair, text: string) {
    y.left == Peer(text, text) && y.right == Peer(text, text) && y.toLeft == [] && y.toRight == []
  }

  function Last(texts: seq<string>): string
    requires texts != []
  {
    texts[|texts| - 1]
  }

  function LastOr(texts: seq<string>, start: string): string {
    if texts == [] then start else Last(texts)
  }

  /** A side's last update, whichever way it went. */
  function LastUpdate(t: Track, start: string): string {
    match t.deed
    case Nothing => start
    case SentOne => LastOr(t.sent, start)
    case GotOne => LastOr(t.got, start)
  }

  /** A side's baseline is its last update. */
  ghost predicate Settled(z: Pair, w: Side, mine: Track, start: string) {
    && At(z, w).lastSeen == LastUpdate(mine, start)
    && (mine.deed == Nothing ==> mine.sent == [] && mine.got == [])
    && (mine.deed == SentOne ==> mine.sent != [])
    && (mine.deed == GotOne ==> mine.got != [])
  }

  lemma SettledStep(z: Pair, e: Event, w: Side, mine: Track, start: string)
    requires Settled(z, w, mine, start) && Enabled(z, e)
    ensures Settled(Step(z, e), w, Follow(mine, z, e, w), start)
  {
  }

  lemma {:induction false} SettledAfter(y: Pair, es: seq<Event>, w: Side, start: string)
    requires Agreed(y, start) && Run(y, es)
    ensures Settled(After(y, es), w, TrackOf(y, es, w), start)
  {
    if es != [] {
      hide Settled, Step, Follow;
      SettledAfter(y, es[..|es| - 1], w, start);
      SettledStep(After(y, es[..|es| - 1]), es[|es| - 1], w, TrackOf(y, es[..|es| - 1], w), start);
    }
  }

  /**
   * However texts are edited, delayed, reordered or lost: once all is quiet the clipboards are equal exactly when the
   * last update that went out of or came in to the one side has the text of the other side's last update.
   */
  lemma AgreementExact(y: Pair, es: seq<Event>, start: string)
    requires Agreed(y, start) && Run(y, es) && Quiet(After(y, es))
    ensures After(y, es).left.clip == After(y, es).right.clip
      <==> LastUpdate(TrackOf(y, es, Left), start) == LastUpdate(TrackOf(y, es, Right), start)
  {
    hide TrackOf, After, Run, LastUpdate;
    SettledAfter(y, es, Left, start);
    SettledAfter(y, es, Right, start);
  }

  // ----- Edits on one side -----

  ghost predicate OnlyEditedBy(es: seq<Event>, w: Side) {
    forall i :: 0 <= i < |es| && es[i].Edit? ==> es[i].who == w
  }

  /** The other side only listens: it never sends, and shows what it got last. */
  ghost predicate Listens(z: Pair, w: Side, mine: Track, others: Track) {
    && Flight(z, w) == [] && mine.got == [] && mine.deed != GotOne
    && !Unsynced(At(z, Other(w))) && others.sent == [] && others.deed != SentOne
  }

  lemma ListensStep(z: Pair, e: Event, w: Side, mine: Track, others: Track)
    requires Listens(z, w, mine, others) && Enabled(z, e) && (e.Edit? ==> e.who == w)
    ensures Listens(Step(z, e), w, Follow(mine, z, e, w), Follow(others, z, e, Other(w)))
  {
  }

  lemma {:induction false} ListensAfter(y: Pair, es: seq<Event>, w: Side, start: string)
    requires Agreed(y, start) && Run(y, es) && OnlyEditedBy(es, w)
    ensures Listens(After(y, es), w, TrackOf(y, es, w), TrackOf(y, es, Other(w)))
  {
    if es != [] {
      hide Listens, Step, Follow;
      var front, e := es[..|es| - 1], es[|es| - 1];
      ListensAfter(y, front, w, start);
      assert e.Edit? ==> e.who == w;
      ListensStep(After(y, front), e, w, TrackOf(y, front, w), TrackOf(y, front, Other(w)));
    }
  }

  /**
   * With all edits on side `w`, however its updates are delayed, reordered or lost: once all is quiet the clipboards
   * are equal exactly when the text that came in last on the other side is the one that `w` sent last.
   */
  lemma OneSidedExact(y: Pair, es: seq<Event>, w: Side, start: string)
    requires Agreed(y, start) && Run(y, es) && OnlyEditedBy(es, w) && Quiet(After(y, es))
    ensures var sent, got := TrackOf(y, es, w).sent, TrackOf(y, es, Other(w)).got;
      After(y, es).left.clip == After(y, es).right.clip <==> LastOr(sent, start) == LastOr(got, start)
  {
    hide TrackOf, After, Run;
    AgreementExact(y, es, start);
    ListensAfter(y, es, w, start);
    SettledAfter(y, es, w, start);
    SettledAfter(y, es, Other(w), start);
  }

  // ----- Ordered, lossless delivery -----

  /** Texts arrive in the order they were sent, and none is lost. */
  predicate InOrder(es: seq<Event>) {
    forall i :: 0 <= i < |es| ==> !es[i].Lose? && (es[i].Arrive? ==> es[i].i == 0)
  }

  /** What `w` got, followed by what is on its way to it, is what the other side sent. */
  ghost predicate Piped(z: Pair, w: Side, mine: Track, others: Track) {
    mine.got + Flight(z, w) == others.sent
  }

  ghost predicate Consistent(z: Pair, left: Track, right: Track) {
    && Piped(z, Left, left, right) && Piped(z, Right, right, left)
    // Of two last sends, one is still under way.
    && !(left.deed == SentOne && right.deed == SentOne && z.toLeft == [] && z.toRight == [])
  }

  lemma PipedStep(z: Pair, e: Event, w: Side, mine: Track, others: Track)
    requires Piped(z, w, mine, others) && Enabled(z, e) && !e.Lose? && (e.Arrive? ==> e.i == 0)
    ensures Piped(Step(z, e), w, Follow(mine, z, e, w), Follow(others, z, e, Other(w)))
  {
    var flight := Flight(z, w);
    match e
    case Edit(_, _) =>
    case Look(v) =>
      if v != w && Unsynced(At(z, v)) {
        assert mine.got + (flight + [At(z, v).clip]) == (mine.got + flight) + [At(z, v).clip];
      }
    case Arrive(v, i) =>
      if v == w {
        assert Without(flight, 0) == flight[1..];
        assert (mine.got + [flight[0]]) + flight[1..] == mine.got + flight;
      }
  }

  lemma ConsistentStep(z: Pair, e: Event, left: Track, right: Track)
    requires Consistent(z, left, right) && Enabled(z, e) && !e.Lose? && (e.Arrive? ==> e.i == 0)
    ensures Consistent(Step(z, e), Follow(left, z, e, Left), Follow(right, z, e, Right))
  {
    hide Piped;
    PipedStep(z, e, Left, left, right);
    PipedStep(z, e, Right, right, left);
  }

  lemma {:induction false} ConsistentAfter(y: Pair, es: seq<Event>, start: string)
    requires Agreed(y, start) && Run(y, es) && InOrder(es)
    ensures Consistent(After(y, es), TrackOf(y, es, Left), TrackOf(y, es, Right))
  {
    if es != [] {
      hide Consistent, Step, Follow;
      ConsistentAfter(y, es[..|es| - 1], start);
      assert !es[|es| - 1].Lose? && (es[|es| - 1].Arrive? ==> es[|es| - 1].i == 0);
      ConsistentStep(After(y, es[..|es| - 1]), es[|es| - 1], TrackOf(y, es[..|es| - 1], Left), TrackOf(y, es[..|es| - 1], Right));
    }
  }

  /** Both sides' last update came in: their last sends crossed on the way. */
  ghost predicate Crossed(y: Pair, es: seq<Event>)
    requires Run(y, es)
  {
    TrackOf(y, es, Left).deed == GotOne && TrackOf(y, es, Right).deed == GotOne
  }

  /**
   * From an agreed state, with texts delivered in order, the clipboards are equal once all is quiet exactly when the
   * last updates of the two sides did not cross, or crossed with the same text.
   */
  lemma AgreementAtQuiet(y: Pair, es: seq<Event>, start: string)
    requires Agreed(y, start) && Run(y, es) && InOrder(es) && Quiet(After(y, es))
    ensures var l, r := TrackOf(y, es, Left).sent, TrackOf(y, es, Right).sent;
      && (Crossed(y, es) ==> l != [] && r != [])
      && (After(y, es).left.clip == After(y, es).right.clip <==> !Crossed(y, es) || Last(l) == Last(r))
  {
    hide TrackOf, After, Run;
    AgreementExact(y, es, start);
    ConsistentAfter(y, es, start);
    SettledAfter(y, es, Left, start);
    SettledAfter(y, es, Right, start);
    var l, r := TrackOf(y, es, Left), TrackOf(y, es, Right);
    assert l.got + [] == l.got && r.got + [] == r.got;
  }

  /** With all edits on side `w`, the other's clipboard followed by what is under way to it ends in `w`'s baseline. */
  lemma OneSided(y: Pair, es: seq<Event>, w: Side, start: string)
    requires Agreed(y, start) && Run(y, es) && InOrder(es) && OnlyEditedBy(es, w)
    ensures var z := After(y, es); var v := Other(w);
      && Flight(z, w) == [] && TrackOf(y, es, v).sent == []
      && At(z, w).lastSeen == LastOr([At(z, v).clip] + Flight(z, v), start)
  {
    hide TrackOf, After, Run;
    ConsistentAfter(y, es, start);
    ListensAfter(y, es, w, start);
    SettledAfter(y, es, w, start);
    SettledAfter(y, es, Other(w), start);
  }

  /** So with one-sided editing both clipboards are equal once all is quiet. */
  lemma OneSidedAgreement(y: Pair, es: seq<Event>, w: Side, start: string)
    requires Agreed(y, start) && Run(y, es) && InOrder(es) && OnlyEditedBy(es, w) && Quiet(After(y, es))
    ensures After(y, es).left.clip == After(y, es).right.clip
  {
    hide TrackOf, After, Run;
    OneSidedExact(y, es, w, start);
    ConsistentAfter(y, es, start);
    var got := TrackOf(y, es, Other(w)).got;
    assert got + [] == got;
  }

  /** Edits on both sides that cross leave the clipboards swapped, for good. */
  lemma CrossingSwaps(start: string, a: string, b: string)
    requires a != start && b != start
    ensures var y := Pair(Peer(start, start), Peer(start, start), [], [], 0, 0);
      var es := [Edit(Left, a), Edit(Right, b), Look(Left), Look(Right), Arrive(Left, 0), Arrive(Right, 0)];
      Run(y, es) && Quiet(After(y, es)) && After(y, es).left.clip == b && After(y, es).right.clip == a
  {
    hide Run, After;
    var y0 := Pair(Peer(start, start), Peer(start, start), [], [], 0, 0);
    var y1 := Pair(Peer(a, start), Peer(start, start), [], [], 1, 0);
    var y2 := Pair(Peer(a, start), Peer(b, start), [], [], 2, 0);
    var y3 := Pair(Peer(a, a), Peer(b, start), [], [a], 2, 1);
    var y4 := Pair(Peer(a, a), Peer(b, b), [b], [a], 2, 2);
    var y5 := Pair(Peer(b, b), Peer(b, b), [], [a], 2, 2);
    Empty(y0);
    Extend(y0, [], y0, Edit(Left, a));
    Extend(y0, [] + [Edit(Left, a)], y1, Edit(Right, b));
    Extend(y0, [] + [Edit(Left, a)] + [Edit(Right, b)], y2, Look(Left));
    Extend(y0, [] + [Edit(Left, a)] + [Edit(Right, b)] + [Look(Left)], y3, Look(Right));
    Extend(y0, [] + [Edit(Left, a)] + [Edit(Right, b)] + [Look(Left)] + [Look(Right)], y4, Arrive(Left, 0));
    Extend(y0, [] + [Edit(Left, a)] + [Edit(Right, b)] + [Look(Left)] + [Look(Right)] + [Arrive(Left, 0)], y5, Arrive(Right, 0));
    assert [] + [Edit(Left, a)] + [Edit(Right, b)] + [Look(Left)] + [Look(Right)] + [Arrive(Left, 0)] + [Arrive(Right, 0)]
        == [Edit(Left, a), Edit(Right, b), Look(Left), Look(Right), Arrive(Left, 0), Arrive(Right, 0)];
  }

  /** Two edits reported one after the other, both updates still under way. */
  lemma TwoUnderWay(start: string, a: string, b: string)
    requires a != start && b != a
    ensures var y := Pair(Peer(start, start), Peer(start, start), [], [], 0, 0);
      var es := [Edit(Left, a), Look(Left), Edit(Left, b), Look(Left)];
      Run(y, es) && After(y, es) == Pair(Peer(b, b), Peer(start, start), [], [a, b], 2, 2)
  {
    hide Run, After;
    var y0 := Pair(Peer(start, start), Peer(start, start), [], [], 0, 0);
    var y1 := Pair(Peer(a, start), Peer(start, start), [], [], 1, 0);
    var y2 := Pair(Peer(a, a), Peer(start, start), [], [a], 1, 1);
    var y3 := Pair(Peer(b, a), Peer(start, start), [], [a], 2, 1);
    Empty(y0);
    Extend(y0, [], y0, Edit(Left, a));
    Extend(y0, [] + [Edit(Left, a)], y1, Look(Left));
    Extend(y0, [] + [Edit(Left, a)] + [Look(Left)], y2, Edit(Left, b));
    Extend(y0, [] + [Edit(Left, a)] + [Look(Left)] + [Edit(Left, b)], y3, Look(Left));
    assert [] + [Edit(Left, a)] + [Look(Left)] + [Edit(Left, b)] + [Look(Left)] == [Edit(Left, a), Look(Left), Edit(Left, b), Look(Left)];
  }

  /** Each report is handed to its own task, and if two of them are reordered even one-sided editing ends in disagreement. */
  lemma ReorderingDisagrees(start: string, a: string, b: string)
    requires a != start && b != a
    ensures var y := Pair(Peer(start, start), Peer(start, start), [], [], 0, 0);
      var es := [Edit(Left, a), Look(Left), Edit(Left, b), Look(Left), Arrive(Right, 1), Arrive(Right, 0)];
      Run(y, es) && Quiet(After(y, es)) && After(y, es).left.clip == b && After(y, es).right.clip == a
  {
    hide Run, After;
    var y0 := Pair(Peer(start, start), Peer(start, start), [], [], 0, 0);
    var y4 := Pair(Peer(b, b), Peer(start, start), [], [a, b], 2, 2);
    var y5 := Pair(Peer(b, b), Peer(b, b), [], [a], 2, 2);
    var sent := [Edit(Left, a), Look(Left), Edit(Left, b), Look(Left)];
    TwoUnderWay(start, a, b);
    Extend(y0, sent, y4, Arrive(Right, 1));
    assert Step(y4, Arrive(Right, 1)) == y5;
    Extend(y0, sent + [Arrive(Right, 1)], y5, Arrive(Right, 0));
    assert sent + [Arrive(Right, 1)] + [Arrive(Right, 0)]
        == [Edit(Left, a), Look(Left), Edit(Left, b), Look(Left), Arrive(Right, 1), Arrive(Right, 0)];
  }
}
