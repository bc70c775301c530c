/**
 One terminal inside the relay (`server/src/relay/terminal.rs`), the back pressure in front
 of it (`publisher.rs`) and the checkpoint behind it (`flush.rs`).

 `Term` is the value: the replay window and the offsets.  `TerminalHandle` adds the
 subscribers, whose replay and live events must join without a seam.
 */
module RelayTerminal {
  import opened Bytes
  import opened ReplayRing
  import opened Store

  datatype Lifecycle = Open | Closing(reason: string) | Closed(reason: string)

  datatype AppendOutcome =
    | Accepted(next: nat, durable: nat)
    | OffsetMismatch(next: nat, durable: nat)
    | NotOpen

  datatype Term = Term(ring: Window, next: nat, durable: nat, life: Lifecycle)
  {
    function Dirty(): nat { Minus(next, durable) }

    /** Offsets and window agree with each other and with everything accepted so far. */
    predicate Sound(stream: seq<byte>) {
      && ring.Valid() && ring.Shows(stream)
      && next == |stream| && durable <= next
    }

    function Append(expected: nat, payload: seq<byte>, cap: nat): (Term, AppendOutcome) {
      if life != Open then (this, NotOpen)
      else if expected != next then (this, OffsetMismatch(next, durable))
      else
        var resized := this.(ring := ring.SetCapacity(cap));
        if payload == [] then (resized, Accepted(next, durable))
        else (this.(ring := resized.ring.Append(payload), next := next + |payload|),
              Accepted(next + |payload|, durable))
    }

    /** The dirty range, cut to what is still retained. */
    function TakeCheckpoint(): Option<Checkpoint> {
      if next <= durable && !life.Closing? then None
      else
        var from := Max(durable, ring.earliest);
        Some(Checkpoint(
               from,
               if from < next && ring.Contains(from, next) then ring.Read(from, next) else [],
               ring.earliest,
               next,
               if life.Closing? then Some(life.reason) else None))
    }

    function CommitDurable(target: nat, close: Option<string>): Term {
      this.(durable := Max(durable, target),
            life := if close.Some? then Closed(close.value) else life)
    }

    function Shrink(cap: nat): Term {
      if cap >= ring.capacity then this else this.(ring := ring.SetCapacity(cap))
    }
  }

  /** Rebuild from durable state: the stream resumes where the database says it ends. */
  function Restore(rec: Record, cap: nat, retained: seq<byte>): Term {
    var ring := Rebuilt(cap, rec.earliest, retained);
    Term(ring, Max(ring.End(), rec.durable), rec.durable,
         if rec.closed.Some? then Closed(rec.closed.value) else Open)
  }

  /** A terminal stored as closed comes back closed, for the reason stored; any other comes back open. */
  predicate Reopened(rec: Record, t: Term) {
    match rec.closed case None => t.life == Open case Some(reason) => t.life == Closed(reason)
  }

  // ------------------------------------------------------------- accepting and restoring

  /** A frame is taken whole exactly at the end of the stream, or changes nothing. */
  lemma AppendMeaning(t: Term, stream: seq<byte>, expected: nat, payload: seq<byte>, cap: nat)
    requires t.Sound(stream)
    ensures var (t', r) := t.Append(expected, payload, cap);
            && t'.Sound(if r.Accepted? then stream + payload else stream)
            && (r.Accepted? <==> t.life.Open? && expected == |stream|)
            && (r.OffsetMismatch? <==> t.life.Open? && expected != |stream|)
            && (!r.Accepted? ==> t' == t)
            && t'.durable == t.durable && t'.life == t.life
            && t.ring.earliest <= t'.ring.earliest
  {
    SetCapacityShows(t.ring, stream, cap);
    AppendShows(t.ring.SetCapacity(cap), stream, payload);
    assert stream + [] == stream;
  }

  /** What a checkpoint takes is the stream's own bytes, from behind the durable offset to its end. */
  lemma CheckpointIsShaped(t: Term, stream: seq<byte>)
    requires t.Sound(stream) && t.TakeCheckpoint().Some?
    ensures var cp := t.TakeCheckpoint().value;
            && Shaped(cp, stream) && cp.durable == |stream| && cp.earliest == t.ring.earliest
            && cp.start == Max(t.durable, t.ring.earliest)
            && (cp.chunk == [] ==> cp.start == |stream| && (t.life.Closing? || t.ring.bytes == []))
  {
    var cp := t.TakeCheckpoint().value;
    if cp.start < t.next {
      ReadShows(t.ring, stream, cp.start, t.next);
    } else {
      assert cp.chunk == [] && At(stream, cp.start, []);
    }
  }

  /** There is a checkpoint to take exactly while bytes are dirty or a close is waiting, and it carries that close. */
  lemma CheckpointTakenIff(t: Term)
    ensures t.TakeCheckpoint().Some? <==> t.durable < t.next || t.life.Closing?
    ensures t.TakeCheckpoint().Some? ==>
              forall reason :: t.TakeCheckpoint().value.close == Some(reason) <==> t.life == Closing(reason)
  {
  }

  /**
   A close is final: once its checkpoint commits, memory and every later restart have the terminal
   closed, for the same reason, at the end of everything that was accepted; nothing more is accepted
   and there is nothing more to store.
   */
  lemma CloseIsFinal(t: Term, stream: seq<byte>, rec: Record, cap: nat, off: nat, more: seq<byte>, reason: string)
    requires t.Sound(stream) && t.life == Closing(reason) && Intact(rec, stream)
    requires rec.durable == t.durable && rec.earliest <= t.ring.earliest
    ensures t.TakeCheckpoint().Some?
    ensures var cp := t.TakeCheckpoint().value;
            && Commit(rec, cp).Some? && Load(Commit(rec, cp).value).Some?
            && var told := t.CommitDurable(cp.durable, cp.close);
            var back := Restore(Commit(rec, cp).value, cap, Load(Commit(rec, cp).value).value);
            && told.life == back.life == Closed(reason)
            && told.durable == back.durable == told.next == back.next == |stream|
            && told.Append(off, more, cap) == (told, NotOpen) && back.Append(off, more, cap) == (back, NotOpen)
            && told.TakeCheckpoint().None? && back.TakeCheckpoint().None?
  {
    var cp := t.TakeCheckpoint().value;
    CheckpointContinues(t, stream, rec);
    CommitKeepsIntact(rec, cp, stream);
    CommitKeepsClosed(rec, cp);
    RestoreIsSound(Commit(rec, cp).value, cap, stream);
  }

  /** What a checkpoint takes continues the rows, when they end where memory believes. */
  lemma CheckpointContinues(t: Term, stream: seq<byte>, rec: Record)
    requires t.Sound(stream) && t.TakeCheckpoint().Some?
    requires rec.durable == t.durable && rec.earliest <= t.ring.earliest
    ensures var cp := t.TakeCheckpoint().value;
            && Continues(rec, cp, stream)
            && cp.durable == |stream| && cp.earliest == t.ring.earliest
  {
    CheckpointIsShaped(t, stream);
  }

  /**
   Recovery equals memory: from intact rows the rebuilt terminal resumes at the durable
   offset and its window shows the newest committed bytes that fit.
   */
  lemma RestoreIsSound(rec: Record, cap: nat, stream: seq<byte>)
    requires Intact(rec, stream)
    ensures Load(rec).Some?
    ensures var t := Restore(rec, cap, Load(rec).value);
            && t.Sound(stream[..rec.durable])
            && t.next == t.durable == rec.durable && Reopened(rec, t)
            && t.ring.bytes == Last(stream[rec.earliest..rec.durable], Max(cap, 1))
            && rec.earliest <= t.ring.earliest
  {
    LoadIsExact(rec, stream);
    var committed := stream[..rec.durable];
    assert committed[rec.earliest..rec.durable] == stream[rec.earliest..rec.durable];
    NewestShows(committed, rec.earliest, Load(rec).value, Max(cap, 1));
  }

  /**
   Rows that no longer meet, and so may reach beyond the durable offset, rebuild all the same when
   they have no gap: the stream resumes where they end, and what is beyond `durable` is dirty.
   */
  lemma RestoreShows(rec: Record, cap: nat, stream: seq<byte>)
    requires Agree(rec.rows, stream) && Load(rec).Some? && rec.earliest <= |stream|
    requires rec.earliest < rec.durable ==> Reaching(rec.rows, rec.durable)
    requires rec.earliest <= rec.durable
    ensures var t, end := Restore(rec, cap, Load(rec).value), rec.earliest + |Load(rec).value|;
            && end <= |stream| && t.Sound(stream[..end])
            && t.next == end && t.durable == rec.durable && rec.earliest <= t.ring.earliest && Reopened(rec, t)
            && (t.ring.bytes == [] ==> rec.earliest == rec.durable == end == t.ring.earliest)
            && t.ring.bytes == Last(Load(rec).value, Max(cap, 1))
  {
    LoadShows(rec, stream);
    var end := rec.earliest + |Load(rec).value|;
    if rec.earliest < rec.durable {
      var row :| row in rec.rows && rec.durable <= row.end;
    }
    AtCut(stream, rec.earliest, Load(rec).value, end);
    NewestShows(stream[..end], rec.earliest, Load(rec).value, Max(cap, 1));
  }

  lemma RestoredIsSound(rec: Record, cap: nat, retained: seq<byte>, stream: seq<byte>)
    ensures Intact(rec, stream) && Load(rec) == Some(retained) ==>
              rec.durable <= |stream| && Restore(rec, cap, retained).Sound(stream[..rec.durable])
              && Restore(rec, cap, retained).next == rec.durable
  {
    if Intact(rec, stream) && Load(rec) == Some(retained) {
      RestoreIsSound(rec, cap, stream);
    }
  }

  // -------------------------------------------------------------------- back pressure

  /** How many dirty bytes may be outstanding when a frame of `len` bytes is let in. */
  function Headroom(len: nat, cap: nat, maxUnacked: nat): nat {
    if len >= cap then 0 else Minus(Min(maxUnacked, cap), len)
  }

  /**
   The headroom in a publisher's terms: a frame is let in over no dirty byte at all, or when it fits
   both the window and the unacknowledged limit together with them.
   */
  lemma HeadroomMeaning(dirty: nat, len: nat, cap: nat, maxUnacked: nat)
    ensures dirty <= Headroom(len, cap, maxUnacked) <==> dirty == 0 || dirty + len <= Min(maxUnacked, cap)
  {
  }

  /** No byte has left the window that the database does not have. */
  predicate KeepsDirty(t: Term) { t.ring.earliest <= t.durable }

  /** Appending loses uncommitted bytes exactly when they and the frame do not both fit. */
  lemma AppendKeepsDirtyIff(t: Term, stream: seq<byte>, payload: seq<byte>, cap: nat)
    requires t.Sound(stream) && t.life.Open? && KeepsDirty(t) && payload != []
    ensures var t' := t.Append(t.next, payload, cap).0;
            && (KeepsDirty(t') <==> t.Dirty() + |payload| <= Max(cap, 1))
            && |t'.ring.bytes| <= Max(cap, 1)
  {
  }

  /**
   A frame let in by the back pressure never pushes out an uncommitted byte, unless it alone
   fills the window; then nothing else was dirty and only its own
   beginning is lost.
   */
  lemma BackpressureProtects(t: Term, stream: seq<byte>, payload: seq<byte>, cap: nat, maxUnacked: nat)
    requires t.Sound(stream) && t.life.Open? && KeepsDirty(t) && payload != []
    requires 1 <= cap && t.Dirty() <= Headroom(|payload|, cap, maxUnacked)
    ensures var t' := t.Append(t.next, payload, cap).0;
            && (|payload| <= cap ==> KeepsDirty(t'))
            && (cap < |payload| ==> t.durable == t.next < t'.ring.earliest
                                    && t'.ring.bytes == payload[|payload| - cap..])
  {
    AppendKeepsDirtyIff(t, stream, payload, cap);
    KeptTail(t.ring.SetCapacity(cap).bytes, payload, cap);
  }

  /** Waiting for this offset is waiting for enough headroom. */
  lemma WaitTargetSuffices(t: Term, headroom: nat, durable: nat)
    requires Minus(t.next, headroom) <= durable
    ensures t.(durable := durable).Dirty() <= headroom
  {
  }

  /**
   Reducing the capacity of a live terminal is not held back: it loses uncommitted bytes
   exactly when more of them are outstanding than the new window has room for.
   */
  lemma ShrinkKeepsDirtyIff(t: Term, stream: seq<byte>, cap: nat)
    requires t.Sound(stream) && KeepsDirty(t)
    ensures KeepsDirty(t.Shrink(cap)) <==> cap >= t.ring.capacity || t.Dirty() <= Max(cap, 1)
    ensures t.Shrink(cap).Sound(stream)
  {
    SetCapacityShows(t.ring, stream, cap);
  }

  /** The smallest and the largest replay capacity the settings allow. */
  const LEAST_CAPACITY: nat := 1024
  const MOST_CAPACITY: nat := 1_500_000

  /** A terminal with `dirty` bytes, none of them committed, in a window of `capacity`. */
  function Unsaved(dirty: nat, capacity: nat): Term {
    Term(Window(0, Zeroes(dirty), capacity), dirty, 0, Open)
  }

  function Zeroes(n: nat): (s: seq<byte>)
    ensures |s| == n
  {
    seq(n, i => 0)
  }

  /** Any reduction the settings allow, to less than what is uncommitted, evicts uncommitted bytes. */
  lemma ShrinkCanLoseDirty(was: nat, dirty: nat, now: nat)
    requires LEAST_CAPACITY <= now < dirty <= was <= MOST_CAPACITY
    ensures var t := Unsaved(dirty, was);
            t.Sound(Zeroes(dirty)) && KeepsDirty(t) && !KeepsDirty(t.Shrink(now))
  {
    ShrinkKeepsDirtyIff(Unsaved(dirty, was), Zeroes(dirty), now);
  }

  /** Every byte of [lo, hi) is in some row. */
  predicate HoldsAll(rows: seq<Row>, lo: nat, hi: nat) {
    forall off: nat | lo <= off < hi :: InRows(rows, off)
  }

  /**
   A checkpoint stores everything it will let be acknowledged exactly when no uncommitted byte
   has been evicted; otherwise the evicted ones were in no row before it and are in none after.
   */
  lemma CheckpointStoresDirtyIff(t: Term, stream: seq<byte>, rec: Record)
    requires t.Sound(stream) && t.TakeCheckpoint().Some? && Intact(rec, stream)
    requires rec.durable == t.durable && rec.earliest <= t.ring.earliest
    ensures var cp := t.TakeCheckpoint().value;
            var after := Commit(rec, cp);
            && after.Some? && t.CommitDurable(cp.durable, cp.close).durable == t.next
            && (forall off: nat | off < t.next :: InRows(after.value.rows, off) <==> t.ring.earliest <= off)
            && (HoldsAll(after.value.rows, t.durable, t.next) <==> KeepsDirty(t))
            && (forall off: nat | t.durable <= off < t.ring.earliest :: !InRows(rec.rows, off))
  {
    var cp := t.TakeCheckpoint().value;
    CheckpointContinues(t, stream, rec);
    CommitKeepsIntact(rec, cp, stream);
    var after := Commit(rec, cp).value;
    forall off: nat
      ensures InRows(after.rows, off) <==> t.ring.earliest <= off < t.next
      ensures InRows(rec.rows, off) <==> rec.earliest <= off < rec.durable
    {
      TilesHold(after.rows, t.ring.earliest, t.next, stream, off);
      TilesHold(rec.rows, rec.earliest, rec.durable, stream, off);
    }
    if !KeepsDirty(t) {
      assert t.durable < t.ring.earliest <= t.next;
      assert !InRows(after.rows, t.durable);
    }
  }

  /** What the checkpoint after such a reduction lets be acknowledged, no row has ever held. */
  lemma ShrunkIsAcknowledgedUnstored(was: nat, dirty: nat, now: nat, off: nat)
    requires LEAST_CAPACITY <= now < dirty <= was <= MOST_CAPACITY && off < dirty - now
    ensures var t, empty := Unsaved(dirty, was).Shrink(now), Record([], 0, 0, None);
            && t.Sound(Zeroes(dirty)) && t.TakeCheckpoint().Some?
            && var cp := t.TakeCheckpoint().value;
            && Commit(empty, cp).Some?
            && off < t.CommitDurable(cp.durable, cp.close).durable
            && !InRows(empty.rows, off) && !InRows(Commit(empty, cp).value.rows, off)
  {
    var t := Unsaved(dirty, was).Shrink(now);
    ShrinkKeepsDirtyIff(Unsaved(dirty, was), Zeroes(dirty), now);
    CheckpointStoresDirtyIff(t, Zeroes(dirty), Record([], 0, 0, None));
  }

  /** So does the checkpoint after any frame larger than the window, for the frame's beginning. */
  lemma OversizedIsAcknowledgedUnstored(t: Term, stream: seq<byte>, rec: Record, payload: seq<byte>, cap: nat, off: nat)
    requires t.Sound(stream) && t.life.Open? && t.durable == t.next && 1 <= cap < |payload|
    requires Intact(rec, stream) && rec.durable == t.durable && rec.earliest <= t.ring.earliest
    requires t.next <= off < t.next + |payload| - cap
    ensures var full := t.Append(t.next, payload, cap).0;
            && full.TakeCheckpoint().Some?
            && var cp := full.TakeCheckpoint().value;
            && Commit(rec, cp).Some?
            && off < full.CommitDurable(cp.durable, cp.close).durable
            && !InRows(rec.rows, off) && !InRows(Commit(rec, cp).value.rows, off)
  {
    var full := t.Append(t.next, payload, cap).0;
    AppendMeaning(t, stream, t.next, payload, cap);
    TilesGrow(rec.rows, rec.earliest, rec.durable, stream, payload);
    CheckpointStoresDirtyIff(full, stream + payload, rec);
    TilesHold(rec.rows, rec.earliest, rec.durable, stream, off);
  }

  // --------------------------------------------------------------------- subscribers

  datatype MirrorEvent =
    | Output(start: nat, payload: seq<byte>)
    | Durable(durable: nat)
    | Resize(cols: nat, rows: nat)
    | Ended(reason: string, next: nat, durable: nat)

  function Cost(e: MirrorEvent): nat { if e.Output? then |e.payload| else 0 }

  datatype Subscriber = Subscriber(
    id: nat,
    from: nat,                          // where its replay starts
    replay: seq<(nat, seq<byte>)>,
    live: nat,                          // where the replay ends and the live events begin
    queue: seq<MirrorEvent>,            // everything queued since, taken off or not
    queuedBytes: nat,
    maxQueuedBytes: nat,
    room: nat,                          // free places in its channel
    gone: bool)                         // its receiver has been dropped

  /** Queue one event, or drop the subscriber that cannot take it. */
  function Offer(s: Subscriber, e: MirrorEvent): Option<Subscriber> {
    if s.queuedBytes + Cost(e) > s.maxQueuedBytes || s.gone || s.room == 0 then None
    else Some(s.(queue := s.queue + [e], queuedBytes := s.queuedBytes + Cost(e), room := s.room - 1))
  }

  function FanOut(subs: seq<Subscriber>, e: MirrorEvent): seq<Subscriber> {
    if subs == [] then []
    else (match Offer(subs[0], e) case None => [] case Some(s) => [s]) + FanOut(subs[1..], e)
  }

  /** What subscribers hear of a committed checkpoint: the new durable offset, then the close. */
  function Told(subs: seq<Subscriber>, durable: nat, next: nat, target: nat, close: Option<string>): seq<Subscriber> {
    var advanced := if target > durable then FanOut(subs, Durable(target)) else subs;
    if close.Some? then FanOut(advanced, Ended(close.value, next, Max(durable, target))) else advanced
  }

  predicate HasEnded(queue: seq<MirrorEvent>) { queue != [] && queue[|queue| - 1].Ended? }

  /**
   The events carry `stream` from `pos` to `end`: each output starts where the one before
   stopped, and the end is announced last, when all of it is durable.
   */
  predicate Plays(stream: seq<byte>, pos: nat, queue: seq<MirrorEvent>, end: nat) {
    if queue == [] then pos == end
    else
      var front, last := queue[..|queue| - 1], queue[|queue| - 1];
      && !HasEnded(front)
      && match last
         case Output(start, payload) =>
           At(stream, start, payload) && start + |payload| == end && Plays(stream, pos, front, start)
         case Durable(d) => d <= end && Plays(stream, pos, front, end)
         case Resize(_, _) => Plays(stream, pos, front, end)
         case Ended(_, n, d) => n == d == end && Plays(stream, pos, front, end)
  }

  predicate Covers(stream: seq<byte>, from: nat, replay: seq<(nat, seq<byte>)>, end: nat) {
    if replay == [] then from == end
    else
      var last := replay[|replay| - 1];
      && At(stream, last.0, last.1) && last.0 + |last.1| == end
      && Covers(stream, from, replay[..|replay| - 1], last.0)
  }

  predicate Seamless(s: Subscriber, stream: seq<byte>) {
    Covers(stream, s.from, s.replay, s.live) && Plays(stream, s.live, s.queue, |stream|)
  }

  predicate InPieces(replay: seq<(nat, seq<byte>)>, chunk: nat) {
    forall i | 0 <= i < |replay| :: 1 <= |replay[i].1| <= chunk
  }

  function Replayed(replay: seq<(nat, seq<byte>)>): seq<byte> {
    if replay == [] then [] else Replayed(replay[..|replay| - 1]) + replay[|replay| - 1].1
  }

  function Played(queue: seq<MirrorEvent>): seq<byte> {
    if queue == [] then []
    else
      var last := queue[|queue| - 1];
      Played(queue[..|queue| - 1]) + if last.Output? then last.payload else []
  }

  lemma {:induction false} PlayedIsStream(stream: seq<byte>, pos: nat, queue: seq<MirrorEvent>, end: nat)
    requires Plays(stream, pos, queue, end) && pos <= |stream|
    ensures At(stream, pos, Played(queue)) && pos + |Played(queue)| == end
    decreases |queue|
  {
    if queue != [] {
      var front, last := queue[..|queue| - 1], queue[|queue| - 1];
      if last.Output? {
        PlayedIsStream(stream, pos, front, last.start);
        AtJoin(stream, pos, Played(front), last.payload);
      } else {
        PlayedIsStream(stream, pos, front, end);
        assert Played(front) + [] == Played(front);
      }
    }
  }

  lemma {:induction false} ReplayedIsStream(stream: seq<byte>, from: nat, replay: seq<(nat, seq<byte>)>, end: nat)
    requires Covers(stream, from, replay, end) && from <= |stream|
    ensures At(stream, from, Replayed(replay)) && from + |Replayed(replay)| == end
    decreases |replay|
  {
    if replay != [] {
      var front, last := replay[..|replay| - 1], replay[|replay| - 1];
      ReplayedIsStream(stream, from, front, last.0);
      AtJoin(stream, from, Replayed(front), last.1);
    }
  }

  /** What a subscriber is given, replay and live together, is the stream without a seam. */
  lemma HeardIsStream(s: Subscriber, stream: seq<byte>)
    requires Seamless(s, stream) && s.from <= |stream|
    ensures Replayed(s.replay) + Played(s.queue) == stream[s.from..]
  {
    hide Covers, Plays, Replayed, Played;
    ReplayedIsStream(stream, s.from, s.replay, s.live);
    PlayedIsStream(stream, s.live, s.queue, |stream|);
    AtJoin(stream, s.from, Replayed(s.replay), Played(s.queue));
  }

  // ------------------------------------------------------------ events keep the seam

  lemma {:induction false} PlaysGrow(stream: seq<byte>, more: seq<byte>, pos: nat, queue: seq<MirrorEvent>, end: nat)
    requires Plays(stream, pos, queue, end)
    ensures Plays(stream + more, pos, queue, end)
    decreases |queue|
  {
    if queue != [] {
      var front, last := queue[..|queue| - 1], queue[|queue| - 1];
      PlaysGrow(stream, more, pos, front, if last.Output? then last.start else end);
      if last.Output? {
        AtGrows(stream, more, last.start, last.payload);
      }
    }
  }

  lemma {:induction false} CoversGrow(stream: seq<byte>, more: seq<byte>, from: nat, replay: seq<(nat, seq<byte>)>,
                                      end: nat)
    requires Covers(stream, from, replay, end)
    ensures Covers(stream + more, from, replay, end)
    decreases |replay|
  {
    if replay != [] {
      var last := replay[|replay| - 1];
      AtGrows(stream, more, last.0, last.1);
      CoversGrow(stream, more, from, replay[..|replay| - 1], last.0);
    }
  }

  /** The events that may follow once the stream has grown by `more`. */
  predicate Follows(e: MirrorEvent, stream: seq<byte>, more: seq<byte>) {
    match e
    case Output(start, payload) => start == |stream| && payload == more
    case Durable(d) => more == [] && d <= |stream|
    case Resize(_, _) => more == []
    case Ended(_, n, d) => more == [] && n == d == |stream|
  }

  predicate AllSeamless(subs: seq<Subscriber>, stream: seq<byte>) {
    forall i | 0 <= i < |subs| :: Seamless(subs[i], stream)
  }

  predicate NoneEnded(subs: seq<Subscriber>) {
    forall i | 0 <= i < |subs| :: !HasEnded(subs[i].queue)
  }

  lemma OfferKeepsSeam(s: Subscriber, e: MirrorEvent, stream: seq<byte>, more: seq<byte>)
    requires Seamless(s, stream) && !HasEnded(s.queue) && Follows(e, stream, more)
    ensures match Offer(s, e)
            case None => true
            case Some(s') => Seamless(s', stream + more) && (HasEnded(s'.queue) <==> e.Ended?)
  {
    assert (stream + more)[..|stream|] == stream && (stream + more)[|stream|..] == more;
    CoversGrow(stream, more, s.from, s.replay, s.live);
    PlaysGrow(stream, more, s.live, s.queue, |stream|);
    PlaysThen(stream + more, s.live, s.queue, |stream|, e);
  }

  lemma PlaysThen(stream: seq<byte>, pos: nat, queue: seq<MirrorEvent>, end: nat, e: MirrorEvent)
    requires Plays(stream, pos, queue, end) && !HasEnded(queue)
    requires end <= |stream| && Follows(e, stream[..end], stream[end..])
    ensures Plays(stream, pos, queue + [e], |stream|)
  {
    assert (queue + [e])[..|queue|] == queue;
    assert stream[end..] == [] ==> end == |stream|;
  }

  /** Whoever still listens after an event has missed nothing up to it. */
  lemma {:induction false} FanOutKeepsSeam(subs: seq<Subscriber>, e: MirrorEvent, stream: seq<byte>, more: seq<byte>)
    requires AllSeamless(subs, stream) && NoneEnded(subs) && Follows(e, stream, more)
    ensures AllSeamless(FanOut(subs, e), stream + more)
    ensures !e.Ended? ==> NoneEnded(FanOut(subs, e))
    decreases |subs|
  {
    if subs != [] {
      OfferKeepsSeam(subs[0], e, stream, more);
      FanOutKeepsSeam(subs[1..], e, stream, more);
    }
  }

  // ------------------------------------------------------------------ who hears what

  lemma {:induction false} PlayedJoin(a: seq<MirrorEvent>, b: seq<MirrorEvent>)
    ensures Played(a + b) == Played(a) + Played(b)
    decreases |b|
  {
    if b == [] {
      assert a + b == a && Played(a) + [] == Played(a);
    } else {
      var last := b[|b| - 1];
      assert (a + b)[..|a + b| - 1] == a + b[..|b| - 1];
      PlayedJoin(a, b[..|b| - 1]);
      assert Played(a) + (Played(b[..|b| - 1]) + if last.Output? then last.payload else [])
          == Played(a) + Played(b[..|b| - 1]) + if last.Output? then last.payload else [];
    }
  }

  /** A place in the channel and room for the event's bytes. */
  predicate HasRoom(s: Subscriber, events: seq<MirrorEvent>) {
    !s.gone && |events| <= s.room && s.queuedBytes + |Played(events)| <= s.maxQueuedBytes
  }

  /** The subscriber, with the events behind what it had. */
  function Hearing(s: Subscriber, events: seq<MirrorEvent>): Subscriber
    requires |events| <= s.room
  {
    s.(queue := s.queue + events, queuedBytes := s.queuedBytes + |Played(events)|, room := s.room - |events|)
  }

  /** Whoever has room for an event hears it, and only those stay. */
  lemma OfferIffRoom(s: Subscriber, e: MirrorEvent)
    ensures Offer(s, e) == if HasRoom(s, [e]) then Some(Hearing(s, [e])) else None
  {
    assert Played([e]) == if e.Output? then e.payload else [];
  }

  /** Events one after the other, to one subscriber and to all. */
  function OfferAll(s: Subscriber, events: seq<MirrorEvent>): Option<Subscriber>
    decreases |events|
  {
    if events == [] then Some(s)
    else match Offer(s, events[0])
      case None => None
      case Some(s') => OfferAll(s', events[1..])
  }

  function FanOutAll(subs: seq<Subscriber>, events: seq<MirrorEvent>): seq<Subscriber>
    decreases |events|
  {
    if events == [] then subs else FanOutAll(FanOut(subs, events[0]), events[1..])
  }

  /**
   A subscriber hears all of a run of events, in order, exactly when they fit its channel and their
   bytes its bound; the first that does not drops it.
   */
  lemma {:induction false} OfferAllIffRoom(s: Subscriber, events: seq<MirrorEvent>)
    requires events != []
    ensures OfferAll(s, events) == if HasRoom(s, events) then Some(Hearing(s, events)) else None
    decreases |events|
  {
    var first, rest := events[0], events[1..];
    OfferIffRoom(s, first);
    assert events == [first] + rest;
    PlayedJoin([first], rest);
    if rest == [] {
      assert events == [first] && forall s' :: OfferAll(s', rest) == Some(s');
    } else if HasRoom(s, [first]) {
      OfferAllIffRoom(Hearing(s, [first]), rest);
      assert s.queue + [first] + rest == s.queue + ([first] + rest);
    }
  }

  lemma {:induction false} FanOutJoin(a: seq<Subscriber>, b: seq<Subscriber>, e: MirrorEvent)
    ensures FanOut(a + b, e) == FanOut(a, e) + FanOut(b, e)
    decreases |a|
  {
    if a == [] {
      assert a + b == b;
    } else {
      assert (a + b)[1..] == a[1..] + b;
      FanOutJoin(a[1..], b, e);
    }
  }

  lemma {:induction false} FanOutAllJoin(a: seq<Subscriber>, b: seq<Subscriber>, events: seq<MirrorEvent>)
    ensures FanOutAll(a + b, events) == FanOutAll(a, events) + FanOutAll(b, events)
    decreases |events|
  {
    if events != [] {
      FanOutJoin(a, b, events[0]);
      FanOutAllJoin(FanOut(a, events[0]), FanOut(b, events[0]), events[1..]);
    }
  }

  lemma {:induction false} FanOutAllNone(events: seq<MirrorEvent>)
    ensures FanOutAll([], events) == []
    decreases |events|
  {
    if events != [] {
      FanOutAllNone(events[1..]);
    }
  }

  lemma {:induction false} FanOutAllOne(s: Subscriber, events: seq<MirrorEvent>)
    ensures FanOutAll([s], events) == match OfferAll(s, events) case None => [] case Some(s') => [s']
    decreases |events|
  {
    if events != [] {
      assert FanOut([s], events[0]) == match Offer(s, events[0]) case None => [] case Some(s') => [s'];
      match Offer(s, events[0])
      case None => FanOutAllNone(events[1..]);
      case Some(s') => FanOutAllOne(s', events[1..]);
    }
  }

  /** Each subscriber stays or goes by its own room, whoever else there is, and they keep their order. */
  lemma {:induction false} EachHearsAlone(subs: seq<Subscriber>, i: nat, events: seq<MirrorEvent>)
    requires i < |subs| && events != []
    ensures FanOutAll(subs, events)
         == FanOutAll(subs[..i], events)
            + (if HasRoom(subs[i], events) then [Hearing(subs[i], events)] else [])
            + FanOutAll(subs[i + 1..], events)
  {
    assert subs == subs[..i] + ([subs[i]] + subs[i + 1..]);
    FanOutAllJoin(subs[..i], [subs[i]] + subs[i + 1..], events);
    FanOutAllJoin([subs[i]], subs[i + 1..], events);
    FanOutAllOne(subs[i], events);
    OfferAllIffRoom(subs[i], events);
  }

  /**
   A subscriber that has just been given `queueMessages` places and `queueBytes` bytes hears the next
   events, all of them and in order, exactly as long as they are no more than that.
   */
  lemma SubscribedHears(subs: seq<Subscriber>, s: Subscriber, queueMessages: nat, queueBytes: nat,
                        events: seq<MirrorEvent>)
    requires Admitted(s, queueMessages, queueBytes) && events != []
    ensures FanOutAll(subs + [s], events)
         == FanOutAll(subs, events)
            + if |events| <= Max(queueMessages, 1) && |Played(events)| <= queueBytes
              then [Hearing(s, events)] else []
    ensures |events| <= Max(queueMessages, 1) ==> Hearing(s, events).queue == events
  {
    FanOutAllJoin(subs, [s], events);
    FanOutAllOne(s, events);
    OfferAllIffRoom(s, events);
    assert [] + events == events;
  }

  /** Subscribers in the order they came, each under a number of its own, from `low` to below `high`. */
  predicate Numbered(subs: seq<Subscriber>, low: nat, high: nat) {
    && (forall i | 0 <= i < |subs| :: low <= subs[i].id < high)
    && (forall i, j | 0 <= i < j < |subs| :: subs[i].id < subs[j].id)
  }

  /** Who is left when one unsubscribes. */
  function Others(subs: seq<Subscriber>, id: nat): seq<Subscriber> {
    if subs == [] then [] else (if subs[0].id != id then [subs[0]] else []) + Others(subs[1..], id)
  }

  lemma FirstAndRest(first: Subscriber, rest: seq<Subscriber>, low: nat, high: nat)
    ensures Numbered([first] + rest, low, high) <==> low <= first.id < high && Numbered(rest, first.id + 1, high)
  {
    var all := [first] + rest;
    if Numbered(all, low, high) {
      assert forall i | 0 <= i < |rest| :: rest[i] == all[i + 1] && all[0].id < all[i + 1].id;
    }
  }

  lemma {:induction false} FanOutKeepsNumbers(subs: seq<Subscriber>, e: MirrorEvent, low: nat, high: nat)
    requires Numbered(subs, low, high)
    ensures Numbered(FanOut(subs, e), low, high)
    decreases |subs|
  {
    hide Numbered;
    if subs != [] {
      var rest, after := subs[1..], FanOut(subs[1..], e);
      assert subs == [subs[0]] + rest;
      FirstAndRest(subs[0], rest, low, high);
      FanOutKeepsNumbers(rest, e, subs[0].id + 1, high);
      match Offer(subs[0], e)
      case None => assert [] + after == after; NumberedAbove(after, low, subs[0].id + 1, high);
      case Some(s) => FirstAndRest(s, after, low, high);
    }
  }

  lemma NumberedAbove(subs: seq<Subscriber>, low: nat, from: nat, high: nat)
    requires Numbered(subs, from, high) && low <= from
    ensures Numbered(subs, low, high)
  {
  }

  lemma {:induction false} OthersAreNumbered(subs: seq<Subscriber>, id: nat, low: nat, high: nat)
    requires Numbered(subs, low, high)
    ensures Numbered(Others(subs, id), low, high)
    decreases |subs|
  {
    hide Numbered;
    if subs != [] {
      var rest, after := subs[1..], Others(subs[1..], id);
      assert subs == [subs[0]] + rest;
      FirstAndRest(subs[0], rest, low, high);
      OthersAreNumbered(rest, id, subs[0].id + 1, high);
      FirstAndRest(subs[0], after, low, high);
      NumberedAbove(after, low, subs[0].id + 1, high);
      assert [] + after == after;
    }
  }

  lemma {:induction false} OthersStay(subs: seq<Subscriber>, id: nat)
    ensures forall s :: s in Others(subs, id) <==> s in subs && s.id != id
    ensures (forall s | s in subs :: s.id != id) ==> Others(subs, id) == subs
    decreases |subs|
  {
    if subs != [] {
      OthersStay(subs[1..], id);
    }
  }

  lemma {:induction false} OthersJoin(a: seq<Subscriber>, b: seq<Subscriber>, id: nat)
    ensures Others(a + b, id) == Others(a, id) + Others(b, id)
    decreases |a|
  {
    if a == [] {
      assert a + b == b && [] + Others(b, id) == Others(b, id);
    } else {
      assert (a + b)[1..] == a[1..] + b;
      OthersJoin(a[1..], b, id);
    }
  }

  lemma LeavesBetween(before: seq<Subscriber>, s: Subscriber, after: seq<Subscriber>)
    requires forall o | o in before || o in after :: o.id != s.id
    ensures Others(before + ([s] + after), s.id) == before + after
  {
    OthersStay(before, s.id);
    OthersStay(after, s.id);
    OthersJoin(before, [s] + after, s.id);
    assert ([s] + after)[1..] == after && [] + after == after;
  }

  /** Whoever unsubscribes leaves alone: nobody else is under the same number. */
  lemma LeavesAlone(subs: seq<Subscriber>, i: nat, low: nat, high: nat)
    requires Numbered(subs, low, high) && i < |subs|
    ensures Others(subs, subs[i].id) == subs[..i] + subs[i + 1..]
  {
    hide Others;
    assert subs == subs[..i] + ([subs[i]] + subs[i + 1..]);
    LeavesBetween(subs[..i], subs[i], subs[i + 1..]);
  }

  predicate Admitted(s: Subscriber, queueMessages: nat, queueBytes: nat) {
    s.queue == [] && s.queuedBytes == 0 && !s.gone && s.room == Max(queueMessages, 1) && s.maxQueuedBytes == queueBytes
  }

  /** What a published checkpoint has to say: an offset that is news, then the close. */
  function News(durable: nat, next: nat, target: nat, close: Option<string>): seq<MirrorEvent> {
    (if durable < target then [Durable(target)] else [])
    + (if close.Some? then [Ended(close.value, next, Max(durable, target))] else [])
  }

  /** It is said to everyone who has room for it, in that order. */
  lemma ToldIsNews(subs: seq<Subscriber>, durable: nat, next: nat, target: nat, close: Option<string>)
    ensures Told(subs, durable, next, target, close) == FanOutAll(subs, News(durable, next, target, close))
  {
    var ended := Ended(if close.Some? then close.value else "", next, Max(durable, target));
    FanOutTwo(subs, Durable(target), ended);
    FanOutTwo(subs, ended, ended);
    assert [Durable(target)] + [] == [Durable(target)] && [] + [ended] == [ended];
    assert [Durable(target)] + [ended] == [Durable(target), ended];
  }

  lemma FanOutTwo(subs: seq<Subscriber>, a: MirrorEvent, b: MirrorEvent)
    ensures FanOutAll(subs, []) == subs && FanOutAll(subs, [a]) == FanOut(subs, a)
    ensures FanOutAll(subs, [a, b]) == FanOut(FanOut(subs, a), b)
  {
    assert [a][1..] == [] && [a, b][1..] == [b] && [b][1..] == [];
    assert FanOutAll(FanOut(subs, a), [b]) == FanOutAll(FanOut(FanOut(subs, a), b), []);
  }

  // ------------------------------------------------------------------- the handle

  datatype Gap = Gap(from: nat, to: nat)

  datatype Subscription =
    | Subscribed(subscriber: Subscriber, gap: Option<Gap>)
    | OffsetAhead(next: nat, durable: nat)

  class TerminalHandle {
    const ring: Ring
    var next: nat
    var durable: nat
    var life: Lifecycle
    var subscribers: seq<Subscriber>
    var nextSubscriberId: nat
    ghost var stream: seq<byte>     // everything accepted, from the terminal's first byte

    ghost function View(): Term
      requires ring.buf.Valid()
      reads this, ring, ring.buf, ring.buf.data
    {
      Term(ring.View(), next, durable, life)
    }

    ghost predicate Valid()
      reads this, ring, ring.buf, ring.buf.data
    {
      && ring.Valid()
      && View().Sound(stream)
      && AllSeamless(subscribers, stream) && Numbered(subscribers, 0, nextSubscriberId)
      && (if life.Closed? then durable == next else NoneEnded(subscribers))
    }

    /** Rebuild from a record and what was loaded for it; valid when the record was intact. */
    constructor (rec: Record, capacity: nat, retained: seq<byte>, ghost written: seq<byte>)
      ensures ring.Valid() && fresh(ring) && fresh(ring.buf) && fresh(ring.buf.data)
      ensures View() == Restore(rec, capacity, retained) && subscribers == []
      ensures Intact(rec, written) && Load(rec) == Some(retained) ==> Valid() && stream == written[..rec.durable]
    {
      ring := new Ring.FromRetained(capacity, rec.earliest, retained);
      var end := rec.earliest + |retained|;
      next := Max(end, rec.durable);
      durable := rec.durable;
      life := if rec.closed.Some? then Closed(rec.closed.value) else Open;
      subscribers, nextSubscriberId := [], 1;
      stream := written[..Min(rec.durable, |written|)];
      RestoredIsSound(rec, capacity, retained, written);
    }

    method Append(expected: nat, payload: seq<byte>, capacity: nat) returns (r: AppendOutcome)
      requires Valid()
      modifies this, ring, ring.buf, ring.buf.data
      ensures Valid() && (ring.buf.data == old(ring.buf.data) || fresh(ring.buf.data))
      ensures (View(), r) == old(View()).Append(expected, payload, capacity)
      ensures stream == if r.Accepted? then old(stream) + payload else old(stream)
      ensures subscribers == if r.Accepted? && payload != []
                             then FanOut(old(subscribers), Output(expected, payload))
                             else old(subscribers)
    {
      if life != Open {
        r := NotOpen;
      } else if expected != next {
        r := OffsetMismatch(next, durable);
      } else {
        ghost var was := View();
        TakeWhole(payload, capacity);
        r := Accepted(next, durable);
        assert View() == was.Append(expected, payload, capacity).0;
        assert r == was.Append(expected, payload, capacity).1;
      }
    }

    /** Resize to the capacity now in force, and take the frame in if there is anything in it. */
    method TakeWhole(payload: seq<byte>, capacity: nat)
      requires Valid() && life.Open?
      modifies this, ring, ring.buf, ring.buf.data
      ensures Valid() && (ring.buf.data == old(ring.buf.data) || fresh(ring.buf.data))
      ensures View() == old(View()).Append(old(next), payload, capacity).0
      ensures stream == old(stream) + payload
      ensures subscribers == if payload != [] then FanOut(old(subscribers), Output(old(next), payload))
                             else old(subscribers)
    {
      assert stream + [] == stream;
      Resized(capacity);
      if payload != [] {
        Accept(payload);
      }
    }

    method Resized(capacity: nat)
      requires Valid()
      modifies ring, ring.buf
      ensures Valid() && ring.buf.data == old(ring.buf.data)
      ensures View() == old(View()).(ring := old(ring.View()).SetCapacity(capacity))
    {
      SetCapacityShows(ring.View(), stream, capacity);
      var _ := ring.SetCapacity(capacity);
    }

    /** Take a frame that belongs at the end, and queue it to every subscriber. */
    method Accept(payload: seq<byte>)
      requires Valid() && life.Open?
      modifies this, ring, ring.buf, ring.buf.data
      ensures Valid() && (ring.buf.data == old(ring.buf.data) || fresh(ring.buf.data))
      ensures View() == old(View()).(ring := old(ring.View()).Append(payload), next := old(next) + |payload|)
      ensures stream == old(stream) + payload
      ensures subscribers == FanOut(old(subscribers), Output(old(next), payload))
    {
      hide FanOut, Numbered;
      ghost var heard := FanOut(subscribers, Output(next, payload));
      assert AllSeamless(heard, stream + payload) && NoneEnded(heard) by {
        FanOutKeepsSeam(subscribers, Output(next, payload), stream, payload);
      }
      FanOutKeepsNumbers(subscribers, Output(next, payload), 0, nextSubscriberId);
      subscribers := FanOut(subscribers, Output(next, payload));
      Extend(payload);
    }

    /** The window and the offsets, without a word to anyone. */
    method Extend(payload: seq<byte>)
      requires ring.Valid() && View().Sound(stream)
      modifies this`next, this`stream, ring, ring.buf, ring.buf.data
      ensures ring.Valid() && (ring.buf.data == old(ring.buf.data) || fresh(ring.buf.data))
      ensures View() == old(View()).(ring := old(ring.View()).Append(payload), next := old(next) + |payload|)
      ensures stream == old(stream) + payload && View().Sound(stream)
    {
      ghost var shown := ring.View().Append(payload);
      assert shown.Shows(stream + payload) by {
        AppendShows(ring.View(), stream, payload);
      }
      next := next + |payload|;
      stream := stream + payload;
      var _ := ring.Append(payload);
      assert ring.View() == shown;
    }

    method TakeCheckpoint() returns (r: Option<Checkpoint>)
      requires Valid()
      ensures r == View().TakeCheckpoint()
    {
      if next <= durable && !life.Closing? {
        return None;
      }
      var from := Max(durable, ring.earliest);
      var chunk: seq<byte> := [];
      if next > from {
        var range := ring.ReadRange(from, next);
        chunk := if range.Some? then range.value else [];
      }
      return Some(Checkpoint(from, chunk, ring.earliest, next,
                             if life.Closing? then Some(life.reason) else None));
    }

    /**
     Publish a committed checkpoint.  The handle stays valid for a checkpoint of its own: of
     bytes it has, and with a close only behind the last of them.
     */
    method CommitDurable(target: nat, close: Option<string>)
      requires ring.Valid()
      modifies this
      ensures ring.Valid() && View() == old(View()).CommitDurable(target, close) && stream == old(stream)
      ensures old(Valid() && Publishable(target, close)) ==> Valid()
      ensures subscribers == Told(old(subscribers), old(durable), old(next), target, close)
    {
      if target > durable {
        Advance(target);
      }
      if close.Some? {
        PublishClose(close.value);
      }
    }

    ghost predicate Publishable(target: nat, close: Option<string>)
      reads this
    {
      !life.Closed? && target <= next && (close.Some? ==> target == next)
    }

    method Advance(target: nat)
      requires ring.Valid() && durable < target
      modifies this`durable, this`subscribers
      ensures durable == target && subscribers == FanOut(old(subscribers), Durable(target))
      ensures old(Valid()) && !life.Closed? && target <= next ==> Valid()
    {
      hide FanOut, Numbered;
      if Valid() && !life.Closed? && target <= next {
        FanOutKeepsSeam(subscribers, Durable(target), stream, []);
        FanOutKeepsNumbers(subscribers, Durable(target), 0, nextSubscriberId);
        assert stream + [] == stream;
      }
      durable := target;
      subscribers := FanOut(subscribers, Durable(target));
    }

    method PublishClose(reason: string)
      requires ring.Valid()
      modifies this`life, this`subscribers
      ensures life == Closed(reason) && subscribers == FanOut(old(subscribers), Ended(reason, next, durable))
      ensures old(Valid() && !life.Closed?) && durable == next ==> Valid()
    {
      hide FanOut, Numbered;
      if Valid() && !life.Closed? && durable == next {
        FanOutKeepsSeam(subscribers, Ended(reason, next, durable), stream, []);
        FanOutKeepsNumbers(subscribers, Ended(reason, next, durable), 0, nextSubscriberId);
        assert stream + [] == stream;
      }
      life := Closed(reason);
      subscribers := FanOut(subscribers, Ended(reason, next, durable));
    }

    method BeginClose(reason: string) returns (began: bool)
      requires Valid()
      modifies this`life
      ensures Valid() && began == old(life).Open?
      ensures View() == old(View()).(life := if began then Closing(reason) else old(life))
    {
      began := life == Open;
      if began {
        life := Closing(reason);
      }
    }

    method ShrinkToCapacity(capacity: nat)
      requires Valid()
      modifies this, ring, ring.buf
      ensures Valid() && View() == old(View()).Shrink(capacity)
      ensures stream == old(stream) && subscribers == old(subscribers)
    {
      if capacity < ring.capacity {
        Resized(capacity);
      }
    }

    method ResizeTo(cols: nat, rows: nat) returns (ok: bool)
      requires Valid()
      modifies this`subscribers
      ensures Valid() && ok == life.Open?
      ensures subscribers == if ok then FanOut(old(subscribers), Resize(cols, rows)) else old(subscribers)
    {
      hide FanOut, Numbered;
      ok := life == Open;
      if ok {
        assert stream + [] == stream;
        FanOutKeepsSeam(subscribers, Resize(cols, rows), stream, []);
        FanOutKeepsNumbers(subscribers, Resize(cols, rows), 0, nextSubscriberId);
        subscribers := FanOut(subscribers, Resize(cols, rows));
      }
    }

    /**
     Register a subscriber together with its replay: from the offset asked for, or from the
     oldest byte still held, up to where its live events will begin.
     */
    method Subscribe(fromOffset: Option<nat>, chunkBytes: nat, queueMessages: nat, queueBytes: nat)
        returns (r: Subscription)
      requires Valid()
      modifies this`subscribers, this`nextSubscriberId
      ensures Valid()
      ensures var requested := if fromOffset.Some? then fromOffset.value else ring.earliest;
              && (r.OffsetAhead? <==> requested > next)
              && (r.OffsetAhead? ==> subscribers == old(subscribers))
              && (r.Subscribed? ==>
                    && r.subscriber.from == Max(requested, ring.earliest)
                    && (r.gap == if requested < ring.earliest then Some(Gap(requested, ring.earliest)) else None)
                    && subscribers == old(subscribers) + [r.subscriber]
                    && Seamless(r.subscriber, stream) && Admitted(r.subscriber, queueMessages, queueBytes)
                    && InPieces(r.subscriber.replay, Max(chunkBytes, 1))
                    && Others(subscribers, r.subscriber.id) == old(subscribers))
    {
      var earliest := ring.earliest;
      var requested := if fromOffset.Some? then fromOffset.value else earliest;
      if requested > next {
        r := OffsetAhead(next, durable);
      } else {
        var start, gap := requested, None;
        if requested < earliest {
          start, gap := earliest, Some(Gap(requested, earliest));
        }
        var s := Register(start, Max(chunkBytes, 1), Max(queueMessages, 1), queueBytes);
        r := Subscribed(s, gap);
      }
    }

    method Register(start: nat, chunkBytes: nat, queueMessages: nat, queueBytes: nat) returns (s: Subscriber)
      requires Valid() && ring.earliest <= start <= next && 1 <= chunkBytes && 1 <= queueMessages
      modifies this`subscribers, this`nextSubscriberId
      ensures Valid() && subscribers == old(subscribers) + [s]
      ensures s.from == start && Seamless(s, stream) && Admitted(s, queueMessages, queueBytes)
      ensures InPieces(s.replay, chunkBytes) && Others(subscribers, s.id) == old(subscribers)
    {
      hide Others, Covers;
      var replay := Replay(start, chunkBytes);
      s := Subscriber(nextSubscriberId, start, replay, next, [], 0, queueBytes, queueMessages, false);
      nextSubscriberId := nextSubscriberId + 1;
      subscribers := subscribers + [s];
      LeavesAlone(subscribers, |subscribers| - 1, 0, nextSubscriberId);
    }

    /** One subscriber leaves, and nobody else. */
    method Unsubscribe(id: nat)
      requires Valid()
      modifies this`subscribers
      ensures Valid()
      ensures forall i | 0 <= i < |old(subscribers)| && old(subscribers)[i].id == id ::
                subscribers == old(subscribers)[..i] + old(subscribers)[i + 1..]
      ensures (forall s | s in old(subscribers) :: s.id != id) ==> subscribers == old(subscribers)
    {
      hide Others, Numbered, Seamless, Term.Sound;
      ghost var was := subscribers;
      forall i | 0 <= i < |was| && was[i].id == id
        ensures Others(was, id) == was[..i] + was[i + 1..]
      {
        LeavesAlone(was, i, 0, nextSubscriberId);
      }
      OthersStay(was, id);
      OthersAreNumbered(was, id, 0, nextSubscriberId);
      subscribers := Others(subscribers, id);
    }

    /** A subscriber takes events off its queue, or goes away; what it was given stays given. */
    method Listened(i: nat, queuedBytes: nat, room: nat, gone: bool)
      requires Valid() && i < |subscribers|
      modifies this`subscribers
      ensures Valid()
      ensures subscribers == old(subscribers)[i := old(subscribers)[i].(
                queuedBytes := queuedBytes, room := room, gone := gone)]
    {
      subscribers := subscribers[i := subscribers[i].(queuedBytes := queuedBytes, room := room, gone := gone)];
    }

    /** The retained bytes from `start` on, in pieces of at most `chunk` bytes. */
    method Replay(start: nat, chunk: nat) returns (replay: seq<(nat, seq<byte>)>)
      requires Valid() && 1 <= chunk && ring.earliest <= start <= next
      ensures Covers(stream, start, replay, next)
      ensures InPieces(replay, chunk)
    {
      replay := [];
      var cursor := start;
      while cursor < next
        invariant start <= cursor <= next
        invariant Covers(stream, start, replay, cursor)
        invariant InPieces(replay, chunk)
      {
        var end := Min(cursor + chunk, next);
        var bytes := Piece(cursor, end);
        CoversOneMore(stream, start, replay, cursor, bytes);
        replay := replay + [(cursor, bytes)];
        cursor := end;
      }
    }

    /** One read of retained bytes, which are the stream's own. */
    method Piece(from: nat, to: nat) returns (bytes: seq<byte>)
      requires Valid() && ring.earliest <= from <= to <= next
      ensures At(stream, from, bytes) && |bytes| == to - from
    {
      ReadShows(ring.View(), stream, from, to);
      var range := ring.ReadRange(from, to);
      bytes := range.value;
    }
  }

  lemma CoversOneMore(stream: seq<byte>, from: nat, replay: seq<(nat, seq<byte>)>, end: nat, bytes: seq<byte>)
    requires Covers(stream, from, replay, end) && At(stream, end, bytes)
    ensures Covers(stream, from, replay + [(end, bytes)], end + |bytes|)
  {
    assert (replay + [(end, bytes)])[..|replay|] == replay;
  }

  // ------------------------------------------------------- a checkpoint that is refused

  /** The rows are cut at `d`, or hold nothing below it. */
  predicate CutAt(rec: Record, d: nat) {
    d == rec.durable || d < rec.earliest || HasStart(rec.rows, d)
  }

  /**
   The database holds intact rows of this stream, at least as far as memory knows, and cut where
   memory's durable offset is.
   */
  predicate Backed(t: Term, stream: seq<byte>, rec: Record) {
    && Intact(rec, stream) && t.durable <= rec.durable <= t.next
    && rec.earliest <= t.ring.earliest && CutAt(rec, t.durable)
  }

  /** The checkpoint begins below what is already committed. */
  predicate Overlaps(rec: Record, cp: Checkpoint) { cp.chunk != [] && cp.start < rec.durable }

  lemma TilesAreCut(rows: seq<Row>, lo: nat, hi: nat, stream: seq<byte>, s: nat)
    requires Tiles(rows, lo, hi, stream) && lo <= s < hi
    ensures HasStart(rows, s) || exists y :: y in rows && y.start < s < y.end
  {
    TilesHold(rows, lo, hi, stream, s);
    var row := RowAt(rows, s);
  }

  lemma OverlapIsRefused(t: Term, stream: seq<byte>, rec: Record)
    requires t.Sound(stream) && Backed(t, stream, rec) && t.TakeCheckpoint().Some?
    requires Overlaps(rec, t.TakeCheckpoint().value)
    ensures Commit(rec, t.TakeCheckpoint().value).None?
  {
    var cp := t.TakeCheckpoint().value;
    CheckpointIsShaped(t, stream);
    TilesAgree(rec.rows, rec.earliest, rec.durable, stream);
    CommitRefusedIff(rec, cp, stream);
    TilesAreCut(rec.rows, rec.earliest, rec.durable, stream, cp.start);
  }

  lemma NoOverlapContinues(t: Term, stream: seq<byte>, rec: Record)
    requires t.Sound(stream) && Backed(t, stream, rec) && t.TakeCheckpoint().Some?
    requires !Overlaps(rec, t.TakeCheckpoint().value)
    ensures Continues(rec, t.TakeCheckpoint().value, stream)
  {
    CheckpointIsShaped(t, stream);
  }

  lemma CutStays(rec: Record, cp: Checkpoint, stream: seq<byte>, d: nat)
    requires Intact(rec, stream) && Continues(rec, cp, stream) && cp.earliest <= cp.start
    requires CutAt(rec, d) && d <= rec.durable && cp.start == Max(d, cp.earliest)
    ensures Commit(rec, cp).Some? && CutAt(Commit(rec, cp).value, d)
  {
    CommitKeepsIntact(rec, cp, stream);
    TilesAgree(rec.rows, rec.earliest, rec.durable, stream);
    if cp.earliest <= d && d != cp.durable && !(d < rec.earliest) {
      CommitStarts(rec, cp, stream, d);
    }
  }

  /**
   A checkpoint is refused exactly when it begins below what is already committed; otherwise
   database and memory agree after it, whether memory is told of it or not.
   */
  lemma CheckpointRefusedIff(t: Term, stream: seq<byte>, rec: Record)
    requires t.Sound(stream) && Backed(t, stream, rec) && t.TakeCheckpoint().Some?
    ensures var cp := t.TakeCheckpoint().value;
            var after := Commit(rec, cp);
            && (after.None? <==> Overlaps(rec, cp))
            && (after.Some? ==>
                  && after.value.durable == cp.durable == t.next
                  && Backed(t, stream, after.value)
                  && Backed(t.CommitDurable(cp.durable, cp.close), stream, after.value))
  {
    var cp := t.TakeCheckpoint().value;
    CheckpointIsShaped(t, stream);
    if Overlaps(rec, cp) {
      OverlapIsRefused(t, stream, rec);
    } else {
      NoOverlapContinues(t, stream, rec);
      CommitKeepsIntact(rec, cp, stream);
      CutStays(rec, cp, stream, t.durable);
    }
  }

  /**
   A flush whose caller goes away between the commit and the telling: the next checkpoint of the
   terminal is refused, exactly until the window has moved past what was committed.
   */
  lemma UntoldBlocksTheNext(t: Term, stream: seq<byte>, rec: Record, later: Term, more: seq<byte>)
    requires t.Sound(stream) && Backed(t, stream, rec) && t.TakeCheckpoint().Some?
    requires Commit(rec, t.TakeCheckpoint().value).Some?
    requires later.Sound(stream + more) && later.durable == t.durable && t.ring.earliest <= later.ring.earliest
    requires later.TakeCheckpoint().Some? && later.durable < |stream|
    ensures var committed := Commit(rec, t.TakeCheckpoint().value).value;
            var next := later.TakeCheckpoint().value;
            Commit(committed, next).None? <==> next.chunk != [] && later.ring.earliest < |stream|
  {
    var cp := t.TakeCheckpoint().value;
    CheckpointRefusedIff(t, stream, rec);
    var committed := Commit(rec, cp).value;
    TilesGrow(committed.rows, committed.earliest, committed.durable, stream, more);
    CheckpointIsShaped(t, stream);
    CommitKeepsWhere(rec, cp);
    CheckpointRefusedIff(later, stream + more, committed);
    CheckpointIsShaped(later, stream + more);
  }

  lemma CommitKeepsWhere(rec: Record, cp: Checkpoint)
    ensures Commit(rec, cp).Some? ==>
              Commit(rec, cp).value.durable == cp.durable && Commit(rec, cp).value.earliest == cp.earliest
  {
  }
}
