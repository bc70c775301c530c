/**
 A publisher's connection at the relay (`server/src/relay/publisher.rs`): what happens to one
 output frame, from the limits through the back pressure to the append, and the loop that
 acknowledges what has been committed.
 */
module RelaySession {
  import opened Bytes
  import opened ReplayRing
  import opened Store
  import opened RelayTerminal
  import opened RelayFlush

  datatype Limits = Limits(maxFrame: nat, maxUnacked: nat, maxControl: nat)
  {
    predicate Within(other: Limits) {
      maxFrame <= other.maxFrame && maxUnacked <= other.maxUnacked && maxControl <= other.maxControl
    }

    /** A later reduction applies at once, an increase only to the next connection. */
    function Effective(now: Limits): (l: Limits)
      ensures l.Within(this) && l.Within(now)
      ensures forall other: Limits :: other.Within(this) && other.Within(now) ==> other.Within(l)
    {
      Limits(Min(maxFrame, now.maxFrame), Min(maxUnacked, now.maxUnacked), Min(maxControl, now.maxControl))
    }
  }

  datatype Frame = Frame(start: nat, payload: seq<byte>)

  /** What became of a frame. */
  datatype Outcome =
    | Taken
    | Malformed
    | Oversized
    | NotFound
    | HeldTooLong
    | Mismatched(next: nat, durable: nat)
    | NotOpenAnyMore

  const OVERSIZE_STRIKES: nat := 3

  /**
   Letting a frame in costs no uncommitted byte, whatever has changed about the capacity:
   the window moves no further than what is committed.  A frame larger than the window is let
   in only over a clean terminal, so that only its own beginning is lost.
   */
  lemma AdmittedEvictsOnlyCommitted(t: Term, stream: seq<byte>, payload: seq<byte>, cap: nat, maxUnacked: nat)
    requires t.Sound(stream) && t.life.Open?
    requires t.Dirty() <= Headroom(|payload|, cap, maxUnacked)
    ensures var after := t.Append(t.next, payload, cap).0;
            && (|payload| <= Max(cap, 1) ==> after.ring.earliest <= Max(t.ring.earliest, t.durable))
            && (Max(cap, 1) < |payload| ==> t.durable == t.next <= after.ring.earliest)
  {
    SetCapacityShows(t.ring, stream, cap);
  }

  /** Some bytes are dirty, and with `length` more they exceed the window or what may be unacknowledged. */
  predicate Overfull(t: Term, length: nat, cap: nat, maxUnacked: nat) {
    0 < t.Dirty() && Min(maxUnacked, cap) < t.Dirty() + length
  }

  /** What an admitted frame does to its terminal, and what the database is to it after that. */
  lemma AdmittedIsTaken(t: Term, stream: seq<byte>, records: map<Id, Record>, id: Id, frame: Frame, cap: nat,
                        maxUnacked: nat)
    requires t.Sound(stream) && Stored(t, stream, records, id) && !Overfull(t, |frame.payload|, cap, maxUnacked)
    ensures var (t', r) := t.Append(frame.start, frame.payload, cap);
            && (r.Accepted? <==> t.life.Open? && frame.start == |stream|) && (r.NotOpen? <==> !t.life.Open?)
            && t'.life == t.life && t'.durable == t.durable
            && Stored(t', if r.Accepted? then stream + frame.payload else stream, records, id)
            && (!r.Accepted? ==> t' == t)
            && (r.OffsetMismatch? ==> frame.start != r.next == |stream| && r.durable == t.durable)
            && (r.Accepted? && |frame.payload| <= Max(cap, 1) ==> t'.ring.earliest <= Max(t.ring.earliest, t.durable))
            && (r.Accepted? && Max(cap, 1) < |frame.payload| ==> t.durable == |stream|)
            && (r.Accepted? ==> t'.Dirty() <= Max(Min(maxUnacked, cap), |frame.payload|))
  {
    HeadroomMeaning(t.Dirty(), |frame.payload|, cap, maxUnacked);
    AppendMeaning(t, stream, frame.start, frame.payload, cap);
    IntactGrows(records[id], stream, frame.payload);
    if t.life.Open? {
      AdmittedEvictsOnlyCommitted(t, stream, frame.payload, cap, maxUnacked);
    }
  }

  /**
   Wait until the dirty bytes fit the headroom: `wakes` are the flushes that finish before the
   deadline, each with what the storage does to it.  Waiting also ends when the terminal does.
   */
  method ApplyBackpressure(handle: TerminalHandle, length: nat, cap: nat, maxUnacked: nat,
                           id: Id, db: Database, wakes: seq<Flushing>) returns (admitted: bool)
    requires handle.Valid() && Stored(handle.View(), handle.stream, db.records, id)
    modifies handle, db
    ensures handle.Valid() && Stored(handle.View(), handle.stream, db.records, id)
    ensures handle.stream == old(handle.stream) && handle.ring.View() == old(handle.ring.View())
    ensures OnlyOne(old(db.records), db.records, id)
    ensures admitted <==> !Overfull(handle.View(), length, cap, maxUnacked)
    ensures !Overfull(old(handle.View()), length, cap, maxUnacked) ==> handle.View() == old(handle.View())
  {
    HeadroomMeaning(handle.View().Dirty(), length, cap, maxUnacked);
    var headroom := Headroom(length, cap, maxUnacked);
    if Minus(handle.next, handle.durable) > headroom {
      var _ := WaitForDurable(handle, Minus(handle.next, headroom), id, db, wakes);
    }
    HeadroomMeaning(handle.View().Dirty(), length, cap, maxUnacked);
    admitted := Minus(handle.next, handle.durable) <= headroom;
  }

  /**
   `wait_for_durable`: it ends when the offset is durable, when the terminal is not open any more,
   or when no flush finishes before the deadline any more.
   */
  method WaitForDurable(handle: TerminalHandle, target: nat, id: Id, db: Database, wakes: seq<Flushing>)
      returns (used: nat)
    requires handle.Valid() && Stored(handle.View(), handle.stream, db.records, id)
    modifies handle, db
    ensures handle.Valid() && Stored(handle.View(), handle.stream, db.records, id)
    ensures handle.stream == old(handle.stream) && handle.ring.View() == old(handle.ring.View())
    ensures OnlyOne(old(db.records), db.records, id)
    ensures used <= |wakes|
    ensures used < |wakes| ==> handle.durable >= target || !handle.life.Open?
    ensures old(handle.durable >= target || !handle.life.Open?) ==> used == 0 && handle.View() == old(handle.View())
  {
    hide Backed;
    used := 0;
    while used < |wakes| && handle.durable < target && handle.life.Open?
      invariant handle.Valid() && Stored(handle.View(), handle.stream, db.records, id)
      invariant handle.stream == old(handle.stream) && handle.ring.View() == old(handle.ring.View())
      invariant OnlyOne(old(db.records), db.records, id)
      invariant used <= |wakes|
      invariant old(handle.durable >= target || !handle.life.Open?) ==> used == 0 && handle.View() == old(handle.View())
      decreases |wakes| - used
    {
      WakeOnce(handle, id, db, wakes[used]);
      used := used + 1;
    }
  }

  /** One flush, of which only its being safe matters to whoever waits. */
  method WakeOnce(handle: TerminalHandle, id: Id, db: Database, flushing: Flushing)
    requires handle.Valid() && Stored(handle.View(), handle.stream, db.records, id)
    modifies handle, db
    ensures handle.Valid() && Stored(handle.View(), handle.stream, db.records, id)
    ensures handle.stream == old(handle.stream)
    ensures OnlyOne(old(db.records), db.records, id)
  {
    var _ := FlushOnce(handle, id, db, flushing);
  }

  class Connection {
    const negotiated: Limits
    var oversizeStrikes: nat

    constructor (limits: Limits)
      ensures negotiated == limits && oversizeStrikes == 0
    {
      negotiated, oversizeStrikes := limits, 0;
    }

    /** A frame that passed the limits and names a terminal of this device. */
    method Admit(frame: Frame, limits: Limits, cap: nat, handle: TerminalHandle, id: Id, db: Database,
                 wakes: seq<Flushing>) returns (outcome: Outcome)
      requires handle.Valid() && Stored(handle.View(), handle.stream, db.records, id)
      modifies handle, handle.ring, handle.ring.buf, handle.ring.buf.data, db
      ensures handle.Valid() && Stored(handle.View(), handle.stream, db.records, id)
      ensures outcome.Taken? ==>
                frame.start == |old(handle.stream)| && handle.stream == old(handle.stream) + frame.payload
      ensures !outcome.Taken? ==> handle.stream == old(handle.stream) && handle.ring.View() == old(handle.ring.View())
      ensures outcome.Mismatched? ==>
                frame.start != outcome.next == |handle.stream| && outcome.durable == handle.durable
      ensures outcome.Taken? && |frame.payload| <= Max(cap, 1) ==>
                handle.ring.earliest <= Max(old(handle.ring.earliest), handle.durable)
      ensures outcome.Taken? && Max(cap, 1) < |frame.payload| ==> handle.durable == |old(handle.stream)|
      ensures OnlyOne(old(db.records), db.records, id)
      ensures outcome.HeldTooLong? ==> Overfull(handle.View(), |frame.payload|, cap, limits.maxUnacked)
      ensures outcome.Taken? ==> handle.View().Dirty() <= Max(Min(limits.maxUnacked, cap), |frame.payload|)
      ensures outcome.Taken? || outcome.HeldTooLong? || outcome.NotOpenAnyMore? || outcome.Mismatched?
      ensures !outcome.HeldTooLong? ==>
                (outcome.Taken? <==> handle.life.Open? && frame.start == |old(handle.stream)|)
                && (outcome.NotOpenAnyMore? <==> !handle.life.Open?)
    {
      var admitted := ApplyBackpressure(handle, |frame.payload|, cap, limits.maxUnacked, id, db, wakes);
      if !admitted {
        outcome := HeldTooLong;
      } else {
        outcome := TakeIn(frame, cap, limits.maxUnacked, handle, id, db);
      }
    }

    method TakeIn(frame: Frame, cap: nat, ghost maxUnacked: nat, handle: TerminalHandle, ghost id: Id,
                  ghost db: Database)
        returns (outcome: Outcome)
      requires handle.Valid() && Stored(handle.View(), handle.stream, db.records, id)
      requires !Overfull(handle.View(), |frame.payload|, cap, maxUnacked)
      modifies handle, handle.ring, handle.ring.buf, handle.ring.buf.data
      ensures handle.Valid() && Stored(handle.View(), handle.stream, db.records, id)
      ensures outcome.Taken? ==>
                frame.start == |old(handle.stream)| && handle.stream == old(handle.stream) + frame.payload
      ensures !outcome.Taken? ==> handle.View() == old(handle.View()) && handle.stream == old(handle.stream)
      ensures outcome.Mismatched? ==>
                frame.start != outcome.next == |handle.stream| && outcome.durable == handle.durable
      ensures outcome.Taken? && |frame.payload| <= Max(cap, 1) ==>
                handle.ring.earliest <= Max(old(handle.ring.earliest), handle.durable)
      ensures outcome.Taken? && Max(cap, 1) < |frame.payload| ==> handle.durable == |old(handle.stream)|
      ensures outcome.Taken? ==> handle.View().Dirty() <= Max(Min(maxUnacked, cap), |frame.payload|)
      ensures outcome.Taken? <==> handle.life.Open? && frame.start == |old(handle.stream)|
      ensures outcome.NotOpenAnyMore? <==> !handle.life.Open?
      ensures outcome.Taken? || outcome.NotOpenAnyMore? || outcome.Mismatched?
    {
      hide Term.Append, Backed, Overfull;
      ghost var was := handle.View();
      AdmittedIsTaken(was, handle.stream, db.records, id, frame, cap, maxUnacked);
      var r := handle.Append(frame.start, frame.payload, cap);
      match r
      case Accepted(_, _) => outcome := Taken;
      case OffsetMismatch(next, durable) => outcome := Mismatched(next, durable);
      case NotOpen => outcome := NotOpenAnyMore;
    }

    /**
     `on_binary`: refused frames change nothing; the connection ends on a malformed frame, on
     the third oversized one, and when the back pressure is not relieved.
     */
    method OnBinary(decoded: Option<Frame>, settings: Limits, cap: nat, known: bool,
                    handle: TerminalHandle, id: Id, db: Database, wakes: seq<Flushing>)
        returns (goesOn: bool, outcome: Outcome)
      requires handle.Valid() && Stored(handle.View(), handle.stream, db.records, id)
      modifies this, handle, handle.ring, handle.ring.buf, handle.ring.buf.data, db
      ensures handle.Valid() && Stored(handle.View(), handle.stream, db.records, id)
      ensures OnlyOne(old(db.records), db.records, id)
      ensures outcome.Malformed? <==> decoded.None?
      ensures outcome.Oversized? <==> decoded.Some? && |decoded.value.payload| > negotiated.Effective(settings).maxFrame
      ensures outcome.NotFound? <==> !known && !outcome.Malformed? && !outcome.Oversized?
      ensures outcome.Mismatched? || outcome.Taken? || outcome.NotOpenAnyMore? ==>
                (outcome.Taken? <==> handle.life.Open? && decoded.value.start == |old(handle.stream)|)
                && (outcome.NotOpenAnyMore? <==> !handle.life.Open?)
      ensures outcome.HeldTooLong? ==>
                Overfull(handle.View(), |decoded.value.payload|, cap, negotiated.Effective(settings).maxUnacked)
      ensures outcome.Taken? ==>
                handle.View().Dirty()
                <= Max(Min(negotiated.Effective(settings).maxUnacked, cap), |decoded.value.payload|)
      ensures oversizeStrikes == old(oversizeStrikes) + (if outcome.Oversized? then 1 else 0)
      ensures goesOn <==> !outcome.Malformed? && !outcome.HeldTooLong?
                          && (outcome.Oversized? ==> oversizeStrikes < OVERSIZE_STRIKES)
      ensures outcome.Taken? ==>
                && known && decoded.Some? && decoded.value.start == |old(handle.stream)|
                && handle.stream == old(handle.stream) + decoded.value.payload
                && (|decoded.value.payload| <= Max(cap, 1) ==>
                      handle.ring.earliest <= Max(old(handle.ring.earliest), handle.durable))
                && (Max(cap, 1) < |decoded.value.payload| ==> handle.durable == |old(handle.stream)|)
      ensures !outcome.Taken? ==> handle.stream == old(handle.stream) && handle.ring.View() == old(handle.ring.View())
      ensures outcome.Mismatched? ==> outcome.next == |handle.stream| && outcome.durable == handle.durable
    {
      var limits := negotiated.Effective(settings);
      goesOn := true;
      if decoded.None? {
        goesOn, outcome := false, Malformed;
      } else if |decoded.value.payload| > limits.maxFrame {
        oversizeStrikes := oversizeStrikes + 1;
        goesOn, outcome := oversizeStrikes < OVERSIZE_STRIKES, Oversized;
      } else if !known {
        outcome := NotFound;
      } else {
        outcome := Admit(decoded.value, limits, cap, handle, id, db, wakes);
        goesOn := !outcome.HeldTooLong?;
      }
    }
  }

  lemma IntactGrows(rec: Record, stream: seq<byte>, more: seq<byte>)
    requires Intact(rec, stream)
    ensures Intact(rec, stream + more)
  {
    TilesGrow(rec.rows, rec.earliest, rec.durable, stream, more);
  }

  // -------------------------------------------------------------------- acknowledgements

  predicate Rising(acks: seq<nat>) {
    forall i, j | 0 <= i < j < |acks| :: acks[i] < acks[j]
  }

  /**
   `spawn_ack_task`: over the durable offsets it finds each time it looks, every one that is
   news is acknowledged, none goes back, and in the end nothing seen is left unsaid.
   */
  method Acknowledge(seen: seq<nat>) returns (acks: seq<nat>)
    ensures Rising(acks)
    ensures forall a | a in acks :: a in seen && 0 < a
    ensures forall d | d in seen :: d == 0 || (acks != [] && d <= acks[|acks| - 1])
  {
    var acked := 0;
    acks := [];
    for i := 0 to |seen|
      invariant acked == if acks == [] then 0 else acks[|acks| - 1]
      invariant Rising(acks) && forall a | a in acks :: a in seen && 0 < a
      invariant forall j | 0 <= j < i :: seen[j] <= acked
    {
      if seen[i] > acked {
        acked := seen[i];
        acks := acks + [acked];
      }
    }
  }
}
