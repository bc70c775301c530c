/**
 Keystrokes of one subscription on their way to the publisher
 (`server/src/relay/mirror.rs`).
 */
module RelayInput {
  import opened Bytes
  import Limits

  datatype Frame = Frame(sequence: nat, payload: seq<byte>)

  datatype Delivery = Taken | NoPublisher | Backpressure

  /** What the relay finds when a frame arrives: settings, terminal, publisher and clock. */
  datatype Surroundings = Surroundings(
    enabled: bool, mayInput: bool, accepts: bool, open: bool,
    maxFrameBytes: nat, framesPerMinute: nat, bytesPerMinute: nat,
    now: real, delivery: Delivery, relayNext: nat)

  datatype Refusal =
    | InputDisabled | InputForbidden | InputNotAccepted | TerminalClosed
    | InvalidMessage | LimitExceeded | SequenceMismatch | RateLimited
    | InputUndeliverable | InputBackpressure

  datatype Answer = Ack(acceptedThrough: nat, relaySequence: nat) | Refused(why: Refusal)

  /** One frame handed to the publisher. */
  datatype Handed = Handed(sequence: nat, relaySequence: nat, payload: seq<byte>)

  /** `InputState`, and the frames it has handed over. */
  datatype Sub = Sub(
    expected: nat, acceptedThrough: nat, frames: Limits.Level, bytes: Limits.Level, handed: seq<Handed>)

  /** The refusals that come before the rate limits, in order. */
  function Refusing(expected: nat, c: Surroundings, f: Frame): Option<Refusal> {
    if !c.enabled then Some(InputDisabled)
    else if !c.mayInput then Some(InputForbidden)
    else if !c.accepts then Some(InputNotAccepted)
    else if !c.open then Some(TerminalClosed)
    else if f.payload == [] then Some(InvalidMessage)
    else if |f.payload| > c.maxFrameBytes then Some(LimitExceeded)
    else if f.sequence != expected then Some(SequenceMismatch)
    else None
  }

  function FrameDraw(c: Surroundings): Limits.Draw { Limits.Draw(1.0, c.framesPerMinute, 60, c.now) }

  function ByteDraw(c: Surroundings, f: Frame): Limits.Draw {
    Limits.Draw(|f.payload| as real, c.bytesPerMinute, 60, c.now)
  }

  /** One frame: the new state, the answer, and whether a relay sequence was claimed. */
  function Handled(s: Sub, c: Surroundings, f: Frame): (Sub, Answer, bool) {
    var refusal := Refusing(s.expected, c, f);
    if refusal.Some? then (s, Refused(refusal.value), false)
    else
      var (frames, frameOk) := Limits.Drawn(s.frames, FrameDraw(c));
      if !frameOk then (s.(frames := frames), Refused(RateLimited), false)
      else
        var (bytes, byteOk) := Limits.Drawn(s.bytes, ByteDraw(c, f));
        var drawn := s.(frames := frames, bytes := bytes);
        if !byteOk then (drawn, Refused(RateLimited), false)
        else match c.delivery
          case NoPublisher => (drawn, Refused(InputUndeliverable), true)
          case Backpressure => (drawn, Refused(InputBackpressure), true)
          case Taken =>
            (drawn.(expected := s.expected + 1, acceptedThrough := f.sequence,
                    handed := s.handed + [Handed(f.sequence, c.relayNext, f.payload)]),
             Ack(f.sequence, c.relayNext), true)
  }

  // ------------------------------------------------------------------------ any run

  datatype Arrival = Arrival(around: Surroundings, frame: Frame)

  function New(framesPerMinute: nat, bytesPerMinute: nat, now: real): Sub {
    Sub(1, 0, Limits.Level(framesPerMinute as real, now), Limits.Level(bytesPerMinute as real, now), [])
  }

  function Run(s: Sub, arrivals: seq<Arrival>): Sub
    decreases |arrivals|
  {
    if arrivals == [] then s
    else Run(Handled(s, arrivals[0].around, arrivals[0].frame).0, arrivals[1..])
  }

  function Answers(s: Sub, arrivals: seq<Arrival>): seq<Answer>
    decreases |arrivals|
  {
    if arrivals == [] then []
    else
      var r := Handled(s, arrivals[0].around, arrivals[0].frame);
      [r.1] + Answers(r.0, arrivals[1..])
  }

  /**
   The relay's counter only grows, past every sequence it has given out, whoever else on the
   terminal claims from it in between.
   */
  predicate CounterGrows(s: Sub, from: nat, arrivals: seq<Arrival>)
    decreases |arrivals|
  {
    arrivals == [] ||
    var c := arrivals[0].around;
    var r := Handled(s, c, arrivals[0].frame);
    from <= c.relayNext && CounterGrows(r.0, if r.2 then c.relayNext + 1 else c.relayNext, arrivals[1..])
  }

  /** Client sequences are exactly 1, 2, ..., k, and k is what has been accepted through. */
  ghost predicate InOrder(s: Sub) {
    && (forall i | 0 <= i < |s.handed| :: s.handed[i].sequence == i + 1)
    && s.acceptedThrough == |s.handed| && s.expected == |s.handed| + 1
  }

  ghost predicate Rising(s: Sub, below: nat) {
    && (forall i, j | 0 <= i < j < |s.handed| :: s.handed[i].relaySequence < s.handed[j].relaySequence)
    && (forall i | 0 <= i < |s.handed| :: s.handed[i].relaySequence < below)
  }

  lemma HandledStaysInOrder(s: Sub, c: Surroundings, f: Frame)
    requires InOrder(s)
    ensures InOrder(Handled(s, c, f).0)
    ensures Handled(s, c, f).1.Refused? ==>
              Handled(s, c, f).0.(frames := s.frames, bytes := s.bytes) == s
    ensures Handled(s, c, f).1.Ack? ==>
              && Handled(s, c, f).0.handed == s.handed + [Handed(f.sequence, c.relayNext, f.payload)]
              && Handled(s, c, f).1 == Ack(|s.handed| + 1, c.relayNext)
  {
  }

  lemma HandledKeepsRising(s: Sub, c: Surroundings, f: Frame, below: nat)
    requires Rising(s, below) && below <= c.relayNext
    ensures Rising(Handled(s, c, f).0, if Handled(s, c, f).2 then c.relayNext + 1 else c.relayNext)
  {
  }

  /** Over any run: at most once and in order, and nothing refused leaves a trace. */
  lemma {:induction false} RunsStayInOrder(s: Sub, arrivals: seq<Arrival>, below: nat)
    requires InOrder(s) && Rising(s, below) && CounterGrows(s, below, arrivals)
    ensures InOrder(Run(s, arrivals))
    ensures exists end: nat :: below <= end && Rising(Run(s, arrivals), end)
    decreases |arrivals|
  {
    if arrivals == [] {
      assert Rising(Run(s, arrivals), below);
    } else {
      var c, f := arrivals[0].around, arrivals[0].frame;
      var r := Handled(s, c, f);
      HandledStaysInOrder(s, c, f);
      HandledKeepsRising(s, c, f, below);
      RunsStayInOrder(r.0, arrivals[1..], if r.2 then c.relayNext + 1 else c.relayNext);
    }
  }

  /** The frames that were answered with an acknowledgement. */
  function Acked(arrivals: seq<Arrival>, answers: seq<Answer>): seq<Handed>
    requires |arrivals| == |answers|
    decreases |arrivals|
  {
    if arrivals == [] then []
    else
      var rest := Acked(arrivals[1..], answers[1..]);
      match answers[0]
      case Ack(_, relay) => [Handed(arrivals[0].frame.sequence, relay, arrivals[0].frame.payload)] + rest
      case Refused(_) => rest
  }

  lemma {:induction false} OneAnswerEach(s: Sub, arrivals: seq<Arrival>)
    ensures |Answers(s, arrivals)| == |arrivals|
    decreases |arrivals|
  {
    if arrivals != [] {
      OneAnswerEach(Handled(s, arrivals[0].around, arrivals[0].frame).0, arrivals[1..]);
    }
  }

  /** What the publisher was handed is exactly what the subscriber saw acknowledged, byte for byte. */
  lemma {:induction false} HandedIsAcked(s: Sub, arrivals: seq<Arrival>)
    requires InOrder(s)
    ensures |Answers(s, arrivals)| == |arrivals|
    ensures Run(s, arrivals).handed == s.handed + Acked(arrivals, Answers(s, arrivals))
    decreases |arrivals|
  {
    OneAnswerEach(s, arrivals);
    if arrivals == [] {
      assert s.handed + [] == s.handed;
    } else {
      var r, rest := Handled(s, arrivals[0].around, arrivals[0].frame), arrivals[1..];
      HandledStaysInOrder(s, arrivals[0].around, arrivals[0].frame);
      HandedIsAcked(r.0, rest);
      var tail := Answers(r.0, rest);
      assert ([r.1] + tail)[1..] == tail;
      if r.1.Ack? {
        var one := Handed(arrivals[0].frame.sequence, r.1.relaySequence, arrivals[0].frame.payload);
        assert (s.handed + [one]) + Acked(rest, tail) == s.handed + ([one] + Acked(rest, tail));
      }
    }
  }

  // ------------------------------------------------------------------- who may type what

  /** Input is on, this subscription may type, the publisher opted in, and the terminal is open. */
  predicate MayType(c: Surroundings) { c.enabled && c.mayInput && c.accepts && c.open }

  predicate Allowed(c: Surroundings, f: Frame) { MayType(c) && 1 <= |f.payload| <= c.maxFrameBytes }

  /** Both buckets, refilled until now, have enough for the frame. */
  predicate Affordable(s: Sub, c: Surroundings, f: Frame) {
    && 1.0 <= Limits.Refilled(s.frames, c.framesPerMinute, 60, c.now)
    && |f.payload| as real <= Limits.Refilled(s.bytes, c.bytesPerMinute, 60, c.now)
  }

  /** What answer a frame gets, and which refusal comes first where several apply. */
  lemma AnsweredBecause(s: Sub, c: Surroundings, f: Frame)
    ensures var answer := Handled(s, c, f).1;
            && (answer == Refused(InputDisabled) <==> !c.enabled)
            && (answer == Refused(InputForbidden) <==> c.enabled && !c.mayInput)
            && (answer == Refused(InputNotAccepted) <==> c.enabled && c.mayInput && !c.accepts)
            && (answer == Refused(TerminalClosed) <==> c.enabled && c.mayInput && c.accepts && !c.open)
            && (answer == Refused(InvalidMessage) <==> MayType(c) && f.payload == [])
            && (answer == Refused(LimitExceeded) <==> MayType(c) && f.payload != [] && c.maxFrameBytes < |f.payload|)
            && (answer == Refused(SequenceMismatch) <==> Allowed(c, f) && f.sequence != s.expected)
            && (answer == Refused(RateLimited) <==> Allowed(c, f) && f.sequence == s.expected && !Affordable(s, c, f))
            && (answer == Refused(InputUndeliverable) <==> Claims(s, c, f) && c.delivery.NoPublisher?)
            && (answer == Refused(InputBackpressure) <==> Claims(s, c, f) && c.delivery.Backpressure?)
            && (answer == Ack(f.sequence, c.relayNext) <==> Claims(s, c, f) && c.delivery.Taken?)
  {
  }

  /** The frame is the next one, of someone who may type it, within the limits. */
  predicate Claims(s: Sub, c: Surroundings, f: Frame) {
    Allowed(c, f) && f.sequence == s.expected && Affordable(s, c, f)
  }

  /**
   A relay sequence is claimed exactly for such a frame, and used up without a delivery exactly when
   it then finds no publisher that takes it.
   */
  lemma GapIffUndelivered(s: Sub, c: Surroundings, f: Frame)
    ensures var (after, answer, claimed) := Handled(s, c, f);
            && (claimed <==> Claims(s, c, f))
            && (claimed && after.handed == s.handed <==> Claims(s, c, f) && !c.delivery.Taken?)
  {
    assert forall h :: s.handed + [h] != s.handed;
  }

  /**
   What a frame costs: nothing before it is allowed and in sequence; then one frame, if there is one;
   then its bytes, if there are enough. Whatever is found too low has still been refilled until now.
   */
  lemma HandledSpends(s: Sub, c: Surroundings, f: Frame)
    ensures var after := Handled(s, c, f).0;
            var frames := Limits.Refilled(s.frames, c.framesPerMinute, 60, c.now);
            var bytes := Limits.Refilled(s.bytes, c.bytesPerMinute, 60, c.now);
            if !(Allowed(c, f) && f.sequence == s.expected) then after == s
            else if frames < 1.0 then after == s.(frames := Limits.Level(frames, c.now))
            else
              && after.frames == Limits.Level(frames - 1.0, c.now)
              && after.bytes == Limits.Level(if Claims(s, c, f) then bytes - |f.payload| as real else bytes, c.now)
  {
  }

  /** `h` is the frame of this arrival, which was allowed and was taken. */
  predicate From(h: Handed, a: Arrival) {
    && h == Handed(a.frame.sequence, a.around.relayNext, a.frame.payload)
    && Allowed(a.around, a.frame) && a.around.delivery.Taken?
  }

  /** Over any run: every keystroke handed over was typed by someone who was allowed to. */
  lemma {:induction false} HandedWasAllowed(s: Sub, arrivals: seq<Arrival>, k: nat)
    requires |s.handed| <= k < |Run(s, arrivals).handed|
    ensures exists i :: 0 <= i < |arrivals| && From(Run(s, arrivals).handed[k], arrivals[i])
    decreases |arrivals|
  {
    if arrivals != [] {
      var after := Handled(s, arrivals[0].around, arrivals[0].frame).0;
      HandedStays(after, arrivals[1..]);
      if k < |after.handed| {
        assert From(Run(s, arrivals).handed[k], arrivals[0]);
      } else {
        HandedWasAllowed(after, arrivals[1..], k);
        var i :| 0 <= i < |arrivals[1..]| && From(Run(s, arrivals).handed[k], arrivals[1..][i]);
        assert arrivals[i + 1] == arrivals[1..][i];
      }
    }
  }

  lemma {:induction false} HandedStays(s: Sub, arrivals: seq<Arrival>)
    ensures s.handed <= Run(s, arrivals).handed
    decreases |arrivals|
  {
    if arrivals != [] {
      HandedStays(Handled(s, arrivals[0].around, arrivals[0].frame).0, arrivals[1..]);
    }
  }

  // ------------------------------------------------------------------ how much, and how fast

  predicate Timed(from: real, arrivals: seq<Arrival>)
    decreases |arrivals|
  {
    arrivals == [] || (from <= arrivals[0].around.now && Timed(arrivals[0].around.now, arrivals[1..]))
  }

  predicate Capped(arrivals: seq<Arrival>, frames: nat, bytes: nat) {
    forall a | a in arrivals :: a.around.framesPerMinute <= frames && a.around.bytesPerMinute <= bytes
  }

  function Typed(handed: seq<Handed>): nat {
    if handed == [] then 0 else Typed(handed[..|handed| - 1]) + |handed[|handed| - 1].payload|
  }

  /** Neither bucket has been touched since `now`. */
  predicate Ready(s: Sub, now: real) {
    0.0 <= s.frames.tokens && 0.0 <= s.bytes.tokens && s.frames.last <= now && s.bytes.last <= now
  }

  /** Frames and bytes still to be had by `until`, if nothing is raised above these limits. */
  function FramesLeft(s: Sub, frames: nat, until: real): real {
    s.frames.tokens + Limits.Gain(until - s.frames.last, frames, 60)
  }

  function BytesLeft(s: Sub, bytes: nat, until: real): real {
    s.bytes.tokens + Limits.Gain(until - s.bytes.last, bytes, 60)
  }

  lemma HandledCosts(s: Sub, a: Arrival, frames: nat, bytes: nat, until: real)
    requires Ready(s, a.around.now) && a.around.now <= until
    requires a.around.framesPerMinute <= frames && a.around.bytesPerMinute <= bytes
    ensures var after := Handled(s, a.around, a.frame).0;
            && Ready(after, a.around.now)
            && FramesLeft(after, frames, until) + (|after.handed| - |s.handed|) as real <= FramesLeft(s, frames, until)
            && BytesLeft(after, bytes, until) + (Typed(after.handed) - Typed(s.handed)) as real
               <= BytesLeft(s, bytes, until)
  {
    var after := Handled(s, a.around, a.frame).0;
    Limits.DrawCosts(s.frames, FrameDraw(a.around), frames, until);
    Limits.DrawCosts(s.bytes, ByteDraw(a.around, a.frame), bytes, until);
    if after.handed != s.handed {
      assert after.handed[..|after.handed| - 1] == s.handed;
    }
  }

  /** Whoever types, and whatever is refused: never more is handed over than the limits let flow in. */
  lemma {:induction false} RunsStayWithinLimits(s: Sub, arrivals: seq<Arrival>, frames: nat, bytes: nat,
                                                now: real, until: real)
    requires Ready(s, now) && Timed(now, arrivals) && Capped(arrivals, frames, bytes) && now <= until
    requires arrivals != [] ==> arrivals[|arrivals| - 1].around.now <= until
    ensures (|Run(s, arrivals).handed| - |s.handed|) as real <= FramesLeft(s, frames, until)
    ensures (Typed(Run(s, arrivals).handed) - Typed(s.handed)) as real <= BytesLeft(s, bytes, until)
    decreases |arrivals|
  {
    if arrivals == [] {
      assert 0.0 <= Limits.Gain(until - s.frames.last, frames, 60);
      assert 0.0 <= Limits.Gain(until - s.bytes.last, bytes, 60);
    } else {
      var first, rest := arrivals[0], arrivals[1..];
      LastIsLatest(now, arrivals);
      assert first in arrivals && forall a | a in rest :: a in arrivals;
      assert rest != [] ==> rest[|rest| - 1] == arrivals[|arrivals| - 1];
      HandledCosts(s, first, frames, bytes, until);
      RunsStayWithinLimits(Handled(s, first.around, first.frame).0, rest, frames, bytes, first.around.now, until);
    }
  }

  lemma {:induction false} LastIsLatest(from: real, arrivals: seq<Arrival>)
    requires Timed(from, arrivals) && arrivals != []
    ensures arrivals[0].around.now <= arrivals[|arrivals| - 1].around.now
    decreases |arrivals|
  {
    if |arrivals| > 1 {
      LastIsLatest(arrivals[0].around.now, arrivals[1..]);
    }
  }

  // ---------------------------------------------------------------------- the connection

  /** The terminal's counter, shared by its subscribers. */
  class Counter {
    var next: nat

    constructor ()
      ensures next == 1
    {
      next := 1;
    }

    method NextInputSequence() returns (sequence: nat)
      modifies this
      ensures sequence == old(next) && next == old(next) + 1
    {
      sequence := next;
      next := next + 1;
    }
  }

  class InputState {
    var expectedSequence: nat
    var acceptedThrough: nat
    const frames: Limits.Bucket
    const bytes: Limits.Bucket
    ghost var handed: seq<Handed>

    ghost predicate Valid()
      reads this, frames, bytes
    {
      frames != bytes && frames.Valid() && bytes.Valid() && InOrder(Now())
    }

    ghost function Now(): Sub
      reads this, frames, bytes
    {
      Sub(expectedSequence, acceptedThrough, frames.Now(), bytes.Now(), handed)
    }

    constructor (framesPerMinute: nat, bytesPerMinute: nat, now: real)
      ensures Valid() && fresh(frames) && fresh(bytes) && Now() == New(framesPerMinute, bytesPerMinute, now)
    {
      expectedSequence := 1;
      acceptedThrough := 0;
      frames := new Limits.Bucket(framesPerMinute, now);
      bytes := new Limits.Bucket(bytesPerMinute, now);
      handed := [];
    }

    /** Both limits, the second only asked when the first grants. */
    method WithinLimits(c: Surroundings, length: nat) returns (ok: bool)
      requires frames != bytes && frames.Valid() && bytes.Valid()
      requires frames.last <= c.now && bytes.last <= c.now
      modifies frames, bytes
      ensures frames.Valid() && bytes.Valid()
      ensures var first := Limits.Drawn(old(frames.Now()), FrameDraw(c));
              && frames.Now() == first.0
              && (!first.1 ==> bytes.Now() == old(bytes.Now()) && !ok)
              && (first.1 ==>
                    (bytes.Now(), ok) ==
                      Limits.Drawn(old(bytes.Now()), Limits.Draw(length as real, c.bytesPerMinute, 60, c.now)))
    {
      ok := frames.Take(1.0, c.framesPerMinute, c.now);
      if ok {
        ok := bytes.Take(length as real, c.bytesPerMinute, c.now);
      }
    }

    /** A frame that cannot be decoded ends the connection and changes nothing. */
    method HandleInputFrame(decoded: Option<Frame>, c: Surroundings, counter: Counter)
        returns (goesOn: bool, answer: Option<Answer>)
      requires Valid() && frames.last <= c.now && bytes.last <= c.now
      requires counter.next == c.relayNext
      modifies this`expectedSequence, this`acceptedThrough, this`handed, frames, bytes, counter
      ensures Valid() && goesOn == decoded.Some? == answer.Some?
      ensures decoded.None? ==> Now() == old(Now()) && counter.next == old(counter.next)
      ensures decoded.Some? ==>
                && Now() == Handled(old(Now()), c, decoded.value).0
                && answer.value == Handled(old(Now()), c, decoded.value).1
                && counter.next == old(counter.next) + (if Handled(old(Now()), c, decoded.value).2 then 1 else 0)
      ensures decoded.Some? && counter.next != old(counter.next) ==> Claims(old(Now()), c, decoded.value)
      ensures handed != old(handed) ==> decoded.Some? && Allowed(c, decoded.value) && c.delivery.Taken?
    {
      goesOn, answer := decoded.Some?, None;
      if decoded.Some? {
        ghost var was := Now();
        HandledStaysInOrder(was, c, decoded.value);
        GapIffUndelivered(was, c, decoded.value);
        var reply := Judge(decoded.value, c, counter);
        answer := Some(reply);
      }
    }

    method Judge(f: Frame, c: Surroundings, counter: Counter) returns (answer: Answer)
      requires frames != bytes && frames.Valid() && bytes.Valid() && frames.last <= c.now && bytes.last <= c.now
      requires counter.next == c.relayNext
      modifies this`expectedSequence, this`acceptedThrough, this`handed, frames, bytes, counter
      ensures frames.Valid() && bytes.Valid()
      ensures (Now(), answer) == (Handled(old(Now()), c, f).0, Handled(old(Now()), c, f).1)
      ensures counter.next == old(counter.next) + (if Handled(old(Now()), c, f).2 then 1 else 0)
    {
      var refusal := Refusing(expectedSequence, c, f);
      if refusal.None? {
        var granted := WithinLimits(c, |f.payload|);
        if !granted {
          refusal := Some(RateLimited);
        }
      }
      if refusal.Some? {
        answer := Refused(refusal.value);
      } else {
        answer := Deliver(f, c, counter);
      }
    }

    method Deliver(f: Frame, c: Surroundings, counter: Counter) returns (answer: Answer)
      requires counter.next == c.relayNext
      modifies this`expectedSequence, this`acceptedThrough, this`handed, counter
      ensures counter.next == c.relayNext + 1
      ensures c.delivery.Taken? ==>
                && answer == Ack(f.sequence, c.relayNext)
                && expectedSequence == old(expectedSequence) + 1 && acceptedThrough == f.sequence
                && handed == old(handed) + [Handed(f.sequence, c.relayNext, f.payload)]
      ensures !c.delivery.Taken? ==>
                && answer == Refused(if c.delivery.NoPublisher? then InputUndeliverable else InputBackpressure)
                && expectedSequence == old(expectedSequence) && acceptedThrough == old(acceptedThrough)
                && handed == old(handed)
    {
      var relay := counter.NextInputSequence();
      match c.delivery
      case Taken =>
        expectedSequence := expectedSequence + 1;
        acceptedThrough := f.sequence;
        handed := handed + [Handed(f.sequence, relay, f.payload)];
        answer := Ack(acceptedThrough, relay);
      case NoPublisher => answer := Refused(InputUndeliverable);
      case Backpressure => answer := Refused(InputBackpressure);
    }
  }
}
