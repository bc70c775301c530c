/**
 The driver of one hosted terminal (`publisher/src/publish.rs`): it takes chunks from the
 shell's owner and events from the relay, in whatever order they come, and asks the
 transport to carry output, sizes and one close.
 */
module Publish {
  import opened Bytes
  import opened Stream

  datatype Limits = Limits(maxFrame: nat, maxUnacked: nat)

  datatype Event =
    | Attached(next: nat, limits: Limits)
    | Ack(durable: nat)
    | Mismatch(next: nat)
    | Detached
    | Input(taken: bool)        // keystrokes; not taken when the owner has stopped reading
    | ResizeRequest
    | Ended

  datatype FromOwner = Chunk(bytes: seq<byte>) | Size(cols: nat, rows: nat) | Gone

  /** What one pass of the loop finds ready. */
  datatype Pick = FromRelay(event: Event) | FromShell(message: FromOwner)

  datatype CloseReason = ProcessExited | Desynchronised

  datatype Request =
    | Output(start: nat, bytes: seq<byte>)
    | Resize(cols: nat, rows: nat)
    | Close(reason: CloseReason)

  datatype Phase = Running | Returned | LostPlace

  datatype Driver = Driver(
    stream: Sender,
    maxFrame: nat,
    waiting: Option<seq<byte>>,   // one chunk that cannot go out yet
    ownerGone: bool,
    closed: bool,
    phase: Phase)

  const NEW_DRIVER := Driver(NEW_SENDER, 64 * 1024, None, false, false, Running)

  /** What a pass does: the new state, the requests sent, the bytes newly put in the stream. */
  datatype Effect = Effect(d: Driver, out: seq<Request>, appended: seq<byte>)

  // ------------------------------------------------------------------------- splitting

  /** `bytes` from offset `start`, in output requests of at most `k` bytes. */
  function Slices(start: nat, bytes: seq<byte>, k: nat): (requests: seq<Request>)
    requires 1 <= k
    ensures forall r | r in requests :: r.Output? && 1 <= |r.bytes| <= k
    decreases |bytes|
  {
    if bytes == [] then []
    else if |bytes| <= k then [Output(start, bytes)]
    else [Output(start, bytes[..k])] + Slices(start + k, bytes[k..], k)
  }

  /** The connection splits every output request once more, to its own limit. */
  function Resplit(requests: seq<Request>, k: nat): seq<Request>
    requires 1 <= k
  {
    if requests == [] then []
    else
      (if requests[0].Output? then Slices(requests[0].start, requests[0].bytes, k) else [])
      + Resplit(requests[1..], k)
  }

  /** A relay that holds `log` takes each frame exactly at its end, or stops at the first it refuses. */
  function AcceptAll(log: seq<byte>, frames: seq<Request>): (seq<byte>, bool)
    decreases |frames|
  {
    if frames == [] then (log, true)
    else if frames[0].Output? && frames[0].start == |log|
    then AcceptAll(log + frames[0].bytes, frames[1..])
    else (log, false)
  }

  lemma {:induction false} AcceptInTwo(log: seq<byte>, a: seq<Request>, b: seq<Request>)
    requires AcceptAll(log, a).1
    ensures AcceptAll(log, a + b) == AcceptAll(AcceptAll(log, a).0, b)
    decreases |a|
  {
    if a == [] {
      assert a + b == b;
    } else {
      assert (a + b)[1..] == a[1..] + b;
      AcceptInTwo(log + a[0].bytes, a[1..], b);
    }
  }

  lemma AcceptFirst(log: seq<byte>, first: Request, rest: seq<Request>)
    requires first.Output? && first.start == |log|
    ensures AcceptAll(log, [first] + rest) == AcceptAll(log + first.bytes, rest)
  {
    assert ([first] + rest)[1..] == rest;
  }

  /** Splitting loses nothing: every slice is accepted and together they are the bytes. */
  lemma {:induction false} SlicesAreAccepted(log: seq<byte>, bytes: seq<byte>, k: nat)
    requires 1 <= k
    ensures AcceptAll(log, Slices(|log|, bytes, k)) == (log + bytes, true)
    decreases |bytes|
  {
    if bytes == [] {
      assert log + bytes == log;
    } else if |bytes| <= k {
      AcceptFirst(log, Output(|log|, bytes), []);
      assert [Output(|log|, bytes)] + [] == Slices(|log|, bytes, k);
    } else {
      var first, rest := Output(|log|, bytes[..k]), Slices(|log| + k, bytes[k..], k);
      assert |log + bytes[..k]| == |log| + k;
      SlicesAreAccepted(log + bytes[..k], bytes[k..], k);
      AcceptFirst(log, first, rest);
      Rejoin(log, bytes, k);
      assert Slices(|log|, bytes, k) == [first] + rest;
    }
  }

  /** Splitting again changes nothing about what is accepted. */
  lemma {:induction false} ResplitIsAccepted(log: seq<byte>, requests: seq<Request>, k: nat)
    requires 1 <= k && AcceptAll(log, requests).1
    ensures AcceptAll(log, Resplit(requests, k)) == AcceptAll(log, requests)
    decreases |requests|
  {
    if requests != [] {
      var r := requests[0];
      SlicesAreAccepted(log, r.bytes, k);
      AcceptInTwo(log, Slices(r.start, r.bytes, k), Resplit(requests[1..], k));
      ResplitIsAccepted(log + r.bytes, requests[1..], k);
    }
  }

  lemma {:induction false} SlicesAreAt(stream: seq<byte>, start: nat, bytes: seq<byte>, k: nat)
    requires 1 <= k && At(stream, start, bytes)
    ensures forall r | r in Slices(start, bytes, k) :: r.Output? && start <= r.start && At(stream, r.start, r.bytes)
    decreases |bytes|
  {
    if |bytes| > k {
      AtSlice(stream, start, bytes, 0, k);
      AtSlice(stream, start, bytes, k, |bytes|);
      SlicesAreAt(stream, start + k, bytes[k..], k);
    }
  }

  /**
   Resynchronisation converges: once a relay at offset `n` has been answered, the answer
   delivered in order through both splits is accepted completely, and the relay then stands
   where this side does, with the same bytes.
   */
  lemma AttachConverges(s: Sender, stream: seq<byte>, n: nat, k1: nat, k2: nat)
    requires Holds(s, stream) && s.start <= n <= |stream| && 1 <= k1 && 1 <= k2
    ensures var (s', r) := s.Attach(n);
            var frames := if r.Retransmit? then Resplit(Slices(r.start, r.bytes, k1), k2) else [];
            AcceptAll(stream[..n], frames) == (stream, true) && s'.next == |stream|
  {
    AttachMeaning(s, stream, n);
    Converges(stream, n, s.Attach(n).1, k1, k2);
  }

  lemma MismatchConverges(s: Sender, stream: seq<byte>, n: nat, k1: nat, k2: nat)
    requires Holds(s, stream) && s.start <= n <= |stream| && s.target != Some(n) && 1 <= k1 && 1 <= k2
    ensures var (s', r) := s.Mismatch(n);
            var frames := if r.Retransmit? then Resplit(Slices(r.start, r.bytes, k1), k2) else [];
            AcceptAll(stream[..n], frames) == (stream, true) && s'.next == |stream|
  {
    MismatchMeaning(s, stream, n);
    Converges(stream, n, s.Mismatch(n).1, k1, k2);
  }

  lemma Converges(stream: seq<byte>, n: nat, r: Resync, k1: nat, k2: nat)
    requires n <= |stream| && 1 <= k1 && 1 <= k2
    requires Replays(r, stream, n) && (r.Retransmit? <==> n < |stream|)
    ensures var frames := if r.Retransmit? then Resplit(Slices(r.start, r.bytes, k1), k2) else [];
            AcceptAll(stream[..n], frames) == (stream, true)
  {
    if r.Nothing? || r.Unrecoverable? {
      assert stream[..n] == stream;
    } else {
      SlicesAreAccepted(stream[..n], r.bytes, k1);
      ResplitIsAccepted(stream[..n], Slices(n, r.bytes, k1), k2);
      assert stream[..n] + r.bytes == stream;
    }
  }

  // -------------------------------------------------------------------------- one pass

  predicate Ok(d: Driver) {
    && d.stream.Valid() && 1 <= d.maxFrame
    && (d.closed ==> d.ownerGone && d.waiting.None? && d.stream.bytes == [])
  }

  function Idle(d: Driver): Effect { Effect(d, [], []) }

  /** Put a chunk in the stream and send it. */
  function SendChunk(d: Driver, chunk: seq<byte>): Effect
    requires Ok(d) && !d.closed
  {
    Effect(d.(stream := d.stream.Send(chunk)), Slices(d.stream.next, chunk, d.maxFrame), chunk)
  }

  /** The head of the loop: a held chunk goes out when it may. */
  function Release(d: Driver): Effect
    requires Ok(d)
  {
    if d.waiting.Some? && d.stream.MaySend()
    then SendChunk(d.(waiting := None), d.waiting.value)
    else Idle(d)
  }

  predicate Finished(d: Driver) {
    d.ownerGone && !d.closed && d.waiting.None? && d.stream.Unacked() == 0
  }

  function CloseOnce(d: Driver): Effect
    requires Ok(d)
  {
    if Finished(d) then Effect(d.(closed := true), [Close(ProcessExited)], []) else Idle(d)
  }

  /** Answer the relay's word on where the stream is. */
  function Resume(d: Driver, r: Resync): Effect
    requires Ok(d)
  {
    match r
    case Retransmit(start, bytes) => Effect(d, Slices(start, bytes, d.maxFrame), [])
    case Nothing => Idle(d)
    case Unrecoverable => Effect(d.(phase := LostPlace), [Close(Desynchronised)], [])
  }

  function OnEvent(d: Driver, e: Event): (effect: Effect)
    requires Ok(d)
    ensures Ok(effect.d)
  {
    match e
    case Attached(n, limits) =>
      var limited := d.stream.SetWindow(limits.maxUnacked);
      var (s, r) := limited.Attach(n);
      Resume(d.(stream := s, maxFrame := Max(limits.maxFrame, 1024)), r)
    case Ack(durable) => Idle(d.(stream := d.stream.Acknowledge(durable)))
    case Mismatch(n) =>
      var (s, r) := d.stream.Mismatch(n);
      Resume(d.(stream := s), r)
    case Detached => Idle(d.(stream := d.stream.Detach()))
    case Input(taken) => if taken then Idle(d) else Idle(d.(phase := Returned))
    case ResizeRequest => Idle(d)
    case Ended => Idle(d.(phase := Returned))
  }

  /** The owner is listened to only while it is there and nothing is held back. */
  predicate Listens(d: Driver) { !d.ownerGone && d.waiting.None? }

  function OnOwner(d: Driver, m: FromOwner): Effect
    requires Ok(d) && Listens(d)
  {
    match m
    case Chunk(bytes) =>
      if d.stream.MaySend() then SendChunk(d, bytes) else Idle(d.(waiting := Some(bytes)))
    case Size(cols, rows) => Effect(d, [Resize(cols, rows)], [])
    case Gone => Idle(d.(ownerGone := true))
  }

  function Then(first: Effect, second: Effect): Effect {
    Effect(second.d, first.out + second.out, first.appended + second.appended)
  }

  function Head(d: Driver): (e: Effect)
    requires Ok(d)
    ensures Ok(e.d)
  {
    var released := Release(d);
    Then(released, CloseOnce(released.d))
  }

  function Serve(d: Driver, pick: Pick): Effect
    requires Ok(d)
  {
    match pick
    case FromRelay(e) => OnEvent(d, e)
    case FromShell(m) => if Listens(d) then OnOwner(d, m) else Idle(d)
  }

  function Pass(d: Driver, pick: Pick): (e: Effect)
    requires Ok(d)
    ensures Ok(e.d)
  {
    if d.phase != Running then Idle(d)
    else
      var head := Head(d);
      Then(head, Serve(head.d, pick))
  }

  /** The chunk a pass takes from the owner, if it takes one. */
  function TakenBy(d: Driver, pick: Pick): seq<byte>
    requires Ok(d)
  {
    if d.phase == Running && pick.FromShell? && pick.message.Chunk? && Listens(Head(d).d)
    then pick.message.bytes else []
  }

  function Held(d: Driver): seq<byte> { if d.waiting.Some? then d.waiting.value else [] }

  // -------------------------------------------------------------------- what a pass keeps

  /** A chunk leaves the hands of the owner only into the stream or into the one held place. */
  lemma HeadConserves(d: Driver)
    requires Ok(d)
    ensures Held(d) == Head(d).appended + Held(Head(d).d)
  {
  }

  lemma ServeConserves(d: Driver, pick: Pick)
    requires Ok(d)
    ensures var taken := if pick.FromShell? && pick.message.Chunk? && Listens(d) then pick.message.bytes else [];
            Held(d) + taken == Serve(d, pick).appended + Held(Serve(d, pick).d)
  {
  }

  /** Everything taken from the owner is in the stream or is the one held chunk, in order. */
  lemma PassConserves(d: Driver, pick: Pick)
    requires Ok(d)
    ensures var e := Pass(d, pick);
            Held(d) + TakenBy(d, pick) == e.appended + Held(e.d)
  {
    if d.phase == Running {
      var head := Head(d);
      HeadConserves(d);
      ServeConserves(head.d, pick);
      var taken := TakenBy(d, pick);
      var served := Serve(head.d, pick);
      assert head.appended + (Held(head.d) + taken) == head.appended + (served.appended + Held(served.d));
    }
  }

  /** Once closed, a pass sends no output and no second process_exited close, whatever the relay says. */
  lemma ClosedStaysSilent(d: Driver, pick: Pick)
    requires Ok(d) && d.closed
    ensures Pass(d, pick).d.closed
    ensures forall r | r in Pass(d, pick).out :: r == Close(Desynchronised)
  {
  }

  lemma HeadCloses(d: Driver)
    requires Ok(d) && !d.closed
    ensures var e := Head(d);
            && (e.d.closed <==> Close(ProcessExited) in e.out)
            && (e.d.closed ==> e.out != [] && e.out[|e.out| - 1] == Close(ProcessExited))
            && (forall i | 0 <= i < |e.out| - 1 :: e.out[i].Output?)
  {
  }

  lemma ServeDoesNotClose(d: Driver, pick: Pick)
    requires Ok(d)
    ensures Serve(d, pick).d.closed == d.closed && Close(ProcessExited) !in Serve(d, pick).out
    ensures d.closed ==> forall r | r in Serve(d, pick).out :: r == Close(Desynchronised)
  {
  }

  /** The close goes out only with everything taken so far acknowledged, and ends the output. */
  lemma CloseMeansAcknowledged(d: Driver, pick: Pick)
    requires Ok(d) && !d.closed
    ensures var e := Pass(d, pick);
            && (e.d.closed <==> Close(ProcessExited) in e.out)
            && (e.d.closed ==> Held(e.d) == [] && e.d.stream.bytes == [] && TakenBy(d, pick) == [])
            && EndsWithClose(e.out)
  {
    if d.phase == Running {
      HeadCloses(d);
      ServeDoesNotClose(Head(d).d, pick);
    }
  }

  /** Nothing but a desynchronisation notice comes after the close. */
  predicate EndsWithClose(out: seq<Request>) {
    forall i, j | 0 <= i < j < |out| && out[i] == Close(ProcessExited) :: out[j] == Close(Desynchronised)
  }

  // ----------------------------------------------------------------- a bound on what is held

  /** Less than the window plus one chunk is retained, and at most one chunk waits. */
  predicate Bounded(d: Driver, window: nat, chunk: nat) {
    && d.stream.window <= window
    && |d.stream.bytes| < window + chunk
    && |Held(d)| <= chunk
  }

  predicate Within(pick: Pick, window: nat, chunk: nat) {
    match pick
    case FromRelay(Attached(_, limits)) => limits.maxUnacked <= window
    case FromShell(Chunk(bytes)) => |bytes| <= chunk
    case _ => true
  }

  /** `e` keeps the bound and never moves the end of the stream back. */
  predicate KeepsBound(d: Driver, e: Effect, window: nat, chunk: nat) {
    Bounded(e.d, window, chunk) && d.stream.next <= e.d.stream.next
  }

  lemma EventKeepsBound(d: Driver, e: Event, window: nat, chunk: nat)
    requires Ok(d) && Bounded(d, window, chunk) && CONSERVATIVE_WINDOW <= window
    requires Within(FromRelay(e), window, chunk)
    ensures KeepsBound(d, OnEvent(d, e), window, chunk)
  {
  }

  lemma OwnerKeepsBound(d: Driver, m: FromOwner, window: nat, chunk: nat)
    requires Ok(d) && Listens(d) && Bounded(d, window, chunk) && Within(FromShell(m), window, chunk)
    ensures KeepsBound(d, OnOwner(d, m), window, chunk)
  {
  }

  lemma HeadKeepsBound(d: Driver, window: nat, chunk: nat)
    requires Ok(d) && Bounded(d, window, chunk)
    ensures KeepsBound(d, Head(d), window, chunk)
  {
  }

  lemma PassStaysBounded(d: Driver, pick: Pick, window: nat, chunk: nat)
    requires Ok(d) && Bounded(d, window, chunk) && Within(pick, window, chunk)
    requires CONSERVATIVE_WINDOW <= window
    ensures KeepsBound(d, Pass(d, pick), window, chunk)
    ensures Pass(d, pick).d.stream.Unacked() == |Pass(d, pick).d.stream.bytes|
  {
    if d.phase == Running {
      HeadKeepsBound(d, window, chunk);
      match pick
      case FromRelay(e) => EventKeepsBound(Head(d).d, e, window, chunk);
      case FromShell(m) => if Listens(Head(d).d) { OwnerKeepsBound(Head(d).d, m, window, chunk); }
    }
  }

  // ---------------------------------------------------------------------- whole runs

  datatype Trace = Trace(d: Driver, out: seq<Request>, taken: seq<byte>, appended: seq<byte>)

  function Run(script: seq<Pick>): (t: Trace)
    ensures Ok(t.d)
  {
    if script == [] then Trace(NEW_DRIVER, [], [], [])
    else
      var before, pick := Run(script[..|script| - 1]), script[|script| - 1];
      var e := Pass(before.d, pick);
      Trace(e.d, before.out + e.out,
            before.taken + TakenBy(before.d, pick), before.appended + e.appended)
  }

  lemma Regroup(taken: seq<byte>, appended: seq<byte>, held: seq<byte>,
                more: seq<byte>, sent: seq<byte>, held': seq<byte>)
    requires taken == appended + held && held + more == sent + held'
    ensures taken + more == (appended + sent) + held'
  {
    assert taken + more == appended + (held + more);
  }

  /** No run loses, repeats or reorders a byte between the owner and the stream. */
  lemma {:induction false} RunConserves(script: seq<Pick>)
    ensures var t := Run(script); t.taken == t.appended + Held(t.d)
    decreases |script|
  {
    if script != [] {
      var before, pick := Run(script[..|script| - 1]), script[|script| - 1];
      RunConserves(script[..|script| - 1]);
      PassConserves(before.d, pick);
      var e := Pass(before.d, pick);
      Regroup(before.taken, before.appended, Held(before.d), TakenBy(before.d, pick), e.appended, Held(e.d));
    }
  }

  lemma ClosesJoin(out: seq<Request>, closed: bool, more: seq<Request>, closed': bool)
    requires (closed <==> Close(ProcessExited) in out) && EndsWithClose(out)
    requires closed ==> closed' && forall r | r in more :: r == Close(Desynchronised)
    requires !closed ==> (closed' <==> Close(ProcessExited) in more) && EndsWithClose(more)
    ensures (closed' <==> Close(ProcessExited) in out + more) && EndsWithClose(out + more)
  {
    forall i, j | 0 <= i < j < |out + more| && (out + more)[i] == Close(ProcessExited)
      ensures (out + more)[j] == Close(Desynchronised)
    {
      if i < |out| {
        assert out[i] in out;
        if |out| <= j { assert more[j - |out|] in more; }
      } else {
        assert more[i - |out|] in more;
      }
    }
  }

  /** After its process_exited close, a run sends no output and no second such close. */
  lemma {:induction false} RunClosesOnce(script: seq<Pick>)
    ensures var t := Run(script);
            && (t.d.closed <==> Close(ProcessExited) in t.out)
            && EndsWithClose(t.out)
    decreases |script|
  {
    if script != [] {
      var before, pick := Run(script[..|script| - 1]), script[|script| - 1];
      RunClosesOnce(script[..|script| - 1]);
      PassCloses(before.d, pick);
      var e := Pass(before.d, pick);
      ClosesJoin(before.out, before.d.closed, e.out, e.d.closed);
    }
  }

  lemma PassCloses(d: Driver, pick: Pick)
    requires Ok(d)
    ensures var e := Pass(d, pick);
            && (d.closed ==> e.d.closed && forall r | r in e.out :: r == Close(Desynchronised))
            && (!d.closed ==> (e.d.closed <==> Close(ProcessExited) in e.out) && EndsWithClose(e.out))
  {
    if d.closed {
      ClosedStaysSilent(d, pick);
    } else {
      CloseMeansAcknowledged(d, pick);
    }
  }

  lemma {:induction false} RunStaysBounded(script: seq<Pick>, window: nat, chunk: nat)
    requires CONSERVATIVE_WINDOW <= window
    requires forall i | 0 <= i < |script| :: Within(script[i], window, chunk)
    ensures Bounded(Run(script).d, window, chunk)
    decreases |script|
  {
    if script != [] {
      RunStaysBounded(script[..|script| - 1], window, chunk);
      PassStaysBounded(Run(script[..|script| - 1]).d, script[|script| - 1], window, chunk);
    }
  }
}
