/**
 What the driver owes the relay and its owner, and sends (`publisher/src/publish.rs`): the
 retransmission an attach or a refusal asks for, the chunk that was held back, the close.
 */
module Answers {
  import opened Bytes
  import opened Stream
  import opened Publish

  /** Nothing but output, in pieces of at most `k` bytes. */
  predicate InPieces(out: seq<Request>, k: nat) {
    forall r | r in out :: r.Output? && 1 <= |r.bytes| <= k
  }

  /** The driver is where it was in everything but its stream. */
  predicate SameButStream(d: Driver, d': Driver) {
    d'.waiting == d.waiting && d'.ownerGone == d.ownerGone && d'.closed == d.closed && d'.phase == d.phase
  }

  // ------------------------------------------------------------------- one event's answer

  /**
   An attach at an offset still held is answered with everything from there to the end, in frames
   of the size now agreed; ahead of the end with nothing; below what is held with giving up.
   */
  lemma AttachIsAnswered(d: Driver, stream: seq<byte>, n: nat, limits: Limits)
    requires Ok(d) && Holds(d.stream, stream)
    ensures var e := OnEvent(d, Attached(n, limits));
            var k := Max(limits.maxFrame, 1024);
            && e.appended == []
            && (d.stream.start <= n <= |stream| ==>
                  && AcceptAll(stream[..n], e.out) == (stream, true) && InPieces(e.out, k)
                  && Holds(e.d.stream, stream) && e.d.stream.start == d.stream.start)
            && (|stream| < n ==> e.out == [] && e.d.stream.start == e.d.stream.next == n)
            && (n < d.stream.start ==> e.out == [Close(Desynchronised)] && e.d.phase == LostPlace)
            && (d.stream.start <= n ==> SameButStream(d, e.d) && AgreedTo(e.d, limits))
  {
    var limited := d.stream.SetWindow(limits.maxUnacked);
    AttachMeaning(limited, stream, n);
    var r := limited.Attach(n).1;
    if d.stream.start <= n <= |stream| {
      AnswerIsAccepted(stream, n, r, Max(limits.maxFrame, 1024));
    }
  }

  /** Limits from an attach are in force: a chunk may go while less than the window is unacknowledged. */
  predicate AgreedTo(d: Driver, limits: Limits) {
    && d.maxFrame == Max(limits.maxFrame, 1024) && d.stream.target.None?
    && (d.stream.MaySend() <==> |d.stream.bytes| < Max(limits.maxUnacked, CONSERVATIVE_WINDOW))
  }

  lemma AnswerIsAccepted(stream: seq<byte>, n: nat, r: Resync, k: nat)
    requires n <= |stream| && 1 <= k && Replays(r, stream, n) && (r.Retransmit? <==> n < |stream|)
    ensures r.Retransmit? ==> AcceptAll(stream[..n], Slices(r.start, r.bytes, k)) == (stream, true)
    ensures !r.Retransmit? ==> AcceptAll(stream[..n], []) == (stream, true)
  {
    if r.Retransmit? {
      SlicesAreAccepted(stream[..n], r.bytes, k);
      assert stream[..n] + r.bytes == stream;
    } else {
      assert stream[..n] == stream;
    }
  }

  /** A refusal is answered the same way once, and its echoes with nothing. */
  lemma MismatchIsAnswered(d: Driver, stream: seq<byte>, n: nat)
    requires Ok(d) && Holds(d.stream, stream)
    ensures var e := OnEvent(d, Mismatch(n));
            && e.appended == []
            && (d.stream.target != Some(n) && d.stream.start <= n <= |stream| ==>
                  && AcceptAll(stream[..n], e.out) == (stream, true) && InPieces(e.out, d.maxFrame)
                  && Holds(e.d.stream, stream) && e.d.stream.start == d.stream.start
                  && SameButStream(d, e.d) && e.d.stream.MaySend() == d.stream.MaySend()
                  && OnEvent(e.d, Mismatch(n)) == Idle(e.d))
            && (d.stream.target != Some(n) && !(d.stream.start <= n <= |stream|) ==>
                  e.out == [Close(Desynchronised)] && e.d.phase == LostPlace)
            && (d.stream.target == Some(n) ==> e == Idle(d))
  {
    MismatchMeaning(d.stream, stream, n);
    if d.stream.target != Some(n) && d.stream.start <= n <= |stream| {
      AnswerIsAccepted(stream, n, d.stream.Mismatch(n).1, d.maxFrame);
    }
  }

  /** Every other event is heard in silence. */
  lemma OthersAreHeard(d: Driver, stream: seq<byte>, event: Event)
    requires Ok(d) && Holds(d.stream, stream) && !event.Attached? && !event.Mismatch?
    ensures var e := OnEvent(d, event);
            && e.out == [] && e.appended == [] && Holds(e.d.stream, stream)
            && (e.d.phase == d.phase || e.d.phase == Returned)
            && (e.d.phase != d.phase ==> event.Ended? || event == Input(false))
            && (event.Ended? || event == Input(false) ==> e.d.phase == Returned)
            && (event.Ack? && event.durable <= |stream| ==> e.d.stream.start == Max(d.stream.start, event.durable))
            && (event.Detached? ==> !e.d.stream.MaySend() && e.d.stream.target.None? && e.d.stream == d.stream.Detach())
            && (!event.Ack? && !event.Detached? ==> e.d.stream == d.stream)
            && e.d.waiting == d.waiting && e.d.ownerGone == d.ownerGone && e.d.closed == d.closed
            && e.d.maxFrame == d.maxFrame
  {
    if event.Ack? {
      AcknowledgeMeaning(d.stream, stream, event.durable);
    }
  }

  /** A driver that has stopped, for whatever reason, says and does nothing more. */
  lemma StoppedIsSilent(d: Driver, pick: Pick)
    requires Ok(d) && d.phase != Running
    ensures Pass(d, pick) == Effect(d, [], [])
  {
  }

  // --------------------------------------------------------------- the owner's chunks

  lemma ChunkIsSent(d: Driver, stream: seq<byte>, chunk: seq<byte>)
    requires Ok(d) && !d.closed && Holds(d.stream, stream)
    ensures var e := SendChunk(d, chunk);
            && e.appended == chunk && AcceptAll(stream, e.out) == (stream + chunk, true) && InPieces(e.out, d.maxFrame)
            && Holds(e.d.stream, stream + chunk) && e.d.stream.start == d.stream.start && SameButStream(d, e.d)
  {
    SlicesAreAccepted(stream, chunk, d.maxFrame);
    SendMeaning(d.stream, stream, chunk);
  }

  /** The held chunk leaves exactly when the relay has room for more, and then whole and at its place. */
  lemma HeldChunkLeaves(d: Driver, stream: seq<byte>)
    requires Ok(d) && Holds(d.stream, stream)
    ensures var e := Release(d);
            && (d.waiting.Some? && d.stream.positioned && |d.stream.bytes| < d.stream.window ==>
                  && e.d.waiting.None? && e.appended == d.waiting.value
                  && AcceptAll(stream, e.out) == (stream + d.waiting.value, true) && InPieces(e.out, d.maxFrame)
                  && Holds(e.d.stream, stream + d.waiting.value))
            && (!(d.waiting.Some? && d.stream.positioned && |d.stream.bytes| < d.stream.window) ==> e == Idle(d))
            && e.d.ownerGone == d.ownerGone && e.d.closed == d.closed && e.d.phase == d.phase
  {
    if d.waiting.Some? && d.stream.MaySend() {
      ChunkIsSent(d.(waiting := None), stream, d.waiting.value);
    }
  }

  /** A chunk that may go goes at once; one that may not is the one held; sizes always go. */
  lemma OwnerIsServed(d: Driver, stream: seq<byte>, m: FromOwner)
    requires Ok(d) && Listens(d) && Holds(d.stream, stream)
    ensures var e := OnOwner(d, m);
            && (m.Chunk? && d.stream.positioned && |d.stream.bytes| < d.stream.window ==>
                  && e.appended == m.bytes && e.d.waiting.None?
                  && AcceptAll(stream, e.out) == (stream + m.bytes, true) && InPieces(e.out, d.maxFrame)
                  && Holds(e.d.stream, stream + m.bytes))
            && (m.Chunk? && !(d.stream.positioned && |d.stream.bytes| < d.stream.window) ==>
                  e.out == [] && e.appended == [] && e.d.waiting == Some(m.bytes) && e.d.stream == d.stream)
            && (m.Size? ==> e.out == [Resize(m.cols, m.rows)] && e.appended == [] && e.d == d)
            && (m.Gone? ==> e.out == [] && e.appended == [] && e.d.ownerGone && e.d.stream == d.stream)
            && (e.d.ownerGone <==> m.Gone?) && e.d.phase == d.phase && e.d.closed == d.closed
  {
    if m.Chunk? && d.stream.MaySend() {
      ChunkIsSent(d, stream, m.bytes);
    }
  }

  // ------------------------------------------------------------------------- the close

  /** A pass closes exactly when the owner is gone and everything it gave has been acknowledged. */
  lemma ClosesIff(d: Driver, pick: Pick)
    requires Ok(d)
    ensures Close(ProcessExited) in Pass(d, pick).out <==>
              && d.phase == Running && d.ownerGone && !d.closed && d.stream.bytes == []
              && (d.waiting.None? || (d.waiting == Some([]) && d.stream.positioned && 0 < d.stream.window))
  {
    if d.phase == Running {
      ServeDoesNotClose(Head(d).d, pick);
    }
  }

  /** The owner is gone and nothing is held back: all that is missing is the last acknowledgement. */
  predicate Leaving(d: Driver) { d.phase == Running && d.ownerGone && d.waiting.None? }

  lemma LastAckIsHeard(d: Driver, stream: seq<byte>, durable: nat)
    requires Ok(d) && Holds(d.stream, stream) && Leaving(d) && |stream| <= durable
    ensures var e := Pass(d, FromRelay(Ack(durable)));
            && Leaving(e.d) && e.d.stream.bytes == []
            && (d.closed ==> e.d.closed) && (!d.closed ==> (e.d.closed <==> Close(ProcessExited) in e.out))
  {
    PassCloses(d, FromRelay(Ack(durable)));
    AcknowledgeMeaning(d.stream, stream, durable);
  }

  lemma ThenItCloses(d: Driver, pick: Pick)
    requires Ok(d) && Leaving(d) && d.stream.bytes == []
    ensures var e := Pass(d, pick);
            e.d.closed && (!d.closed ==> Close(ProcessExited) in e.out)
  {
    hide Pass;
    ClosesIff(d, pick);
    PassCloses(d, pick);
  }

  /** An owner that leaves is followed by the close, once what it gave is acknowledged: in that pass or the next. */
  lemma GoneIsClosed(d: Driver, stream: seq<byte>, durable: nat, pick: Pick)
    requires Ok(d) && Holds(d.stream, stream) && d.phase == Running && !d.closed && Listens(Head(d).d)
    requires |stream| + |Held(d)| <= durable
    ensures var left := Pass(d, FromShell(Gone));
            var heard := Pass(left.d, FromRelay(Ack(durable)));
            var next := Pass(heard.d, pick);
            Close(ProcessExited) in left.out + heard.out + next.out && next.d.closed
  {
    hide Pass, Head;
    var left := Pass(d, FromShell(Gone));
    GoneLeaves(d, stream);
    LastAckIsHeard(left.d, stream + Head(d).appended, durable);
    ThenItCloses(Pass(left.d, FromRelay(Ack(durable))).d, pick);
  }

  lemma GoneLeaves(d: Driver, stream: seq<byte>)
    requires Ok(d) && Holds(d.stream, stream) && d.phase == Running && !d.closed && Listens(Head(d).d)
    ensures var left, here := Pass(d, FromShell(Gone)).d, stream + Head(d).appended;
            && Holds(left.stream, here) && left.phase == Running && left.ownerGone && !left.closed && left.waiting.None?
            && |here| == |stream| + |Held(d)|
  {
    HeldChunkLeaves(d, stream);
    HeadConserves(d);
    assert stream + [] == stream;
  }

  // ------------------------------------------------- everything said after an attach arrives

  /** The output among requests, as it is to be carried. */
  function Sent(out: seq<Request>): seq<Request> {
    if out == [] then [] else (if out[0].Output? then [out[0]] else []) + Sent(out[1..])
  }

  lemma {:induction false} SentJoin(a: seq<Request>, b: seq<Request>)
    ensures Sent(a + b) == Sent(a) + Sent(b)
    decreases |a|
  {
    if a == [] {
      assert a + b == b;
    } else {
      var first := if a[0].Output? then [a[0]] else [];
      assert (a + b)[0] == a[0] && (a + b)[1..] == a[1..] + b;
      SentJoin(a[1..], b);
      assert first + (Sent(a[1..]) + Sent(b)) == (first + Sent(a[1..])) + Sent(b);
    }
  }

  lemma {:induction false} SentIsAll(out: seq<Request>, k: nat)
    requires InPieces(out, k)
    ensures Sent(out) == out
    decreases |out|
  {
    if out != [] {
      assert out[0] in out;
      SentIsAll(out[1..], k);
      assert [out[0]] + out[1..] == out;
    }
  }

  /** What is sent in this pass takes a relay that has everything so far to everything now. */
  predicate Delivers(e: Effect, stream: seq<byte>) {
    AcceptAll(stream, Sent(e.out)) == (stream + e.appended, true) && Holds(e.d.stream, stream + e.appended)
  }

  lemma ThenDelivers(a: Effect, b: Effect, stream: seq<byte>)
    requires Delivers(a, stream) && Delivers(b, stream + a.appended)
    ensures Delivers(Then(a, b), stream)
  {
    SentJoin(a.out, b.out);
    AcceptInTwo(stream, Sent(a.out), Sent(b.out));
    assert stream + a.appended + b.appended == stream + (a.appended + b.appended);
  }

  lemma QuietDelivers(e: Effect, stream: seq<byte>)
    requires e.appended == [] && Sent(e.out) == [] && Holds(e.d.stream, stream)
    ensures Delivers(e, stream)
  {
    assert stream + [] == stream;
  }

  lemma HeadDelivers(d: Driver, stream: seq<byte>)
    requires Ok(d) && Holds(d.stream, stream)
    ensures Delivers(Head(d), stream)
  {
    var released := Release(d);
    HeldChunkLeaves(d, stream);
    if released == Idle(d) {
      QuietDelivers(released, stream);
    } else {
      SentIsAll(released.out, d.maxFrame);
    }
    QuietDelivers(CloseOnce(released.d), stream + released.appended);
    ThenDelivers(released, CloseOnce(released.d), stream);
  }

  /** The relay names no offset in this pass. */
  predicate Quiet(pick: Pick) {
    pick.FromRelay? ==> !pick.event.Attached? && !pick.event.Mismatch?
  }

  lemma ServeDelivers(d: Driver, stream: seq<byte>, pick: Pick)
    requires Ok(d) && Holds(d.stream, stream) && Quiet(pick)
    ensures Delivers(Serve(d, pick), stream)
  {
    match pick
    case FromRelay(event) =>
      OthersAreHeard(d, stream, event);
      QuietDelivers(OnEvent(d, event), stream);
    case FromShell(m) =>
      if Listens(d) {
        OwnerIsServed(d, stream, m);
        var e := OnOwner(d, m);
        if m.Chunk? && d.stream.MaySend() {
          SentIsAll(e.out, d.maxFrame);
        } else {
          QuietDelivers(e, stream);
        }
      } else {
        QuietDelivers(Idle(d), stream);
      }
  }

  lemma PassDelivers(d: Driver, stream: seq<byte>, pick: Pick)
    requires Ok(d) && Holds(d.stream, stream) && Quiet(pick)
    ensures Delivers(Pass(d, pick), stream)
  {
    if d.phase == Running {
      HeadDelivers(d, stream);
      ServeDelivers(Head(d).d, stream + Head(d).appended, pick);
      ThenDelivers(Head(d), Serve(Head(d).d, pick), stream);
    } else {
      QuietDelivers(Idle(d), stream);
    }
  }

  /** Passes one after the other. */
  function Passes(d: Driver, picks: seq<Pick>): (e: Effect)
    requires Ok(d)
    ensures Ok(e.d)
    decreases |picks|
  {
    if picks == [] then Idle(d)
    else
      var first := Pass(d, picks[0]);
      Then(first, Passes(first.d, picks[1..]))
  }

  lemma {:induction false} PassesDeliver(d: Driver, stream: seq<byte>, picks: seq<Pick>)
    requires Ok(d) && Holds(d.stream, stream) && forall pick | pick in picks :: Quiet(pick)
    ensures Delivers(Passes(d, picks), stream)
    decreases |picks|
  {
    if picks == [] {
      QuietDelivers(Idle(d), stream);
    } else {
      var first := Pass(d, picks[0]);
      PassDelivers(d, stream, picks[0]);
      PassesDeliver(first.d, stream + first.appended, picks[1..]);
      ThenDelivers(first, Passes(first.d, picks[1..]), stream);
    }
  }

  /** The relay names this offset, and means it: among what the driver holds, and not an echo. */
  predicate Names(d: Driver, stream: seq<byte>, event: Event, n: nat) {
    && d.stream.start <= n <= |stream|
    && (event == Mismatch(n) ==> d.stream.target != Some(n))
    && (event == Mismatch(n) || (event.Attached? && event.next == n))
  }

  /** In one pass: first what the head of the loop says, then the answer the relay is owed. */
  lemma PassAnswers(d: Driver, stream: seq<byte>, event: Event, n: nat)
    requires Ok(d) && Holds(d.stream, stream) && d.phase == Running
    requires Names(Head(d).d, stream + Head(d).appended, event, n)
    ensures var e, here := Pass(d, FromRelay(event)), stream + Head(d).appended;
            && Head(d).out <= e.out && e.appended == Head(d).appended
            && var answer := e.out[|Head(d).out|..];
            && AcceptAll(here[..n], answer) == (here, true)
            && InPieces(answer, if event.Attached? then Max(event.limits.maxFrame, 1024) else d.maxFrame)
            && Holds(e.d.stream, here) && e.d.phase == Running
  {
    hide Slices, AcceptAll;
    var head, here := Head(d), stream + Head(d).appended;
    HeadDelivers(d, stream);
    if event.Attached? {
      AttachIsAnswered(head.d, here, n, event.limits);
    } else {
      MismatchIsAnswered(head.d, here, n);
    }
    var answer := OnEvent(head.d, event).out;
    assert (head.out + answer)[|head.out|..] == answer;
    assert head.appended + [] == head.appended;
  }

  /**
   From the moment the relay names an offset the driver holds: everything the driver sends from its
   answer on, carried in order, is accepted, and takes the relay to the end of the stream, however
   the run goes on, until the relay names an offset again.
   */
  lemma EverythingArrives(d: Driver, stream: seq<byte>, event: Event, n: nat, picks: seq<Pick>)
    requires Ok(d) && Holds(d.stream, stream) && d.phase == Running
    requires Names(Head(d).d, stream + Head(d).appended, event, n)
    requires forall pick | pick in picks :: Quiet(pick)
    ensures var first := Pass(d, FromRelay(event));
            var later := Passes(first.d, picks);
            var here := stream + first.appended;
            && n <= |here| && Head(d).out <= first.out
            && AcceptAll(here[..n], Sent(first.out[|Head(d).out|..] + later.out)) == (here + later.appended, true)
            && Holds(later.d.stream, here + later.appended)
  {
    var first := Pass(d, FromRelay(event));
    var here := stream + first.appended;
    PassAnswers(d, stream, event, n);
    var answer := first.out[|Head(d).out|..];
    SentIsAll(answer, if event.Attached? then Max(event.limits.maxFrame, 1024) else d.maxFrame);
    PassesDeliver(first.d, here, picks);
    var later := Passes(first.d, picks);
    SentJoin(answer, later.out);
    AcceptInTwo(here[..n], answer, Sent(later.out));
  }
}
