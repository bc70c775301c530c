/**
 `drive` itself: the loop of `publisher/src/publish.rs` over its mutable state, proved pass
 by pass against the functions of `Publish`.
 */
module Drive {
  import opened Bytes
  import opened Stream
  import opened Publish

  lemma FirstSlice(sent: seq<Request>, offset: nat, rest: seq<byte>, k: nat)
    requires 1 <= k && rest != []
    ensures var n := Min(k, |rest|);
            sent + Slices(offset, rest, k)
            == (sent + [Output(offset, rest[..n])]) + Slices(offset + n, rest[n..], k)
  {
    var n := Min(k, |rest|);
    var first, after := [Output(offset, rest[..n])], Slices(offset + n, rest[n..], k);
    assert rest[..|rest|] == rest;
    assert Slices(offset, rest, k) == first + after;
    assert sent + (first + after) == (sent + first) + after;
  }

  class MirrorDriver {
    const stream: Outgoing
    var maxFrame: nat
    var waiting: Option<seq<byte>>
    var ownerGone: bool
    var closed: bool
    var phase: Phase
    var requests: seq<Request>      // what the transport has been asked, in order

    function View(): Driver
      reads this, stream, stream.retained
    {
      Driver(stream.View(), maxFrame, waiting, ownerGone, closed, phase)
    }

    ghost predicate Valid()
      reads this, stream, stream.retained
    {
      Ok(View())
    }

    constructor ()
      ensures Valid() && fresh(stream) && fresh(stream.retained)
      ensures View() == NEW_DRIVER && requests == []
    {
      stream := new Outgoing();
      maxFrame, waiting, ownerGone, closed, phase := 64 * 1024, None, false, false, Running;
      requests := [];
    }

    /** One request per piece of at most `maxFrame` bytes, each at its own offset. */
    method SendOutput(start: nat, bytes: seq<byte>)
      requires 1 <= maxFrame
      modifies this`requests
      ensures requests == old(requests) + Slices(start, bytes, maxFrame)
    {
      var offset: nat, rest := start, bytes;
      while rest != []
        invariant requests + Slices(offset, rest, maxFrame)
               == old(requests) + Slices(start, bytes, maxFrame)
        decreases |rest|
      {
        FirstSlice(requests, offset, rest, maxFrame);
        var slice := rest[..Min(maxFrame, |rest|)];
        requests := requests + [Output(offset, slice)];
        offset := offset + |slice|;
        rest := rest[|slice|..];
      }
      assert requests + [] == requests;
    }

    /** A held chunk goes out as soon as the relay takes more. */
    method ReleaseWaiting()
      requires Valid()
      modifies this`waiting, this`requests, stream, stream.retained
      ensures Valid() && View() == Release(old(View())).d
      ensures requests == old(requests) + Release(old(View())).out
    {
      assert requests + [] == requests;
      if waiting.Some? {
        var chunk := waiting.value;
        var may := stream.MaySend();
        if may {
          waiting := None;
          var start := stream.Send(chunk);
          SendOutput(start.value, chunk);
        }
      }
    }

    method CloseWhenDone()
      requires Valid()
      modifies this`closed, this`requests
      ensures Valid() && View() == CloseOnce(old(View())).d
      ensures requests == old(requests) + CloseOnce(old(View())).out
    {
      var unacked := stream.Unacked();
      if ownerGone && !closed && waiting.None? && unacked == 0 {
        closed := true;
        requests := requests + [Close(ProcessExited)];
      } else {
        assert requests + [] == requests;
      }
    }

    /** Send again what the relay is missing, or give the terminal up. */
    method Answer(r: Resync)
      requires Valid()
      modifies this`phase, this`requests
      ensures Valid() && View() == Resume(old(View()), r).d
      ensures requests == old(requests) + Resume(old(View()), r).out
    {
      match r
      case Retransmit(start, bytes) =>
        SendOutput(start, bytes);
      case Nothing =>
        assert requests + [] == requests;
      case Unrecoverable =>
        requests := requests + [Close(Desynchronised)];
        phase := LostPlace;
    }

    method Handle(event: Event)
      requires Valid()
      modifies this`maxFrame, this`phase, this`requests, stream, stream.retained
      ensures Valid() && View() == OnEvent(old(View()), event).d
      ensures requests == old(requests) + OnEvent(old(View()), event).out
    {
      assert requests + [] == requests;
      match event
      case Attached(next, limits) =>
        stream.SetWindow(limits.maxUnacked);
        maxFrame := Max(limits.maxFrame, 1024);
        var r := stream.Attached(next);
        Answer(r);
      case Ack(durable) => stream.Acknowledge(durable);
      case Mismatch(next) =>
        var r := stream.Mismatch(next);
        Answer(r);
      case Detached => stream.Detached();
      case Input(taken) => if !taken { phase := Returned; }
      case ResizeRequest =>
      case Ended => phase := Returned;
    }

    method Accept(message: FromOwner)
      requires Valid() && Listens(View())
      modifies this`waiting, this`ownerGone, this`requests, stream, stream.retained
      ensures Valid() && View() == OnOwner(old(View()), message).d
      ensures requests == old(requests) + OnOwner(old(View()), message).out
    {
      assert requests + [] == requests;
      match message
      case Chunk(bytes) =>
        var may := stream.MaySend();
        if may {
          var start := stream.Send(bytes);
          SendOutput(start.value, bytes);
        } else {
          waiting := Some(bytes);
        }
      case Size(cols, rows) =>
        requests := requests + [Resize(cols, rows)];
      case Gone =>
        ownerGone := true;
    }

    method HeadOfLoop()
      requires Valid()
      modifies this`waiting, this`closed, this`requests, stream, stream.retained
      ensures Valid() && View() == Head(old(View())).d
      ensures requests == old(requests) + Head(old(View())).out
    {
      ReleaseWaiting();
      CloseWhenDone();
    }

    method OnePass(pick: Pick)
      requires Valid() && phase == Running
      modifies this, stream, stream.retained
      ensures Valid() && View() == Pass(old(View()), pick).d
      ensures requests == old(requests) + Pass(old(View()), pick).out
    {
      ghost var head := Head(View());
      HeadOfLoop();
      ServePick(pick);
      ghost var served := Serve(head.d, pick);
      assert old(requests) + head.out + served.out == old(requests) + (head.out + served.out);
    }

    method ServePick(pick: Pick)
      requires Valid()
      modifies this`maxFrame, this`waiting, this`ownerGone, this`phase, this`requests, stream, stream.retained
      ensures Valid() && View() == Serve(old(View()), pick).d
      ensures requests == old(requests) + Serve(old(View()), pick).out
    {
      match pick
      case FromRelay(event) => Handle(event);
      case FromShell(message) =>
        if !ownerGone && waiting.None? {
          Accept(message);
        } else {
          assert requests + [] == requests;
        }
    }
  }

  /** A whole run of the loop over everything it finds ready, in order. */
  method DriveAll(script: seq<Pick>) returns (requests: seq<Request>)
    ensures requests == Run(script).out
  {
    hide Head, Serve;
    var driver := new MirrorDriver();
    for i := 0 to |script|
      invariant driver.Valid() && fresh(driver) && fresh(driver.stream) && fresh(driver.stream.retained)
      invariant driver.View() == Run(script[..i]).d && driver.requests == Run(script[..i]).out
    {
      assert script[..i + 1][..i] == script[..i];
      if driver.phase == Running {
        driver.OnePass(script[i]);
      } else {
        assert driver.requests + [] == driver.requests;
      }
    }
    assert script[..|script|] == script;
    requests := driver.requests;
  }
}
