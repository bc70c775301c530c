/**
 What a publisher sends of one terminal: where it is, what it still holds, and what it sends
 again (`publisher/src/stream.rs`).

 `Retained` and `Outgoing` are the program's two objects.  `Sender` is the value an
 `Outgoing` denotes; its functions say what each call means in terms of offsets, and the
 methods are proved against them.
 */
module Stream {
  import opened Bytes

  const CONSERVATIVE_WINDOW: nat := 64 * 1024

  /** How the sender answers an offset that the relay has named. */
  datatype Resync =
    | Retransmit(start: nat, bytes: seq<byte>)
    | Nothing
    | Unrecoverable

  datatype Sender = Sender(
    start: nat,             // offset of the oldest byte still held
    bytes: seq<byte>,       // sent and not yet acknowledged
    next: nat,              // where the next byte belongs
    positioned: bool,       // an attach has been heard on this connection
    target: Option<nat>,    // the offset last resent from
    window: nat)
  {
    /** The next byte always belongs right behind the retained ones. */
    predicate Valid() { next == start + |bytes| }

    /** Nothing has been sent and nothing released. */
    predicate Fresh() { bytes == [] && start == 0 && next == 0 }

    function Unacked(): nat { Minus(next, start) }

    predicate MaySend() { positioned && Unacked() < window }

    function Tail(off: nat): seq<byte>
      requires Valid() && start <= off <= next
    {
      bytes[off - start..]
    }

    function Resend(off: nat): Resync
      requires Valid() && start <= off <= next
    {
      if off == next then Nothing else Retransmit(off, Tail(off))
    }

    function Detach(): Sender { this.(positioned := false, target := None) }

    function SetWindow(w: nat): Sender { this.(window := Max(w, CONSERVATIVE_WINDOW)) }

    function Send(chunk: seq<byte>): Sender {
      this.(bytes := bytes + chunk, next := next + |chunk|)
    }

    /** Forget what lies below `durable`, but never more than is held. */
    function Acknowledge(durable: nat): Sender
      requires Valid()
    {
      var to := Max(start, Min(durable, next));
      this.(start := to, bytes := Tail(to))
    }

    function Attach(n: nat): (Sender, Resync)
      requires Valid()
    {
      var here := if Fresh() then this.(start := n, next := n) else this;
      var there := here.(positioned := true, target := None);
      if n < here.start then
        (there, Unrecoverable)
      else if n <= here.next then
        (there, there.Resend(n))
      else
        (there.(start := n, bytes := [], next := n), Nothing)
    }

    function Mismatch(n: nat): (Sender, Resync)
      requires Valid()
    {
      var there := this.(target := Some(n));
      if target == Some(n) then
        (this, Nothing)
      else if start <= n <= next then
        (there, there.Resend(n))
      else
        (there, Unrecoverable)
    }
  }

  const NEW_SENDER := Sender(0, [], 0, false, None, CONSERVATIVE_WINDOW)

  // ------------------------------------------------------------- what the calls mean

  /** `s` holds the end of `stream`: nothing it could resend differs from what was sent. */
  predicate Holds(s: Sender, stream: seq<byte>) {
    s.Valid() && s.next == |stream| && At(stream, s.start, s.bytes)
  }

  /** Whatever a resynchronisation sends again is the stream's own bytes, up to its end. */
  predicate Replays(r: Resync, stream: seq<byte>, from: nat) {
    r.Retransmit? ==> r.start == from && At(stream, from, r.bytes) && from + |r.bytes| == |stream|
  }

  /**
   Answering an attach never moves the end of the stream, unless the relay is ahead of
   everything this side has; the three answers split exactly by where the relay is.
   */
  lemma AttachMeaning(s: Sender, stream: seq<byte>, n: nat)
    requires Holds(s, stream)
    ensures var (s', r) := s.Attach(n);
            && (r.Unrecoverable? <==> n < s.start)
            && (n <= |stream| <==> Holds(s', stream) && s'.start == s.start)
            && (|stream| < n ==> s'.start == s'.next == n && s'.bytes == [])
            && (r.Retransmit? <==> s.start <= n < |stream|)
            && Replays(r, stream, n)
            && s'.positioned && s'.target.None? && s'.window == s.window
  {
    if s.start <= n <= s.next {
      AtSlice(stream, s.start, s.bytes, n - s.start, |s.bytes|);
    }
  }

  /** A refusal is answered from the retained bytes or not at all, and an echo not twice. */
  lemma MismatchMeaning(s: Sender, stream: seq<byte>, n: nat)
    requires Holds(s, stream)
    ensures var (s', r) := s.Mismatch(n);
            && Holds(s', stream)
            && s'.start == s.start && s'.bytes == s.bytes && s'.positioned == s.positioned
            && Replays(r, stream, n)
            && (r.Unrecoverable? <==> s.target != Some(n) && !(s.start <= n <= |stream|))
            && (r.Retransmit? <==> s.target != Some(n) && s.start <= n < |stream|)
            && s'.Mismatch(n) == (s', Nothing)
  {
    if s.start <= n <= s.next {
      AtSlice(stream, s.start, s.bytes, n - s.start, |s.bytes|);
    }
  }

  /** Releasing keeps exactly the bytes not known to be durable. */
  lemma AcknowledgeMeaning(s: Sender, stream: seq<byte>, durable: nat)
    requires Holds(s, stream)
    ensures var s' := s.Acknowledge(durable);
            && Holds(s', stream)
            && s.start <= s'.start <= Max(s.start, durable)
            && (durable <= |stream| ==> s'.start == Max(s.start, durable))
            && s'.positioned == s.positioned && s'.target == s.target && s'.window == s.window
  {
    var to := Max(s.start, Min(durable, s.next));
    AtSlice(stream, s.start, s.bytes, to - s.start, |s.bytes|);
  }

  /** After a detach the same bytes are held, nothing may be sent, and any refusal is answered afresh. */
  lemma DetachMeaning(s: Sender, stream: seq<byte>, n: nat)
    requires Holds(s, stream)
    ensures var s' := s.Detach();
            && Holds(s', stream) && s'.start == s.start && s'.window == s.window && !s'.MaySend()
            && (s.start <= n < |stream| ==> s'.Mismatch(n).1.Retransmit?)
            && s'.Attach(n) == s.Attach(n)
  {
  }

  lemma SendMeaning(s: Sender, stream: seq<byte>, chunk: seq<byte>)
    requires Holds(s, stream)
    ensures Holds(s.Send(chunk), stream + chunk)
    ensures At(stream + chunk, s.next, chunk)
    ensures s.Send(chunk).start == s.start && s.Send(chunk).target == s.target
    ensures s.Send(chunk).MaySend() <==> s.positioned && |s.bytes| + |chunk| < s.window
  {
    AtGrows(stream, chunk, s.start, s.bytes);
    AtJoin(stream + chunk, s.start, s.bytes, chunk);
  }

  // ------------------------------------------------------------------- the objects

  /** The end of the stream: all that the relay could still ask for. */
  class Retained {
    var start: nat
    var bytes: seq<byte>

    constructor ()
      ensures start == 0 && bytes == []
    {
      start, bytes := 0, [];
    }

    function End(): nat
      reads this
    {
      start + |bytes|
    }

    method Append(chunk: seq<byte>)
      modifies this
      ensures start == old(start) && bytes == old(bytes) + chunk
    {
      bytes := bytes + chunk;
    }

    /** Let go of what lies below `durable`, as far as it is held. */
    method ReleaseThrough(durable: nat)
      modifies this
      ensures End() == old(End())
      ensures start == Max(old(start), Min(durable, old(End())))
      ensures bytes == old(bytes)[start - old(start)..]
    {
      if durable <= start {
        return;
      }
      var drop := Min(durable - start, |bytes|);
      bytes := bytes[drop..];
      start := start + drop;
    }

    /** What follows `offset`: `None` when that lies outside what is held. */
    method From(offset: nat) returns (r: Option<seq<byte>>)
      ensures r.Some? <==> start <= offset <= End()
      ensures r.Some? ==> r.value == bytes[offset - start..]
    {
      if offset < start || offset > End() {
        return None;
      }
      var skip := offset - start;
      return Some(bytes[skip..]);
    }

    method RestartAt(offset: nat)
      modifies this
      ensures start == offset && bytes == []
    {
      start := offset;
      bytes := [];
    }
  }

  /** The sender, updated in place. */
  class Outgoing {
    const retained: Retained
    var nextOffset: nat
    var positioned: bool
    var resyncTarget: Option<nat>
    var window: nat

    ghost predicate Valid()
      reads this, retained
    {
      View().Valid()
    }

    function View(): Sender
      reads this, retained
    {
      Sender(retained.start, retained.bytes, nextOffset, positioned, resyncTarget, window)
    }

    constructor ()
      ensures Valid() && fresh(retained) && View() == NEW_SENDER
    {
      retained := new Retained();
      nextOffset, positioned, resyncTarget, window := 0, false, None, CONSERVATIVE_WINDOW;
    }

    /** With the end of the retained bytes in place, `unacked` is how many there are. */
    method Unacked() returns (n: nat)
      requires Valid()
      ensures n == |retained.bytes| == View().Unacked()
    {
      n := Minus(nextOffset, retained.start);
    }

    method MaySend() returns (may: bool)
      requires Valid()
      ensures may <==> positioned && |retained.bytes| < window
      ensures may == View().MaySend()
    {
      var unacked := Unacked();
      may := positioned && unacked < window;
    }

    method SetWindow(w: nat)
      requires Valid()
      modifies this`window
      ensures Valid() && View() == old(View()).SetWindow(w)
    {
      window := Max(w, CONSERVATIVE_WINDOW);
    }

    method Detached()
      requires Valid()
      modifies this
      ensures Valid() && View() == old(View()).Detach()
    {
      positioned := false;
      resyncTarget := None;
    }

    method Attached(n: nat) returns (r: Resync)
      requires Valid()
      modifies this, retained
      ensures Valid() && (View(), r) == old(View()).Attach(n)
    {
      positioned := true;
      resyncTarget := None;
      if retained.bytes == [] && retained.start == 0 && nextOffset == 0 {
        retained.RestartAt(n);
      }
      if n < retained.start {
        r := Unrecoverable;
      } else {
        var tail := retained.From(n);
        match tail
        case Some(bytes) =>
          r := Resume(n, bytes);
        case None =>
          retained.RestartAt(n);
          nextOffset := n;
          r := Nothing;
      }
    }

    /** Go back to `from`: `bytes` are to follow. */
    method Resume(from: nat, bytes: seq<byte>) returns (r: Resync)
      modifies this`nextOffset
      ensures nextOffset == from + |bytes|
      ensures r == if bytes == [] then Nothing else Retransmit(from, bytes)
    {
      nextOffset := from + |bytes|;
      r := if bytes == [] then Nothing else Retransmit(from, bytes);
    }

    method Send(chunk: seq<byte>) returns (start: Option<nat>)
      requires Valid()
      modifies this, retained
      ensures Valid() && start.Some? == old(positioned)
      ensures start.Some? ==> start.value == old(nextOffset) && View() == old(View()).Send(chunk)
      ensures start.None? ==> View() == old(View())
    {
      if !positioned {
        return None;
      }
      start := Some(nextOffset);
      retained.Append(chunk);
      nextOffset := nextOffset + |chunk|;
    }

    method Acknowledge(durable: nat)
      requires Valid()
      modifies retained
      ensures Valid() && View() == old(View()).Acknowledge(durable)
    {
      retained.ReleaseThrough(durable);
    }

    method Mismatch(authoritative: nat) returns (r: Resync)
      requires Valid()
      modifies this, retained
      ensures Valid() && (View(), r) == old(View()).Mismatch(authoritative)
    {
      if resyncTarget == Some(authoritative) {
        return Nothing;
      }
      resyncTarget := Some(authoritative);
      var tail := retained.From(authoritative);
      match tail
      case Some(bytes) =>
        r := Resume(authoritative, bytes);
      case None =>
        r := Unrecoverable;
    }
  }
}
