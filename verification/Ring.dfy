/**
 The bounded replay buffer (`server/src/relay/ring.rs`).

 `Window` is the value a `Ring` denotes: a contiguous suffix of the stream, at most
 `capacity` bytes long.  `Deque` is the growable circular array underneath, whose contents
 lie in two contiguous halves.
 */
module ReplayRing {
  import opened Bytes

  datatype Window = Window(earliest: nat, bytes: seq<byte>, capacity: nat)
  {
    predicate Valid() { 1 <= capacity && |bytes| <= capacity }

    function End(): nat { earliest + |bytes| }

    /** What is left of `all`, which ends at offset `end`, in a window of `cap` bytes. */
    static function Newest(end: nat, all: seq<byte>, cap: nat): Window
      requires |all| <= end
    {
      Window(end - |Last(all, cap)|, Last(all, cap), cap)
    }

    /** Appending keeps the newest bytes of what was there and what came. */
    function Append(data: seq<byte>): (w: Window)
      ensures w.End() == End() + |data|
    {
      Newest(End() + |data|, bytes + data, capacity)
    }

    function SetCapacity(cap: nat): (w: Window)
      ensures w.End() == End()
    {
      Newest(End(), bytes, Max(cap, 1))
    }

    function Contains(from: nat, to: nat): bool { earliest <= from <= to <= End() }

    function Read(from: nat, to: nat): seq<byte>
      requires Contains(from, to)
    {
      bytes[from - earliest..to - earliest]
    }

    /** The window shows `stream`, and nothing else, up to its end. */
    predicate Shows(stream: seq<byte>) { End() == |stream| && At(stream, earliest, bytes) }
  }

  function Rebuilt(cap: nat, earliest: nat, stored: seq<byte>): Window {
    Window.Newest(earliest + |stored|, stored, Max(cap, 1))
  }

  // ------------------------------------------------------------ the stream it shows

  lemma NewestShows(stream: seq<byte>, off: nat, all: seq<byte>, cap: nat)
    requires At(stream, off, all) && off + |all| == |stream|
    ensures Window.Newest(|stream|, all, cap).Shows(stream)
  {
    AtSlice(stream, off, all, |all| - Min(|all|, cap), |all|);
  }

  lemma AppendShows(w: Window, stream: seq<byte>, data: seq<byte>)
    requires w.Shows(stream)
    ensures w.Append(data).Shows(stream + data)
  {
    AtGrows(stream, data, w.earliest, w.bytes);
    AtJoin(stream + data, w.earliest, w.bytes, data);
    NewestShows(stream + data, w.earliest, w.bytes + data, w.capacity);
  }

  lemma SetCapacityShows(w: Window, stream: seq<byte>, cap: nat)
    requires w.Shows(stream)
    ensures w.SetCapacity(cap).Shows(stream)
    ensures w.earliest <= w.SetCapacity(cap).earliest
  {
    NewestShows(stream, w.earliest, w.bytes, Max(cap, 1));
  }

  lemma ReadShows(w: Window, stream: seq<byte>, from: nat, to: nat)
    requires w.Shows(stream) && w.Contains(from, to)
    ensures At(stream, from, w.Read(from, to)) && |w.Read(from, to)| == to - from
  {
    AtSlice(stream, w.earliest, w.bytes, from - w.earliest, to - w.earliest);
  }

  // ------------------------------------------------------------- over whole histories

  datatype Op = Append(data: seq<byte>) | SetCapacity(cap: nat)

  function Apply(w: Window, op: Op): (w': Window)
    requires w.Valid()
    ensures w'.Valid()
  {
    match op
    case Append(data) => w.Append(data)
    case SetCapacity(cap) => w.SetCapacity(cap)
  }

  function Added(op: Op): seq<byte> { if op.Append? then op.data else [] }

  /** The count the operation returns: how many bytes it pushed out. */
  function Evicted(w: Window, op: Op): int
    requires w.Valid()
  {
    |w.bytes| + |Added(op)| - |Apply(w, op).bytes|
  }

  function Run(w: Window, ops: seq<Op>): (w': Window)
    requires w.Valid()
    ensures w'.Valid()
    decreases |ops|
  {
    if ops == [] then w else Run(Apply(w, ops[0]), ops[1..])
  }

  function TotalAdded(ops: seq<Op>): seq<byte> {
    if ops == [] then [] else Added(ops[0]) + TotalAdded(ops[1..])
  }

  function TotalEvicted(w: Window, ops: seq<Op>): int
    requires w.Valid()
    decreases |ops|
  {
    if ops == [] then 0 else Evicted(w, ops[0]) + TotalEvicted(Apply(w, ops[0]), ops[1..])
  }

  lemma StepKeepsASuffix(w: Window, stream: seq<byte>, op: Op)
    requires w.Valid() && w.Shows(stream)
    ensures Apply(w, op).Shows(stream + Added(op))
    ensures Evicted(w, op) == Apply(w, op).earliest - w.earliest >= 0
  {
    match op {
      case Append(data) => AppendShows(w, stream, data);
      case SetCapacity(cap) => SetCapacityShows(w, stream, cap); assert stream + [] == stream;
    }
  }

  /**
   Whatever is appended and however the capacity changes, the buffer is the contiguous
   suffix of everything there ever was, ends where the stream ends, and accounts for every
   byte: evicted plus retained is initial plus appended.
   */
  lemma {:induction false} HistoryKeepsASuffix(w: Window, stream: seq<byte>, ops: seq<Op>)
    requires w.Valid() && w.Shows(stream)
    ensures Run(w, ops).Shows(stream + TotalAdded(ops))
    ensures TotalEvicted(w, ops) + |Run(w, ops).bytes| == |w.bytes| + |TotalAdded(ops)|
    ensures TotalEvicted(w, ops) == Run(w, ops).earliest - w.earliest >= 0
    decreases |ops|
  {
    if ops == [] {
      assert stream + TotalAdded(ops) == stream;
    } else {
      var op, rest := ops[0], ops[1..];
      StepKeepsASuffix(w, stream, op);
      var w' := Apply(w, op);
      HistoryKeepsASuffix(w', stream + Added(op), rest);
      assert stream + Added(op) + TotalAdded(rest) == stream + (Added(op) + TotalAdded(rest));
    }
  }

  /** With one capacity throughout, the buffer is exactly the newest `capacity` bytes. */
  lemma {:induction false} FixedCapacityIsNewest(w: Window, ops: seq<Op>)
    requires w.Valid()
    requires forall op | op in ops :: op.Append?
    ensures Run(w, ops).bytes == Last(w.bytes + TotalAdded(ops), w.capacity)
    decreases |ops|
  {
    if ops == [] {
      assert w.bytes + TotalAdded(ops) == w.bytes;
    } else {
      var data := ops[0].data;
      FixedCapacityIsNewest(w.Append(data), ops[1..]);
      LastOfLast(w.bytes + data, TotalAdded(ops[1..]), w.capacity, w.capacity);
      assert w.bytes + TotalAdded(ops) == w.bytes + data + TotalAdded(ops[1..]);
    }
  }

  /** The newest `cap` bytes of `held + data`, as an append finds them. */
  lemma KeptTail(held: seq<byte>, data: seq<byte>, cap: nat)
    ensures cap <= |data| ==> Last(held + data, cap) == data[|data| - cap..]
    ensures |data| < cap && |held| <= cap ==>
              Last(held + data, cap) == held[Minus(|held| + |data|, cap)..] + data
  {
    var cut := Minus(|held| + |data|, cap);
    assert Last(held + data, cap) == (held + data)[cut..];
    if cap <= |data| {
      assert (held + data)[cut..] == data[cut - |held|..];
    } else if cut <= |held| {
      assert (held + data)[cut..] == held[cut..] + data;
    }
  }

  /** A range of two halves put together comes partly from one and partly from the other. */
  lemma ReadHalves(first: seq<byte>, second: seq<byte>, start: nat, len: nat)
    requires start + len <= |first| + |second|
    ensures var from1 := Min(start, |first|);
            var take1 := Min(|first| - from1, len);
            var from2 := Minus(start, |first|);
            && from2 + len - take1 <= |second|
            && (first + second)[start..start + len]
               == first[from1..from1 + take1] + second[from2..from2 + (len - take1)]
            && (take1 == len ==> (first + second)[start..start + len] == first[from1..from1 + take1])
  {
  }

  /** What each way of appending, and shrinking, leaves of a window. */
  lemma SlideIs(w: Window, data: seq<byte>, evicted: nat)
    requires w.Valid() && |data| < w.capacity && evicted == Minus(|w.bytes| + |data|, w.capacity)
    ensures evicted <= |w.bytes|
    ensures w.Append(data) == Window(w.earliest + evicted, w.bytes[evicted..] + data, w.capacity)
  {
    KeptTail(w.bytes, data, w.capacity);
  }

  lemma RefillIs(w: Window, data: seq<byte>)
    requires w.Valid() && w.capacity <= |data|
    ensures w.Append(data) == Window(w.End() + |data| - w.capacity, data[|data| - w.capacity..], w.capacity)
  {
    KeptTail(w.bytes, data, w.capacity);
  }

  lemma ShrinkIs(w: Window, cap: nat, evicted: nat)
    requires w.Valid() && evicted == Minus(|w.bytes|, Max(cap, 1))
    ensures evicted <= |w.bytes|
    ensures w.SetCapacity(cap) == Window(w.earliest + evicted, w.bytes[evicted..], Max(cap, 1))
  {
  }

  lemma OneMore(held: seq<byte>, more: seq<byte>, i: nat)
    requires i < |more|
    ensures held + more[..i] + [more[i]] == held + more[..i + 1]
  {
    assert more[..i + 1] == more[..i] + [more[i]];
  }

  /** `[start, start + len)` of two halves, copied from one and then the other. */
  method CopyOut(first: seq<byte>, second: seq<byte>, start: nat, len: nat) returns (out: seq<byte>)
    requires start + len <= |first| + |second|
    ensures out == (first + second)[start..start + len]
  {
    var fromFirst := Min(start, |first|);
    var takeFirst := Min(|first| - fromFirst, len);
    ReadHalves(first, second, start, len);
    out := first[fromFirst..fromFirst + takeFirst];
    if |out| < len {
      var remaining := len - |out|;
      var fromSecond := Minus(start, |first|);
      out := out + second[fromSecond..fromSecond + remaining];
    }
  }

  // --------------------------------------------------------------------- the objects

  /** A double-ended queue over a circular array that grows when it is full. */
  class Deque {
    var data: array<byte>
    var head: nat
    var len: nat

    ghost predicate Valid()
      reads this
    {
      1 <= data.Length && head < data.Length && len <= data.Length
    }

    /** The part that lies before the wrap-around. */
    function First(): seq<byte>
      requires Valid()
      reads this, data
    {
      data[head..Min(head + len, data.Length)]
    }

    /** The part that has wrapped around to the front of the array. */
    function Second(): seq<byte>
      requires Valid()
      reads this, data
    {
      data[..Minus(head + len, data.Length)]
    }

    function Contents(): (s: seq<byte>)
      requires Valid()
      reads this, data
      ensures |s| == len
    {
      First() + Second()
    }

    constructor ()
      ensures Valid() && fresh(data) && Contents() == []
    {
      data := new byte[1];
      head, len := 0, 0;
    }

    method AsSlices() returns (first: seq<byte>, second: seq<byte>)
      requires Valid()
      ensures first + second == Contents()
    {
      first, second := First(), Second();
    }

    method Clear()
      requires Valid()
      modifies this
      ensures Valid() && data == old(data) && Contents() == []
    {
      head, len := 0, 0;
    }

    /** Remove the oldest `n` bytes. */
    method Drain(n: nat)
      requires Valid() && n <= len
      modifies this
      ensures Valid() && data == old(data)
      ensures Contents() == old(Contents())[n..]
    {
      head := if head + n < data.Length then head + n else head + n - data.Length;
      len := len - n;
    }

    method Grow(room: nat)
      requires Valid() && data.Length < room
      modifies this
      ensures Valid() && fresh(data) && data.Length >= room && len == old(len)
      ensures Contents() == old(Contents())
    {
      var bigger := new byte[Max(room, 2 * data.Length)];
      var all := Contents();
      forall i | 0 <= i < len {
        bigger[i] := all[i];
      }
      data, head := bigger, 0;
      assert First() == all && Second() == [];
    }

    method PushBack(b: byte)
      requires Valid() && len < data.Length
      modifies this, data
      ensures Valid() && data == old(data) && len == old(len) + 1
      ensures Contents() == old(Contents()) + [b]
    {
      var slot := if head + len < data.Length then head + len else head + len - data.Length;
      data[slot] := b;
      len := len + 1;
    }

    method Extend(more: seq<byte>)
      requires Valid()
      modifies this, data
      ensures Valid() && (data == old(data) || fresh(data))
      ensures Contents() == old(Contents()) + more
    {
      if data.Length < len + |more| {
        Grow(len + |more|);
      }
      for i := 0 to |more|
        invariant Valid() && (data == old(data) || fresh(data))
        invariant len + (|more| - i) <= data.Length
        invariant Contents() == old(Contents()) + more[..i]
      {
        PushBack(more[i]);
        OneMore(old(Contents()), more, i);
      }
      assert more[..|more|] == more;
    }
  }

  class Ring {
    const buf: Deque
    var earliest: nat
    var capacity: nat

    ghost predicate Valid()
      reads this, buf, buf.data
    {
      buf.Valid() && View().Valid()
    }

    ghost function View(): Window
      requires buf.Valid()
      reads this, buf, buf.data
    {
      Window(earliest, buf.Contents(), capacity)
    }

    constructor (capacity: nat, earliest: nat)
      ensures Valid() && fresh(buf) && fresh(buf.data)
      ensures View() == Window(earliest, [], Max(capacity, 1))
    {
      this.buf := new Deque();
      this.earliest := earliest;
      this.capacity := Max(capacity, 1);
    }

    /** Rebuild from a durable checkpoint, trimming to a since-reduced capacity. */
    constructor FromRetained(capacity: nat, earliest: nat, retained: seq<byte>)
      ensures Valid() && fresh(buf) && fresh(buf.data)
      ensures View() == Rebuilt(capacity, earliest, retained)
    {
      this.buf := new Deque();
      this.earliest := earliest;
      this.capacity := Max(capacity, 1);
      new;
      var drop := Minus(|retained|, this.capacity);
      if drop > 0 {
        this.earliest := this.earliest + drop;
      }
      assert [] + retained[drop..] == retained[drop..];
      buf.Extend(retained[drop..]);
    }

    /** Drop the oldest `n` bytes. */
    method Evict(n: nat)
      requires buf.Valid() && n <= buf.len
      modifies this, buf
      ensures buf.Valid() && buf.data == old(buf.data)
      ensures View() == Window(old(earliest) + n, old(buf.Contents())[n..], old(capacity))
    {
      if n > 0 {
        earliest := earliest + n;
        buf.Drain(n);
      }
    }

    method SetCapacity(cap: nat) returns (evicted: nat)
      requires Valid()
      modifies this, buf
      ensures Valid() && buf.data == old(buf.data)
      ensures View() == old(View()).SetCapacity(cap)
      ensures evicted == old(buf.len) - buf.len
    {
      var wanted := Max(cap, 1);
      evicted := if wanted == capacity then 0 else Minus(buf.len, wanted);
      ShrinkIs(View(), cap, evicted);
      capacity := wanted;
      Evict(evicted);
    }

    /** The frame fills the whole window: only its own tail stays. */
    method Refill(data: seq<byte>) returns (evicted: nat)
      requires Valid() && |data| >= capacity
      modifies this, buf, buf.data
      ensures Valid() && (buf.data == old(buf.data) || fresh(buf.data))
      ensures View() == old(View()).Append(data)
      ensures evicted == old(buf.len) + |data| - buf.len
    {
      RefillIs(View(), data);
      var newEnd := earliest + buf.len + |data|;
      evicted := buf.len + (|data| - capacity);
      earliest := newEnd - capacity;
      buf.Clear();
      ghost var tail := data[|data| - capacity..];
      assert [] + tail == tail;
      buf.Extend(data[|data| - capacity..]);
    }

    /** Make room by dropping the oldest bytes, then take the frame in whole. */
    method Slide(data: seq<byte>) returns (evicted: nat)
      requires Valid() && |data| < capacity
      modifies this, buf, buf.data
      ensures Valid() && (buf.data == old(buf.data) || fresh(buf.data))
      ensures View() == old(View()).Append(data)
      ensures evicted == old(buf.len) + |data| - buf.len
    {
      evicted := Minus(buf.len + |data|, capacity);
      SlideIs(View(), data, evicted);
      Evict(evicted);
      buf.Extend(data);
    }

    /**
     Take a frame in behind the rest, letting the oldest bytes go.  Of a frame that fills the
     window by itself only the tail is kept, though the end moves on by all of it.
     */
    method Append(data: seq<byte>) returns (evicted: nat)
      requires Valid()
      modifies this, buf, buf.data
      ensures Valid() && (buf.data == old(buf.data) || fresh(buf.data))
      ensures View() == old(View()).Append(data)
      ensures evicted == old(buf.len) + |data| - buf.len
    {
      if data == [] {
        evicted := 0;
        assert Last(buf.Contents() + data, capacity) == buf.Contents();
      } else if |data| >= capacity {
        evicted := Refill(data);
      } else {
        evicted := Slide(data);
      }
    }

    /** Copy out `[from, to)` from the two halves, or `None` when any of it is not held. */
    method ReadRange(from: nat, to: nat) returns (r: Option<seq<byte>>)
      requires Valid()
      ensures r.Some? <==> View().earliest <= from <= to <= View().earliest + |View().bytes|
      ensures r.Some? ==> r.value == View().Read(from, to)
    {
      r := None;
      if from <= to && earliest <= from && to <= earliest + buf.len {
        var first, second := buf.AsSlices();
        var out := CopyOut(first, second, from - earliest, to - from);
        r := Some(out);
      }
    }
  }
}
