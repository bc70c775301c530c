/**
 From the driver through the connection to the relay's append
 (`publisher/src/publish.rs`, `publisher/src/session.rs`, `server/src/relay/terminal.rs`): the
 pieces the driver asks for, split once more by the connection, are what the relay is given, and
 an answer to the relay's word brings the relay to where the driver is.
 */
module Transport {
  import opened Bytes
  import opened Stream
  import opened Publish
  import opened Answers
  import opened RelayTerminal
  import Multiplexing

  type Id = Multiplexing.Id

  // --------------------------------------------------------------------- the connection

  /** What the connection writes for the output one attached terminal asks for. */
  function Framed(id: Id, requests: seq<Request>, k: nat): seq<Multiplexing.Wire>
    requires 1 <= k
  {
    if requests == [] then []
    else
      (if requests[0].Output? then Multiplexing.Frames(id, requests[0].start, requests[0].bytes, k) else [])
      + Framed(id, requests[1..], k)
  }

  /** The output frames for one terminal among all messages, as the relay reads them. */
  function Outputs(wires: seq<Multiplexing.Wire>, id: Id): seq<Request> {
    if wires == [] then []
    else
      (if wires[0].Output? && wires[0].id == id then [Request.Output(wires[0].start, wires[0].bytes)] else [])
      + Outputs(wires[1..], id)
  }

  lemma {:induction false} OutputsJoin(a: seq<Multiplexing.Wire>, b: seq<Multiplexing.Wire>, id: Id)
    ensures Outputs(a + b, id) == Outputs(a, id) + Outputs(b, id)
    decreases |a|
  {
    if a == [] {
      assert a + b == b;
    } else {
      assert (a + b)[1..] == a[1..] + b;
      OutputsJoin(a[1..], b, id);
    }
  }

  lemma OutputsFirst(first: Multiplexing.Wire, rest: seq<Multiplexing.Wire>)
    requires first.Output?
    ensures Outputs([first] + rest, first.id) == [Request.Output(first.start, first.bytes)] + Outputs(rest, first.id)
  {
    assert ([first] + rest)[1..] == rest;
  }

  /** The connection's split of one request is the driver's own, at the connection's limit. */
  lemma {:induction false} FramesAreSlices(id: Id, start: nat, bytes: seq<byte>, k: nat)
    requires 1 <= k
    ensures Outputs(Multiplexing.Frames(id, start, bytes, k), id) == Slices(start, bytes, k)
    decreases |bytes|
  {
    if bytes != [] {
      var n := Min(k, |bytes|);
      FramesAreSlices(id, start + n, bytes[n..], k);
      OutputsFirst(Multiplexing.Output(id, start, bytes[..n]), Multiplexing.Frames(id, start + n, bytes[n..], k));
      assert n == |bytes| ==> bytes[..n] == bytes && bytes[n..] == [];
    }
  }

  lemma {:induction false} FramedIsResplit(id: Id, requests: seq<Request>, k: nat)
    requires 1 <= k
    ensures Outputs(Framed(id, requests, k), id) == Resplit(requests, k)
    decreases |requests|
  {
    if requests != [] {
      var first := if requests[0].Output? then Multiplexing.Frames(id, requests[0].start, requests[0].bytes, k) else [];
      OutputsJoin(first, Framed(id, requests[1..], k), id);
      FramedIsResplit(id, requests[1..], k);
      if requests[0].Output? {
        FramesAreSlices(id, requests[0].start, requests[0].bytes, k);
      }
    }
  }

  /** `all` is `mine` and `others`, each in its own order. */
  predicate Merges(all: seq<Multiplexing.Wire>, mine: seq<Multiplexing.Wire>, others: seq<Multiplexing.Wire>) {
    if all == [] then mine == [] && others == []
    else
      || (mine != [] && mine[0] == all[0] && Merges(all[1..], mine[1..], others))
      || (others != [] && others[0] == all[0] && Merges(all[1..], mine, others[1..]))
  }

  /** One of the two after the other is a merge of both. */
  lemma {:induction false} OneAfterTheOther(mine: seq<Multiplexing.Wire>, others: seq<Multiplexing.Wire>)
    ensures Merges(mine + others, mine, others)
    decreases |mine| + |others|
  {
    if mine != [] {
      assert (mine + others)[1..] == mine[1..] + others;
      OneAfterTheOther(mine[1..], others);
    } else if others != [] {
      assert (mine + others)[1..] == mine + others[1..];
      OneAfterTheOther(mine, others[1..]);
    }
  }

  /** Messages about other terminals, of whatever kind, and anything about this one but output. */
  predicate NotFor(others: seq<Multiplexing.Wire>, id: Id) {
    forall w | w in others :: !(w.Output? && w.id == id)
  }

  /** Sharing the connection changes nothing about what the relay reads for one terminal. */
  lemma {:induction false} OthersDoNotMatter(all: seq<Multiplexing.Wire>, mine: seq<Multiplexing.Wire>,
                                             others: seq<Multiplexing.Wire>, id: Id)
    requires Merges(all, mine, others) && NotFor(others, id)
    ensures Outputs(all, id) == Outputs(mine, id)
    decreases |all|
  {
    if all != [] {
      if mine != [] && mine[0] == all[0] && Merges(all[1..], mine[1..], others) {
        OthersDoNotMatter(all[1..], mine[1..], others, id);
      } else {
        assert others[0] in others;
        OthersDoNotMatter(all[1..], mine, others[1..], id);
      }
    }
  }

  /** What the connection frames for another terminal is not for this one: attached terminals have different ids. */
  lemma {:induction false} FramedIsNotForOthers(id: Id, requests: seq<Request>, k: nat, other: Id)
    requires 1 <= k && id != other
    ensures NotFor(Framed(id, requests, k), other)
    decreases |requests|
  {
    if requests != [] {
      if requests[0].Output? {
        Multiplexing.FramesAreOutputOf(id, requests[0].start, requests[0].bytes, k);
      }
      FramedIsNotForOthers(id, requests[1..], k, other);
    }
  }

  lemma FramedOneMore(id: Id, requests: seq<Request>, i: nat, k: nat)
    requires 1 <= k && i < |requests|
    ensures Framed(id, requests[i..], k)
         == (if requests[i].Output? then Multiplexing.Frames(id, requests[i].start, requests[i].bytes, k) else [])
            + Framed(id, requests[i + 1..], k)
  {
    assert requests[i..][1..] == requests[i + 1..];
  }

  /** A driver's requests, handed to the connection one by one. */
  method Forward(connection: Multiplexing.Multiplexer, r: Multiplexing.Ref, requests: seq<Request>, k: nat)
    requires connection.Valid() && 1 <= k
    requires r in connection.terminals && connection.terminals[r].id.Some?
    modifies connection`sent
    ensures connection.Valid()
    ensures connection.sent == old(connection.sent) + Framed(connection.terminals[r].id.value, requests, k)
  {
    hide Framed, Multiplexing.Frames, Multiplexing.OutputOf, Multiplexing.Conserved, Multiplexing.Routed;
    ghost var id, was := connection.terminals[r].id.value, connection.sent;
    assert requests[0..] == requests;
    for i := 0 to |requests|
      invariant connection.Valid()
      invariant connection.sent + Framed(id, requests[i..], k) == was + Framed(id, requests, k)
    {
      FramedOneMore(id, requests, i, k);
      ghost var before, rest := connection.sent, Framed(id, requests[i + 1..], k);
      if requests[i].Output? {
        connection.OnOutput(r, requests[i].start, requests[i].bytes, k);
        ghost var frames := Multiplexing.Frames(id, requests[i].start, requests[i].bytes, k);
        assert before + (frames + rest) == before + frames + rest;
      } else {
        assert [] + rest == rest;
      }
    }
    assert connection.sent + Framed(id, requests[|requests|..], k) == connection.sent by {
      NothingFramed(id, requests[|requests|..], k);
    }
  }

  lemma NothingFramed(id: Id, none: seq<Request>, k: nat)
    requires 1 <= k && none == []
    ensures Framed(id, none, k) == []
  {
  }

  // -------------------------------------------------------------------------- the relay

  /** A terminal given frames one after the other, up to the first it does not take. */
  function TakeAll(t: Term, frames: seq<Request>, cap: nat): (Term, bool)
    decreases |frames|
  {
    if frames == [] then (t, true)
    else if !frames[0].Output? then (t, false)
    else
      var (next, r) := t.Append(frames[0].start, frames[0].bytes, cap);
      if r.Accepted? then TakeAll(next, frames[1..], cap) else (t, false)
  }

  /** The relay's append takes exactly what a bare log would, and shows it. */
  lemma {:induction false} TakeAllIsAcceptAll(t: Term, log: seq<byte>, frames: seq<Request>, cap: nat)
    requires t.Sound(log) && t.life.Open?
    ensures var (after, ok) := TakeAll(t, frames, cap);
            && ok == AcceptAll(log, frames).1 && after.Sound(AcceptAll(log, frames).0)
            && after.life.Open? && after.durable == t.durable
    decreases |frames|
  {
    if frames != [] && frames[0].Output? {
      AppendMeaning(t, log, frames[0].start, frames[0].bytes, cap);
      if frames[0].start == |log| {
        var next := t.Append(frames[0].start, frames[0].bytes, cap).0;
        TakeAllIsAcceptAll(next, log + frames[0].bytes, frames[1..], cap);
      }
    }
  }

  // ------------------------------------------------------------------------ end to end

  lemma {:induction false} ResplitIsOfSent(requests: seq<Request>, k: nat)
    requires 1 <= k
    ensures Resplit(requests, k) == Resplit(Sent(requests), k)
    decreases |requests|
  {
    if requests != [] {
      ResplitIsOfSent(requests[1..], k);
      if requests[0].Output? {
        assert Sent(requests)[1..] == Sent(requests[1..]);
      } else {
        assert Sent(requests) == Sent(requests[1..]);
      }
    }
  }

  /** Whatever a log would accept of a driver's requests, the relay takes through a shared connection. */
  lemma RequestsReachRelay(t: Term, log: seq<byte>, requests: seq<Request>, id: Id, k: nat, cap: nat,
                           wires: seq<Multiplexing.Wire>, others: seq<Multiplexing.Wire>)
    requires t.Sound(log) && t.life.Open? && 1 <= k && AcceptAll(log, Sent(requests)).1
    requires Merges(wires, Framed(id, requests, k), others) && NotFor(others, id)
    ensures var (after, ok) := TakeAll(t, Outputs(wires, id), cap);
            ok && after.Sound(AcceptAll(log, Sent(requests)).0)
  {
    OthersDoNotMatter(wires, Framed(id, requests, k), others, id);
    FramedIsResplit(id, requests, k);
    ResplitIsOfSent(requests, k);
    ResplitIsAccepted(log, Sent(requests), k);
    TakeAllIsAcceptAll(t, log, Resplit(requests, k), cap);
  }

  /**
   After an attach at the relay's own offset, the frames that reach the relay for the terminal, with
   those of other terminals in between, are all taken by its append, and relay and driver stand at
   the same place with the same bytes.
   */
  lemma AttachReachesRelay(d: Driver, stream: seq<byte>, t: Term, limits: Limits, id: Id, k: nat, cap: nat,
                           wires: seq<Multiplexing.Wire>, others: seq<Multiplexing.Wire>)
    requires Ok(d) && Holds(d.stream, stream) && d.stream.start <= t.next <= |stream| && 1 <= k
    requires t.Sound(stream[..t.next]) && t.life.Open?
    requires Merges(wires, Framed(id, OnEvent(d, Attached(t.next, limits)).out, k), others) && NotFor(others, id)
    ensures var (after, ok) := TakeAll(t, Outputs(wires, id), cap);
            ok && after.Sound(stream) && after.next == OnEvent(d, Attached(t.next, limits)).d.stream.next == |stream|
  {
    AttachIsAnswered(d, stream, t.next, limits);
    var out := OnEvent(d, Attached(t.next, limits)).out;
    SentIsAll(out, Max(limits.maxFrame, 1024));
    RequestsReachRelay(t, stream[..t.next], out, id, k, cap, wires, others);
  }

  /** The same for the first answer to a refusal. */
  lemma MismatchReachesRelay(d: Driver, stream: seq<byte>, t: Term, id: Id, k: nat, cap: nat,
                             wires: seq<Multiplexing.Wire>, others: seq<Multiplexing.Wire>)
    requires Ok(d) && Holds(d.stream, stream) && d.stream.start <= t.next <= |stream| && 1 <= k
    requires d.stream.target != Some(t.next) && t.Sound(stream[..t.next]) && t.life.Open?
    requires Merges(wires, Framed(id, OnEvent(d, Mismatch(t.next)).out, k), others) && NotFor(others, id)
    ensures var (after, ok) := TakeAll(t, Outputs(wires, id), cap);
            ok && after.Sound(stream) && after.next == OnEvent(d, Mismatch(t.next)).d.stream.next == |stream|
  {
    MismatchIsAnswered(d, stream, t.next);
    var out := OnEvent(d, Mismatch(t.next)).out;
    SentIsAll(out, d.maxFrame);
    RequestsReachRelay(t, stream[..t.next], out, id, k, cap, wires, others);
  }

  /**
   And so on for the whole run after the relay's word: as long as what the driver asks for is carried
   in order, all of it is taken, and the relay keeps up to the end of the stream.
   */
  lemma RunReachesRelay(d: Driver, stream: seq<byte>, t: Term, event: Event, picks: seq<Pick>, id: Id, k: nat, cap: nat,
                        wires: seq<Multiplexing.Wire>, others: seq<Multiplexing.Wire>)
    requires Ok(d) && Holds(d.stream, stream) && d.phase == Running && 1 <= k
    requires Names(Head(d).d, stream + Head(d).appended, event, t.next)
    requires forall pick | pick in picks :: Quiet(pick)
    requires t.Sound((stream + Head(d).appended)[..t.next]) && t.life.Open?
    requires var first := Pass(d, FromRelay(event));
             && Head(d).out <= first.out
             && Merges(wires, Framed(id, first.out[|Head(d).out|..] + Passes(first.d, picks).out, k), others)
             && NotFor(others, id)
    ensures var first := Pass(d, FromRelay(event));
            var later := Passes(first.d, picks);
            var (after, ok) := TakeAll(t, Outputs(wires, id), cap);
            && ok && after.Sound(stream + first.appended + later.appended)
            && after.next == later.d.stream.next
  {
    var first := Pass(d, FromRelay(event));
    PassAnswers(d, stream, event, t.next);
    EverythingArrives(d, stream, event, t.next, picks);
    RequestsReachRelay(t, (stream + first.appended)[..t.next], first.out[|Head(d).out|..] + Passes(first.d, picks).out,
                       id, k, cap, wires, others);
  }
}
