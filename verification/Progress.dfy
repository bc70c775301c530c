/**
 What a run can still come to: from every world, steps that bring everything the shell's owner
 has handed over to the relay's database, and the acknowledgement of it back to the driver.
 */
module Progress {
  import opened Bytes
  import opened Stream
  import opened Publish
  import opened Answers
  import opened Store
  import opened RelayTerminal
  import opened RelayProcess
  import opened Protocol
  import opened Runs

  // ----------------------------------------------------------------------- leading to

  /** No frame is held up: it comes when nothing is dirty, and so the back pressure lets it in at once. */
  predicate Unhindered(w: World, step: Step) {
    step.Arrives? ==> w.relay.term.Dirty() == 0
  }

  predicate CanTake(w: World, steps: seq<Step>)
    decreases |steps|
  {
    || steps == []
    || (Ok(w.client) && Enabled(w, steps[0]) && Unhindered(w, steps[0]) && CanTake(Next(w, steps[0]), steps[1..]))
  }

  function After(w: World, steps: seq<Step>): World
    requires CanTake(w, steps)
    decreases |steps|
  {
    if steps == [] then w else After(Next(w, steps[0]), steps[1..])
  }

  /** One world can become the other. */
  ghost predicate Leads(w: World, w': World) {
    exists steps :: CanTake(w, steps) && After(w, steps) == w'
  }

  lemma Stays(w: World)
    ensures Leads(w, w)
  {
    assert CanTake(w, []) && After(w, []) == w;
  }

  lemma {:induction false} TakenInTurn(w: World, first: seq<Step>, rest: seq<Step>)
    requires CanTake(w, first) && CanTake(After(w, first), rest)
    ensures CanTake(w, first + rest) && After(w, first + rest) == After(After(w, first), rest)
    decreases |first|
  {
    hide Next, Enabled, Ok, Unhindered;
    if first == [] {
      assert first + rest == rest;
    } else {
      assert (first + rest)[1..] == first[1..] + rest;
      TakenInTurn(Next(w, first[0]), first[1..], rest);
    }
  }

  lemma LeadsOn(a: World, b: World, c: World)
    requires Leads(a, b) && Leads(b, c)
    ensures Leads(a, c)
  {
    hide CanTake, After;
    var first :| CanTake(a, first) && After(a, first) == b;
    var rest :| CanTake(b, rest) && After(b, rest) == c;
    TakenInTurn(a, first, rest);
  }

  lemma Steps(w: World, step: Step)
    requires Ok(w.client) && Enabled(w, step) && Unhindered(w, step)
    ensures Leads(w, Next(w, step))
  {
    hide Next, Enabled, Ok;
    assert [step][1..] == [];
    assert CanTake(Next(w, step), []);
    assert CanTake(w, [step]) && After(w, [step]) == Next(w, step);
  }

  // ------------------------------------------------------------------ while all is well

  /** A checkpoint that closes the terminal is only taken of one that is being closed. */
  predicate ClosesInTurn(r: Relay) {
    r.term.life.Open? && !r.flight.Quiet? ==> r.flight.cp.close.None?
  }

  lemma StepClosesInTurn(w: World, step: Step)
    requires Ok(w.client) && Enabled(w, step) && ClosesInTurn(w.relay)
    ensures ClosesInTurn(Next(w, step).relay)
  {
    hide Pass, Commit, Load, Restore;
    if step.Starts? {
      CheckpointTakenIff(w.relay.term);
    }
  }

  /** The relay has been told of every commit, and no flush has been abandoned. */
  predicate Orderly(r: Relay) { Informed(r) && r.late == [] && ClosesInTurn(r) }

  ghost predicate Healthy(w: World) {
    Faithful(w) && Resumable(w) && Kempt(w.relay, w.stream) && Orderly(w.relay)
  }

  /** The driver is at work, and so is the terminal. */
  ghost predicate Alive(w: World) {
    Healthy(w) && w.client.phase == Running && w.relay.term.life.Open?
  }

  lemma StepIsHealthy(w: World, step: Step)
    requires Healthy(w) && BeginsSaved(w, step) && Enabled(w, step) && !step.Abandons? && !step.Forgets?
    requires Unhindered(w, step)
    ensures Ok(w.client) && Leads(w, Next(w, step)) && Healthy(Next(w, step))
  {
    hide Next, Enabled, Resumable, Kempt, Informed, RelayOk, Secured, ClosesInTurn;
    assert KeepsTerminal(w, step);
    assert !step.LateCommits? by {
      NoneIsLate(w, step);
    }
    StepKeepsFaith(w, step);
    StepKeepsResuming(w, step);
    StepKeepsKempt(w, step);
    StepKeepsInformed(w, step);
    StepClosesInTurn(w, step);
    Steps(w, step);
  }

  lemma NoneIsLate(w: World, step: Step)
    requires Enabled(w, step) && w.relay.late == []
    ensures !step.LateCommits?
  {
  }

  // --------------------------------------------------- the connection breaks and comes back

  lemma {:induction false} AllIsLost(w: World)
    requires Alive(w)
    ensures Leads(w, w.(down := [])) && Alive(w.(down := []))
    decreases |w.down|
  {
    hide Healthy;
    if w.down == [] {
      assert w == w.(down := []);
      Stays(w);
    } else {
      StepIsHealthy(w, Loses(0));
      var one := Next(w, Loses(0));
      assert one == w.(down := one.down) && |one.down| < |w.down|;
      AllIsLost(one);
      LeadsOn(w, one, w.(down := []));
    }
  }

  /** What an attach makes of the driver, whatever it had to do first. */
  lemma AttachPass(d: Driver, stream: seq<byte>, n: nat, limits: Limits)
    requires Ok(d) && Holds(d.stream, stream) && d.phase == Running && d.stream.start <= n <= |stream|
    ensures var e := Pass(d, FromRelay(Attached(n, limits)));
            var here := stream + e.appended;
            && Head(d).out <= e.out && e.d.phase == Running && Holds(e.d.stream, here) && n <= |here|
            && AcceptAll(here[..n], e.out[|Head(d).out|..]) == (here, true)
            && e.d.stream.positioned && 0 < e.d.stream.window
            && e.d.ownerGone == d.ownerGone
            && (d.waiting.None? || d.stream.MaySend() ==> e.d.waiting.None?)
            && (d.waiting.None? ==> e.appended == [])
            && (d.closed || (d.ownerGone && d.waiting.None? && d.stream.bytes == []) ==> e.d.closed)
  {
    hide Slices, AcceptAll;
    HeadDelivers(d, stream);
    HeadReleasesNothing(d);
    var head, here := Head(d), stream + Head(d).appended;
    assert Answers.Names(head.d, here, Attached(n, limits), n);
    PassAnswers(d, stream, Attached(n, limits), n);
    AttachIsAnswered(head.d, here, n, limits);
  }

  /** What an acknowledgement of everything sent so far makes of it. */
  lemma AckPass(d: Driver, stream: seq<byte>)
    requires Ok(d) && Holds(d.stream, stream) && d.phase == Running && d.stream.positioned && 0 < d.stream.window
    ensures var e := Pass(d, FromRelay(Ack(|stream|)));
            && e.d.phase == Running && Holds(e.d.stream, stream + e.appended) && e.d.stream.start == |stream|
            && e.d.ownerGone == d.ownerGone && (d.closed ==> e.d.closed)
            && (e.d.waiting.Some? ==> e.d.stream.MaySend())
            && (d.waiting.None? ==> e.appended == [] && e.d.waiting.None?)
  {
    HeadDelivers(d, stream);
    HeadReleasesNothing(d);
    var head, here := Head(d), stream + Head(d).appended;
    OthersAreHeard(head.d, here, Ack(|stream|));
    AcknowledgeMeaning(head.d.stream, here, |stream|);
    assert head.appended + [] == head.appended;
  }

  /** The two worlds have the same run behind them, with the stream of the one grown to the other's. */
  predicate GoesOn(w: World, w': World) {
    && w'.taken == w.taken && w'.client.ownerGone == w.client.ownerGone
    && (w.joined ==> w'.joined && w'.base == w.base && w.stream <= w'.stream)
  }

  lemma ReopeningIs(w: World, limits: Limits)
    requires Ok(w.client) && w.relay.term.life.Open? && w.down == []
    ensures Enabled(w, Reopens(limits))
    ensures Next(w, Reopens(limits)) == w.(down := [Attached(w.relay.term.next, limits)])
  {
  }

  lemma HearingIs(w: World, event: Event)
    requires Ok(w.client) && w.joined && w.down == [event]
    ensures Enabled(w, ClientHears)
    ensures var e := Pass(w.client, FromRelay(event));
            Next(w, ClientHears)
            == w.(stream := w.stream + e.appended, client := e.d, frames := w.frames + e.out, down := [])
  {
    assert w.taken + [] == w.taken && w.down[1..] == [];
  }

  lemma ResumesWithin(w: World)
    requires Alive(w) && w.joined
    ensures Ok(w.client) && Holds(w.client.stream, w.stream)
    ensures w.client.stream.start + |w.client.stream.bytes| == |w.stream|
    ensures w.client.stream.start <= w.relay.term.next <= |w.stream|
  {
    SecuredBelow(w.relay, w.stream, w.client.stream.start, 0);
  }

  /** The relay names its end, and the driver answers with everything behind it. */
  lemma Reattached(w: World, limits: Limits) returns (w': World, m: nat)
    requires Alive(w) && w.joined && w.down == []
    ensures Leads(w, w') && Alive(w') && GoesOn(w, w') && w'.down == [] && w'.relay == w.relay
    ensures m <= |w'.frames| && w'.relay.term.next <= |w'.stream|
    ensures AcceptAll(w'.stream[..w'.relay.term.next], w'.frames[m..]) == (w'.stream, true)
    ensures w'.client.stream.positioned && 0 < w'.client.stream.window
    ensures w.client.waiting.None? || w.client.stream.MaySend() ==> w'.client.waiting.None?
    ensures w.client.waiting.None? ==> w'.stream == w.stream
    ensures w.client.closed || (w.client.ownerGone && w.client.waiting.None? && w.client.stream.bytes == [])
            ==> w'.client.closed
  {
    hide Next, Enabled, Pass, Head, AcceptAll, Healthy, Holds, Ok;
    var n, d := w.relay.term.next, w.client;
    ResumesWithin(w);
    ReopeningIs(w, limits);
    StepIsHealthy(w, Reopens(limits));
    var asked := Next(w, Reopens(limits));
    HearingIs(asked, Attached(n, limits));
    StepIsHealthy(asked, ClientHears);
    w' := Next(asked, ClientHears);
    LeadsOn(w, asked, w');
    AttachPass(d, w.stream, n, limits);
    var e := Pass(d, FromRelay(Attached(n, limits)));
    m := |w.frames| + |Head(d).out|;
    assert w'.frames[m..] == e.out[|Head(d).out|..];
    assert w.stream + [] == w.stream;
  }

  // --------------------------------------------------------------------- a flush goes through

  /** Whatever was under way has ended, one way or the other. */
  lemma Landed(w: World) returns (w': World)
    requires Alive(w)
    ensures Leads(w, w') && Alive(w') && w' == w.(relay := w'.relay)
    ensures w'.relay.flight.Quiet? && w'.relay.term.next == w.relay.term.next
  {
    hide Pass, Faithful, Resumable, Kempt, Informed, Commit, Load;
    if w.relay.flight.Quiet? {
      Stays(w);
      w' := w;
    } else {
      var step := if w.relay.flight.Taken? then Fails else Publishes;
      StepIsHealthy(w, step);
      w' := Next(w, step);
    }
  }

  /** The next flush is accepted, and memory is told. */
  lemma Flushed(w: World) returns (w': World)
    requires Alive(w) && w.relay.flight.Quiet?
    ensures Leads(w, w') && Alive(w') && w' == w.(relay := w'.relay)
    ensures w'.relay.flight.Quiet? && w'.relay.term.next == w'.relay.term.durable == w.relay.term.next
  {
    hide Pass, Faithful, Resumable, Kempt, Commit, Load;
    if w.relay.term.durable < w.relay.term.next {
      CheckpointTakenIff(w.relay.term);
      StepIsHealthy(w, Starts);
      var taken := Next(w, Starts);
      InformedIsAccepted(taken.relay, taken.stream);
      StepIsHealthy(taken, Commits);
      var committed := Next(taken, Commits);
      StepIsHealthy(committed, Publishes);
      w' := Next(committed, Publishes);
      LeadsOn(w, taken, committed);
      LeadsOn(w, committed, w');
    } else {
      assert w.relay.term.durable <= w.relay.term.next by {
        NextIsWithin(w);
      }
      Stays(w);
      w' := w;
    }
  }

  lemma NextIsWithin(w: World)
    requires Faithful(w)
    ensures w.relay.term.durable <= w.relay.term.next <= |w.stream|
  {
  }

  // ------------------------------------------------------------- everything is delivered

  /** The next frame, whole, where the relay ends. */
  lemma OneIsDelivered(w: World, m: nat, cap: nat)
    requires Alive(w) && w.joined && m < |w.frames| && w.relay.term.next <= |w.stream|
    requires w.frames[m].Output? && w.frames[m].start == w.relay.term.next
    ensures var step, f := Arrives(m, 0, |w.frames[m].bytes|, cap), w.frames[m];
            && Ok(w.client) && Enabled(w, step)
            && var w' := Next(w, step);
            && w' == w.(relay := w'.relay, accepted := w'.accepted) && w'.relay.term.life.Open?
            && w'.relay.term.next == w.relay.term.next + |f.bytes| <= |w.stream|
            && w.stream[..w.relay.term.next] + f.bytes == w.stream[..w'.relay.term.next]
  {
    hide Secured, Kempt, Informed;
    var f, r := w.frames[m], w.relay;
    PieceIsStream(w.frames, w.stream, w.base, m, 0, |f.bytes|);
    assert f.bytes[0..|f.bytes|] == f.bytes;
    AppendMeaning(r.term, w.stream[..r.term.next], f.start, f.bytes, cap);
  }

  /** Frame after frame, each when the one before has been flushed. */
  lemma {:induction false} Delivered(w: World, m: nat, cap: nat) returns (w': World)
    requires Alive(w) && w.joined && m <= |w.frames| && w.relay.term.next <= |w.stream|
    requires AcceptAll(w.stream[..w.relay.term.next], w.frames[m..]) == (w.stream, true)
    ensures Leads(w, w') && Alive(w') && w' == w.(relay := w'.relay, accepted := w'.accepted)
    ensures w'.relay.flight.Quiet? && w'.relay.term.next == w'.relay.term.durable == |w'.stream|
    decreases |w.frames| - m
  {
    hide Next, Enabled, Healthy;
    var landed := Landed(w);
    var flushed := Flushed(landed);
    LeadsOn(w, landed, flushed);
    if m == |w.frames| {
      assert w.stream[..w.relay.term.next] == w.stream;
      w' := flushed;
    } else {
      var step := Arrives(m, 0, |w.frames[m].bytes|, cap);
      assert w.frames[m..][0] == w.frames[m] && w.frames[m..][1..] == w.frames[m + 1..];
      OneIsDelivered(flushed, m, cap);
      StepIsHealthy(flushed, step);
      LeadsOn(w, flushed, Next(flushed, step));
      w' := Delivered(Next(flushed, step), m + 1, cap);
      LeadsOn(w, Next(flushed, step), w');
    }
  }

  // ------------------------------------------------------------------ and acknowledged

  lemma AcknowledgingIs(w: World, durable: nat)
    requires durable <= w.relay.term.durable && w.down == [] && Ok(w.client)
    ensures Enabled(w, Acknowledges(durable)) && Next(w, Acknowledges(durable)) == w.(down := [Ack(durable)])
  {
  }

  lemma Acknowledged(w: World) returns (w': World)
    requires Alive(w) && w.joined && w.down == [] && w.client.stream.positioned && 0 < w.client.stream.window
    requires w.relay.term.durable == |w.stream|
    ensures Leads(w, w') && Alive(w') && GoesOn(w, w') && w'.relay == w.relay
    ensures w'.client.stream.start == |w.stream| && (w.client.closed ==> w'.client.closed)
    ensures w'.client.waiting.Some? ==> w'.client.stream.MaySend()
    ensures w.client.waiting.None? ==> w'.stream == w.stream && w'.client.waiting.None?
  {
    hide Next, Enabled, Pass, Head, Healthy, Holds, Ok;
    ResumesWithin(w);
    AcknowledgingIs(w, |w.stream|);
    StepIsHealthy(w, Acknowledges(|w.stream|));
    var said := Next(w, Acknowledges(|w.stream|));
    HearingIs(said, Ack(|w.stream|));
    StepIsHealthy(said, ClientHears);
    w' := Next(said, ClientHears);
    LeadsOn(w, said, w');
    AckPass(w.client, w.stream);
    assert w.stream + [] == w.stream;
  }

  // ------------------------------------------------------------------------- in rounds

  /** Nothing is held back or unacknowledged, and the driver has closed if its owner is gone. */
  predicate AtEase(w: World) { w.client.waiting.None? && w.client.stream.bytes == [] }

  /** One round: the connection comes back, everything sent is delivered and acknowledged. */
  lemma Round(w: World, limits: Limits, cap: nat) returns (w': World)
    requires Alive(w) && w.joined
    ensures Leads(w, w') && Alive(w') && GoesOn(w, w') && (w.client.closed ==> w'.client.closed)
    ensures w'.client.waiting.Some? ==> w'.client.stream.MaySend()
    ensures w.client.waiting.None? || w.client.stream.MaySend() ==>
              AtEase(w') && w'.relay.flight.Quiet? && w'.relay.term.next == w'.relay.term.durable == |w'.stream|
    ensures AtEase(w) && w.client.ownerGone ==> w'.client.closed
  {
    hide Healthy, Pass, Leads, Holds, Ok;
    AllIsLost(w);
    var broken := w.(down := []);
    var attached, m := Reattached(broken, limits);
    LeadsOn(w, broken, attached);
    var delivered := Delivered(attached, m, cap);
    LeadsOn(w, attached, delivered);
    w' := Acknowledged(delivered);
    LeadsOn(w, delivered, w');
    ResumesWithin(w');
  }

  /**
   Everything the owner has handed over is in the stream, the relay has committed all of it, and the
   driver knows; it has closed, if its owner has gone.
   */
  ghost predicate AllIsKept(w: World, w': World) {
    && GoesOn(w, w') && w'.base <= |w'.stream| && w'.taken == w'.stream[w'.base..]
    && w'.relay.term.next == w'.relay.db.durable == |w'.stream| && Intact(w'.relay.db, w'.stream)
    && w'.client.phase == Running && w'.client.stream.bytes == [] && w'.client.stream.start == |w'.stream|
    && (w.client.ownerGone ==> w'.client.closed)
  }

  lemma FirstPass(d: Driver, n: nat, limits: Limits)
    requires Ok(d) && d.phase == Running && d.stream.Fresh() && !d.stream.positioned
    ensures var after := Pass(d, FromRelay(Attached(n, limits))).d;
            after.phase == Running && after.ownerGone == d.ownerGone
  {
  }

  lemma NotYetJoined(w: World)
    requires Faithful(w) && !w.joined
    ensures Ok(w.client) && w.client.stream.Fresh() && !w.client.stream.positioned
  {
  }

  /** A driver that has not begun begins on committed ground: the flush comes first, the attach then. */
  lemma Begun(w: World, limits: Limits) returns (w': World)
    requires Alive(w) && !w.joined
    ensures Leads(w, w') && Alive(w') && GoesOn(w, w') && w'.joined
  {
    hide Pass, Faithful, Resumable, Kempt, Orderly, Leads, Secured;
    NotYetJoined(w);
    AllIsLost(w);
    var broken := w.(down := []);
    var landed := Landed(broken);
    LeadsOn(w, broken, landed);
    var flushed := Flushed(landed);
    LeadsOn(w, landed, flushed);
    var n := flushed.relay.term.next;
    FlushedIsSecured(flushed);
    ReopeningIs(flushed, limits);
    StepIsHealthy(flushed, Reopens(limits));
    var asked := Next(flushed, Reopens(limits));
    LeadsOn(w, flushed, asked);
    StepIsHealthy(asked, ClientHears);
    w' := Next(asked, ClientHears);
    LeadsOn(w, asked, w');
    FirstPass(w.client, n, limits);
    assert w.taken + [] == w.taken;
  }

  lemma FlushedIsSecured(w: World)
    requires Faithful(w) && w.relay.term.durable == w.relay.term.next
    ensures Secured(w.relay, w.relay.term.next)
  {
  }

  /** A first round may leave the held chunk, a second sends it, and with the third comes the close. */
  lemma ThreeRounds(w: World, limits: Limits, cap: nat)
    requires Alive(w) && w.joined
    ensures exists w' :: Leads(w, w') && AllIsKept(w, w')
  {
    hide Leads, Healthy;
    var first := Round(w, limits, cap);
    var second := Round(first, limits, cap);
    var third := Round(second, limits, cap);
    LeadsOn(w, first, second);
    LeadsOn(w, second, third);
    KeptAtEase(third);
  }

  lemma AllCanBeKept(w: World, limits: Limits, cap: nat)
    requires Alive(w)
    ensures exists w' :: Leads(w, w') && AllIsKept(w, w')
  {
    hide Leads, Healthy, Intact;
    if w.joined {
      ThreeRounds(w, limits, cap);
    } else {
      var begun := Begun(w, limits);
      ThreeRounds(begun, limits, cap);
      var w' :| Leads(begun, w') && AllIsKept(begun, w');
      LeadsOn(w, begun, w');
      assert AllIsKept(w, w');
    }
  }

  lemma KeptAtEase(w: World)
    requires Alive(w) && w.joined && AtEase(w) && w.relay.flight.Quiet?
    requires w.relay.term.next == w.relay.term.durable == |w.stream|
    ensures w.base <= |w.stream| && w.taken == w.stream[w.base..] && w.client.stream.start == |w.stream|
    ensures w.relay.db.durable == |w.stream| && Intact(w.relay.db, w.stream)
  {
    hide RelayOk, Resumable;
    assert w.stream[..|w.stream|] == w.stream && w.stream[w.base..] + [] == w.stream[w.base..];
  }

  /** And the relay can end the driver's work, at once and behind everything it has said. */
  lemma EndIsHeard(w: World)
    requires Alive(w) && w.joined && w.down == []
    ensures Ok(w.client) && Enabled(w, Injects(Event.Ended)) && Enabled(Next(w, Injects(Event.Ended)), ClientHears)
    ensures Next(Next(w, Injects(Event.Ended)), ClientHears).client.phase == Returned
  {
    hide Pass, Resumable, Kempt;
    PassEnds(w.client);
  }

  lemma PassEnds(d: Driver)
    requires Ok(d) && d.phase == Running
    ensures Pass(d, FromRelay(Event.Ended)).d.phase == Returned
  {
  }

  // -------------------------------------------------------------------------- over runs

  lemma {:induction false} RunsCloseInTurn(ws: seq<World>, steps: seq<Step>, i: nat)
    requires IsRun(ws, steps) && i < |ws| && ClosesInTurn(ws[0].relay)
    ensures ClosesInTurn(ws[i].relay)
  {
    hide Next, Enabled, ClosesInTurn;
    if i > 0 {
      RunsCloseInTurn(ws, steps, i - 1);
      StepClosesInTurn(ws[i - 1], steps[i - 1]);
    }
  }

  /**
   No run is ever stuck: wherever one stands in which the relay keeps the terminal and knows of every
   commit, whatever was lost, delayed, repeated, abandoned or crashed on the way, there are steps after
   which all that the owner has handed over is committed and acknowledged, and the driver can close.
   */
  lemma NoRunIsStuck(ws: seq<World>, steps: seq<Step>, i: nat, limits: Limits, cap: nat)
    requires IsRun(ws, steps) && Prompt(ws, steps) && i < |ws| && ClosesInTurn(ws[0].relay)
    requires forall k | 0 <= k < |steps| :: KeepsTerminal(ws[k], steps[k])
    requires ws[i].client.phase == Running && ws[i].relay.term.life.Open? && Informed(ws[i].relay)
    ensures exists w' :: Leads(ws[i], w') && AllIsKept(ws[i], w')
  {
    hide Leads, IsRun;
    var w := ws[i];
    RunsAreResumable(ws, steps, i);
    RunsStayKempt(ws, steps, i);
    RunsCloseInTurn(ws, steps, i);
    var ended := AllHaveEnded(w);
    AllCanBeKept(ended, limits, cap);
    var w' :| Leads(ended, w') && AllIsKept(ended, w');
    LeadsOn(w, ended, w');
    assert AllIsKept(w, w');
  }

  /** Whatever has been abandoned can end without a commit. */
  lemma {:induction false} AllHaveEnded(w: World) returns (w': World)
    requires Faithful(w) && Resumable(w) && Kempt(w.relay, w.stream) && Informed(w.relay) && ClosesInTurn(w.relay)
    ensures w' == w.(relay := w'.relay) && w'.relay == w.relay.(late := []) && Leads(w, w') && Healthy(w')
    decreases |w.relay.late|
  {
    hide Faithful, Resumable, Kempt;
    FaithIsOk(w);
    if w.relay.late == [] {
      Stays(w);
      w' := w;
    } else {
      var one := Next(w, LateEnds(0));
      StepKeepsFaith(w, LateEnds(0));
      StepKeepsResuming(w, LateEnds(0));
      StepKeepsKempt(w, LateEnds(0));
      Steps(w, LateEnds(0));
      w' := AllHaveEnded(one);
      LeadsOn(w, one, w');
    }
  }

  /** Where memory does not know of every commit, a restart is enough to go on. */
  lemma RestartGoesOn(ws: seq<World>, steps: seq<Step>, i: nat, limits: Limits, cap: nat)
    requires IsRun(ws, steps) && Prompt(ws, steps) && i < |ws|
    requires forall k | 0 <= k < |steps| :: KeepsTerminal(ws[k], steps[k])
    requires ws[i].client.phase == Running && ws[i].relay.db.closed.None?
    ensures Ok(ws[i].client) && Enabled(ws[i], Crashes(cap))
    ensures exists w' :: Leads(Next(ws[i], Crashes(cap)), w') && AllIsKept(ws[i], w')
  {
    hide Leads, IsRun;
    var w := ws[i];
    RunsAreResumable(ws, steps, i);
    RunsStayKempt(ws, steps, i);
    RestartIsAlive(w, cap);
    var restarted := Next(w, Crashes(cap));
    AllCanBeKept(restarted, limits, cap);
    var w' :| Leads(restarted, w') && AllIsKept(restarted, w');
    assert AllIsKept(w, w');
  }

  lemma RestartIsAlive(w: World, cap: nat)
    requires Faithful(w) && Resumable(w) && Kempt(w.relay, w.stream)
    requires w.client.phase == Running && w.relay.db.closed.None?
    ensures Ok(w.client) && Enabled(w, Crashes(cap)) && Alive(Next(w, Crashes(cap)))
    ensures GoesOn(w, Next(w, Crashes(cap)))
  {
    hide Faithful, Resumable, Kempt, Load;
    FaithIsOk(w);
    CrashKeepsKempt(w.relay, w.stream, cap);
    StepKeepsFaith(w, Crashes(cap));
    StepKeepsResuming(w, Crashes(cap));
  }

  lemma FaithIsOk(w: World)
    requires Faithful(w)
    ensures Ok(w.client)
  {
  }
}
