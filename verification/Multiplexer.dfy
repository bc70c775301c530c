/**
 One relay connection shared by many terminals (`publisher/src/session.rs`).

 The multiplexer owns no byte of any stream; what it must not lose is a terminal: an id the
 relay opened for it is carried, or closed, or known to be closed, until the connection ends.
 */
module Multiplexing {
  import opened Bytes

  type Id = nat
  type Ref = string

  datatype Event =
    | Attached(id: Id, next: nat)
    | Ack(durable: nat)
    | Input(bytes: seq<byte>)
    | ResizeRequest(cols: nat, rows: nat)
    | Mismatch(next: nat)
    | Detached
    | Ended(reason: string)

  datatype Hosted = Hosted(
    id: Option<Id>,             // assigned by the relay, cleared on a disconnect
    closing: Option<string>,    // the local side has finished
    cols: nat,
    rows: nat,
    queue: seq<Event>,          // every event its owner has been given
    room: nat,                  // how many more its channel takes
    gone: bool)                 // its owner has stopped listening for good
  {
    function Fits(): bool { !gone && 0 < room }

    /** `try_send`: the event is queued, or dropped when the channel is full or gone. */
    function Offered(e: Event): Hosted {
      if Fits() then this.(queue := queue + [e], room := room - 1) else this
    }

    /** `deliver`: a channel that is full marks its terminal for closing. */
    function Given(e: Event): Hosted {
      if gone || 0 < room then Offered(e) else Closed("publisher_unresponsive")
    }

    /** The first reason to close stays. */
    function Closed(reason: string): Hosted {
      if closing.Some? then this else this.(closing := Some(reason))
    }

    predicate Finished() { closing.Some? && id.Some? }
  }

  /** What goes to the relay. */
  datatype Wire =
    | Open(ref: Ref)
    | Output(id: Id, start: nat, bytes: seq<byte>)
    | Resize(id: Id, cols: nat, rows: nat)
    | Close(id: Id, reason: string)

  /** What the connection's loop is woken by. */
  datatype Incoming =
    | Start(ref: Ref, startCols: nat, startRows: nat, capacity: nat)   // from the local side
    | Write(ref: Ref, start: nat, bytes: seq<byte>)
    | Reshape(ref: Ref, toCols: nat, toRows: nat)
    | Finish(ref: Ref, why: string)
    | Opened(ref: Ref, id: Id, next: nat)                              // from the relay
    | Acked(id: Id, durable: nat)
    | Typed(id: Id, bytes: seq<byte>)
    | AskResize(id: Id, toCols: nat, toRows: nat)
    | RelayClosed(id: Id)
    | Failed(mismatch: bool, about: Option<Id>, request: Option<Ref>, authoritative: Option<nat>)
    | Sweep(listed: seq<Id>)                                           // the settle timer
  {
    predicate FromLocal() { Start? || Write? || Reshape? || Finish? }
  }

  /** `clamp(1, u16::MAX)` */
  function Clamped(n: nat): nat { Max(1, Min(n, 65535)) }

  // ----------------------------------------------------------------------- the invariant

  ghost predicate Carries(terminals: map<Ref, Hosted>, id: Id) {
    exists r :: r in terminals && terminals[r].id == Some(id)
  }

  ghost predicate CloseSent(sent: seq<Wire>, id: Id) {
    exists i :: 0 <= i < |sent| && sent[i].Close? && sent[i].id == id
  }

  /** Every id opened on this connection is carried, was closed, or was reported closed. */
  ghost predicate Conserved(terminals: map<Ref, Hosted>, issued: seq<Id>, sent: seq<Wire>, reported: set<Id>) {
    forall id | id in issued :: Carries(terminals, id) || CloseSent(sent, id) || id in reported
  }

  /** No two terminals share an id, and every id carried is one the relay handed out. */
  ghost predicate Routed(terminals: map<Ref, Hosted>, issued: seq<Id>) {
    && (forall r | r in terminals && terminals[r].id.Some? :: terminals[r].id.value in issued)
    && (forall r, s | r in terminals && s in terminals && terminals[r].id.Some?
                      && terminals[r].id == terminals[s].id :: r == s)
  }

  /** What a relay that answers each open once, with distinct ids, may say. */
  predicate FairAnswer(terminals: map<Ref, Hosted>, issued: seq<Id>, r: Ref, id: Id) {
    r in terminals ==> terminals[r].id == Some(id) || (terminals[r].id.None? && id !in issued)
  }

  predicate Fair(terminals: map<Ref, Hosted>, issued: seq<Id>, m: Incoming) {
    m.Opened? ==> FairAnswer(terminals, issued, m.ref, m.id)
  }

  /** Every terminal but `r` is exactly as it was, its event queue included. */
  ghost predicate OthersUntouched(before: map<Ref, Hosted>, after: map<Ref, Hosted>, r: Ref) {
    && (forall s | s in before && s != r :: s in after && after[s] == before[s])
    && (forall s | s in after && s != r :: s in before)
  }

  // --------------------------------------------------------------- what an owner is given

  /** An owner that listens and has room gets the event behind all others; its terminal changes in nothing else. */
  lemma GivenMeaning(h: Hosted, e: Event)
    ensures !h.gone && 0 < h.room ==>
              h.Given(e) == h.Offered(e) == h.(queue := h.queue + [e], room := h.room - 1)
    ensures h.gone ==> h.Given(e) == h.Offered(e) == h
    ensures !h.gone && h.room == 0 ==>
              && h.Offered(e) == h && h.Given(e).queue == h.queue && h.Given(e).closing.Some?
              && h.Given(e).closing == (if h.closing.Some? then h.closing else Some("publisher_unresponsive"))
              && h.Given(e).id == h.id
  {
  }

  function GivenAll(h: Hosted, events: seq<Event>): Hosted
    decreases |events|
  {
    if events == [] then h else GivenAll(h.Given(events[0]), events[1..])
  }

  /**
   As many events as there is room for are all given, in order; one more, to an owner that has not
   gone, and its terminal is marked for closing.
   */
  lemma {:induction false} GivenWhileRoom(h: Hosted, events: seq<Event>)
    requires !h.gone && h.closing.None?
    ensures |events| <= h.room ==> GivenAll(h, events) == h.(queue := h.queue + events, room := h.room - |events|)
    ensures h.room < |events| ==>
              GivenAll(h, events).closing == Some("publisher_unresponsive")
              && GivenAll(h, events).queue == h.queue + events[..h.room]
    decreases |events|
  {
    if events == [] {
      assert h.queue + [] == h.queue;
    } else if 0 < h.room {
      GivenWhileRoom(h.Given(events[0]), events[1..]);
      assert h.queue + [events[0]] + events[1..] == h.queue + events;
      assert h.room < |events| ==> [events[0]] + events[1..][..h.room - 1] == events[..h.room];
      assert h.room < |events| ==> h.queue + [events[0]] + events[1..][..h.room - 1] == h.queue + events[..h.room];
    } else {
      FullStaysFull(h.Given(events[0]), events[1..]);
      assert h.queue + events[..0] == h.queue;
    }
  }

  lemma {:induction false} FullStaysFull(h: Hosted, events: seq<Event>)
    requires !h.gone && h.room == 0 && h.closing.Some?
    ensures GivenAll(h, events) == h
    decreases |events|
  {
    if events != [] {
      FullStaysFull(h, events[1..]);
    }
  }

  /** A size from the relay is made one a terminal can have, and is otherwise passed on as it is. */
  lemma ClampedMeaning(n: nat)
    ensures 1 <= Clamped(n) <= 65535
    ensures 1 <= n <= 65535 ==> Clamped(n) == n
    ensures n == 0 ==> Clamped(n) == 1
    ensures 65535 < n ==> Clamped(n) == 65535
  {
  }

  /** The event has been given to the terminal that carries the id, and to no other. */
  ghost predicate OnlyOf(before: map<Ref, Hosted>, after: map<Ref, Hosted>, id: Id, e: Event) {
    after == map s | s in before :: if before[s].id == Some(id) then before[s].Given(e) else before[s]
  }

  lemma OneCarrierHears(before: map<Ref, Hosted>, issued: seq<Id>, r: Ref, id: Id, e: Event)
    requires Routed(before, issued) && r in before && before[r].id == Some(id)
    ensures OnlyOf(before, before[r := before[r].Given(e)], id, e)
  {
    hide Hosted.Given;
  }

  lemma NoneHears(before: map<Ref, Hosted>, id: Id, e: Event)
    requires !Carries(before, id)
    ensures OnlyOf(before, before, id, e)
  {
    hide Hosted.Given;
  }

  /** The terminal under `r`, if there is one, is now `h`, and no other has changed. */
  ghost predicate OnlyAt(before: map<Ref, Hosted>, after: map<Ref, Hosted>, r: Ref, h: Hosted) {
    after == if r in before then before[r := h] else before
  }

  /** What has to go to the relay about the terminal under `r`: nothing while it has no id. */
  predicate SaidOf(terminals: map<Ref, Hosted>, r: Ref, before: seq<Wire>, after: seq<Wire>, more: seq<Wire>) {
    after == before + if r in terminals && terminals[r].id.Some? then more else []
  }

  function IdOf(terminals: map<Ref, Hosted>, r: Ref): Id {
    if r in terminals && terminals[r].id.Some? then terminals[r].id.value else 0
  }

  /** What a request from the local side changes. */
  ghost predicate Requested(was: map<Ref, Hosted>, said: seq<Wire>, terminals: map<Ref, Hosted>, sent: seq<Wire>,
                            m: Incoming, limit: nat, maxTerminals: nat)
    requires 1 <= limit
  {
    match m
    case Start(r, cols, rows, room) =>
      if |was| < maxTerminals && r !in was
      then terminals == was[r := Hosted(None, None, cols, rows, [], room, false)] && sent == said + [Open(r)]
      else terminals == was && sent == said
    case Write(r, start, bytes) =>
      terminals == was && SaidOf(was, r, said, sent, Frames(IdOf(was, r), start, bytes, limit))
    case Reshape(r, cols, rows) =>
      && (r in was ==> OnlyAt(was, terminals, r, was[r].(cols := cols, rows := rows)))
      && (r !in was ==> terminals == was)
      && SaidOf(was, r, said, sent, [Resize(IdOf(was, r), cols, rows)])
    case Finish(r, why) =>
      && (r in was ==> OnlyAt(was, terminals, r, was[r].Closed(why).Given(Ended("the terminal ended"))))
      && (r !in was ==> terminals == was) && sent == said
    case _ => true
  }

  /** What a message from the relay changes: the terminal it names hears it, and no other. */
  ghost predicate Told(was: map<Ref, Hosted>, said: seq<Wire>, terminals: map<Ref, Hosted>, sent: seq<Wire>,
                       issued: seq<Id>, m: Incoming)
  {
    match m
    case Opened(r, id, next) =>
      && (r in was ==> OnlyAt(was, terminals, r, was[r].(id := Some(id)).Given(Attached(id, next))))
      && (r !in was ==> terminals == was) && sent == said
    case Acked(id, durable) => OnlyOf(was, terminals, id, Ack(durable)) && sent == said
    case Typed(id, bytes) => OnlyOf(was, terminals, id, Input(bytes)) && sent == said
    case AskResize(id, cols, rows) =>
      OnlyOf(was, terminals, id, ResizeRequest(Clamped(cols), Clamped(rows))) && sent == said
    case RelayClosed(id) => terminals == (map r | r in was && was[r].id != Some(id) :: was[r]) && sent == said
    case Sweep(listed) => terminals == was && sent == said + Orphans(listed, issued)
    case Failed(mismatch, about, request, next) =>
      exists named :: IsAbout(was, about, request, named) && Struck(was, said, terminals, sent, named, mismatch, next)
    case _ => true
  }

  /** Whom an error is about: the terminal its id names, else the one its reference names. */
  ghost predicate IsAbout(was: map<Ref, Hosted>, about: Option<Id>, request: Option<Ref>, named: Option<Ref>) {
    if about.Some? && Carries(was, about.value)
    then named.Some? && named.value in was && was[named.value].id == about
    else named == if request.Some? && request.value in was then request else None
  }

  /** It hears of a refused offset, or is closed and forgotten for any other error; no other changes. */
  ghost predicate Struck(was: map<Ref, Hosted>, said: seq<Wire>, terminals: map<Ref, Hosted>, sent: seq<Wire>,
                         named: Option<Ref>, mismatch: bool, next: Option<nat>)
  {
    match named
    case None => terminals == was && sent == said
    case Some(r) =>
      && r in was
      && if mismatch && next.Some?
         then OnlyAt(was, terminals, r, was[r].Offered(Mismatch(next.value))) && sent == said
         else terminals == was - {r} && SaidOf(was, r, said, sent, [Close(IdOf(was, r), "publisher_error")])
  }

  // ---------------------------------------------------------------------- passes of the loop

  /** What the connection has and has said. */
  datatype Side = Side(terminals: map<Ref, Hosted>, issued: seq<Id>, sent: seq<Wire>)

  /** The ids a message opens here. */
  function OpenedBy(terminals: map<Ref, Hosted>, m: Incoming): seq<Id> {
    if m.Opened? && m.ref in terminals then [m.id] else []
  }

  /** An error that names no terminal ends the connection. */
  predicate Fatal(m: Incoming) { m.Failed? && m.about.None? && m.request.None? }

  ghost predicate Woken(was: Side, m: Incoming, now: Side, limit: nat, maxTerminals: nat)
    requires 1 <= limit
  {
    && now.issued == was.issued + OpenedBy(was.terminals, m)
    && if m.FromLocal() then Requested(was.terminals, was.sent, now.terminals, now.sent, m, limit, maxTerminals)
       else Told(was.terminals, was.sent, now.terminals, now.sent, now.issued, m)
  }

  /** Every terminal that has finished and is named leaves with one close. */
  ghost predicate Cleared(was: Side, now: Side) {
    && now.issued == was.issued && now.terminals == was.terminals - FinishedIn(was.terminals)
    && exists order ::
         && Lists(order, FinishedIn(was.terminals)) && AllFinished(was.terminals, order)
         && now.sent == was.sent + Closes(was.terminals, order, |order|)
  }

  /** One pass of the loop: the message is taken, then whatever has finished is closed. */
  ghost predicate Passed(was: Side, m: Incoming, now: Side, limit: nat, maxTerminals: nat)
    requires 1 <= limit
  {
    if Fatal(m) then Woken(was, m, now, limit, maxTerminals)
    else exists mid :: Woken(was, m, mid, limit, maxTerminals) && Cleared(mid, now)
  }

  /** The passes over a script, one after the other. */
  ghost predicate Ran(trace: seq<Side>, script: seq<Incoming>, limit: nat, maxTerminals: nat)
    requires 1 <= limit
  {
    && 1 <= |trace| <= |script| + 1
    && forall i | 0 <= i < |trace| - 1 :: Passed(trace[i], script[i], trace[i + 1], limit, maxTerminals)
  }

  // ------------------------------------------------------------------- changing one place

  lemma UpdateKeeps(terminals: map<Ref, Hosted>, issued: seq<Id>, sent: seq<Wire>, reported: set<Id>,
                    r: Ref, h: Hosted)
    requires Conserved(terminals, issued, sent, reported) && Routed(terminals, issued)
    requires r in terminals && h.id == terminals[r].id
    ensures var after := terminals[r := h];
            && Conserved(after, issued, sent, reported) && Routed(after, issued)
            && OthersUntouched(terminals, after, r)
  {
    var after := terminals[r := h];
    forall id | id in issued && Carries(terminals, id)
      ensures Carries(after, id)
    {
      var s :| s in terminals && terminals[s].id == Some(id);
      assert s in after && after[s].id == Some(id);
    }
  }

  lemma RemoveKeeps(terminals: map<Ref, Hosted>, issued: seq<Id>, sent: seq<Wire>, reported: set<Id>, r: Ref)
    requires Conserved(terminals, issued, sent, reported) && Routed(terminals, issued)
    requires r in terminals
    requires terminals[r].id.Some? ==> CloseSent(sent, terminals[r].id.value) || terminals[r].id.value in reported
    ensures var after := terminals - {r};
            && Conserved(after, issued, sent, reported) && Routed(after, issued)
            && OthersUntouched(terminals, after, r)
  {
    var after := terminals - {r};
    forall id | id in issued && Carries(terminals, id)
      ensures Carries(after, id) || CloseSent(sent, id) || id in reported
    {
      var s :| s in terminals && terminals[s].id == Some(id);
      if s != r {
        assert s in after && after[s].id == Some(id);
      }
    }
  }

  lemma AdoptKeeps(terminals: map<Ref, Hosted>, issued: seq<Id>, sent: seq<Wire>, reported: set<Id>,
                   r: Ref, id: Id)
    requires Conserved(terminals, issued, sent, reported) && Routed(terminals, issued)
    requires r in terminals && terminals[r].id.None? && id !in issued
    ensures var after := terminals[r := terminals[r].(id := Some(id))];
            && Conserved(after, issued + [id], sent, reported) && Routed(after, issued + [id])
            && OthersUntouched(terminals, after, r)
  {
    var after := terminals[r := terminals[r].(id := Some(id))];
    assert after[r].id == Some(id);
    forall prior | prior in issued && Carries(terminals, prior)
      ensures Carries(after, prior)
    {
      var s :| s in terminals && terminals[s].id == Some(prior);
      assert s in after && after[s].id == Some(prior);
    }
  }

  lemma OpenedKeeps(terminals: map<Ref, Hosted>, issued: seq<Id>, sent: seq<Wire>, reported: set<Id>,
                    r: Ref, id: Id, h: Hosted)
    requires Conserved(terminals, issued, sent, reported) && Routed(terminals, issued)
    requires r in terminals && FairAnswer(terminals, issued, r, id) && h.id == Some(id)
    ensures Conserved(terminals[r := h], issued + [id], sent, reported) && Routed(terminals[r := h], issued + [id])
  {
    var named := terminals[r := terminals[r].(id := Some(id))];
    if terminals[r].id.None? {
      AdoptKeeps(terminals, issued, sent, reported, r, id);
    } else {
      assert named == terminals;
      assert Carries(terminals, id);
    }
    UpdateKeeps(named, issued + [id], sent, reported, r, h);
    assert named[r := h] == terminals[r := h];
  }

  /** A second, different answer for one reference loses the first id, unless that one is already closed. */
  lemma AnswerConservesIff(terminals: map<Ref, Hosted>, issued: seq<Id>, sent: seq<Wire>, reported: set<Id>,
                           r: Ref, id: Id)
    requires Conserved(terminals, issued, sent, reported) && Routed(terminals, issued) && r in terminals
    ensures Conserved(terminals[r := terminals[r].(id := Some(id))], issued + [id], sent, reported) <==>
            (terminals[r].id.Some? ==>
               || terminals[r].id == Some(id)
               || CloseSent(sent, terminals[r].id.value)
               || terminals[r].id.value in reported)
  {
    var held, after := terminals[r].id, terminals[r := terminals[r].(id := Some(id))];
    assert after[r].id == Some(id);
    forall prior | prior in issued && Some(prior) != held && Carries(terminals, prior)
      ensures Carries(after, prior)
    {
      var s :| s in terminals && terminals[s].id == Some(prior);
      assert s in after && after[s].id == Some(prior);
    }
    if held.Some? && held != Some(id) {
      assert held.value in issued + [id];
      forall s | s in after
        ensures after[s].id != held
      {
        assert s == r || after[s] == terminals[s];
      }
      assert !Carries(after, held.value);
    }
  }

  lemma HostKeeps(terminals: map<Ref, Hosted>, issued: seq<Id>, sent: seq<Wire>, reported: set<Id>,
                  r: Ref, h: Hosted)
    requires Conserved(terminals, issued, sent, reported) && Routed(terminals, issued)
    requires r !in terminals && h.id.None?
    ensures var after := terminals[r := h];
            && Conserved(after, issued, sent, reported) && Routed(after, issued)
            && OthersUntouched(terminals, after, r)
  {
    var after := terminals[r := h];
    forall id | id in issued && Carries(terminals, id)
      ensures Carries(after, id)
    {
      var s :| s in terminals && terminals[s].id == Some(id);
      assert s in after && after[s].id == Some(id);
    }
  }

  lemma SayKeeps(terminals: map<Ref, Hosted>, issued: seq<Id>, sent: seq<Wire>, reported: set<Id>, more: seq<Wire>)
    requires Conserved(terminals, issued, sent, reported)
    ensures Conserved(terminals, issued, sent + more, reported)
  {
    forall id | CloseSent(sent, id)
      ensures CloseSent(sent + more, id)
    {
      var i :| 0 <= i < |sent| && sent[i].Close? && sent[i].id == id;
      assert (sent + more)[i] == sent[i];
    }
  }

  lemma SaidClose(sent: seq<Wire>, id: Id, reason: string)
    ensures CloseSent(sent + [Close(id, reason)], id)
  {
    assert (sent + [Close(id, reason)])[|sent|] == Close(id, reason);
  }

  // ------------------------------------------------------------------ finished terminals

  /** Terminals whose local side is done and whose id is known. */
  function FinishedIn(terminals: map<Ref, Hosted>): set<Ref> {
    set r | r in terminals && terminals[r].Finished()
  }

  /** The close a finished, named terminal is owed. */
  function CloseOf(h: Hosted): Wire
    requires h.Finished()
  {
    Close(h.id.value, h.closing.value)
  }

  predicate AllFinished(terminals: map<Ref, Hosted>, order: seq<Ref>) {
    forall i | 0 <= i < |order| :: order[i] in terminals && terminals[order[i]].Finished()
  }

  /** One close for each of the first `n` of `order`, with its own reason, and nothing else. */
  function Closes(terminals: map<Ref, Hosted>, order: seq<Ref>, n: nat): seq<Wire>
    requires AllFinished(terminals, order) && n <= |order|
  {
    if n == 0 then [] else Closes(terminals, order, n - 1) + [CloseOf(terminals[order[n - 1]])]
  }

  function Firsts(order: seq<Ref>, n: nat): set<Ref>
    requires n <= |order|
  {
    if n == 0 then {} else Firsts(order, n - 1) + {order[n - 1]}
  }

  /** `order` lists exactly `refs`, each once. */
  predicate Lists(order: seq<Ref>, refs: set<Ref>) {
    (forall i, j | 0 <= i < j < |order| :: order[i] != order[j]) && Firsts(order, |order|) == refs
  }

  lemma {:induction false} FirstsAre(order: seq<Ref>, n: nat)
    requires n <= |order|
    ensures forall r | r in Firsts(order, n) :: exists i :: 0 <= i < n && order[i] == r
    ensures forall i | 0 <= i < n :: order[i] in Firsts(order, n)
    ensures forall more: seq<Ref> :: Firsts(order + more, n) == Firsts(order, n)
  {
    if n > 0 {
      FirstsAre(order, n - 1);
    }
  }

  lemma ListsOneMore(order: seq<Ref>, refs: set<Ref>, r: Ref)
    requires Lists(order, refs) && r !in refs
    ensures Lists(order + [r], refs + {r})
  {
    FirstsAre(order, |order|);
    assert Firsts(order + [r], |order|) == refs;
    forall i, j | 0 <= i < j < |order + [r]|
      ensures (order + [r])[i] != (order + [r])[j]
    {
      assert i < |order| && order[i] in refs;
    }
  }

  lemma ListsFinished(terminals: map<Ref, Hosted>, order: seq<Ref>)
    requires Lists(order, FinishedIn(terminals))
    ensures AllFinished(terminals, order)
  {
    FirstsAre(order, |order|);
  }

  /** The first `i` of `order` have been taken out, and their closes said. */
  predicate Halfway(was: map<Ref, Hosted>, now: map<Ref, Hosted>, order: seq<Ref>, i: nat,
                    before: seq<Wire>, sent: seq<Wire>)
    requires AllFinished(was, order) && i <= |order|
  {
    now == was - Firsts(order, i) && sent == before + Closes(was, order, i)
  }

  lemma HalfwayNext(was: map<Ref, Hosted>, now: map<Ref, Hosted>, order: seq<Ref>, i: nat,
                    before: seq<Wire>, sent: seq<Wire>)
    requires AllFinished(was, order) && i < |order| && Halfway(was, now, order, i, before, sent)
    requires forall j | 0 <= j < i :: order[j] != order[i]
    ensures order[i] in now && now[order[i]] == was[order[i]]
    ensures Halfway(was, now - {order[i]}, order, i + 1, before, sent + [CloseOf(was[order[i]])])
  {
    FirstsAre(order, i);
    var said := Closes(was, order, i);
    assert before + said + [CloseOf(was[order[i]])] == before + (said + [CloseOf(was[order[i]])]);
    assert (was - Firsts(order, i)) - {order[i]} == was - Firsts(order, i + 1);
  }

  /**
   Every id opened here is carried for a terminal whose local side is still running, or its
   close has been sent, or the relay reported it closed.
   */
  ghost predicate Settled(terminals: map<Ref, Hosted>, issued: seq<Id>, sent: seq<Wire>, reported: set<Id>) {
    forall id | id in issued ::
      Runs(terminals, id) || CloseSent(sent, id) || id in reported
  }

  ghost predicate Runs(terminals: map<Ref, Hosted>, id: Id) {
    exists r :: r in terminals && terminals[r].id == Some(id) && terminals[r].closing.None?
  }

  lemma ClosingFinishedSettles(terminals: map<Ref, Hosted>, issued: seq<Id>, sent: seq<Wire>, reported: set<Id>)
    requires Conserved(terminals, issued, sent, reported) && FinishedIn(terminals) == {}
    ensures Settled(terminals, issued, sent, reported)
  {
    forall id | id in issued && Carries(terminals, id)
      ensures Runs(terminals, id)
    {
      var r :| r in terminals && terminals[r].id == Some(id);
      assert r !in FinishedIn(terminals);
    }
  }

  // ------------------------------------------------------------------------- orphans

  /** What is listed and was not opened here is closed. */
  function Orphans(listed: seq<Id>, issued: seq<Id>): seq<Wire> {
    if listed == [] then []
    else (if listed[0] in issued then [] else [Close(listed[0], "publisher_replaced")])
         + Orphans(listed[1..], issued)
  }

  /** The sweep closes exactly the listed ids nobody here opened, so never one it carries. */
  lemma {:induction false} OrphansAreNotOurs(listed: seq<Id>, terminals: map<Ref, Hosted>, issued: seq<Id>)
    requires Routed(terminals, issued)
    ensures forall w | w in Orphans(listed, issued) :: w.Close? && w.id in listed && w.id !in issued
    ensures forall w | w in Orphans(listed, issued) :: !Carries(terminals, w.id)
    ensures forall id | id in listed && id !in issued :: Close(id, "publisher_replaced") in Orphans(listed, issued)
    decreases |listed|
  {
    if listed != [] {
      OrphansAreNotOurs(listed[1..], terminals, issued);
      forall w | w in Orphans(listed, issued)
        ensures w.Close? && w.id in listed && w.id !in issued && !Carries(terminals, w.id)
      {
        if w in Orphans(listed[1..], issued) {
        } else {
          assert w == Close(listed[0], "publisher_replaced");
        }
      }
    }
  }

  // ------------------------------------------------------------------------- splitting

  function Frames(id: Id, start: nat, bytes: seq<byte>, k: nat): seq<Wire>
    requires 1 <= k
    decreases |bytes|
  {
    if bytes == [] then []
    else
      var n := Min(k, |bytes|);
      [Output(id, start, bytes[..n])] + Frames(id, start + n, bytes[n..], k)
  }

  /** Output of one terminal, in frames of at most `k` bytes. */
  predicate OutputOf(frames: seq<Wire>, id: Id, k: nat) {
    forall w | w in frames :: w.Output? && w.id == id && 1 <= |w.bytes| <= k
  }

  lemma {:induction false} FramesAreOutputOf(id: Id, start: nat, bytes: seq<byte>, k: nat)
    requires 1 <= k
    ensures OutputOf(Frames(id, start, bytes, k), id, k)
    decreases |bytes|
  {
    if bytes != [] {
      var n := Min(k, |bytes|);
      FramesAreOutputOf(id, start + n, bytes[n..], k);
      forall w | w in Frames(id, start, bytes, k)
        ensures w.Output? && w.id == id && 1 <= |w.bytes| <= k
      {
        assert w == Output(id, start, bytes[..n]) || w in Frames(id, start + n, bytes[n..], k);
      }
    }
  }

  class Multiplexer {
    var terminals: map<Ref, Hosted>
    var issued: seq<Id>             // ids the relay has opened on this connection
    var sent: seq<Wire>             // everything written on this connection
    ghost var reported: set<Id>     // ids the relay has said are closed

    ghost predicate Valid()
      reads this
    {
      Conserved(terminals, issued, sent, reported) && Routed(terminals, issued)
    }

    ghost function Now(): Side
      reads this
    {
      Side(terminals, issued, sent)
    }

    constructor ()
      ensures Valid() && terminals == map[] && issued == [] && sent == []
    {
      terminals, issued, sent, reported := map[], [], [], {};
    }

    method Say(message: Wire)
      requires Valid()
      modifies this`sent
      ensures Valid() && sent == old(sent) + [message]
    {
      SayKeeps(terminals, issued, sent, reported, [message]);
      sent := sent + [message];
    }

    method LocalRefOf(id: Id) returns (r: Option<Ref>)
      requires Valid()
      ensures r.Some? <==> Carries(terminals, id)
      ensures r.Some? ==> r.value in terminals && terminals[r.value].id == Some(id)
    {
      if x :| x in terminals && terminals[x].id == Some(id) {
        return Some(x);
      }
      return None;
    }

    /** The event reaches the terminal at `r`; all others stay as they were. */
    method Deliver(r: Ref, e: Event)
      requires Valid()
      modifies this`terminals
      ensures Valid() && OthersUntouched(old(terminals), terminals, r)
      ensures terminals.Keys == old(terminals).Keys
      ensures r in terminals ==> terminals[r] == old(terminals)[r].Given(e)
    {
      if r in terminals {
        UpdateKeeps(terminals, issued, sent, reported, r, terminals[r].Given(e));
        terminals := terminals[r := terminals[r].Given(e)];
      }
    }

    method DeliverTo(id: Id, e: Event) returns (r: Option<Ref>)
      requires Valid()
      modifies this`terminals
      ensures Valid() && (r.Some? <==> old(Carries(terminals, id)))
      ensures r.None? ==> terminals == old(terminals)
      ensures r.Some? ==>
                && r.value in old(terminals) && r.value in terminals
                && old(terminals)[r.value].id == Some(id)
                && terminals[r.value] == old(terminals)[r.value].Given(e)
                && OthersUntouched(old(terminals), terminals, r.value)
      ensures OnlyOf(old(terminals), terminals, id, e)
    {
      hide Conserved, Hosted.Given;
      ghost var was := terminals;
      r := LocalRefOf(id);
      if r.Some? {
        Deliver(r.value, e);
        assert terminals == was[r.value := was[r.value].Given(e)];
        OneCarrierHears(was, issued, r.value, id, e);
      } else {
        NoneHears(was, id, e);
      }
    }

    /**
     `terminal.opened`.  Whatever the relay answers is believed; the invariant survives when it
     answers with an id it has not used on this connection, or repeats the one it gave that
     reference before.
     */
    method OnOpened(r: Ref, id: Id, next: nat)
      requires Valid()
      modifies this`terminals, this`issued
      ensures old(FairAnswer(terminals, issued, r, id)) ==> Valid()
      ensures OthersUntouched(old(terminals), terminals, r)
      ensures r !in old(terminals) ==> terminals == old(terminals) && issued == old(issued)
      ensures r in old(terminals) ==>
                && r in terminals && issued == old(issued) + [id]
                && terminals[r] == old(terminals)[r].(id := Some(id)).Given(Attached(id, next))
    {
      if r in terminals {
        ghost var fair, named := FairAnswer(terminals, issued, r, id), terminals[r].(id := Some(id));
        if fair {
          OpenedKeeps(terminals, issued, sent, reported, r, id, named.Given(Attached(id, next)));
        }
        terminals := terminals[r := terminals[r].(id := Some(id))];
        issued := issued + [id];
        terminals := terminals[r := terminals[r].Given(Attached(id, next))];
        assert terminals == old(terminals)[r := named.Given(Attached(id, next))];
      }
    }

    /** Take a terminal out; its owner is told, and its queue leaves with it. */
    method Drop(r: Ref)
      requires Valid() && r in terminals
      requires terminals[r].id.Some? ==> CloseSent(sent, terminals[r].id.value) || terminals[r].id.value in reported
      modifies this`terminals
      ensures Valid() && terminals == old(terminals) - {r}
      ensures OthersUntouched(old(terminals), terminals, r)
    {
      RemoveKeeps(terminals, issued, sent, reported, r);
      terminals := terminals - {r};
    }

    /** `terminal.closed`. */
    method OnClosed(id: Id) returns (r: Option<Ref>)
      requires Valid()
      modifies this`terminals, this`reported
      ensures Valid() && reported == old(reported) + {id}
      ensures r.Some? <==> old(Carries(terminals, id))
      ensures r.None? ==> terminals == old(terminals)
      ensures r.Some? ==> r.value in old(terminals) && old(terminals)[r.value].id == Some(id)
                          && terminals == old(terminals) - {r.value}
    {
      r := LocalRefOf(id);
      reported := reported + {id};
      if r.Some? {
        Drop(r.value);
      }
    }

    /**
     An error from the relay.  A refused offset goes to its terminal alone; any other error
     that names a terminal ends that terminal alone; only an error naming none ends the
     connection.
     */
    method OnError(mismatch: bool, id: Option<Id>, request: Option<Ref>, next: Option<nat>)
        returns (survives: bool, named: Option<Ref>)
      requires Valid()
      modifies this`terminals, this`sent
      ensures Valid() && survives == (id.Some? || request.Some?)
      ensures IsAbout(old(terminals), id, request, named)
      ensures Struck(old(terminals), old(sent), terminals, sent, named, mismatch, next)
    {
      survives := id.Some? || request.Some?;
      named := None;
      if id.Some? {
        named := LocalRefOf(id.value);
      }
      if named.None? && request.Some? && request.value in terminals {
        named := request;
      }
      if named.Some? {
        if mismatch && next.Some? {
          UpdateKeeps(terminals, issued, sent, reported, named.value,
                      terminals[named.value].Offered(Mismatch(next.value)));
          terminals := terminals[named.value := terminals[named.value].Offered(Mismatch(next.value))];
        } else {
          CloseAndDrop(named.value, "publisher_error");
        }
      }
    }

    /** Tell the relay, if it knows the terminal, and forget it. */
    method CloseAndDrop(r: Ref, reason: string)
      requires Valid() && r in terminals
      modifies this`terminals, this`sent
      ensures Valid() && terminals == old(terminals) - {r}
      ensures sent == old(sent) + if old(terminals)[r].id.Some?
                                  then [Close(old(terminals)[r].id.value, reason)] else []
      ensures old(terminals)[r].id.Some? ==> CloseSent(sent, old(terminals)[r].id.value)
    {
      if terminals[r].id.Some? {
        SaidClose(sent, terminals[r].id.value, reason);
        Say(Close(terminals[r].id.value, reason));
      }
      Drop(r);
    }

    /** A terminal joins: refused over the limit or under a reference in use. */
    method OnOpen(r: Ref, cols: nat, rows: nat, room: nat, maxTerminals: nat) returns (hosted: bool)
      requires Valid()
      modifies this`terminals, this`sent
      ensures Valid() && OthersUntouched(old(terminals), terminals, r)
      ensures hosted == (|old(terminals)| < maxTerminals && r !in old(terminals))
      ensures !hosted ==> terminals == old(terminals) && sent == old(sent)
      ensures hosted ==> terminals == old(terminals)[r := Hosted(None, None, cols, rows, [], room, false)]
                         && sent == old(sent) + [Open(r)]
    {
      hosted := |terminals| < maxTerminals && r !in terminals;
      if hosted {
        var h := Hosted(None, None, cols, rows, [], room, false);
        HostKeeps(terminals, issued, sent, reported, r, h);
        terminals := terminals[r := h];
        Say(Open(r));
      }
    }

    /** Output for a terminal that is attached goes out in pieces; for any other, nowhere. */
    method OnOutput(r: Ref, start: nat, bytes: seq<byte>, limit: nat)
      requires Valid() && 1 <= limit
      modifies this`sent
      ensures Valid()
      ensures sent == old(sent) + if r in terminals && terminals[r].id.Some?
                                  then Frames(terminals[r].id.value, start, bytes, limit) else []
      ensures old(sent) <= sent && (r in terminals && terminals[r].id.Some? ==>
                OutputOf(sent[|old(sent)|..], terminals[r].id.value, limit))
    {
      if r in terminals && terminals[r].id.Some? {
        FramesAreOutputOf(terminals[r].id.value, start, bytes, limit);
        ghost var all := Frames(terminals[r].id.value, start, bytes, limit);
        SayKeeps(terminals, issued, sent, reported, all);
        var frames := SplitOutput(terminals[r].id.value, start, bytes, limit);
        sent := sent + frames;
      }
    }

    static method SplitOutput(id: Id, start: nat, bytes: seq<byte>, limit: nat) returns (frames: seq<Wire>)
      requires 1 <= limit
      ensures frames == Frames(id, start, bytes, limit) && OutputOf(frames, id, limit)
    {
      frames := [];
      var offset: nat, rest := start, bytes;
      while rest != []
        invariant frames + Frames(id, offset, rest, limit) == Frames(id, start, bytes, limit)
        decreases |rest|
      {
        var n := Min(limit, |rest|);
        assert frames + ([Output(id, offset, rest[..n])] + Frames(id, offset + n, rest[n..], limit))
            == frames + [Output(id, offset, rest[..n])] + Frames(id, offset + n, rest[n..], limit);
        frames := frames + [Output(id, offset, rest[..n])];
        offset, rest := offset + n, rest[n..];
      }
      assert frames + [] == frames;
      FramesAreOutputOf(id, start, bytes, limit);
    }

    /** The owner is done with it; that reaches the relay when there is an id to close. */
    method OnClose(r: Ref, reason: string)
      requires Valid()
      modifies this`terminals
      ensures Valid() && OthersUntouched(old(terminals), terminals, r)
      ensures terminals.Keys == old(terminals).Keys
      ensures r in terminals ==> terminals[r].closing.Some? && terminals[r].id == old(terminals)[r].id
      ensures r in terminals && old(terminals)[r].closing.Some? ==> terminals[r].closing == old(terminals)[r].closing
      ensures r in terminals ==>
                terminals[r] == old(terminals)[r].Closed(reason).Given(Ended("the terminal ended"))
    {
      if r in terminals {
        UpdateKeeps(terminals, issued, sent, reported, r, terminals[r].Closed(reason));
        terminals := terminals[r := terminals[r].Closed(reason)];
      }
      Deliver(r, Ended("the terminal ended"));
    }

    method OnResize(r: Ref, cols: nat, rows: nat)
      requires Valid()
      modifies this`terminals, this`sent
      ensures Valid() && OthersUntouched(old(terminals), terminals, r)
      ensures terminals.Keys == old(terminals).Keys
      ensures r in terminals ==> terminals[r] == old(terminals)[r].(cols := cols, rows := rows)
      ensures sent == old(sent) + if r in terminals && terminals[r].id.Some?
                                  then [Resize(terminals[r].id.value, cols, rows)] else []
    {
      if r in terminals {
        var h := terminals[r].(cols := cols, rows := rows);
        UpdateKeeps(terminals, issued, sent, reported, r, h);
        terminals := terminals[r := h];
        if h.id.Some? {
          Say(Resize(h.id.value, cols, rows));
        }
      }
    }

    /**
     Close at the relay every terminal that has finished and that it has named.  One that it
     has not named yet stays, so that it can still be closed when it has.
     */
    method CloseFinished() returns (order: seq<Ref>)
      requires Valid()
      modifies this`terminals, this`sent
      ensures Valid() && terminals == old(terminals) - FinishedIn(old(terminals))
      ensures Lists(order, FinishedIn(old(terminals))) && AllFinished(old(terminals), order)
      ensures sent == old(sent) + Closes(old(terminals), order, |order|)
    {
      hide Conserved, Routed, FinishedIn, CloseSent;
      order := InSomeOrder(FinishedIn(terminals));
      ghost var was, before := terminals, sent;
      ListsFinished(was, order);
      assert before + [] == before && was - {} == was;
      for i := 0 to |order|
        invariant Valid() && Halfway(was, terminals, order, i, before, sent)
      {
        HalfwayNext(was, terminals, order, i, before, sent);
        CloseAndDrop(order[i], terminals[order[i]].closing.value);
      }
    }

    /** A map is walked in an order of its own. */
    static method InSomeOrder(refs: set<Ref>) returns (order: seq<Ref>)
      ensures Lists(order, refs)
    {
      order := [];
      ghost var done := {};
      var left := refs;
      while left != {}
        invariant left + done == refs && left !! done && Lists(order, done)
        decreases |left|
      {
        var r :| r in left;
        ListsOneMore(order, done, r);
        order, left, done := order + [r], left - {r}, done + {r};
      }
    }

    /** Send the closes of everything that nobody here opened. */
    method SweepOrphans(listed: seq<Id>)
      requires Valid()
      modifies this`sent
      ensures Valid() && sent == old(sent) + Orphans(listed, issued)
    {
      ghost var was := sent;
      for i := 0 to |listed|
        invariant Valid() && sent + Orphans(listed[i..], issued) == was + Orphans(listed, issued)
      {
        assert listed[i..][1..] == listed[i + 1..];
        if listed[i] !in issued {
          assert sent + ([Close(listed[i], "publisher_replaced")] + Orphans(listed[i + 1..], issued))
              == sent + [Close(listed[i], "publisher_replaced")] + Orphans(listed[i + 1..], issued);
          Say(Close(listed[i], "publisher_replaced"));
        } else {
          assert [] + Orphans(listed[i + 1..], issued) == Orphans(listed[i + 1..], issued);
        }
      }
      assert sent + [] == sent;
    }

    /** A request from the local side. */
    method OnRequest(m: Incoming, limit: nat, maxTerminals: nat)
      requires Valid() && 1 <= limit && m.FromLocal()
      modifies this`terminals, this`sent
      ensures Valid() && Requested(old(terminals), old(sent), terminals, sent, m, limit, maxTerminals)
    {
      hide Conserved, Routed, Frames, Hosted.Given, Hosted.Closed;
      assert sent + [] == sent;
      match m
      case Start(r, cols, rows, room) =>
        var hosted := OnOpen(r, cols, rows, room, maxTerminals);
      case Write(r, start, bytes) => OnOutput(r, start, bytes, limit);
      case Reshape(r, cols, rows) => OnResize(r, cols, rows);
      case Finish(r, why) => OnClose(r, why);
    }

    /** A message from the relay, or the settle timer. */
    method OnMessage(m: Incoming) returns (over: bool)
      requires Valid() && !m.FromLocal()
      modifies this
      ensures old(Fair(terminals, issued, m)) ==> Valid()
      ensures over <==> Fatal(m)
      ensures issued == old(issued) + OpenedBy(old(terminals), m)
      ensures Told(old(terminals), old(sent), terminals, sent, issued, m)
    {
      hide Conserved, Orphans, Hosted.Given, Hosted.Offered, IsAbout, Struck, OnlyOf;
      assert issued + [] == issued;
      over := false;
      match m
      case Opened(r, id, next) => OnOpened(r, id, next);
      case RelayClosed(id) => var gone := OnClosed(id);
      case Sweep(listed) => SweepOrphans(listed);
      case Failed(mismatch, id, request, next) =>
        var survives, named := OnError(mismatch, id, request, next);
        over := !survives;
      case Acked(id, durable) => var to := DeliverTo(id, Ack(durable));
      case Typed(id, bytes) => var to := DeliverTo(id, Input(bytes));
      case AskResize(id, cols, rows) => var to := DeliverTo(id, ResizeRequest(Clamped(cols), Clamped(rows)));
    }

    /** One wake-up of the connection's loop. */
    method OnWake(m: Incoming, limit: nat, maxTerminals: nat) returns (over: bool)
      requires Valid() && 1 <= limit
      modifies this
      ensures old(Fair(terminals, issued, m)) ==> Valid()
      ensures over <==> Fatal(m)
      ensures Woken(old(Now()), m, Now(), limit, maxTerminals)
    {
      hide Requested, Told, Conserved, Routed;
      assert issued + [] == issued;
      over := false;
      if m.FromLocal() {
        OnRequest(m, limit, maxTerminals);
      } else {
        over := OnMessage(m);
      }
    }

    /**
     The connection's loop, over any messages and requests: `handled` of them are taken, each in a
     pass of its own, up to the error that ends the connection or the first answer no fair relay
     gives.  Whatever came, no id is lost, and a terminal that ended before the relay named it is
     closed as soon as it is named.
     */
    method RunConnection(script: seq<Incoming>, limit: nat, maxTerminals: nat)
        returns (handled: nat, over: bool, ghost trace: seq<Side>)
      requires Valid() && 1 <= limit
      modifies this
      ensures Valid() && handled <= |script|
      ensures !over ==> Settled(terminals, issued, sent, reported)
      ensures !over && handled < |script| ==> !Fair(terminals, issued, script[handled])
      ensures over <==> 0 < handled && Fatal(script[handled - 1])
      ensures |trace| == handled + 1 && Ran(trace, script, limit, maxTerminals)
      ensures Cleared(old(Now()), trace[0]) && trace[handled] == Now()
    {
      hide Conserved, Routed, FinishedIn, Closes, Lists, AllFinished, Settled, Woken, Fair;
      handled, over := 0, false;
      Clear();
      trace := [Now()];
      while handled < |script| && !over && Fair(terminals, issued, script[handled])
        invariant Valid() && handled <= |script|
        invariant !over ==> Settled(terminals, issued, sent, reported)
        invariant over <==> 0 < handled && Fatal(script[handled - 1])
        invariant |trace| == handled + 1 && Ran(trace, script, limit, maxTerminals)
        invariant Cleared(old(Now()), trace[0]) && trace[handled] == Now()
        decreases |script| - handled
      {
        over := OnWake(script[handled], limit, maxTerminals);
        ghost var mid := Now();
        if !over {
          Clear();
        }
        assert Passed(trace[handled], script[handled], Now(), limit, maxTerminals);
        trace := trace + [Now()];
        handled := handled + 1;
      }
    }

    /** Between two passes everything opened here is accounted for. */
    method Clear()
      requires Valid()
      modifies this`terminals, this`sent
      ensures Valid() && Cleared(old(Now()), Now()) && Settled(terminals, issued, sent, reported)
    {
      var _ := CloseFinished();
      ClosingFinishedSettles(terminals, issued, sent, reported);
    }

    /** Without a connection no terminal has an id, and so none can be framed. */
    method Disconnect()
      requires Valid()
      modifies this
      ensures Valid() && issued == [] && sent == [] && reported == {}
      ensures terminals == map r | r in old(terminals) :: old(terminals)[r].(id := None).Offered(Detached)
    {
      terminals := map r | r in terminals :: terminals[r].(id := None).Offered(Detached);
      issued, sent, reported := [], [], {};
    }

    /** The connection is back: every terminal still wanted is opened again, by its reference. */
    method Reconnect()
      requires Valid() && issued == [] && sent == []
      modifies this
      ensures Valid() && issued == []
      ensures terminals == map r | r in old(terminals) && old(terminals)[r].closing.None? :: old(terminals)[r]
      ensures forall r | r in terminals :: Open(r) in sent
      ensures |sent| == |terminals|
    {
      terminals := map r | r in terminals && terminals[r].closing.None? :: terminals[r];
      var refs := terminals.Keys;
      while refs != {}
        invariant Valid() && issued == [] && refs <= terminals.Keys
        invariant terminals == map r | r in old(terminals) && old(terminals)[r].closing.None? :: old(terminals)[r]
        invariant forall r | r in terminals.Keys - refs :: Open(r) in sent
        invariant |sent| + |refs| == |terminals.Keys|
        decreases |refs|
      {
        var r :| r in refs;
        Say(Open(r));
        refs := refs - {r};
      }
    }
  }
}
