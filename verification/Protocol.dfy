/**
 The whole stream protocol for one terminal: the driver beside the shell, a network that
 loses, delays, repeats and splits, and a relay that checkpoints, acknowledges and crashes.

 `stream` is the history of the terminal's bytes: what an earlier process left at the relay
 (`base` bytes of it), then everything the driver has put into its stream.  Where the driver's
 part begins is settled by the first attach it hears: what the earlier process had sent beyond
 that, and a crash has taken back, was never the driver's.
 */
module Protocol {
  import opened Bytes
  import opened Stream
  import opened Publish
  import opened ReplayRing
  import opened Store
  import opened RelayTerminal
  import opened RelayProcess

  // ------------------------------------------------------------------ the driver's side

  /** Before the first attach the driver has sent nothing; after it, it holds the stream's end. */
  predicate Linked(d: Driver, stream: seq<byte>, base: nat, joined: bool) {
    && Ok(d) && base <= |stream|
    && if joined then Holds(d.stream, stream) && base <= d.stream.start
       else d.stream.Fresh() && !d.stream.positioned && base == |stream|
  }

  /** Every output is a piece of the stream, and of this driver's part of it. */
  predicate SendsOnly(out: seq<Request>, stream: seq<byte>, base: nat) {
    forall r | r in out && r.Output? :: base <= r.start && At(stream, r.start, r.bytes)
  }

  /** What the relay can have said: offsets no further than the stream. */
  predicate Plausible(e: Event, stream: seq<byte>, joined: bool) {
    match e
    case Attached(n, _) => if joined then n <= |stream| else n == |stream|
    case Mismatch(n) => joined && n <= |stream|
    case _ => true
  }

  function Joins(d: Driver, joined: bool, pick: Pick): bool {
    joined || (d.phase == Running && pick.FromRelay? && pick.event.Attached?)
  }

  predicate GoodEffect(e: Effect, stream: seq<byte>, base: nat, joined: bool) {
    && Linked(e.d, stream + e.appended, base, joined)
    && SendsOnly(e.out, stream + e.appended, base)
    && (!joined ==> e.appended == [] && forall r | r in e.out :: !r.Output?)
  }

  lemma ThenIsStream(a: Effect, b: Effect, stream: seq<byte>, base: nat, joined: bool, joined': bool)
    requires GoodEffect(a, stream, base, joined) && GoodEffect(b, stream + a.appended, base, joined')
    requires joined ==> joined'
    ensures GoodEffect(Then(a, b), stream, base, joined')
  {
    assert stream + a.appended + b.appended == stream + (a.appended + b.appended);
    forall r | r in a.out && r.Output?
      ensures At(stream + a.appended + b.appended, r.start, r.bytes)
    {
      AtGrows(stream + a.appended, b.appended, r.start, r.bytes);
    }
  }

  lemma ChunkIsStream(d: Driver, stream: seq<byte>, base: nat, chunk: seq<byte>)
    requires Linked(d, stream, base, true) && !d.closed
    ensures GoodEffect(SendChunk(d, chunk), stream, base, true)
  {
    SendMeaning(d.stream, stream, chunk);
    SlicesAreAt(stream + chunk, d.stream.next, chunk, d.maxFrame);
  }

  lemma ReleaseIsStream(d: Driver, stream: seq<byte>, base: nat, joined: bool)
    requires Linked(d, stream, base, joined)
    ensures GoodEffect(Release(d), stream, base, joined)
  {
    if d.waiting.Some? && d.stream.MaySend() {
      ChunkIsStream(d.(waiting := None), stream, base, d.waiting.value);
    } else {
      assert stream + [] == stream;
    }
  }

  lemma CloseIsStream(d: Driver, stream: seq<byte>, base: nat, joined: bool)
    requires Linked(d, stream, base, joined)
    ensures GoodEffect(CloseOnce(d), stream, base, joined)
  {
    assert stream + [] == stream;
  }

  lemma HeadIsStream(d: Driver, stream: seq<byte>, base: nat, joined: bool)
    requires Linked(d, stream, base, joined)
    ensures GoodEffect(Head(d), stream, base, joined)
  {
    var released := Release(d);
    ReleaseIsStream(d, stream, base, joined);
    CloseIsStream(released.d, stream + released.appended, base, joined);
    ThenIsStream(released, CloseOnce(released.d), stream, base, joined, joined);
  }

  lemma AnswerIsStream(d: Driver, r: Resync, stream: seq<byte>, base: nat, n: nat)
    requires r.Retransmit? ==> base <= n
    requires Linked(d, stream, base, true) && Replays(r, stream, n)
    ensures GoodEffect(Resume(d, r), stream, base, true)
  {
    assert stream + [] == stream;
    if r.Retransmit? {
      SlicesAreAt(stream, r.start, r.bytes, d.maxFrame);
    }
  }

  lemma AttachIsStream(d: Driver, stream: seq<byte>, base: nat, joined: bool, n: nat, limits: Limits)
    requires Linked(d, stream, base, joined) && Plausible(Attached(n, limits), stream, joined)
    ensures GoodEffect(OnEvent(d, Attached(n, limits)), stream, base, true)
  {
    var limited := d.stream.SetWindow(limits.maxUnacked);
    var (s, r) := limited.Attach(n);
    if joined {
      AttachMeaning(limited, stream, n);
    } else {
      assert s.start == s.next == n && s.bytes == [] && r == Nothing;
    }
    AnswerIsStream(d.(stream := s, maxFrame := Max(limits.maxFrame, 1024)), r, stream, base, n);
  }

  lemma EventIsStream(d: Driver, stream: seq<byte>, base: nat, joined: bool, e: Event)
    requires Linked(d, stream, base, joined) && Plausible(e, stream, joined) && !e.Attached?
    ensures GoodEffect(OnEvent(d, e), stream, base, joined)
  {
    assert stream + [] == stream;
    match e
    case Mismatch(n) =>
      MismatchMeaning(d.stream, stream, n);
      AnswerIsStream(d.(stream := d.stream.Mismatch(n).0), d.stream.Mismatch(n).1, stream, base, n);
    case Ack(durable) => if joined { AcknowledgeMeaning(d.stream, stream, durable); }
    case _ =>
  }

  lemma OwnerIsStream(d: Driver, stream: seq<byte>, base: nat, joined: bool, m: FromOwner)
    requires Linked(d, stream, base, joined) && Listens(d)
    ensures GoodEffect(OnOwner(d, m), stream, base, joined)
  {
    assert stream + [] == stream;
    if m.Chunk? && d.stream.MaySend() {
      ChunkIsStream(d, stream, base, m.bytes);
    }
  }

  /** Whatever a pass does, what it sends is the stream and what it keeps is the stream's end. */
  lemma PassIsStream(d: Driver, stream: seq<byte>, base: nat, joined: bool, pick: Pick)
    requires Linked(d, stream, base, joined)
    requires pick.FromRelay? && d.phase == Running ==> Plausible(pick.event, stream, joined)
    ensures GoodEffect(Pass(d, pick), stream, base, Joins(d, joined, pick))
  {
    assert stream + [] == stream;
    if d.phase == Running {
      var head := Head(d);
      HeadIsStream(d, stream, base, joined);
      var here := stream + head.appended;
      match pick {
        case FromRelay(e) =>
          if e.Attached? {
            AttachIsStream(head.d, here, base, joined, e.next, e.limits);
          } else {
            EventIsStream(head.d, here, base, joined, e);
          }
        case FromShell(m) =>
          if Listens(head.d) {
            OwnerIsStream(head.d, here, base, joined, m);
          } else {
            assert here + [] == here;
          }
      }
      ThenIsStream(head, Serve(head.d, pick), stream, base, joined, Joins(d, joined, pick));
    }
  }

  // --------------------------------------------------------------------------- the world

  datatype World = World(
    stream: seq<byte>,
    base: nat,
    joined: bool,               // the driver has heard where the stream starts
    client: Driver,
    taken: seq<byte>,           // everything the shell's owner has handed over
    frames: seq<Request>,       // every output ever put on the wire
    down: seq<Event>,           // on its way to the driver, in order
    relay: Relay,
    accepted: seq<Request>)     // every piece the relay ever accepted, and so mirrored

  datatype Step =
    | ShellSpeaks(message: FromOwner)
    | ClientHears
    | Arrives(frame: nat, lo: nat, hi: nat, cap: nat)   // a piece of any frame ever sent
    | Starts                                            // a checkpoint is taken
    | Commits                                           // it reaches the database
    | Fails                                             // or does not
    | Publishes                                         // memory learns that it did
    | Abandons                                          // nobody waits for the flush any more
    | LateCommits(i: nat)                               // and yet its transaction commits, now
    | LateEnds(i: nat)                                  // or fails
    | Acknowledges(durable: nat)                        // an offset read now or a while ago
    | Reopens(limits: Limits)
    | Injects(event: Event)                             // detach, input, resize, end
    | Loses(i: nat)                                     // an event never arrives
    | Closes(reason: string)
    | Shrinks(cap: nat)
    | Crashes(cap: nat)
    | Forgets(cap: nat)                                 // the terminal was closed: a fresh one answers

  predicate Enabled(w: World, step: Step) {
    match step
    case ShellSpeaks(_) => true
    case ClientHears => w.down != []
    case Arrives(f, lo, hi, _) => f < |w.frames| && w.frames[f].Output? && lo <= hi <= |w.frames[f].bytes|
    case Starts => w.relay.flight.Quiet? && w.relay.term.TakeCheckpoint().Some?
    case Commits => w.relay.flight.Taken? && Commit(w.relay.db, w.relay.flight.cp).Some?
    case Fails => w.relay.flight.Taken?
    case Publishes => w.relay.flight.Committed?
    case Abandons => !w.relay.flight.Quiet?
    case LateCommits(i) => i < |w.relay.late| && Commit(w.relay.db, w.relay.late[i]).Some?
    case LateEnds(i) => i < |w.relay.late|
    case Acknowledges(d) => d <= w.relay.term.durable
    case Reopens(_) => !w.relay.term.life.Closed?
    case Injects(e) => !e.Attached? && !e.Ack? && !e.Mismatch?
    case Loses(i) => i < |w.down|
    case Closes(_) => w.relay.term.life.Open?
    case Shrinks(_) => true
    case Crashes(_) => Load(w.relay.db).Some?
    case Forgets(cap) => 1 <= cap
  }

  /** The driver's part of the stream begins where the first attach it hears says. */
  function Settled(w: World): World {
    if !w.joined && w.down != [] && Joins(w.client, false, FromRelay(w.down[0])) then
      var n := Min(w.down[0].next, |w.stream|);
      w.(stream := w.stream[..n], base := n)
    else w
  }

  function ClientPass(w: World, pick: Pick, down: seq<Event>): World
    requires Ok(w.client)
  {
    var e := Pass(w.client, pick);
    w.(stream := w.stream + e.appended,
       joined := Joins(w.client, w.joined, pick),
       client := e.d,
       taken := w.taken + TakenBy(w.client, pick),
       frames := w.frames + e.out,
       down := down)
  }

  function Arrival(w: World, off: nat, data: seq<byte>, cap: nat): World {
    var (t, r) := w.relay.term.Append(off, data, cap);
    w.(relay := w.relay.(term := t),
       accepted := if r.Accepted? then w.accepted + [Request.Output(off, data)] else w.accepted,
       down := if r.OffsetMismatch? then w.down + [Mismatch(r.next)] else w.down)
  }

  function Next(w: World, step: Step): World
    requires Ok(w.client) && Enabled(w, step)
  {
    var r := w.relay;
    match step
    case ShellSpeaks(m) => ClientPass(w, FromShell(m), w.down)
    case ClientHears => ClientPass(Settled(w), FromRelay(w.down[0]), w.down[1..])
    case Arrives(f, lo, hi, cap) =>
      Arrival(w, w.frames[f].start + lo, w.frames[f].bytes[lo..hi], cap)
    case Starts => w.(relay := r.Started())
    case Commits => w.(relay := r.CommittedNow())
    case Fails => w.(relay := r.(flight := Quiet))
    case Publishes => w.(relay := r.Published())
    case Abandons => w.(relay := r.Abandoned())
    case LateCommits(i) => w.(relay := r.CommittedLate(i))
    case LateEnds(i) => w.(relay := r.Without(i))
    case Acknowledges(d) => w.(down := w.down + [Ack(d)])
    case Reopens(limits) => w.(down := w.down + [Attached(r.term.next, limits)])
    case Injects(e) => w.(down := w.down + [e])
    case Loses(i) => w.(down := w.down[..i] + w.down[i + 1..])
    case Closes(reason) => w.(relay := r.(term := r.term.(life := Closing(reason))))
    case Shrinks(cap) => w.(relay := r.(term := r.term.Shrink(cap)))
    case Crashes(cap) => w.(relay := r.Crashed(cap))
    case Forgets(cap) => w.(relay := Fresh(cap))
  }

  /**
   A driver that has done nothing, and a relay in whatever state an earlier process left it:
   with bytes not yet committed, with a checkpoint on its way, with others abandoned.
   */
  ghost predicate Init(w: World) {
    && w.base == |w.stream| == w.relay.term.next && !w.joined && w.client == NEW_DRIVER
    && w.taken == [] && w.frames == [] && w.down == [] && w.accepted == []
    && RelayOk(w.relay, w.stream)
  }

  // ------------------------------------------------------------------------ the invariant

  predicate AllPlausible(down: seq<Event>, stream: seq<byte>) {
    forall i | 0 <= i < |down| :: Plausible(down[i], stream, true)
  }

  /** Before the first attach is heard, those on their way only go down, as the relay does. */
  predicate Waiting(down: seq<Event>, low: nat, high: nat) {
    && (forall i | 0 <= i < |down| :: !down[i].Mismatch? && (down[i].Attached? ==> low <= down[i].next <= high))
    && (forall i, j | 0 <= i < j < |down| && down[i].Attached? && down[j].Attached? :: down[j].next <= down[i].next)
  }

  predicate DownOk(w: World, down: seq<Event>, joined: bool) {
    if joined then AllPlausible(down, w.stream) else Waiting(down, w.relay.term.next, |w.stream|)
  }

  /** No byte anywhere differs from the stream. */
  ghost predicate Faithful(w: World) {
    && Linked(w.client, w.stream, w.base, w.joined)
    && RelayOk(w.relay, w.stream)
    && SendsOnly(w.frames, w.stream, w.base)
    && SendsOnly(w.accepted, w.stream, w.base)
    && DownOk(w, w.down, w.joined)
    && w.taken == w.stream[w.base..] + Held(w.client)
    && (!w.joined ==> w.accepted == [] && forall r | r in w.frames :: !r.Output?)
  }

  /** No event that names an offset arrives behind an acknowledgement beyond it. */
  predicate Ordered(down: seq<Event>) {
    forall i, j | 0 <= i < j < |down| && down[i].Ack? && (down[j].Attached? || down[j].Mismatch?) ::
      down[i].durable <= down[j].next
  }

  predicate AtLeast(down: seq<Event>, start: nat) {
    forall j | 0 <= j < |down| && (down[j].Attached? || down[j].Mismatch?) :: start <= down[j].next
  }

  ghost predicate AcksSecured(down: seq<Event>, r: Relay) {
    forall i | 0 <= i < |down| && down[i].Ack? :: Secured(r, down[i].durable)
  }

  /** The driver still holds every byte the relay can ever ask for. */
  ghost predicate Resumable(w: World) {
    && w.client.phase != LostPlace
    && Ordered(w.down) && AcksSecured(w.down, w.relay)
    && (w.joined ==> Secured(w.relay, w.client.stream.start) && AtLeast(w.down, w.client.stream.start))
  }

  // ------------------------------------------------------------- every step keeps it: faith

  lemma SendsGrow(out: seq<Request>, stream: seq<byte>, base: nat, more: seq<byte>)
    requires SendsOnly(out, stream, base)
    ensures SendsOnly(out, stream + more, base)
  {
    forall r | r in out && r.Output?
      ensures At(stream + more, r.start, r.bytes)
    {
      AtGrows(stream, more, r.start, r.bytes);
    }
  }

  lemma ClientKeepsOrder(w: World, pick: Pick, e: Effect)
    requires Ok(w.client) && e == Pass(w.client, pick)
    requires w.base <= |w.stream| && w.taken == w.stream[w.base..] + Held(w.client)
    ensures w.taken + TakenBy(w.client, pick) == (w.stream + e.appended)[w.base..] + Held(e.d)
  {
    PassConserves(w.client, pick);
    assert (w.stream + e.appended)[w.base..] == w.stream[w.base..] + e.appended;
    Regroup(w.taken, w.stream[w.base..], Held(w.client), TakenBy(w.client, pick), e.appended, Held(e.d));
  }

  lemma ClientKeepsFaith(w: World, pick: Pick, down: seq<Event>)
    requires Faithful(w) && DownOk(w, down, Joins(w.client, w.joined, pick))
    requires pick.FromRelay? && w.client.phase == Running ==> Plausible(pick.event, w.stream, w.joined)
    ensures Faithful(ClientPass(w, pick, down))
  {
    var e := Pass(w.client, pick);
    PassIsStream(w.client, w.stream, w.base, w.joined, pick);
    ClientKeepsOrder(w, pick, e);
    RelayGrows(w.relay, w.stream, e.appended);
    SendsGrow(w.frames, w.stream, w.base, e.appended);
    SendsGrow(w.accepted, w.stream, w.base, e.appended);
  }

  /** Settling where the driver begins changes nothing that anyone has been told. */
  lemma SettlingKeepsFaith(w: World)
    requires Faithful(w)
    ensures Faithful(Settled(w))
  {
    if !w.joined && w.down != [] && Joins(w.client, false, FromRelay(w.down[0])) {
      RelayCut(w.relay, w.stream, w.down[0].next);
    }
  }

  lemma HearingKeepsFaith(w: World)
    requires Faithful(w) && w.down != []
    ensures Faithful(Next(w, ClientHears))
  {
    SettlingKeepsFaith(w);
    ClientKeepsFaith(Settled(w), FromRelay(w.down[0]), w.down[1..]);
  }

  /** A piece of the stream is accepted only at the end of what the relay has. */
  lemma ArrivalKeepsRelay(r: Relay, stream: seq<byte>, off: nat, data: seq<byte>, cap: nat)
    requires RelayOk(r, stream) && At(stream, off, data)
    ensures var t := r.term.Append(off, data, cap).0;
            && MovesOn(r.term, t) && t.next <= |stream| && t.Sound(stream[..t.next])
            && RelayOk(r.(term := t), stream)
  {
    AppendMeaning(r.term, stream[..r.term.next], off, data, cap);
    if off == r.term.next {
      assert stream[..off] + data == stream[..off + |data|];
    }
    MovingOnKeepsRelay(r, stream, r.term.Append(off, data, cap).0);
  }

  lemma PieceKeepsFaith(w: World, off: nat, data: seq<byte>, cap: nat)
    requires Faithful(w) && w.joined && w.base <= off && At(w.stream, off, data)
    ensures Faithful(Arrival(w, off, data, cap))
    ensures MovesOn(w.relay.term, Arrival(w, off, data, cap).relay.term)
  {
    ArrivalKeepsRelay(w.relay, w.stream, off, data, cap);
  }

  lemma PieceIsStream(frames: seq<Request>, stream: seq<byte>, base: nat, f: nat, lo: nat, hi: nat)
    requires SendsOnly(frames, stream, base)
    requires f < |frames| && frames[f].Output? && lo <= hi <= |frames[f].bytes|
    ensures base <= frames[f].start + lo && At(stream, frames[f].start + lo, frames[f].bytes[lo..hi])
  {
    assert frames[f] in frames;
    AtSlice(stream, frames[f].start, frames[f].bytes, lo, hi);
  }

  lemma ArrivalKeepsFaith(w: World, f: nat, lo: nat, hi: nat, cap: nat)
    requires Faithful(w) && Enabled(w, Arrives(f, lo, hi, cap))
    ensures Faithful(Next(w, Arrives(f, lo, hi, cap)))
  {
    hide RelayOk, At, DownOk, Linked;
    PieceIsStream(w.frames, w.stream, w.base, f, lo, hi);
    assert w.frames[f] in w.frames;
    PieceKeepsFaith(w, w.frames[f].start + lo, w.frames[f].bytes[lo..hi], cap);
  }

  predicate OfRelay(step: Step) {
    step.Starts? || step.Commits? || step.Fails? || step.Publishes? || step.Abandons? || step.LateCommits?
    || step.LateEnds? || step.Closes? || step.Shrinks? || step.Crashes? || step.Forgets?
  }

  lemma TermMovesOn(w: World, step: Step)
    requires Faithful(w) && Enabled(w, step) && (step.Closes? || step.Shrinks?)
    ensures var t := Next(w, step).relay.term;
            MovesOn(w.relay.term, t) && t.next == w.relay.term.next && t.Sound(w.stream[..t.next])
  {
    if step.Shrinks? {
      SetCapacityShows(w.relay.term.ring, w.stream[..w.relay.term.next], step.cap);
    }
  }

  lemma RelayMovesOn(w: World, step: Step)
    requires Faithful(w) && Enabled(w, step) && (step.Closes? || step.Shrinks?)
    ensures RelayOk(Next(w, step).relay, w.stream) && Next(w, step).relay.term.next == w.relay.term.next
    ensures forall x | Secured(w.relay, x) :: Secured(Next(w, step).relay, x)
  {
    TermMovesOn(w, step);
    MovingOnKeepsRelay(w.relay, w.stream, Next(w, step).relay.term);
    forall x | Secured(w.relay, x)
      ensures Secured(Next(w, step).relay, x)
    {
      MovingOnKeepsSecured(w.relay, Next(w, step).relay.term, x);
    }
  }

  lemma RelayStepsKeepRelay(w: World, step: Step)
    requires Faithful(w) && Enabled(w, step) && OfRelay(step)
    ensures RelayOk(Next(w, step).relay, w.stream) && Next(w, step).relay.term.next <= w.relay.term.next
    ensures !step.Forgets? ==> forall x | Secured(w.relay, x) :: Secured(Next(w, step).relay, x)
  {
    hide Secured, RelayOk, Pass;
    var r := w.relay;
    match step
    case Starts => TakingKeepsRelay(r, w.stream);
    case Commits => CommitKeepsRelay(r, w.stream);
    case Fails => FailingKeepsRelay(r, w.stream);
    case Publishes => PublishKeepsRelay(r, w.stream);
    case Abandons => AbandonKeepsRelay(r, w.stream);
    case LateCommits(i) => LateCommitKeepsRelay(r, w.stream, i);
    case LateEnds(i) => EndingKeepsRelay(r, w.stream, i);
    case Crashes(cap) => CrashKeepsRelay(r, w.stream, cap);
    case Closes(_) => RelayMovesOn(w, step);
    case Shrinks(_) => RelayMovesOn(w, step);
    case Forgets(cap) => FreshIsOk(cap, w.stream);
    case _ =>
  }

  lemma RelayKeepsFaith(w: World, step: Step)
    requires Faithful(w) && Enabled(w, step) && OfRelay(step)
    ensures Faithful(Next(w, step))
  {
    RelayStepsKeepRelay(w, step);
    var after := Next(w, step);
    assert after == w.(relay := after.relay);
  }

  lemma DownKeepsFaith(w: World, down: seq<Event>)
    requires Faithful(w) && DownOk(w, down, w.joined)
    ensures Faithful(w.(down := down))
  {
  }

  /** Acknowledgements and attaches that are said, and anything that is lost. */
  lemma SayingKeepsFaith(w: World, step: Step)
    requires Faithful(w) && Enabled(w, step)
    requires step.Acknowledges? || step.Reopens? || step.Injects? || step.Loses?
    ensures Faithful(Next(w, step))
  {
    DownKeepsFaith(w, Next(w, step).down);
  }

  lemma StepKeepsFaith(w: World, step: Step)
    requires Faithful(w) && Enabled(w, step)
    ensures Faithful(Next(w, step))
  {
    match step
    case ShellSpeaks(m) => ClientKeepsFaith(w, FromShell(m), w.down);
    case ClientHears => HearingKeepsFaith(w);
    case Arrives(f, lo, hi, cap) => ArrivalKeepsFaith(w, f, lo, hi, cap);
    case Acknowledges(_) => SayingKeepsFaith(w, step);
    case Reopens(_) => SayingKeepsFaith(w, step);
    case Injects(_) => SayingKeepsFaith(w, step);
    case Loses(_) => SayingKeepsFaith(w, step);
    case _ => RelayKeepsFaith(w, step);
  }

  // --------------------------------------------------------- every step keeps it: resuming

  /** How far a pass releases, and when it gives the terminal up. */
  predicate Releases(d: Driver, d': Driver, joined: bool, pick: Pick) {
    && (joined ==> d.stream.start <= d'.stream.start)
    && (joined ==> d'.stream.start <= if pick.FromRelay? && pick.event.Ack?
                                      then Max(d.stream.start, pick.event.durable) else d.stream.start)
    && (!joined && pick.FromRelay? && pick.event.Attached? ==> d'.stream.start <= pick.event.next)
  }

  /** A pass gives up only when asked for bytes below those it holds. */
  predicate AsksBelow(d: Driver, joined: bool, pick: Pick) {
    joined && pick.FromRelay? && (pick.event.Attached? || pick.event.Mismatch?) && pick.event.next < d.stream.start
  }

  lemma HeadReleasesNothing(d: Driver)
    requires Ok(d)
    ensures Head(d).d.stream.start == d.stream.start && Head(d).d.phase == d.phase
  {
  }

  lemma EventReleases(d: Driver, stream: seq<byte>, base: nat, joined: bool, e: Event)
    requires Linked(d, stream, base, joined) && Plausible(e, stream, joined) && d.phase == Running
    ensures Releases(d, OnEvent(d, e).d, joined, FromRelay(e))
    ensures OnEvent(d, e).d.phase == LostPlace ==> AsksBelow(d, joined, FromRelay(e))
  {
    hide Slices, At;
  }

  lemma PassReleases(d: Driver, stream: seq<byte>, base: nat, joined: bool, pick: Pick)
    requires Linked(d, stream, base, joined)
    requires pick.FromRelay? && d.phase == Running ==> Plausible(pick.event, stream, joined)
    ensures Pass(d, pick).d.phase == LostPlace ==> d.phase == LostPlace || AsksBelow(d, joined, pick)
    ensures d.phase == Running ==> Releases(d, Pass(d, pick).d, joined, pick)
    ensures d.phase != Running ==> Pass(d, pick).d == d
  {
    if d.phase == Running && pick.FromRelay? {
      HeadIsStream(d, stream, base, joined);
      HeadReleasesNothing(d);
      EventReleases(Head(d).d, stream + Head(d).appended, base, joined, pick.event);
    }
  }

  lemma ShellKeepsResuming(w: World, m: FromOwner)
    requires Faithful(w) && Resumable(w)
    ensures Resumable(ClientPass(w, FromShell(m), w.down))
  {
    PassReleases(w.client, w.stream, w.base, w.joined, FromShell(m));
  }

  /**
   When the driver hears where its part begins, no crash can take the relay back below that.  It
   holds of a terminal nobody had before, whose stream begins with nothing.
   */
  ghost predicate BeginsSaved(w: World, step: Step) {
    step.ClientHears? && !w.joined && w.down != [] && Joins(w.client, false, FromRelay(w.down[0])) ==>
      Secured(w.relay, w.down[0].next)
  }

  /** The relay keeps the terminal, and the driver begins on secured ground. */
  ghost predicate KeepsTerminal(w: World, step: Step) { !step.Forgets? && BeginsSaved(w, step) }

  /** What is still on its way when the driver begins asks for nothing below its beginning. */
  lemma WaitingIsAtLeast(down: seq<Event>, low: nat, high: nat, n: nat)
    requires Waiting(down, low, high) && n <= low
    ensures AtLeast(down, n)
  {
  }

  lemma HeardIsPlausible(w: World)
    requires Faithful(w) && w.down != [] && (w.joined || !Joins(w.client, false, FromRelay(w.down[0])))
    ensures w.client.phase == Running ==> Plausible(w.down[0], w.stream, w.joined)
  {
  }

  lemma HearingOnKeepsResuming(w: World)
    requires Faithful(w) && Resumable(w) && w.down != []
    requires w.joined || !Joins(w.client, false, FromRelay(w.down[0]))
    ensures Resumable(Next(w, ClientHears))
  {
    hide Pass, RelayOk, Secured, Plausible;
    var after := Next(w, ClientHears);
    HeardIsPlausible(w);
    PassReleases(w.client, w.stream, w.base, w.joined, FromRelay(w.down[0]));
    assert after.relay == w.relay && after.down == w.down[1..] && after.joined == w.joined;
    if w.joined {
      var x := if w.down[0].Ack? then Max(w.client.stream.start, w.down[0].durable) else w.client.stream.start;
      SecuredBelow(w.relay, w.stream, x, after.client.stream.start);
    }
  }

  lemma BeginningKeepsResuming(w: World)
    requires Faithful(w) && Resumable(w) && w.down != []
    requires !w.joined && Joins(w.client, false, FromRelay(w.down[0])) && BeginsSaved(w, ClientHears)
    ensures Resumable(Next(w, ClientHears))
  {
    var begun, n := Settled(w), w.down[0].next;
    SettlingKeepsFaith(w);
    PassReleases(begun.client, begun.stream, begun.base, false, FromRelay(w.down[0]));
    SecuredBelow(w.relay, w.stream, n, Next(w, ClientHears).client.stream.start);
    WaitingIsAtLeast(w.down, w.relay.term.next, |w.stream|, n);
  }

  lemma HearingKeepsResuming(w: World)
    requires Faithful(w) && Resumable(w) && w.down != [] && BeginsSaved(w, ClientHears)
    ensures Resumable(Next(w, ClientHears))
  {
    if w.joined || !Joins(w.client, false, FromRelay(w.down[0])) {
      HearingOnKeepsResuming(w);
    } else {
      BeginningKeepsResuming(w);
    }
  }

  /** No acknowledgement on its way is beyond what the relay will say next. */
  lemma AcksAreBelow(down: seq<Event>, r: Relay, stream: seq<byte>)
    requires AcksSecured(down, r) && RelayOk(r, stream)
    ensures forall i | 0 <= i < |down| && down[i].Ack? :: down[i].durable <= r.term.next
  {
    forall i | 0 <= i < |down| && down[i].Ack?
      ensures down[i].durable <= r.term.next
    {
      SecuredBelow(r, stream, down[i].durable, 0);
    }
  }

  lemma SaidKeepsResuming(w: World, e: Event)
    requires Faithful(w) && Resumable(w)
    requires e.Ack? ==> Secured(w.relay, e.durable)
    requires e.Attached? || e.Mismatch? ==> e.next == w.relay.term.next
    ensures Resumable(w.(down := w.down + [e]))
  {
    AcksAreBelow(w.down, w.relay, w.stream);
    if w.joined {
      SecuredBelow(w.relay, w.stream, w.client.stream.start, 0);
    }
  }

  lemma LosingKeepsResuming(w: World, i: nat)
    requires Resumable(w) && i < |w.down|
    ensures Resumable(w.(down := w.down[..i] + w.down[i + 1..]))
  {
    var down := w.down[..i] + w.down[i + 1..];
    assert forall k | 0 <= k < |down| :: down[k] == w.down[if k < i then k else k + 1];
  }

  lemma RelayChangeKeepsResuming(w: World, r: Relay)
    requires Resumable(w) && forall x | Secured(w.relay, x) :: Secured(r, x)
    ensures Resumable(w.(relay := r))
  {
  }

  lemma ArrivalKeepsResuming(w: World, off: nat, data: seq<byte>, cap: nat)
    requires Faithful(w) && Resumable(w)
    ensures Resumable(Arrival(w, off, data, cap))
  {
    var (t, o) := w.relay.term.Append(off, data, cap);
    var r := w.relay.(term := t);
    forall x | Secured(w.relay, x)
      ensures Secured(r, x)
    {
      MovingOnKeepsSecured(w.relay, t, x);
    }
    if o.OffsetMismatch? {
      SaidKeepsResuming(w, Mismatch(w.relay.term.next));
      RelayChangeKeepsResuming(w.(down := w.down + [Mismatch(w.relay.term.next)]), r);
    } else {
      RelayChangeKeepsResuming(w, r);
    }
  }

  lemma TalkKeepsResuming(w: World, step: Step)
    requires Faithful(w) && Resumable(w) && Enabled(w, step)
    requires step.Acknowledges? || step.Reopens? || step.Injects? || step.Loses?
    ensures Resumable(Next(w, step))
  {
    match step
    case Acknowledges(d) =>
      SecuredBelow(w.relay, w.stream, w.relay.term.durable, d);
      SaidKeepsResuming(w, Ack(d));
    case Reopens(limits) => SaidKeepsResuming(w, Attached(w.relay.term.next, limits));
    case Injects(e) => SaidKeepsResuming(w, e);
    case Loses(i) => LosingKeepsResuming(w, i);
  }

  lemma StepKeepsResuming(w: World, step: Step)
    requires Faithful(w) && Resumable(w) && Enabled(w, step) && KeepsTerminal(w, step)
    ensures Resumable(Next(w, step))
  {
    hide Pass, RelayOk, Secured, Plausible;
    if step.ShellSpeaks? {
      ShellKeepsResuming(w, step.message);
    } else if step.ClientHears? {
      HearingKeepsResuming(w);
    } else if step.Arrives? {
      var frame := w.frames[step.frame];
      ArrivalKeepsResuming(w, frame.start + step.lo, frame.bytes[step.lo..step.hi], step.cap);
    } else if OfRelay(step) {
      RelayStepsKeepRelay(w, step);
      RelayChangeKeepsResuming(w, Next(w, step).relay);
    } else {
      TalkKeepsResuming(w, step);
    }
  }
}
