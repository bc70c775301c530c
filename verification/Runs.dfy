/**
 Whole runs of the protocol: what no run ever does, what every run keeps, and exactly when.
 */
module Runs {
  import opened Bytes
  import opened Stream
  import opened Publish
  import opened ReplayRing
  import opened Store
  import opened RelayTerminal
  import opened RelayProcess
  import opened Protocol

  // ------------------------------------------------------------------------ over whole runs

  /** `ws` is a run: it starts at rest and each world follows from the one before by a step. */
  ghost predicate IsRun(ws: seq<World>, steps: seq<Step>) {
    && |ws| == |steps| + 1 && Init(ws[0])
    && forall i | 0 <= i < |steps| ::
         Ok(ws[i].client) && Enabled(ws[i], steps[i]) && ws[i + 1] == Next(ws[i], steps[i])
  }

  lemma InitHolds(w: World)
    requires Init(w)
    ensures Faithful(w) && Resumable(w)
  {
    assert w.stream[w.base..] + Held(w.client) == [];
  }

  /** The central claim: in no run does a byte anywhere differ from what the shell wrote. */
  lemma {:induction false} RunsAreFaithful(ws: seq<World>, steps: seq<Step>, i: nat)
    requires IsRun(ws, steps) && i < |ws|
    ensures Faithful(ws[i])
  {
    hide Next, Enabled, Faithful;
    if i == 0 {
      InitHolds(ws[0]);
    } else {
      RunsAreFaithful(ws, steps, i - 1);
      StepKeepsFaith(ws[i - 1], steps[i - 1]);
    }
  }

  /** Against a relay that keeps the terminal, the driver can always resume. */
  lemma {:induction false} RunsAreResumable(ws: seq<World>, steps: seq<Step>, i: nat)
    requires IsRun(ws, steps) && i < |ws|
    requires forall k | 0 <= k < |steps| :: KeepsTerminal(ws[k], steps[k])
    ensures Faithful(ws[i]) && Resumable(ws[i])
  {
    hide Next, Enabled, Faithful, Resumable;
    RunsAreFaithful(ws, steps, i);
    if i == 0 {
      InitHolds(ws[0]);
    } else {
      RunsAreResumable(ws, steps, i - 1);
      StepKeepsResuming(ws[i - 1], steps[i - 1]);
    }
  }

  /** What is secured stays so, whatever is committed, abandoned or committed late, and through crashes. */
  lemma StepKeepsSecured(w: World, step: Step, x: nat)
    requires Faithful(w) && Enabled(w, step) && !step.Forgets? && Secured(w.relay, x)
    ensures Secured(Next(w, step).relay, x)
  {
    if OfRelay(step) {
      RelayStepsKeepRelay(w, step);
    } else {
      var r := Next(w, step).relay;
      assert r == w.relay.(term := r.term);
      MovingOnKeepsSecured(w.relay, r.term, x);
    }
  }

  lemma {:induction false} SecuredStays(ws: seq<World>, steps: seq<Step>, i: nat, j: nat, x: nat)
    requires IsRun(ws, steps) && i <= j < |ws| && Secured(ws[i].relay, x)
    requires forall k | 0 <= k < |steps| :: !steps[k].Forgets?
    ensures Secured(ws[j].relay, x)
    decreases j
  {
    hide Next, Enabled, Faithful, Secured;
    if i < j {
      SecuredStays(ws, steps, i, j - 1, x);
      RunsAreFaithful(ws, steps, j - 1);
      StepKeepsSecured(ws[j - 1], steps[j - 1], x);
    }
  }

  /** An acknowledged offset is never taken back: no later relay stands below it. */
  lemma AcknowledgedIsKept(ws: seq<World>, steps: seq<Step>, i: nat, j: nat)
    requires IsRun(ws, steps) && i <= j < |ws|
    requires forall k | 0 <= k < |steps| :: !steps[k].Forgets?
    ensures Secured(ws[j].relay, ws[i].relay.term.durable)
    ensures ws[i].relay.term.durable <= ws[j].relay.term.next
  {
    RunsAreFaithful(ws, steps, i);
    RunsAreFaithful(ws, steps, j);
    SecuredStays(ws, steps, i, j, ws[i].relay.term.durable);
    SecuredBelow(ws[j].relay, ws[j].stream, ws[i].relay.term.durable, 0);
  }

  // ------------------------------------------------ runs in which nothing commits late

  lemma PassKeepsKempt(w: World, pick: Pick)
    requires Faithful(w) && Kempt(w.relay, w.stream)
    ensures Kempt(w.relay, ClientPass(w, pick, w.down).stream)
  {
    var more := Pass(w.client, pick).appended;
    assert (w.stream + more)[..w.relay.term.next] == w.stream[..w.relay.term.next];
    KemptElsewhere(w.relay, w.stream, w.stream + more);
  }

  lemma SettlingKeepsKempt(w: World)
    requires Faithful(w) && Kempt(w.relay, w.stream)
    ensures Kempt(w.relay, Settled(w).stream)
  {
    if Settled(w) != w {
      assert Settled(w).stream[..w.relay.term.next] == w.stream[..w.relay.term.next];
      KemptElsewhere(w.relay, w.stream, Settled(w).stream);
    }
  }

  lemma RelayStepsKeepKempt(w: World, step: Step)
    requires Faithful(w) && Kempt(w.relay, w.stream) && Enabled(w, step) && OfRelay(step) && !step.LateCommits?
    ensures Kempt(Next(w, step).relay, w.stream)
    ensures !step.Forgets? ==> w.relay.term.durable <= Next(w, step).relay.term.durable
                               && w.relay.db.durable <= Next(w, step).relay.db.durable
  {
    var r := w.relay;
    match step
    case Starts => TakingKeepsKempt(r, w.stream);
    case Commits => CommitKeepsKempt(r, w.stream);
    case Publishes => PublishKeepsKempt(r, w.stream);
    case Crashes(cap) => CrashKeepsKempt(r, w.stream, cap);
    case Closes(_) => TermMovesOn(w, step); MovingOnKeepsKempt(r, w.stream, Next(w, step).relay.term);
    case Shrinks(_) => TermMovesOn(w, step); MovingOnKeepsKempt(r, w.stream, Next(w, step).relay.term);
    case _ =>
  }

  lemma StepKeepsKempt(w: World, step: Step)
    requires Faithful(w) && Kempt(w.relay, w.stream) && Enabled(w, step) && !step.LateCommits?
    ensures Kempt(Next(w, step).relay, Next(w, step).stream)
    ensures !step.Forgets? ==> w.relay.term.durable <= Next(w, step).relay.term.durable
                               && w.relay.db.durable <= Next(w, step).relay.db.durable
  {
    hide Pass, Kempt;
    if OfRelay(step) {
      RelayStepsKeepKempt(w, step);
    } else if step.ShellSpeaks? {
      PassKeepsKempt(w, FromShell(step.message));
    } else if step.ClientHears? {
      SettlingKeepsKempt(w);
      SettlingKeepsFaith(w);
      PassKeepsKempt(Settled(w), FromRelay(w.down[0]));
    } else if step.Arrives? {
      ArrivalKeepsKempt(w, step);
    }
  }

  lemma ArrivalKeepsKempt(w: World, step: Step)
    requires Faithful(w) && Kempt(w.relay, w.stream) && step.Arrives? && Enabled(w, step)
    ensures Kempt(Next(w, step).relay, w.stream) && Next(w, step).stream == w.stream
    ensures MovesOn(w.relay.term, Next(w, step).relay.term)
    ensures Next(w, step).relay == w.relay.(term := Next(w, step).relay.term)
  {
    var f := w.frames[step.frame];
    PieceIsStream(w.frames, w.stream, w.base, step.frame, step.lo, step.hi);
    ArrivalKeepsRelay(w.relay, w.stream, f.start + step.lo, f.bytes[step.lo..step.hi], step.cap);
    MovingOnKeepsKempt(w.relay, w.stream, Next(w, step).relay.term);
  }

  /** The rows meet at the start, and no transaction commits after its flush has been abandoned. */
  predicate Prompt(ws: seq<World>, steps: seq<Step>) {
    && |ws| > 0 && Kempt(ws[0].relay, ws[0].stream)
    && forall k | 0 <= k < |steps| :: !steps[k].LateCommits?
  }

  /** In such runs the rows always tile what the offsets say. */
  lemma {:induction false} RunsStayKempt(ws: seq<World>, steps: seq<Step>, i: nat)
    requires IsRun(ws, steps) && Prompt(ws, steps) && i < |ws|
    ensures Faithful(ws[i]) && Kempt(ws[i].relay, ws[i].stream)
  {
    hide Next, Enabled, Faithful, Kempt;
    RunsAreFaithful(ws, steps, i);
    if i > 0 {
      RunsStayKempt(ws, steps, i - 1);
      StepKeepsKempt(ws[i - 1], steps[i - 1]);
    }
  }

  /** And the durable offsets never move back, through crashes and reconnects. */
  lemma {:induction false} DurableNeverFalls(ws: seq<World>, steps: seq<Step>, i: nat, j: nat)
    requires IsRun(ws, steps) && Prompt(ws, steps) && i <= j < |ws|
    requires forall k | 0 <= k < |steps| :: !steps[k].Forgets?
    ensures ws[i].relay.term.durable <= ws[j].relay.term.durable
    ensures ws[i].relay.db.durable <= ws[j].relay.db.durable
    decreases j
  {
    hide Next, Faithful, Kempt;
    if i < j {
      DurableNeverFalls(ws, steps, i, j - 1);
      RunsStayKempt(ws, steps, j - 1);
      StepKeepsKempt(ws[j - 1], steps[j - 1]);
    }
  }

  // ----------------------------------------------------------------- what that comes to

  /** Every accepted byte is the one the shell's owner handed over at that place. */
  lemma AcceptedIsWhatWasWritten(ws: seq<World>, steps: seq<Step>, i: nat, f: Request, k: nat)
    requires IsRun(ws, steps) && i < |ws|
    requires f in ws[i].accepted && f.Output? && k < |f.bytes|
    ensures var at := f.start + k - ws[i].base;
            0 <= at < |ws[i].taken| && f.bytes[k] == ws[i].taken[at]
  {
    RunsAreFaithful(ws, steps, i);
    var w := ws[i];
    assert f.bytes[k] == w.stream[f.start..f.start + |f.bytes|][k];
  }

  lemma PieceMirrors(w: World, off: nat, data: seq<byte>, cap: nat)
    requires Faithful(w) && At(w.stream, off, data)
    ensures var w', n := Arrival(w, off, data, cap), w.relay.term.next;
            && n <= |w.stream| && w'.relay.term.next <= |w.stream|
            && w'.accepted == w.accepted
                              + (if w.relay.term.life.Open? && off == n then [Request.Output(off, data)] else [])
            && w'.down == w.down + (if w.relay.term.life.Open? && off != n then [Mismatch(n)] else [])
            && w.stream[..w'.relay.term.next]
               == w.stream[..n] + if w.relay.term.life.Open? && off == n then data else []
  {
    hide Faithful, Term.Append, Term.Sound;
    RelayIsSound(w);
    AppendMeaning(w.relay.term, w.stream[..w.relay.term.next], off, data, cap);
    TakenWhole(w.relay.term, w.stream, off, data, cap);
  }

  lemma RelayIsSound(w: World)
    requires Faithful(w)
    ensures w.relay.term.next <= |w.stream| && w.relay.term.Sound(w.stream[..w.relay.term.next])
  {
  }

  lemma TakenWhole(t: Term, stream: seq<byte>, off: nat, data: seq<byte>, cap: nat)
    requires At(stream, off, data) && t.next <= |stream|
    ensures var (t', r) := t.Append(off, data, cap);
            && t'.next == t.next + (if t.life.Open? && off == t.next then |data| else 0)
            && (r.OffsetMismatch? ==> r.next == t.next)
            && (off == t.next ==> stream[..t.next] + data == stream[..t.next + |data|])
  {
  }

  /** A step that is no arrival leaves what has been mirrored, and what it was. */
  lemma StepKeepsMirror(w: World, step: Step)
    requires Faithful(w) && Enabled(w, step) && !step.Arrives? && !step.Crashes? && !step.Forgets?
    ensures var w', n := Next(w, step), w.relay.term.next;
            && w'.relay.term.next == n <= |w.stream| && n <= |w'.stream|
            && w'.accepted == w.accepted && w'.stream[..n] == w.stream[..n]
  {
    hide Pass, Secured;
  }

  lemma StepMirrors(w: World, step: Step)
    requires Faithful(w) && Enabled(w, step) && !step.Crashes? && !step.Forgets?
    ensures var w', n := Next(w, step), w.relay.term.next;
            && n <= |w.stream| && w.accepted <= w'.accepted && w'.relay.term.next <= |w'.stream|
            && AcceptAll(w.stream[..n], w'.accepted[|w.accepted|..]) == (w'.stream[..w'.relay.term.next], true)
  {
    hide Faithful;
    var n := w.relay.term.next;
    assert w.stream[..n] + [] == w.stream[..n] by { RelayIsWithin(w); }
    if step.Arrives? {
      var f := w.frames[step.frame];
      ArrivesAt(w, step);
      PieceMirrors(w, f.start + step.lo, f.bytes[step.lo..step.hi], step.cap);
    } else {
      StepKeepsMirror(w, step);
    }
  }

  lemma ArrivesAt(w: World, step: Step)
    requires Faithful(w) && step.Arrives? && Enabled(w, step)
    ensures var f := w.frames[step.frame]; At(w.stream, f.start + step.lo, f.bytes[step.lo..step.hi])
  {
    PieceIsStream(w.frames, w.stream, w.base, step.frame, step.lo, step.hi);
  }

  /**
   Between two restarts every byte is mirrored exactly once and in order: the pieces accepted are
   those that took the relay from where it was to where it is.
   */
  lemma {:induction false} MirroredInOrder(ws: seq<World>, steps: seq<Step>, i: nat, j: nat)
    requires IsRun(ws, steps) && i <= j < |ws|
    requires forall k | i <= k < j :: !steps[k].Crashes? && !steps[k].Forgets?
    ensures var w, w' := ws[i], ws[j];
            && w.relay.term.next <= |w.stream| && w.accepted <= w'.accepted && w'.relay.term.next <= |w'.stream|
            && AcceptAll(w.stream[..w.relay.term.next], w'.accepted[|w.accepted|..])
               == (w'.stream[..w'.relay.term.next], true)
    decreases j
  {
    hide Next, Enabled, Faithful;
    RunsAreFaithful(ws, steps, i);
    if i == j {
      RelayIsWithin(ws[i]);
    } else {
      var w, mid, w' := ws[i], ws[j - 1], ws[j];
      MirroredInOrder(ws, steps, i, j - 1);
      RunsAreFaithful(ws, steps, j - 1);
      StepMirrors(mid, steps[j - 1]);
      var before, more := mid.accepted[|w.accepted|..], w'.accepted[|mid.accepted|..];
      assert w'.accepted[|w.accepted|..] == before + more;
      AcceptInTwo(w.stream[..w.relay.term.next], before, more);
    }
  }

  lemma RelayIsWithin(w: World)
    requires Faithful(w)
    ensures w.relay.term.next <= |w.stream|
  {
  }

  /** Nothing is ever mirrored twice with different bytes, before or after a crash. */
  lemma NoOffsetHasTwoBytes(ws: seq<World>, steps: seq<Step>, i: nat, f: Request, g: Request, off: nat)
    requires IsRun(ws, steps) && i < |ws|
    requires f in ws[i].accepted && f.Output? && f.start <= off < f.start + |f.bytes|
    requires g in ws[i].accepted && g.Output? && g.start <= off < g.start + |g.bytes|
    ensures f.bytes[off - f.start] == g.bytes[off - g.start]
  {
    AcceptedIsWhatWasWritten(ws, steps, i, f, off - f.start);
    AcceptedIsWhatWasWritten(ws, steps, i, g, off - g.start);
  }

  /**
   What a subscriber can replay is the stream, before and after a crash; and a crash takes back no
   byte that is secured.
   */
  lemma ReplayIsWhatWasWritten(ws: seq<World>, steps: seq<Step>, i: nat, cap: nat)
    requires IsRun(ws, steps) && i < |ws|
    ensures var w := ws[i];
            && w.relay.term.next <= |w.stream| && w.relay.term.ring.Shows(w.stream[..w.relay.term.next])
            && (Load(w.relay.db).Some? ==>
                  var t := w.relay.Crashed(cap).term;
                  && w.relay.term.durable <= t.next <= w.relay.term.next
                  && t.ring.Shows(w.stream[..t.next]))
  {
    RunsAreFaithful(ws, steps, i);
    var r := ws[i].relay;
    if Load(r.db).Some? {
      CrashKeepsRelay(r, ws[i].stream, cap);
      SecuredBelow(r.Crashed(cap), ws[i].stream, r.term.durable, 0);
    }
  }

  /** When nothing has committed late, a crash is always survived, and leaves exactly what was committed. */
  lemma CrashLeavesTheCommitted(ws: seq<World>, steps: seq<Step>, i: nat, cap: nat)
    requires IsRun(ws, steps) && Prompt(ws, steps) && i < |ws|
    ensures var w := ws[i];
            && Load(w.relay.db).Some?
            && var t := w.relay.Crashed(cap).term;
            t.next == w.relay.db.durable <= |w.stream| && t.ring.Shows(w.stream[..w.relay.db.durable])
  {
    RunsStayKempt(ws, steps, i);
    CrashKeepsKempt(ws[i].relay, ws[i].stream, cap);
  }

  /** The offsets of both sides, in the one order that makes resuming possible. */
  lemma OffsetsAreOrdered(ws: seq<World>, steps: seq<Step>, i: nat)
    requires IsRun(ws, steps) && Prompt(ws, steps) && i < |ws| && ws[i].joined
    requires forall k | 0 <= k < |steps| :: KeepsTerminal(ws[k], steps[k])
    ensures var w := ws[i];
            && w.client.stream.start <= w.relay.db.durable <= w.relay.term.next <= w.client.stream.next == |w.stream|
            && w.relay.term.durable <= w.relay.db.durable
  {
    RunsAreResumable(ws, steps, i);
    RunsStayKempt(ws, steps, i);
    SecuredIsCommitted(ws[i].relay, ws[i].stream, ws[i].client.stream.start);
  }

  /** The driver has released, and is about to, only what the relay's memory knows to be durable. */
  predicate Behind(w: World) {
    && (forall i | 0 <= i < |w.down| && w.down[i].Ack? :: w.down[i].durable <= w.relay.term.durable)
    && (w.joined ==> w.client.stream.start <= w.relay.term.durable)
  }

  predicate BeginsTold(w: World, step: Step) {
    step.ClientHears? && !w.joined && w.down != [] && Joins(w.client, false, FromRelay(w.down[0])) ==>
      w.down[0].next <= w.relay.term.durable
  }

  lemma HearingKeepsBehind(w: World)
    requires Faithful(w) && Behind(w) && w.down != [] && BeginsTold(w, ClientHears)
    ensures Behind(Next(w, ClientHears))
  {
    hide Pass, RelayOk, Plausible;
    var begun := Settled(w);
    SettlingKeepsFaith(w);
    if w.joined || !Joins(w.client, false, FromRelay(w.down[0])) {
      HeardIsPlausible(w);
    } else {
      FirstIsPlausible(w);
    }
    PassReleases(begun.client, begun.stream, begun.base, w.joined, FromRelay(w.down[0]));
    assert Next(w, ClientHears).relay == w.relay && Next(w, ClientHears).down == w.down[1..];
  }

  lemma FirstIsPlausible(w: World)
    requires Faithful(w) && w.down != [] && !w.joined && Joins(w.client, false, FromRelay(w.down[0]))
    ensures Plausible(w.down[0], Settled(w).stream, false)
  {
  }

  lemma StepKeepsBehind(w: World, step: Step)
    requires Faithful(w) && Kempt(w.relay, w.stream) && Behind(w)
    requires Enabled(w, step) && BeginsTold(w, step) && !step.Forgets? && !step.LateCommits?
    ensures Behind(Next(w, step))
  {
    hide Pass, RelayOk, Kempt, Plausible, Commit, Load;
    StepKeepsKempt(w, step);
    if step.ShellSpeaks? {
      PassReleases(w.client, w.stream, w.base, w.joined, FromShell(step.message));
    } else if step.ClientHears? {
      HearingKeepsBehind(w);
    }
  }

  /** Provided that it begins on what memory knows to be durable, and that nothing commits late. */
  lemma {:induction false} RunsStayBehind(ws: seq<World>, steps: seq<Step>, i: nat)
    requires IsRun(ws, steps) && Prompt(ws, steps) && i < |ws|
    requires forall k | 0 <= k < |steps| :: !steps[k].Forgets? && BeginsTold(ws[k], steps[k])
    ensures Behind(ws[i])
  {
    hide Next, Faithful, Kempt;
    if i > 0 {
      RunsStayBehind(ws, steps, i - 1);
      RunsStayKempt(ws, steps, i - 1);
      StepKeepsBehind(ws[i - 1], steps[i - 1]);
    }
  }

  /**
   Whatever the relay has said and the driver has yet to hear, the driver can answer: the
   offset lies among the bytes it holds, and it never takes the terminal for lost.
   */
  lemma EveryWordCanBeAnswered(ws: seq<World>, steps: seq<Step>, i: nat)
    requires IsRun(ws, steps) && i < |ws|
    requires forall k | 0 <= k < |steps| :: KeepsTerminal(ws[k], steps[k])
    ensures var w := ws[i];
            && w.client.phase != LostPlace
            && (w.joined && w.down != [] && (w.down[0].Attached? || w.down[0].Mismatch?) ==>
                  w.client.stream.start <= w.down[0].next <= w.client.stream.next)
  {
    RunsAreResumable(ws, steps, i);
  }

  /**
   Once the driver has closed, the relay has everything ever handed over, and no crash, nor any
   transaction still under way, takes it below the end of that.
   */
  lemma CloseMeansSecured(ws: seq<World>, steps: seq<Step>, i: nat)
    requires IsRun(ws, steps) && i < |ws| && ws[i].client.closed
    requires forall k | 0 <= k < |steps| :: KeepsTerminal(ws[k], steps[k])
    ensures var w := ws[i];
            && w.base <= |w.stream| && w.taken == w.stream[w.base..]
            && (w.joined ==> w.relay.term.next == |w.stream| && Secured(w.relay, |w.stream|))
            && (!w.joined ==> w.taken == [])
  {
    RunsAreResumable(ws, steps, i);
    var w := ws[i];
    assert w.stream[w.base..] + [] == w.stream[w.base..];
    if w.joined {
      SecuredBelow(w.relay, w.stream, w.client.stream.start, 0);
    }
  }

  /** When nothing has committed late, it is committed to the end, and the rows hold the retained part. */
  lemma CloseMeansDurable(ws: seq<World>, steps: seq<Step>, i: nat)
    requires IsRun(ws, steps) && Prompt(ws, steps) && i < |ws| && ws[i].client.closed
    requires forall k | 0 <= k < |steps| :: KeepsTerminal(ws[k], steps[k])
    ensures var w := ws[i];
            && (w.joined ==> w.relay.db.durable == |w.stream| == w.relay.term.next)
            && w.relay.term.next <= |w.stream| && Intact(w.relay.db, w.stream[..w.relay.term.next])
  {
    CloseMeansSecured(ws, steps, i);
    RunsStayKempt(ws, steps, i);
    if ws[i].joined {
      SecuredIsCommitted(ws[i].relay, ws[i].stream, |ws[i].stream|);
    }
  }

  /**
   A terminal the relay has replaced by an empty one is not spliced: if anything had been
   released, the driver gives it up instead of sending other bytes at the same offsets.
   */
  lemma ForgottenIsNotSpliced(w: World, limits: Limits)
    requires Faithful(w) && w.joined && w.client.phase == Running
    requires w.down != [] && w.down[0] == Attached(0, limits) && 0 < w.client.stream.start
    ensures Next(w, ClientHears).client.phase == LostPlace
    ensures Faithful(Next(w, ClientHears))
  {
    HeadIsStream(w.client, w.stream, w.base, w.joined);
    HeadReleasesNothing(w.client);
    StepKeepsFaith(w, ClientHears);
  }

  /** So a terminal that is closed, forgotten and opened again is given up by the driver that had it. */
  lemma ForgottenIsGivenUp(w: World, cap: nat, limits: Limits)
    requires Faithful(w) && w.joined && w.client.phase == Running && 0 < w.client.stream.start
    requires 1 <= cap && w.down == []
    ensures Ok(w.client) && Enabled(w, Forgets(cap)) && Enabled(Next(w, Forgets(cap)), Reopens(limits))
    ensures var asked := Next(Next(w, Forgets(cap)), Reopens(limits));
            Enabled(asked, ClientHears) && Next(asked, ClientHears).client.phase == LostPlace
  {
    hide Pass, RelayOk;
    StepKeepsFaith(w, Forgets(cap));
    StepKeepsFaith(Next(w, Forgets(cap)), Reopens(limits));
    ForgottenIsNotSpliced(Next(Next(w, Forgets(cap)), Reopens(limits)), limits);
  }

  // --------------------------------------------------------------- checkpoints in conflict

  /**
   Whatever has happened, the database refuses a checkpoint exactly when a row begins where it does,
   or where it would have to cut one.
   */
  lemma AnyCheckpointRefusedIff(ws: seq<World>, steps: seq<Step>, i: nat, cp: Checkpoint)
    requires IsRun(ws, steps) && i < |ws| && Awaits(ws[i].relay, cp)
    ensures var db := ws[i].relay.db;
            Commit(db, cp).None? <==>
              || (cp.chunk != [] && HasStart(db.rows, cp.start))
              || ((exists y :: y in db.rows && y.start < cp.earliest < y.end)
                  && (HasStart(db.rows, cp.earliest) || (cp.chunk != [] && cp.start == cp.earliest)))
  {
    RunsAreFaithful(ws, steps, i);
    assert Fitting(cp, ws[i].relay.term, ws[i].stream);
    CommitRefusedIff(ws[i].relay.db, cp, ws[i].stream);
  }

  /**
   While nothing commits late, a checkpoint on its way is refused exactly when it begins below what
   is committed already: after a flush that committed and was abandoned before memory was told.
   */
  lemma CheckpointsConflictIff(ws: seq<World>, steps: seq<Step>, i: nat)
    requires IsRun(ws, steps) && Prompt(ws, steps) && i < |ws| && ws[i].relay.flight.Taken?
    ensures var r := ws[i].relay;
            !Enabled(ws[i], Commits) <==> r.flight.cp.chunk != [] && r.flight.cp.start < r.db.durable
  {
    hide IsRun, Prompt, Faithful, Kempt;
    RunsStayKempt(ws, steps, i);
    TakenRefusedIff(ws[i].relay, ws[i].stream);
  }

  lemma StepKeepsInformed(w: World, step: Step)
    requires Faithful(w) && Kempt(w.relay, w.stream) && Informed(w.relay) && w.relay.late == []
    requires Enabled(w, step) && !step.Abandons?
    ensures Informed(Next(w, step).relay) && Next(w, step).relay.late == []
  {
    hide Pass, RelayOk;
    match step
    case Publishes => PublishKeepsKempt(w.relay, w.stream);
    case Crashes(cap) => CrashKeepsKempt(w.relay, w.stream, cap);
    case Arrives(_, _, _, _) => ArrivalKeepsKempt(w, step);
    case _ =>
  }

  /** In a run in which no flush is abandoned, none is ever refused. */
  lemma {:induction false} CheckpointsNeverConflict(ws: seq<World>, steps: seq<Step>, i: nat)
    requires IsRun(ws, steps) && i < |ws|
    requires Kempt(ws[0].relay, ws[0].stream) && Informed(ws[0].relay) && ws[0].relay.late == []
    requires forall k | 0 <= k < |steps| :: !steps[k].Abandons?
    ensures Faithful(ws[i]) && Kempt(ws[i].relay, ws[i].stream) && Informed(ws[i].relay) && ws[i].relay.late == []
    ensures ws[i].relay.flight.Taken? ==> Enabled(ws[i], Commits)
  {
    hide Next, Faithful, Kempt;
    RunsAreFaithful(ws, steps, i);
    if i > 0 {
      CheckpointsNeverConflict(ws, steps, i - 1);
      StepKeepsKempt(ws[i - 1], steps[i - 1]);
      StepKeepsInformed(ws[i - 1], steps[i - 1]);
    }
    if ws[i].relay.flight.Taken? {
      InformedIsAccepted(ws[i].relay, ws[i].stream);
    }
  }

  /**
   A flush that commits and is abandoned before memory is told leaves the terminal with a checkpoint
   that the database refuses.
   */
  lemma AbandonedFlushConflicts(w: World)
    requires Faithful(w) && Kempt(w.relay, w.stream) && Enabled(w, Starts)
    requires w.relay.term.TakeCheckpoint().value.chunk != [] && Enabled(Next(w, Starts), Commits)
    ensures var committed := Next(Next(w, Starts), Commits);
            && Enabled(committed, Abandons)
            && var abandoned := Next(committed, Abandons);
            && Enabled(abandoned, Starts) && Next(abandoned, Starts).relay.flight.Taken?
            && !Enabled(Next(abandoned, Starts), Commits)
  {
    var cp := w.relay.term.TakeCheckpoint().value;
    CommitKeepsWhere(w.relay.db, cp);
    CheckpointIsShaped(w.relay.term, w.stream[..w.relay.term.next]);
    TakingKeepsRelay(w.relay, w.stream);
    TakingKeepsKempt(w.relay, w.stream);
    CommitKeepsRelay(w.relay.Started(), w.stream);
    CommitKeepsKempt(w.relay.Started(), w.stream);
    var left := w.relay.Started().CommittedNow().Abandoned();
    AbandonKeepsRelay(w.relay.Started().CommittedNow(), w.stream);
    TakingKeepsKempt(left, w.stream);
    TakenRefusedIff(left.Started(), w.stream);
  }

  lemma StepStaysStuck(w: World, step: Step)
    requires Faithful(w) && Kempt(w.relay, w.stream) && Enabled(w, step) && Stuck(w.relay)
    requires !step.LateCommits? && !step.Crashes? && !step.Forgets?
    requires w.relay.term.ring.earliest < w.relay.db.durable
    ensures var r := Next(w, step).relay;
            && r.db == w.relay.db && r.term.durable == w.relay.term.durable && Stuck(r)
            && w.relay.term.ring.earliest <= r.term.ring.earliest
  {
    hide Pass, Secured, RelayOk, Kempt, Load, Commit;
    if step.Commits? {
      StuckIsRefused(w.relay, w.stream);
      assert false;
    } else if step.Arrives? {
      ArrivalKeepsKempt(w, step);
    } else if step.Shrinks? || step.Closes? {
      TermMovesOn(w, step);
    }
  }

  /**
   Nothing more of that terminal is committed or acknowledged then, whatever it has to write: until
   a restart, or until the window has moved past everything that was committed.
   */
  lemma {:induction false} StuckUntilTheWindowPasses(ws: seq<World>, steps: seq<Step>, i: nat, j: nat)
    requires IsRun(ws, steps) && Prompt(ws, steps) && i <= j < |ws| && Stuck(ws[i].relay)
    requires forall k | i <= k < j :: !steps[k].Crashes? && !steps[k].Forgets?
    requires forall k | i <= k < j :: ws[k].relay.term.ring.earliest < ws[i].relay.db.durable
    ensures ws[j].relay.db == ws[i].relay.db && ws[j].relay.term.durable == ws[i].relay.term.durable
    ensures Stuck(ws[j].relay)
    decreases j
  {
    hide Next, Faithful, Kempt;
    if i < j {
      StuckUntilTheWindowPasses(ws, steps, i, j - 1);
      RunsStayKempt(ws, steps, j - 1);
      StepStaysStuck(ws[j - 1], steps[j - 1]);
    }
  }

  // ----------------------------------------------------------- when a transaction commits late

  lemma LateCommitIs(w: World, i: nat)
    requires Ok(w.client) && Enabled(w, LateCommits(i))
    ensures Next(w, LateCommits(i)).relay == w.relay.CommittedLate(i)
  {
  }

  /**
   A late commit takes the database's own offsets back to its checkpoint's; a restart can bring the
   terminal back after it exactly when it leaves no gap.
   */
  lemma LateCommitRestartsIff(w: World, i: nat, cap: nat)
    requires Faithful(w) && Kempt(w.relay, w.stream) && Enabled(w, LateCommits(i)) && w.relay.late[i].chunk != []
    ensures var r, cp, after := w.relay, w.relay.late[i], Next(w, LateCommits(i));
            && after.relay.db.durable == cp.durable
            && (Enabled(after, Crashes(cap)) <==>
                  || (cp.start == cp.earliest && (r.db.earliest == r.db.durable || r.db.earliest <= cp.durable))
                  || (r.db.earliest <= cp.earliest < r.db.durable && cp.start <= r.db.durable))
  {
    hide Next, Kempt;
    LateCommitIs(w, i);
    LateCommitLoads(w.relay, w.stream, i);
  }

  // ------------------------------------------------------------- what reaches a row at all

  /** A frame that is taken fits the window together with what is dirty, and a reduction leaves room for it. */
  predicate Careful(w: World, step: Step) {
    var t := w.relay.term;
    match step
    case Arrives(f, lo, hi, cap) =>
      Enabled(w, step) && t.life.Open? && w.frames[f].start + lo == t.next ==> t.Dirty() + (hi - lo) <= Max(cap, 1)
    case Shrinks(cap) => cap >= t.ring.capacity || t.Dirty() <= Max(cap, 1)
    case _ => true
  }

  /** The back pressure is careful with every frame that fits the window. */
  lemma AdmittedIsCareful(w: World, step: Step, maxUnacked: nat)
    requires step.Arrives? && Enabled(w, step) && step.hi - step.lo <= Max(step.cap, 1)
    requires w.relay.term.Dirty() <= Headroom(step.hi - step.lo, step.cap, maxUnacked)
    ensures Careful(w, step)
  {
  }

  /** Every byte below this has been acknowledged, or has left the window. */
  function PassedBy(t: Term): nat { Max(t.durable, t.ring.earliest) }

  lemma ArrivalPassesNothing(t: Term, stream: seq<byte>, off: nat, data: seq<byte>, cap: nat)
    requires t.Sound(stream)
    requires t.life.Open? && off == t.next ==> t.Dirty() + |data| <= Max(cap, 1)
    ensures PassedBy(t.Append(off, data, cap).0) == PassedBy(t)
  {
    SetCapacityShows(t.ring, stream, cap);
  }

  lemma ShrinkPassesNothing(t: Term, stream: seq<byte>, cap: nat)
    requires t.Sound(stream) && (cap >= t.ring.capacity || t.Dirty() <= Max(cap, 1))
    ensures PassedBy(t.Shrink(cap)) == PassedBy(t)
  {
    SetCapacityShows(t.ring, stream, cap);
  }

  lemma CarefulPassesNothing(w: World, step: Step)
    requires Faithful(w) && Enabled(w, step) && Careful(w, step) && (step.Arrives? || step.Shrinks?)
    ensures var t, t' := w.relay.term, Next(w, step).relay.term;
            PassedBy(t') == PassedBy(t) && t'.durable == t.durable && Next(w, step).relay.db == w.relay.db
  {
    hide Pass, Secured;
    var t, accepted := w.relay.term, w.stream[..w.relay.term.next];
    if step.Shrinks? {
      ShrinkPassesNothing(t, accepted, step.cap);
    } else {
      var f := w.frames[step.frame];
      ArrivalPassesNothing(t, accepted, f.start + step.lo, f.bytes[step.lo..step.hi], step.cap);
    }
  }

  /** Only a flush and a restart pass anything by, and what they pass by is in a row then. */
  lemma StepStores(w: World, step: Step, off: nat)
    requires Faithful(w) && Enabled(w, step) && Careful(w, step)
    requires PassedBy(w.relay.term) <= off < PassedBy(Next(w, step).relay.term)
    ensures InRows(Next(w, step).relay.db.rows, off)
  {
    hide Pass, Secured;
    if step.Arrives? || step.Shrinks? {
      CarefulPassesNothing(w, step);
    } else if step.Crashes? {
      CrashKeepsRelay(w.relay, w.stream, step.cap);
      LoadShows(w.relay.db, w.stream);
    }
  }

  /**
   In a careful run, every byte that is acknowledged, that could be, or that has left the window
   has been in a committed row, as it is in the stream.
   */
  lemma {:induction false} AcknowledgedWasStored(ws: seq<World>, steps: seq<Step>, i: nat, off: nat)
    requires IsRun(ws, steps) && i < |ws|
    requires forall k | 0 <= k < |steps| :: Careful(ws[k], steps[k])
    requires PassedBy(ws[0].relay.term) <= off < Max(PassedBy(ws[i].relay.term), ws[i].relay.db.durable)
    ensures exists j :: 0 <= j <= i && InRows(ws[j].relay.db.rows, off) && Agree(ws[j].relay.db.rows, ws[j].stream)
  {
    hide Next, Enabled, Faithful, Careful;
    RunsAreFaithful(ws, steps, i);
    RowsHold(ws[i], off);
    if off < PassedBy(ws[i].relay.term) {
      if off < PassedBy(ws[i - 1].relay.term) {
        AcknowledgedWasStored(ws, steps, i - 1, off);
      } else {
        RunsAreFaithful(ws, steps, i - 1);
        StepStores(ws[i - 1], steps[i - 1], off);
        assert InRows(ws[i].relay.db.rows, off);
      }
    }
  }

  /** From the window on, what is committed is there. */
  lemma RowsHold(w: World, off: nat)
    requires Faithful(w)
    ensures Agree(w.relay.db.rows, w.stream)
    ensures PassedBy(w.relay.term) <= off < w.relay.db.durable ==> InRows(w.relay.db.rows, off)
  {
  }

  /** In a careful run in which nothing commits late, no uncommitted byte ever leaves the window. */
  lemma {:induction false} CarefulRunsStayClean(ws: seq<World>, steps: seq<Step>, i: nat)
    requires IsRun(ws, steps) && Prompt(ws, steps) && i < |ws| && KeepsDirty(ws[0].relay.term)
    requires forall k | 0 <= k < |steps| :: Careful(ws[k], steps[k])
    ensures KeepsDirty(ws[i].relay.term)
  {
    if i > 0 {
      CarefulRunsStayClean(ws, steps, i - 1);
      RunsStayKempt(ws, steps, i - 1);
      StepKeepsClean(ws[i - 1], steps[i - 1]);
    }
  }

  lemma StepKeepsClean(w: World, step: Step)
    requires Faithful(w) && Kempt(w.relay, w.stream) && KeepsDirty(w.relay.term)
    requires Enabled(w, step) && Careful(w, step)
    ensures KeepsDirty(Next(w, step).relay.term)
  {
    hide Pass, Secured, Kempt, Commit, Load;
    if step.Arrives? || step.Shrinks? {
      CarefulPassesNothing(w, step);
    } else if step.Crashes? {
      CrashKeepsKempt(w.relay, w.stream, step.cap);
    }
  }

  // --------------------------------------------------- where the driver may begin, exactly

  lemma BeginsSavedStep(w: World, step: Step)
    requires Faithful(w) && Enabled(w, step) && !step.Forgets?
    requires !w.joined ==> Secured(w.relay, |w.stream|)
    ensures BeginsSaved(w, step)
    ensures !Next(w, step).joined ==> Secured(Next(w, step).relay, |Next(w, step).stream|)
  {
    hide Secured, RelayOk;
    if !w.joined {
      StepKeepsSecured(w, step, |w.stream|);
      if step.ShellSpeaks? {
        PassIsStream(w.client, w.stream, w.base, w.joined, FromShell(step.message));
      } else if step.ClientHears? && !Joins(w.client, false, FromRelay(w.down[0])) {
        PassIsStream(w.client, w.stream, w.base, w.joined, FromRelay(w.down[0]));
      } else if step.ClientHears? {
        SecuredBelow(w.relay, w.stream, |w.stream|, w.down[0].next);
      }
    }
  }

  /** A run that starts with everything committed begins on secured ground. */
  lemma {:induction false} CommittedStartBeginsSaved(ws: seq<World>, steps: seq<Step>, i: nat)
    requires IsRun(ws, steps) && i < |ws|
    requires ws[0].relay.term.durable == |ws[0].stream|
    requires forall k | 0 <= k < |steps| :: !steps[k].Forgets?
    ensures !ws[i].joined ==> Secured(ws[i].relay, |ws[i].stream|)
    ensures i < |steps| ==> KeepsTerminal(ws[i], steps[i])
  {
    hide Next;
    RunsAreFaithful(ws, steps, i);
    if i > 0 {
      CommittedStartBeginsSaved(ws, steps, i - 1);
      RunsAreFaithful(ws, steps, i - 1);
      BeginsSavedStep(ws[i - 1], steps[i - 1]);
    }
    if i < |steps| {
      BeginsSavedStep(ws[i], steps[i]);
    }
  }

  /**
   So against a relay that keeps a terminal of which everything was committed, or nothing existed,
   nothing is ever lost or spliced and the driver can always resume: with no further condition on
   what is delayed, repeated, abandoned, committed late or crashes.
   */
  lemma CommittedStartIsSafe(ws: seq<World>, steps: seq<Step>, i: nat)
    requires IsRun(ws, steps) && i < |ws|
    requires ws[0].relay.term.durable == |ws[0].stream|
    requires forall k | 0 <= k < |steps| :: !steps[k].Forgets?
    ensures Faithful(ws[i]) && Resumable(ws[i])
  {
    forall k | 0 <= k < |steps|
      ensures KeepsTerminal(ws[k], steps[k])
    {
      CommittedStartBeginsSaved(ws, steps, k);
    }
    RunsAreResumable(ws, steps, i);
  }

  function CrashedAndHeard(w: World, cap: nat, limits: Limits): World
    requires Ok(w.client) && Enabled(w, Crashes(cap))
    requires Enabled(Next(w, Crashes(cap)), Reopens(limits))
  {
    Next(Next(Next(w, Crashes(cap)), Reopens(limits)), ClientHears)
  }

  /**
   A driver that has begun survives a restart of the relay exactly when what the restart brings back
   reaches the bytes the driver holds; so it must not begin on bytes that were never committed.
   */
  lemma CrashLosesPlaceIff(w: World, cap: nat, limits: Limits)
    requires Faithful(w) && w.joined && w.client.phase == Running && w.down == [] && w.relay.db.closed.None?
    requires Enabled(w, Crashes(cap))
    ensures Enabled(Next(w, Crashes(cap)), Reopens(limits))
    ensures CrashedAndHeard(w, cap, limits).client.phase == LostPlace
            <==> w.relay.db.earliest + |Load(w.relay.db).value| < w.client.stream.start
    ensures Kempt(w.relay, w.stream) ==> w.relay.db.earliest + |Load(w.relay.db).value| == w.relay.db.durable
  {
    hide Secured, Kempt, Load, RelayOk;
    CrashKeepsRelay(w.relay, w.stream, cap);
    if Kempt(w.relay, w.stream) {
      CrashKeepsKempt(w.relay, w.stream, cap);
    }
    HeadIsStream(w.client, w.stream, w.base, w.joined);
    HeadReleasesNothing(w.client);
    var heard := Attached(w.relay.Crashed(cap).term.next, limits);
    var asked := Next(Next(w, Crashes(cap)), Reopens(limits));
    assert asked.down == [heard] && asked.client == w.client;
    var head := Head(w.client);
    LosesPlaceIff(head.d, w.stream + head.appended, heard.next, limits);
  }

  lemma LosesPlaceIff(d: Driver, stream: seq<byte>, n: nat, limits: Limits)
    requires Ok(d) && d.phase == Running && Holds(d.stream, stream) && n <= |stream|
    ensures OnEvent(d, Attached(n, limits)).d.phase == LostPlace <==> n < d.stream.start && !d.stream.Fresh()
    ensures d.stream.Fresh() ==> n == 0
  {
  }
}
