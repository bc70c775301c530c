/**
 Runs that go wrong, step by step: each reaches a state that the theorems about whole runs
 exclude, by the one thing that they require not to happen.
 */
module FailingRuns {
  import opened Bytes
  import opened Stream
  import opened Publish
  import opened ReplayRing
  import opened Store
  import opened RelayTerminal
  import opened RelayProcess
  import opened Protocol
  import opened Runs

  /** The world at rest around a relay with these bytes of an earlier process. */
  function AtRest(stream: seq<byte>, relay: Relay): World {
    World(stream, |stream|, false, NEW_DRIVER, [], [], [], relay, [])
  }

  /** One byte that has not been committed. */
  const DIRTY := Relay(Term(Window(0, [0], 1), 1, 0, Open), Record([], 0, 0, None), Quiet, [])

  lemma DirtyIsOk()
    ensures RelayOk(DIRTY, [0]) && Kempt(DIRTY, [0]) && Init(AtRest([0], DIRTY))
  {
  }

  ghost method Onward(ws: seq<World>, steps: seq<Step>, step: Step) returns (ws': seq<World>, steps': seq<Step>)
    requires IsRun(ws, steps) && Ok(ws[|steps|].client) && Enabled(ws[|steps|], step)
    ensures IsRun(ws', steps') && |ws'| == |steps'| + 1
    ensures ws'[0] == ws[0] && ws'[|steps'|] == Next(ws[|steps|], step)
    ensures steps' == steps + [step]
  {
    hide Next, Enabled, Ok;
    ws', steps' := ws + [Next(ws[|steps|], step)], steps + [step];
    forall i | 0 <= i < |steps'|
      ensures Ok(ws'[i].client) && Enabled(ws'[i], steps'[i]) && ws'[i + 1] == Next(ws'[i], steps'[i])
    {
      assert ws'[i] == ws[i];
      assert i < |steps| ==> ws'[i + 1] == ws[i + 1];
    }
  }

  /** A step of the relay's leaves the driver as it is. */
  lemma LeavesDriver(w: World, step: Step)
    requires Ok(w.client) && Enabled(w, step) && (OfRelay(step) || step.Reopens?)
    ensures Next(w, step).client == w.client && (step.Reopens? ==> Next(w, step).down != [])
  {
  }

  lemma FaithfulIsOk(w: World)
    requires Faithful(w)
    ensures Ok(w.client)
  {
  }

  lemma FirstIsHeard(n: nat, limits: Limits)
    ensures var d := Pass(NEW_DRIVER, FromRelay(Attached(n, limits))).d;
            d.phase == Running && d.stream.start == n
  {
    assert Head(NEW_DRIVER) == Effect(NEW_DRIVER, [], []);
  }

  /** The driver begins where the first attach says. */
  lemma DirtyIsHeard(limits: Limits)
    ensures var asked := Next(AtRest([0], DIRTY), Reopens(limits));
            && Ok(asked.client) && Enabled(asked, ClientHears)
            && var heard := Next(asked, ClientHears);
            && Faithful(heard) && Ok(heard.client) && heard.joined && heard.down == [] && heard.relay == DIRTY
            && heard.client.phase == Running && heard.client.stream.start == 1
  {
    hide Pass, Init, Faithful, RelayOk, Secured, Kempt;
    DirtyIsOk();
    var w := AtRest([0], DIRTY);
    InitHolds(w);
    StepKeepsFaith(w, Reopens(limits));
    var asked := Next(w, Reopens(limits));
    StepKeepsFaith(asked, ClientHears);
    FaithfulIsOk(Next(asked, ClientHears));
    assert asked.down == [Attached(1, limits)];
    FirstIsHeard(1, limits);
  }

  /** A driver that begins on bytes never committed is lost in a crash. */
  ghost method UncommittedStartLosesPlace(limits: Limits) returns (ws: seq<World>, steps: seq<Step>)
    ensures IsRun(ws, steps) && Prompt(ws, steps)
    ensures steps == [Reopens(limits), ClientHears, Crashes(1), Reopens(limits), ClientHears]
    ensures ws[|ws| - 1].client.phase == LostPlace
  {
    hide Next, Init, Kempt, Secured, Faithful, RelayOk;
    DirtyIsOk();
    DirtyIsHeard(limits);
    ws, steps := [AtRest([0], DIRTY)], [];
    ws, steps := Onward(ws, steps, Reopens(limits));
    ws, steps := Onward(ws, steps, ClientHears);
    var heard := ws[|steps|];
    CrashKeepsKempt(heard.relay, [0], 1);
    CrashLosesPlaceIff(heard, 1, limits);
    LeavesDriver(heard, Crashes(1));
    ws, steps := Onward(ws, steps, Crashes(1));
    LeavesDriver(ws[|steps|], Reopens(limits));
    ws, steps := Onward(ws, steps, Reopens(limits));
    ws, steps := Onward(ws, steps, ClientHears);
  }

  lemma DirtyIsFlushed()
    ensures var w := AtRest([0], DIRTY);
            && Enabled(w, Starts) && DIRTY.term.TakeCheckpoint().value.chunk != []
            && Enabled(Next(w, Starts), Commits)
  {
  }

  /** A flush commits, is abandoned, and leaves a checkpoint that the database refuses. */
  ghost method AbandonedFlushRun() returns (ws: seq<World>, steps: seq<Step>)
    ensures IsRun(ws, steps) && Prompt(ws, steps)
    ensures steps == [Starts, Commits, Abandons, Starts]
    ensures ws[|ws| - 1].relay.flight.Taken? && !Enabled(ws[|ws| - 1], Commits)
  {
    hide Next, Enabled, Init, Kempt, Secured, Faithful, RelayOk, Commit, Term.TakeCheckpoint;
    DirtyIsOk();
    DirtyIsFlushed();
    ws, steps := [AtRest([0], DIRTY)], [];
    InitHolds(ws[0]);
    AbandonedFlushConflicts(ws[0]);
    LeavesDriver(ws[|steps|], Starts);
    ws, steps := Onward(ws, steps, Starts);
    LeavesDriver(ws[|steps|], Commits);
    ws, steps := Onward(ws, steps, Commits);
    LeavesDriver(ws[|steps|], Abandons);
    ws, steps := Onward(ws, steps, Abandons);
    LeavesDriver(ws[|steps|], Starts);
    ws, steps := Onward(ws, steps, Starts);
  }

  // A checkpoint of the first byte is abandoned; all three bytes are committed by the next.
  const THREE := Term(Window(0, [0, 0, 0], 3), 3, 0, Open)
  const FIRST := Checkpoint(0, [0], 0, 1, None)
  const ALL := Checkpoint(0, [0, 0, 0], 0, 3, None)
  const NONE := Record([], 0, 0, None)
  const WHOLE := Record([Row(0, 3, [0, 0, 0])], 3, 0, None)
  const SHRUNK := Term(Window(2, [0], 1), 3, 3, Closing("done"))
  const LAST := Record([Row(2, 3, [0])], 3, 2, Some("done"))
  const BEFORE := Relay(THREE, NONE, Taken(FIRST), [])
  const BETWEEN := Relay(SHRUNK, WHOLE, Quiet, [FIRST])
  const TRIMMED := Relay(SHRUNK.(life := Closed("done")), LAST, Quiet, [FIRST])

  lemma BeforeIsOk()
    ensures RelayOk(BEFORE, [0, 0, 0]) && Kempt(BEFORE, [0, 0, 0])
    ensures IsRun([AtRest([0, 0, 0], BEFORE)], []) && Ok(NEW_DRIVER)
  {
    assert Fitting(FIRST, THREE, [0, 0, 0]);
  }

  lemma AllIsTaken(t: Term)
    requires t.ring.earliest == t.durable == 0 && 0 < t.next == |t.ring.bytes| && t.life.Open?
    ensures t.TakeCheckpoint() == Some(Checkpoint(0, t.ring.bytes, 0, t.next, None))
  {
    assert t.ring.bytes[0..|t.ring.bytes|] == t.ring.bytes;
  }

  lemma AllIsCommitted()
    ensures Commit(NONE, ALL) == Some(WHOLE)
  {
    assert InsertChunk([], ALL).value == WHOLE.rows;
    TilesAbove(WHOLE.rows, 0, 3, [0, 0, 0], 0);
  }

  lemma AllIsPublished()
    ensures THREE.CommitDurable(3, None).Shrink(1).(life := Closing("done")) == SHRUNK
  {
    assert THREE.ring.SetCapacity(1) == Window(2, [0], 1);
  }

  lemma BeforeBecomesBetween()
    ensures var r := BEFORE.Abandoned();
            && r.term.TakeCheckpoint().Some? && Commit(r.db, r.term.TakeCheckpoint().value).Some?
            && r.Started().CommittedNow().Published().term.life.Open?
            && var t := r.Started().CommittedNow().Published().term.Shrink(1);
            r.Started().CommittedNow().Published().(term := t.(life := Closing("done"))) == BETWEEN
  {
    hide Commit, Term.TakeCheckpoint, Term.Shrink;
    AllIsTaken(THREE);
    AllIsCommitted();
    AllIsPublished();
    assert BEFORE.Abandoned() == Relay(THREE, NONE, Quiet, [FIRST]);
  }

  lemma BetweenBecomesTrimmed()
    ensures BETWEEN.term.TakeCheckpoint().Some? && Commit(WHOLE, BETWEEN.term.TakeCheckpoint().value).Some?
    ensures BETWEEN.Started().CommittedNow().Published() == TRIMMED
  {
    var cp := Checkpoint(3, [], 2, 3, Some("done"));
    assert SHRUNK.TakeCheckpoint() == Some(cp);
    assert Commit(WHOLE, cp) == Some(LAST) by {
      assert WHOLE.rows[1..] == [] && DeleteEnded(WHOLE.rows, 2) == WHOLE.rows;
      TrimAcross(WHOLE.rows[0], [], 0, 3, [0, 0, 0], 2);
      assert WHOLE.rows[0].bytes[2..] == [0] && [WHOLE.rows[0]] + [] == WHOLE.rows;
      assert TrimStraddler([WHOLE.rows[0]] + [], 2) == Some([Row(2, 3, [0])] + []);
      assert [Row(2, 3, [0])] + [] == LAST.rows;
    }
  }

  lemma TrimmedHasGap()
    ensures Commit(LAST, FIRST).Some? && Commit(LAST, FIRST).value.durable == 1
    ensures Load(Commit(LAST, FIRST).value).None?
  {
    assert Tiles(LAST.rows, 2, 3, [0, 0, 0]) && Shaped(FIRST, [0, 0, 0]);
    TilesAgree(LAST.rows, 2, 3, [0, 0, 0]);
    CommitRefusedIff(LAST, FIRST, [0, 0, 0]);
    LateCommitLoadsIff(LAST, FIRST, [0, 0, 0]);
  }

  lemma TrimmedIsLost(w: World)
    requires Ok(w.client) && w.relay == TRIMMED
    ensures Enabled(w, LateCommits(0)) && Next(w, LateCommits(0)).relay == TRIMMED.CommittedLate(0)
    ensures var late := w.(relay := TRIMMED.CommittedLate(0));
            && late.relay.term.durable == late.relay.term.next == 3 && late.relay.db.durable == 1
            && forall cap :: !Enabled(late, Crashes(cap))
  {
    hide Commit, Load;
    TrimmedHasGap();
  }

  /** One step of the relay's further, to a relay with nothing left out. */
  ghost method RelayOnward(ws: seq<World>, steps: seq<Step>, step: Step, r: Relay)
      returns (ws': seq<World>, steps': seq<Step>)
    requires IsRun(ws, steps) && OfRelay(step) && Ok(ws[|steps|].client) && Enabled(ws[|steps|], step)
    requires Next(ws[|steps|], step).relay == r
    ensures IsRun(ws', steps') && |ws'| == |steps'| + 1
    ensures ws'[0] == ws[0] && ws'[|steps'|] == ws[|steps|].(relay := r)
    ensures steps' == steps + [step]
  {
    hide IsRun, Ok;
    ws', steps' := Onward(ws, steps, step);
  }

  ghost method RunToBetween() returns (ws: seq<World>, steps: seq<Step>)
    ensures IsRun(ws, steps) && ws[0] == AtRest([0, 0, 0], BEFORE)
    ensures ws[|steps|] == AtRest([0, 0, 0], BETWEEN)
    ensures steps == [Abandons, Starts, Commits, Publishes, Shrinks(1), Closes("done")]
  {
    hide IsRun, Ok, Pass, Secured, Commit, RelayOk, Kempt, Term.TakeCheckpoint;
    BeforeIsOk();
    BeforeBecomesBetween();
    ws, steps := [AtRest([0, 0, 0], BEFORE)], [];
    var r := BEFORE.Abandoned();
    ws, steps := RelayOnward(ws, steps, Abandons, r);
    ws, steps := RelayOnward(ws, steps, Starts, r.Started());
    ws, steps := RelayOnward(ws, steps, Commits, r.Started().CommittedNow());
    r := r.Started().CommittedNow().Published();
    ws, steps := RelayOnward(ws, steps, Publishes, r);
    ws, steps := RelayOnward(ws, steps, Shrinks(1), r.(term := r.term.Shrink(1)));
    ws, steps := RelayOnward(ws, steps, Closes("done"), BETWEEN);
  }

  ghost method RunToTrimmed() returns (ws: seq<World>, steps: seq<Step>)
    ensures IsRun(ws, steps) && ws[0] == AtRest([0, 0, 0], BEFORE)
    ensures |ws| == |steps| + 1 && ws[|steps|] == AtRest([0, 0, 0], TRIMMED)
    ensures steps == [Abandons, Starts, Commits, Publishes, Shrinks(1), Closes("done"), Starts, Commits, Publishes]
  {
    hide IsRun, Ok, Pass, Secured, Commit, RelayOk, Kempt, Term.TakeCheckpoint, Load;
    BeforeIsOk();
    BetweenBecomesTrimmed();
    ws, steps := RunToBetween();
    ws, steps := RelayOnward(ws, steps, Starts, BETWEEN.Started());
    ws, steps := RelayOnward(ws, steps, Commits, BETWEEN.Started().CommittedNow());
    ws, steps := RelayOnward(ws, steps, Publishes, TRIMMED);
  }

  /**
   All three bytes were committed and acknowledged, and the window holds the last of them; then the
   first, abandoned transaction commits.  It puts its byte in front of a gap, and no restart can
   bring the terminal back.
   */
  ghost method LateCommitRun() returns (ws: seq<World>, steps: seq<Step>)
    ensures IsRun(ws, steps) && ws[0] == AtRest([0, 0, 0], BEFORE)
    ensures Kempt(BEFORE, [0, 0, 0]) && BEFORE.late == []
    ensures steps == [Abandons, Starts, Commits, Publishes, Shrinks(1), Closes("done"), Starts, Commits, Publishes,
                      LateCommits(0)]
    ensures var w := ws[|steps|];
            && w.relay.term.durable == w.relay.term.next == 3 && w.relay.db.durable == 1
            && forall cap :: !Enabled(w, Crashes(cap))
  {
    hide IsRun, Ok, Pass, Secured, Commit, RelayOk, Kempt, Load, Next, Enabled;
    BeforeIsOk();
    ws, steps := RunToTrimmed();
    TrimmedHasGap();
    TrimmedIsLost(AtRest([0, 0, 0], TRIMMED));
    ws, steps := RelayOnward(ws, steps, LateCommits(0), TRIMMED.CommittedLate(0));
  }
}
