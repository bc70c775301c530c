/**
 The relay's whole state for one terminal: what memory holds, what the database holds, the
 checkpoint on its way between them, and the transactions nobody waits for any more.

 A flush runs inside whatever asked for it.  When that goes away - an operator hangs up, a
 deadline passes - the transaction runs on by itself: it still commits or fails, at any later
 moment, and memory is told of neither.
 */
module RelayProcess {
  import opened Bytes
  import opened ReplayRing
  import opened Store
  import opened RelayTerminal

  /** The one checkpoint that a flush is waiting for. */
  datatype Flight = Quiet | Taken(cp: Checkpoint) | Committed(cp: Checkpoint)

  datatype Relay = Relay(term: Term, db: Record, flight: Flight, late: seq<Checkpoint>)
  {
    function Started(): Relay
      requires term.TakeCheckpoint().Some?
    {
      this.(flight := Taken(term.TakeCheckpoint().value))
    }

    function CommittedNow(): Relay
      requires flight.Taken? && Commit(db, flight.cp).Some?
    {
      this.(db := Commit(db, flight.cp).value, flight := Committed(flight.cp))
    }

    function Published(): Relay
      requires flight.Committed?
    {
      this.(term := term.CommitDurable(flight.cp.durable, flight.cp.close), flight := Quiet)
    }

    /** Whoever waited for the flush is gone. */
    function Abandoned(): Relay {
      this.(flight := Quiet, late := if flight.Taken? then late + [flight.cp] else late)
    }

    function Without(i: nat): (r: Relay)
      requires i < |late|
      ensures multiset(late) == multiset(r.late) + multiset{late[i]}
    {
      assert late == late[..i] + [late[i]] + late[i + 1..];
      this.(late := late[..i] + late[i + 1..])
    }

    function CommittedLate(i: nat): Relay
      requires i < |late| && Commit(db, late[i]).Some?
    {
      Without(i).(db := Commit(db, late[i]).value)
    }

    function Crashed(cap: nat): Relay
      requires Load(db).Some?
    {
      Relay(Restore(db, cap, Load(db).value), db, Quiet, [])
    }
  }

  function Fresh(cap: nat): Relay {
    Relay(Term(Window(0, [], cap), 0, 0, Open), Record([], 0, 0, None), Quiet, [])
  }

  // ----------------------------------------------------------------------- the invariant

  /** The checkpoint may still be committed. */
  predicate Awaits(r: Relay, cp: Checkpoint) {
    (r.flight.Taken? && r.flight.cp == cp) || cp in r.late
  }

  /** However long ago a checkpoint was taken, it begins within what is stored or retained. */
  predicate Fitting(cp: Checkpoint, t: Term, stream: seq<byte>) {
    && Shaped(cp, stream) && cp.durable <= t.next && cp.earliest <= t.ring.earliest
    && cp.start <= Max(t.durable, t.ring.earliest)
    && (t.ring.bytes == [] ==> cp.earliest == t.ring.earliest)
    && (cp.chunk == [] ==> !t.life.Open? && cp.durable == t.next && (cp.earliest < cp.start || t.ring.bytes == []))
  }

  /** The rows are the stream's own, and from the window on they reach as far as anyone was told. */
  predicate RowsOk(db: Record, t: Term, stream: seq<byte>) {
    && Agree(db.rows, stream) && Within(db.rows, t.next)
    && db.earliest <= db.durable <= t.next && db.earliest <= t.ring.earliest
    && (db.earliest < db.durable ==> Reaching(db.rows, db.durable))
    && HoldsAll(db.rows, t.ring.earliest, db.durable) && HoldsAll(db.rows, t.ring.earliest, t.durable)
  }

  /** No crash, now or after any transaction still under way, takes the relay back below `x`. */
  ghost predicate Secured(r: Relay, x: nat) {
    Reaching(r.db.rows, x) || (x <= r.db.earliest && forall cp | Awaits(r, cp) :: x <= cp.earliest)
  }

  ghost predicate FlightOk(r: Relay) {
    && Secured(r, r.term.durable)
    && (r.flight.Committed? ==>
          && r.flight.cp.durable <= r.term.next && Secured(r, r.flight.cp.durable)
          && HoldsAll(r.db.rows, r.term.ring.earliest, r.flight.cp.durable))
  }

  /** Memory and database both show the stream, and whatever is under way fits both. */
  ghost predicate RelayOk(r: Relay, stream: seq<byte>) {
    && r.term.next <= |stream| && r.term.Sound(stream[..r.term.next])
    && (r.term.ring.bytes == [] ==> r.term.durable == r.term.next)
    && RowsOk(r.db, r.term, stream)
    && (forall cp | Awaits(r, cp) :: Fitting(cp, r.term, stream))
    && FlightOk(r)
  }

  lemma SecuredBelow(r: Relay, stream: seq<byte>, x: nat, y: nat)
    requires RelayOk(r, stream) && Secured(r, x) && y <= x
    ensures Secured(r, y) && x <= r.term.next
  {
    if Reaching(r.db.rows, x) {
      var row :| row in r.db.rows && x <= row.end;
      assert y <= row.end;
    }
  }

  // ------------------------------------------------------------- the stream, and memory

  lemma RelayGrows(r: Relay, stream: seq<byte>, more: seq<byte>)
    requires RelayOk(r, stream)
    ensures RelayOk(r, stream + more)
  {
    assert (stream + more)[..r.term.next] == stream[..r.term.next];
    AgreeGrow(r.db.rows, stream, more);
    forall cp | Awaits(r, cp)
      ensures Fitting(cp, r.term, stream + more)
    {
      AtGrows(stream, more, cp.start, cp.chunk);
    }
  }

  lemma RelayCut(r: Relay, stream: seq<byte>, n: nat)
    requires RelayOk(r, stream) && r.term.next <= n <= |stream|
    ensures RelayOk(r, stream[..n])
  {
    assert stream[..n][..r.term.next] == stream[..r.term.next];
    AgreeCut(r.db.rows, stream, n);
    forall cp | Awaits(r, cp)
      ensures Fitting(cp, r.term, stream[..n])
    {
      AtCut(stream, cp.start, cp.chunk, n);
    }
  }

  /** Memory takes bytes in and lets bytes go, and what is durable stays what it was. */
  predicate MovesOn(t: Term, t': Term) {
    && t.next <= t'.next && t'.durable == t.durable && t.ring.earliest <= t'.ring.earliest
    && (!t.life.Open? ==> !t'.life.Open? && t'.next == t.next)
    && (t'.ring.bytes == [] ==> t'.ring.earliest == t.ring.earliest && t'.next == t.next && t.ring.bytes == [])
  }

  lemma MovingOnKeepsRelay(r: Relay, stream: seq<byte>, t': Term)
    requires RelayOk(r, stream) && MovesOn(r.term, t')
    requires t'.next <= |stream| && t'.Sound(stream[..t'.next])
    ensures RelayOk(r.(term := t'), stream)
  {
    var r' := r.(term := t');
    forall cp | Awaits(r', cp)
      ensures Fitting(cp, t', stream)
    {
      assert Awaits(r, cp);
    }
    assert forall x: nat | Secured(r, x) :: Secured(r', x) by {
      assert forall cp :: Awaits(r', cp) <==> Awaits(r, cp);
    }
  }

  /** Taking bytes in and letting bytes go changes nothing about what is secured. */
  lemma MovingOnKeepsSecured(r: Relay, t: Term, x: nat)
    ensures Secured(r.(term := t), x) <==> Secured(r, x)
  {
    assert forall cp :: Awaits(r.(term := t), cp) <==> Awaits(r, cp);
  }

  // ------------------------------------------------------------------- checkpoints under way

  lemma ReachesByByte(rows: seq<Row>, off: nat)
    requires InRows(rows, off)
    ensures Reaching(rows, off + 1)
  {
    var row := RowAt(rows, off);
  }

  /** Shedding what is under way loosens nothing. */
  lemma FewerKeepsRelay(r: Relay, r': Relay, stream: seq<byte>)
    requires RelayOk(r, stream) && r'.db == r.db && r'.term == r.term && !r'.flight.Committed?
    requires forall cp | Awaits(r', cp) :: Awaits(r, cp)
    ensures RelayOk(r', stream)
  {
  }

  lemma FailingKeepsRelay(r: Relay, stream: seq<byte>)
    requires RelayOk(r, stream) && r.flight.Taken?
    ensures RelayOk(r.(flight := Quiet), stream)
    ensures forall x | Secured(r, x) :: Secured(r.(flight := Quiet), x)
  {
    FewerKeepsRelay(r, r.(flight := Quiet), stream);
  }

  lemma FreshIsOk(cap: nat, stream: seq<byte>)
    requires 1 <= cap
    ensures RelayOk(Fresh(cap), stream)
  {
  }

  lemma TakingKeepsRelay(r: Relay, stream: seq<byte>)
    requires RelayOk(r, stream) && r.flight.Quiet? && r.term.TakeCheckpoint().Some?
    ensures RelayOk(r.Started(), stream)
    ensures forall x | Secured(r, x) :: Secured(r.Started(), x)
  {
    var n, cp := r.term.next, r.term.TakeCheckpoint().value;
    CheckpointIsShaped(r.term, stream[..n]);
    assert stream == stream[..n] + stream[n..];
    AtGrows(stream[..n], stream[n..], cp.start, cp.chunk);
    assert Fitting(cp, r.term, stream);
    forall c | Awaits(r.Started(), c)
      ensures Fitting(c, r.term, stream) && (c == cp || Awaits(r, c))
    {
    }
  }

  /** A checkpoint that has nothing to write was taken with everything stored. */
  lemma EmptyIsStored(r: Relay, stream: seq<byte>, cp: Checkpoint)
    requires RelayOk(r, stream) && Awaits(r, cp) && cp.chunk == []
    ensures cp.durable == cp.start == r.term.next == r.term.durable
    ensures cp.earliest < cp.start ==> Reaching(r.db.rows, cp.start)
    ensures cp.earliest == cp.start ==> forall c | Awaits(r, c) :: c.earliest == cp.earliest
  {
    assert Fitting(cp, r.term, stream);
    if cp.earliest < cp.start {
      assert InRows(r.db.rows, cp.start - 1);
      ReachesByByte(r.db.rows, cp.start - 1);
    } else {
      assert forall c | Awaits(r, c) :: Fitting(c, r.term, stream);
    }
  }

  /** `r'` is what a commit of `cp`, waited for or not, makes of `r`. */
  ghost predicate Lands(r: Relay, r': Relay, cp: Checkpoint) {
    && Awaits(r, cp) && Commit(r.db, cp) == Some(r'.db) && r'.term == r.term
    && forall c | Awaits(r', c) :: Awaits(r, c)
  }

  /** What is secured stays secured, though the database's own offsets may fall. */
  lemma LandingKeepsSecured(r: Relay, r': Relay, stream: seq<byte>, cp: Checkpoint, x: nat)
    requires RelayOk(r, stream) && Lands(r, r', cp) && Secured(r, x)
    ensures Secured(r', x)
  {
    assert Fitting(cp, r.term, stream);
    if cp.earliest < x {
      CommitReaches(r.db, cp, stream, x);
    } else if cp.chunk != [] {
      CommitReaches(r.db, cp, stream, cp.durable);
      FarReaches(r'.db.rows, cp.durable, x);
    } else {
      EmptyIsStored(r, stream, cp);
      if cp.earliest < cp.start {
        CommitReaches(r.db, cp, stream, cp.start);
        FarReaches(r'.db.rows, cp.start, x);
      }
    }
  }

  lemma FarReaches(rows: seq<Row>, x: nat, y: nat)
    requires Reaching(rows, x) && y <= x
    ensures Reaching(rows, y)
  {
    var row :| row in rows && x <= row.end;
    assert y <= row.end;
  }

  /** Its own end is secured from then on, and stored from the window on. */
  lemma LandedIsSecured(r: Relay, r': Relay, stream: seq<byte>, cp: Checkpoint)
    requires RelayOk(r, stream) && Lands(r, r', cp)
    ensures Secured(r', cp.durable)
    ensures cp.earliest < cp.durable ==> Reaching(r'.db.rows, cp.durable)
    ensures HoldsAll(r'.db.rows, r.term.ring.earliest, cp.durable)
  {
    assert Fitting(cp, r.term, stream);
    if cp.chunk == [] {
      EmptyIsStored(r, stream, cp);
      LandingKeepsSecured(r, r', stream, cp, r.term.durable);
    }
    if cp.earliest < cp.durable {
      CommitReaches(r.db, cp, stream, cp.durable);
    }
    forall off: nat | r.term.ring.earliest <= off < cp.durable
      ensures InRows(r'.db.rows, off)
    {
      CommitHolds(r.db, cp, stream, off);
    }
  }

  lemma LandingKeepsStored(r: Relay, r': Relay, stream: seq<byte>, cp: Checkpoint, hi: nat)
    requires RelayOk(r, stream) && Lands(r, r', cp) && HoldsAll(r.db.rows, r.term.ring.earliest, hi)
    ensures HoldsAll(r'.db.rows, r.term.ring.earliest, hi)
  {
    assert Fitting(cp, r.term, stream);
    forall off: nat | r.term.ring.earliest <= off < hi
      ensures InRows(r'.db.rows, off)
    {
      CommitHolds(r.db, cp, stream, off);
    }
  }

  /** A commit at whatever time, of whatever is under way, leaves rows of the stream's own bytes. */
  lemma LandingKeepsRows(r: Relay, r': Relay, stream: seq<byte>, cp: Checkpoint)
    requires RelayOk(r, stream) && Lands(r, r', cp)
    ensures RowsOk(r'.db, r.term, stream) && r'.db.durable == cp.durable && r'.db.earliest == cp.earliest
    ensures forall x | Secured(r, x) :: Secured(r', x)
  {
    assert Fitting(cp, r.term, stream);
    CommitKeepsWhere(r.db, cp);
    CommitAgrees(r.db, cp, stream);
    CommitWithin(r.db, cp, stream, r.term.next);
    LandedIsSecured(r, r', stream, cp);
    LandingKeepsStored(r, r', stream, cp, r.term.durable);
    forall x | Secured(r, x)
      ensures Secured(r', x)
    {
      LandingKeepsSecured(r, r', stream, cp, x);
    }
  }

  lemma CommitKeepsRelay(r: Relay, stream: seq<byte>)
    requires RelayOk(r, stream) && r.flight.Taken? && Commit(r.db, r.flight.cp).Some?
    ensures RelayOk(r.CommittedNow(), stream)
    ensures forall x | Secured(r, x) :: Secured(r.CommittedNow(), x)
  {
    LandingKeepsRows(r, r.CommittedNow(), stream, r.flight.cp);
    LandedIsSecured(r, r.CommittedNow(), stream, r.flight.cp);
    assert Fitting(r.flight.cp, r.term, stream);
  }

  /** Also of a flush that has been abandoned, whatever has been committed since. */
  lemma LateCommitKeepsRelay(r: Relay, stream: seq<byte>, i: nat)
    requires RelayOk(r, stream) && i < |r.late| && Commit(r.db, r.late[i]).Some?
    ensures RelayOk(r.CommittedLate(i), stream)
    ensures forall x | Secured(r, x) :: Secured(r.CommittedLate(i), x)
  {
    var cp, r' := r.late[i], r.CommittedLate(i);
    assert forall c | c in r'.late :: c in r.late;
    LandingKeepsRows(r, r', stream, cp);
    if r.flight.Committed? {
      LandingKeepsStored(r, r', stream, cp, r.flight.cp.durable);
    }
  }

  lemma PublishKeepsRelay(r: Relay, stream: seq<byte>)
    requires RelayOk(r, stream) && r.flight.Committed?
    ensures RelayOk(r.Published(), stream)
    ensures forall x | Secured(r, x) :: Secured(r.Published(), x)
  {
    forall cp | Awaits(r.Published(), cp)
      ensures Fitting(cp, r.Published().term, stream)
    {
      assert Awaits(r, cp);
    }
  }

  lemma AbandonKeepsRelay(r: Relay, stream: seq<byte>)
    requires RelayOk(r, stream)
    ensures RelayOk(r.Abandoned(), stream)
    ensures forall x | Secured(r, x) :: Secured(r.Abandoned(), x)
  {
    assert forall cp | Awaits(r.Abandoned(), cp) :: Awaits(r, cp);
    FewerKeepsRelay(r, r.Abandoned(), stream);
  }

  lemma EndingKeepsRelay(r: Relay, stream: seq<byte>, i: nat)
    requires RelayOk(r, stream) && i < |r.late|
    ensures RelayOk(r.Without(i), stream)
    ensures forall x | Secured(r, x) :: Secured(r.Without(i), x)
  {
    assert forall c | c in r.Without(i).late :: c in r.late;
  }

  // ------------------------------------------------------------------------- after a crash

  /** What is loaded ends within what memory had, and has every row. */
  lemma LoadedIsWithin(r: Relay, stream: seq<byte>)
    requires RelayOk(r, stream) && Load(r.db).Some?
    ensures var end := r.db.earliest + |Load(r.db).value|;
            && end <= r.term.next && r.db.durable <= end && Within(r.db.rows, end)
            && HoldsAll(r.db.rows, r.db.earliest, end)
  {
    hide Load;
    LoadShows(r.db, stream);
    var end := r.db.earliest + |Load(r.db).value|;
    if r.db.earliest < end {
      var row := RowAt(r.db.rows, end - 1);
    }
  }

  lemma CrashKeepsRows(r: Relay, stream: seq<byte>, cap: nat)
    requires RelayOk(r, stream) && Load(r.db).Some?
    ensures RowsOk(r.db, r.Crashed(cap).term, stream) && r.Crashed(cap).term.next <= r.term.next
    ensures r.Crashed(cap).term.next == r.db.earliest + |Load(r.db).value|
  {
    hide Load, Restore, Agree, Term.Sound;
    RestoreShows(r.db, cap, stream);
    LoadedIsWithin(r, stream);
  }

  /** Nothing is under way then, so whatever a row reaches, or none is kept below, is secured. */
  lemma CrashSecures(r: Relay, stream: seq<byte>, cap: nat)
    requires RelayOk(r, stream) && Load(r.db).Some?
    ensures Secured(r.Crashed(cap), r.db.durable)
    ensures forall x | Secured(r, x) :: Secured(r.Crashed(cap), x)
  {
    hide Load, Restore, Agree, Term.Sound;
    assert forall cp :: !Awaits(r.Crashed(cap), cp);
  }

  /** A relay that can be rebuilt at all shows the stream again, at no less than what is secured. */
  lemma CrashKeepsRelay(r: Relay, stream: seq<byte>, cap: nat)
    requires RelayOk(r, stream) && Load(r.db).Some?
    ensures RelayOk(r.Crashed(cap), stream) && r.Crashed(cap).term.next <= r.term.next <= |stream|
    ensures r.Crashed(cap).term.next == r.db.earliest + |Load(r.db).value|
    ensures forall x | Secured(r, x) :: Secured(r.Crashed(cap), x)
  {
    hide Load, Restore, Secured, HoldsAll, Within, Term.Sound;
    RestoreShows(r.db, cap, stream);
    CrashKeepsRows(r, stream, cap);
    CrashSecures(r, stream, cap);
    assert forall cp :: !Awaits(r.Crashed(cap), cp);
  }

  // ------------------------------------------- while no abandoned transaction commits late

  /**
   The rows meet end to end and no offset of the database has fallen; a checkpoint taken but not
   committed either continues them or is refused.
   */
  predicate Kempt(r: Relay, stream: seq<byte>) {
    && r.term.next <= |stream| && Backed(r.term, stream[..r.term.next], r.db)
    && (r.flight.Taken? ==> TakenKempt(r, stream[..r.term.next], r.flight.cp))
    && (r.flight.Committed? ==> r.db.durable == r.flight.cp.durable)
  }

  predicate TakenKempt(r: Relay, accepted: seq<byte>, cp: Checkpoint) {
    && cp.durable <= r.term.next && cp.earliest <= r.term.ring.earliest
    && cp.earliest <= cp.start == Max(r.term.durable, cp.earliest)
    && if Overlaps(r.db, cp) then Commit(r.db, cp).None? else Continues(r.db, cp, accepted)
  }

  /** Memory has been told of everything that is committed. */
  predicate Informed(r: Relay) { !r.flight.Committed? ==> r.term.durable == r.db.durable }

  lemma KemptElsewhere(r: Relay, stream: seq<byte>, other: seq<byte>)
    requires Kempt(r, stream) && r.term.next <= |other| && other[..r.term.next] == stream[..r.term.next]
    ensures Kempt(r, other)
  {
  }

  lemma MovingOnKeepsKempt(r: Relay, stream: seq<byte>, t': Term)
    requires Kempt(r, stream) && MovesOn(r.term, t') && t'.next <= |stream|
    ensures Kempt(r.(term := t'), stream)
  {
    var had, has := stream[..r.term.next], stream[..t'.next];
    assert has == had + stream[r.term.next..t'.next];
    TilesGrow(r.db.rows, r.db.earliest, r.db.durable, had, stream[r.term.next..t'.next]);
    if r.flight.Taken? && !Overlaps(r.db, r.flight.cp) {
      AtGrows(had, stream[r.term.next..t'.next], r.flight.cp.start, r.flight.cp.chunk);
    }
  }

  lemma TakingKeepsKempt(r: Relay, stream: seq<byte>)
    requires RelayOk(r, stream) && Kempt(r, stream) && r.flight.Quiet? && r.term.TakeCheckpoint().Some?
    ensures Kempt(r.Started(), stream)
  {
    var accepted := stream[..r.term.next];
    CheckpointIsShaped(r.term, accepted);
    CheckpointRefusedIff(r.term, accepted, r.db);
    if !Overlaps(r.db, r.term.TakeCheckpoint().value) {
      NoOverlapContinues(r.term, accepted, r.db);
    }
  }

  /** Between the two, a checkpoint is refused exactly when it begins below what is committed. */
  lemma TakenRefusedIff(r: Relay, stream: seq<byte>)
    requires Kempt(r, stream) && r.flight.Taken?
    ensures Commit(r.db, r.flight.cp).None? <==> Overlaps(r.db, r.flight.cp)
  {
    if !Overlaps(r.db, r.flight.cp) {
      CommitKeepsIntact(r.db, r.flight.cp, stream[..r.term.next]);
    }
  }

  /** So it is not when memory has been told of everything. */
  lemma InformedIsAccepted(r: Relay, stream: seq<byte>)
    requires Kempt(r, stream) && Informed(r) && r.flight.Taken?
    ensures Commit(r.db, r.flight.cp).Some?
  {
    TakenRefusedIff(r, stream);
  }

  /** More is committed than memory has been told, and no flush is there to tell it. */
  predicate Stuck(r: Relay) { !r.flight.Committed? && r.term.durable < r.db.durable }

  lemma StuckIsRefused(r: Relay, stream: seq<byte>)
    requires Kempt(r, stream) && Stuck(r) && r.flight.Taken? && r.term.ring.earliest < r.db.durable
    ensures Commit(r.db, r.flight.cp).None?
  {
    TakenRefusedIff(r, stream);
  }

  lemma CommitKeepsKempt(r: Relay, stream: seq<byte>)
    requires Kempt(r, stream) && r.flight.Taken? && Commit(r.db, r.flight.cp).Some?
    ensures Kempt(r.CommittedNow(), stream) && r.db.durable <= r.CommittedNow().db.durable
  {
    var accepted := stream[..r.term.next];
    CommitKeepsIntact(r.db, r.flight.cp, accepted);
    CutStays(r.db, r.flight.cp, accepted, r.term.durable);
  }

  lemma PublishKeepsKempt(r: Relay, stream: seq<byte>)
    requires Kempt(r, stream) && r.flight.Committed?
    ensures Kempt(r.Published(), stream) && Informed(r.Published())
    ensures r.term.durable <= r.Published().term.durable
  {
  }

  lemma CrashKeepsKempt(r: Relay, stream: seq<byte>, cap: nat)
    requires Kempt(r, stream)
    ensures Load(r.db).Some? && Kempt(r.Crashed(cap), stream) && Informed(r.Crashed(cap))
    ensures r.Crashed(cap).term.next == r.Crashed(cap).term.durable == r.db.durable
    ensures r.Crashed(cap).term.Sound(stream[..r.db.durable])
    ensures KeepsDirty(r.Crashed(cap).term)
  {
    var accepted := stream[..r.term.next];
    RestoreIsSound(r.db, cap, accepted);
    TilesCut(r.db.rows, r.db.earliest, r.db.durable, accepted, r.db.durable);
    assert accepted[..r.db.durable] == stream[..r.db.durable];
  }

  /** What is secured is then committed. */
  lemma SecuredIsCommitted(r: Relay, stream: seq<byte>, x: nat)
    requires Kempt(r, stream) && Secured(r, x)
    ensures x <= r.db.durable
  {
    TilesAgree(r.db.rows, r.db.earliest, r.db.durable, stream[..r.term.next]);
  }

  // --------------------------------------------------- and when one does, what it comes to

  /** What the rows hold after a late commit, and how far they reach, from its earliest offset on. */
  lemma LateCommitHolds(rec: Record, cp: Checkpoint, stream: seq<byte>, off: nat)
    requires Intact(rec, stream) && Shaped(cp, stream) && cp.chunk != [] && Commit(rec, cp).Some? && cp.earliest <= off
    ensures var rows := Commit(rec, cp).value.rows;
            && (InRows(rows, off) <==> rec.earliest <= off < rec.durable || cp.start <= off < cp.durable)
            && (Reaching(rows, off + 1) <==> (rec.earliest < rec.durable && off < rec.durable) || off < cp.durable)
  {
    TilesAgree(rec.rows, rec.earliest, rec.durable, stream);
    TilesHold(rec.rows, rec.earliest, rec.durable, stream, off);
    CommitHolds(rec, cp, stream, off);
    CommitReaches(rec, cp, stream, off + 1);
    if rec.earliest < rec.durable && off < rec.durable {
      FarReaches(rec.rows, rec.durable, off + 1);
    }
  }

  /**
   A late commit takes the durable offset back to its own.  A restart can rebuild the terminal after
   it exactly when there is no gap between what it wrote and the rows, and none below both.
   */
  lemma LateCommitLoadsIff(rec: Record, cp: Checkpoint, stream: seq<byte>)
    requires Intact(rec, stream) && Shaped(cp, stream) && cp.chunk != [] && Commit(rec, cp).Some?
    ensures Commit(rec, cp).value.durable == cp.durable
    ensures Load(Commit(rec, cp).value).Some? <==>
              || (cp.start == cp.earliest && (rec.earliest == rec.durable || rec.earliest <= cp.durable))
              || (rec.earliest <= cp.earliest < rec.durable && cp.start <= rec.durable)
  {
    var after := Commit(rec, cp).value;
    TilesAgree(rec.rows, rec.earliest, rec.durable, stream);
    CommitAgrees(rec, cp, stream);
    LoadIffGapless(after, stream);
    forall off: nat | cp.earliest <= off
      ensures InRows(after.rows, off) <==> rec.earliest <= off < rec.durable || cp.start <= off < cp.durable
      ensures Reaching(after.rows, off + 1) <==> (rec.earliest < rec.durable && off < rec.durable) || off < cp.durable
    {
      LateCommitHolds(rec, cp, stream, off);
    }
    if Gapless(after.rows, cp.earliest) {
      assert InRows(after.rows, cp.earliest);
      assert rec.earliest < rec.durable && cp.start == cp.earliest && cp.durable < rec.earliest ==>
        InRows(after.rows, cp.durable);
      assert rec.earliest <= cp.earliest < rec.durable < cp.start ==> InRows(after.rows, rec.durable);
    }
  }

  lemma LateCommitLoads(r: Relay, stream: seq<byte>, i: nat)
    requires RelayOk(r, stream) && Kempt(r, stream) && i < |r.late| && r.late[i].chunk != []
    requires Commit(r.db, r.late[i]).Some?
    ensures var cp, after := r.late[i], r.CommittedLate(i).db;
            && after.durable == cp.durable
            && (Load(after).Some? <==>
                  || (cp.start == cp.earliest && (r.db.earliest == r.db.durable || r.db.earliest <= cp.durable))
                  || (r.db.earliest <= cp.earliest < r.db.durable && cp.start <= r.db.durable))
  {
    assert Fitting(r.late[i], r.term, stream);
    AtCut(stream, r.late[i].start, r.late[i].chunk, r.term.next);
    LateCommitLoadsIff(r.db, r.late[i], stream[..r.term.next]);
  }
}
