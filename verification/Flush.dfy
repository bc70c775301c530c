/**
 The checkpoint task (`server/src/relay/flush.rs`): take what is dirty of every resident
 terminal, commit it in one transaction, and only then tell memory.

 Whoever asked for a flush can go away while it waits.  The transaction is not undone by that,
 but nobody tells memory of it.
 */
module RelayFlush {
  import opened Bytes
  import opened ReplayRing
  import opened Store
  import opened RelayTerminal

  /** One flush: which attempts the storage lets down, and whether its caller is gone by the end. */
  datatype Flushing = Flushing(faults: seq<bool>, dropped: bool)

  predicate Stored(t: Term, stream: seq<byte>, records: map<Id, Record>, id: Id) {
    id in records && Backed(t, stream, records[id])
  }

  /** No terminal but `id` has changed. */
  predicate OnlyOne(before: map<Id, Record>, after: map<Id, Record>, id: Id) {
    id in after && after == before[id := after[id]]
  }

  /**
   `commit_with_retry`: a batch the database itself refuses is refused by every attempt.
   */
  method CommitWithRetry(db: Database, batch: seq<Entry>, faults: seq<bool>) returns (committed: bool)
    modifies db
    ensures committed <==> false in faults && CommitAll(old(db.records), batch).Some?
    ensures db.records == if committed then CommitAll(old(db.records), batch).value else old(db.records)
  {
    committed := false;
    for attempt := 0 to |faults|
      invariant db.records == old(db.records) && !committed
      invariant forall i | 0 <= i < attempt :: faults[i] || CommitAll(db.records, batch).None?
    {
      if !faults[attempt] {
        committed := db.CommitCheckpoints(batch);
        if committed { break; }
      }
    }
  }

  // ------------------------------------------------------------------------ one terminal

  lemma OneEntry(records: map<Id, Record>, entry: Entry)
    ensures CommitAll(records, [entry]) == CommitEntry(records, entry)
  {
    assert CommitFirst(records, [entry], 0) == Some(records);
  }

  /** The terminal's checkpoint, if it has one to take that the database will accept. */
  function Acceptable(t: Term, rec: Record): Option<Checkpoint> {
    var cp := t.TakeCheckpoint();
    if cp.Some? && Overlaps(rec, cp.value) then None else cp
  }

  lemma CheckpointCommits(t: Term, stream: seq<byte>, records: map<Id, Record>, id: Id)
    requires t.Sound(stream) && Stored(t, stream, records, id) && t.TakeCheckpoint().Some?
    ensures var cp := t.TakeCheckpoint().value;
            var after := CommitAll(records, [Entry(id, cp)]);
            && cp.durable == t.next
            && (after.Some? <==> Acceptable(t, records[id]).Some?)
            && (after.Some? ==>
                  && OnlyOne(records, after.value, id) && Stored(t, stream, after.value, id)
                  && Stored(t.CommitDurable(cp.durable, cp.close), stream, after.value, id))
  {
    CheckpointIsShaped(t, stream);
    CheckpointRefusedIff(t, stream, records[id]);
    OneEntry(records, Entry(id, t.TakeCheckpoint().value));
  }

  /** One checkpoint of one terminal: commit what is dirty, and only then move `durable`. */
  method FlushOnce(handle: TerminalHandle, id: Id, db: Database, flushing: Flushing) returns (committed: bool)
    requires handle.Valid() && Stored(handle.View(), handle.stream, db.records, id)
    modifies handle, db
    ensures handle.Valid() && handle.stream == old(handle.stream)
    ensures Stored(handle.View(), handle.stream, db.records, id)
    ensures OnlyOne(old(db.records), db.records, id)
    ensures committed <==> false in flushing.faults && Acceptable(old(handle.View()), old(db.records)[id]).Some?
    ensures !committed ==> db.records == old(db.records)
    ensures handle.View() == if committed && !flushing.dropped
                             then old(handle.View()).CommitDurable(
                                    old(handle.next), old(handle.View()).TakeCheckpoint().value.close)
                             else old(handle.View())
  {
    committed := false;
    var pending := handle.TakeCheckpoint();
    if pending.Some? {
      CheckpointCommits(handle.View(), handle.stream, db.records, id);
      committed := CommitPending(handle, Entry(id, pending.value), db, flushing);
    }
  }

  /** The database first; memory only when the database has it and there is someone to tell. */
  method CommitPending(handle: TerminalHandle, entry: Entry, db: Database, flushing: Flushing) returns (committed: bool)
    requires handle.Valid() && !handle.life.Closed? && entry.cp.durable == handle.next
    modifies handle, db
    ensures handle.Valid() && handle.stream == old(handle.stream)
    ensures committed <==> false in flushing.faults && CommitAll(old(db.records), [entry]).Some?
    ensures db.records == if committed then CommitAll(old(db.records), [entry]).value else old(db.records)
    ensures handle.View() == if committed && !flushing.dropped
                             then old(handle.View()).CommitDurable(entry.cp.durable, entry.cp.close)
                             else old(handle.View())
  {
    committed := CommitWithRetry(db, [entry], flushing.faults);
    if committed && !flushing.dropped {
      handle.CommitDurable(entry.cp.durable, entry.cp.close);
    }
  }

  // -------------------------------------------------- every resident terminal at one commit

  /** The database backs every resident terminal, and is intact about the others. */
  ghost predicate AllStored(terms: map<Id, Term>, streams: map<Id, seq<byte>>, records: map<Id, Record>) {
    && AllIntact(records, streams) && terms.Keys <= records.Keys
    && forall id | id in terms :: terms[id].Sound(streams[id]) && Stored(terms[id], streams[id], records, id)
  }

  /** The checkpoints of all resident terminals that have one to take. */
  ghost predicate Pending(terms: map<Id, Term>, batch: seq<Entry>) {
    && Distinct(batch)
    && (forall i | 0 <= i < |batch| :: batch[i].id in terms && terms[batch[i].id].TakeCheckpoint() == Some(batch[i].cp))
    && (forall id | id in terms && terms[id].TakeCheckpoint().Some? :: Names(batch, id))
  }

  predicate AnyPending(terms: map<Id, Term>) {
    exists id :: id in terms && terms[id].TakeCheckpoint().Some?
  }

  /** Some terminal's checkpoint begins below what is already committed. */
  predicate AnyOverlap(terms: map<Id, Term>, records: map<Id, Record>)
    requires terms.Keys <= records.Keys
  {
    exists id ::
      id in terms && terms[id].TakeCheckpoint().Some? && Overlaps(records[id], terms[id].TakeCheckpoint().value)
  }

  /** A terminal with nothing to write is not written. */
  ghost predicate Unwritten(terms: map<Id, Term>, before: map<Id, Record>, after: map<Id, Record>) {
    forall id | id in before && (id in terms ==> terms[id].TakeCheckpoint().None?) ::
      id in after && after[id] == before[id]
  }

  lemma PendingIffAny(terms: map<Id, Term>, batch: seq<Entry>)
    requires Pending(terms, batch)
    ensures batch != [] <==> AnyPending(terms)
  {
    if batch != [] {
      assert batch[0].id in terms;
    }
  }

  function Published(t: Term): Term {
    match t.TakeCheckpoint() case None => t case Some(cp) => t.CommitDurable(cp.durable, cp.close)
  }

  /** A terminal that is told is durable to its end, and closed when it was closing. */
  lemma PublishedMeaning(t: Term)
    requires t.durable <= t.next
    ensures Published(t) == t.(durable := t.next, life := if t.life.Closing? then Closed(t.life.reason) else t.life)
  {
  }

  lemma PendingIsSound(terms: map<Id, Term>, streams: map<Id, seq<byte>>, records: map<Id, Record>, batch: seq<Entry>)
    requires AllStored(terms, streams, records) && Pending(terms, batch) && !AnyOverlap(terms, records)
    ensures Store.Sound(records, batch, streams)
  {
    forall i | 0 <= i < |batch|
      ensures Continues(records[batch[i].id], batch[i].cp, streams[batch[i].id])
    {
      NoOverlapContinues(terms[batch[i].id], streams[batch[i].id], records[batch[i].id]);
    }
  }

  /** What the transaction leaves of one terminal's record. */
  lemma BatchWrites(records: map<Id, Record>, batch: seq<Entry>, n: nat, i: nat)
    requires Distinct(batch) && i < n <= |batch| && batch[i].id in records
    requires CommitFirst(records, batch, n).Some?
    ensures var after := CommitFirst(records, batch, n).value;
            batch[i].id in after && Some(after[batch[i].id]) == Commit(records[batch[i].id], batch[i].cp)
    decreases n
  {
    if i < n - 1 {
      BatchWrites(records, batch, n - 1, i);
      assert batch[i].id != batch[n - 1].id;
    } else {
      FirstLeaveAlone(records, batch, i, batch[i].id);
    }
  }

  lemma WrittenIsStored(t: Term, stream: seq<byte>, before: map<Id, Record>, after: map<Id, Record>, id: Id)
    requires t.Sound(stream) && Stored(t, stream, before, id) && id in after
    requires if t.TakeCheckpoint().None? then after[id] == before[id]
             else Commit(before[id], t.TakeCheckpoint().value) == Some(after[id])
    ensures Stored(t, stream, after, id) && Stored(Published(t), stream, after, id) && Published(t).Sound(stream)
    ensures t.TakeCheckpoint().Some? ==> Published(t).durable == t.next == after[id].durable
  {
    if t.TakeCheckpoint().Some? {
      CheckpointIsShaped(t, stream);
      CheckpointRefusedIff(t, stream, before[id]);
    }
  }

  /**
   The transaction over all resident terminals is refused exactly when one of them would write
   below what is already committed, and that one keeps all the others from being stored.
   */
  lemma FlushRefusedIff(terms: map<Id, Term>, streams: map<Id, seq<byte>>, records: map<Id, Record>, batch: seq<Entry>)
    requires AllStored(terms, streams, records) && Pending(terms, batch)
    ensures CommitAll(records, batch).None? <==> AnyOverlap(terms, records)
  {
    if AnyOverlap(terms, records) {
      var id :|
        id in terms && terms[id].TakeCheckpoint().Some? && Overlaps(records[id], terms[id].TakeCheckpoint().value);
      assert Names(batch, id);
      var i :| 0 <= i < |batch| && batch[i].id == id;
      OverlapIsRefused(terms[id], streams[id], records[id]);
      OneRefusedBlocksAll(records, batch, i);
    } else {
      PendingIsSound(terms, streams, records, batch);
      BatchKeepsIntact(records, batch, streams);
    }
  }

  /**
   When it is accepted, every terminal is stored up to its end, whether memory is told or not, and
   none that had nothing to write is touched.
   */
  lemma FlushStoresAll(terms: map<Id, Term>, streams: map<Id, seq<byte>>, records: map<Id, Record>, batch: seq<Entry>)
    requires AllStored(terms, streams, records) && Pending(terms, batch) && CommitAll(records, batch).Some?
    ensures var after := CommitAll(records, batch).value;
            && AllIntact(after, streams) && terms.Keys <= after.Keys && Unwritten(terms, records, after)
            && forall id | id in terms ::
                 && Stored(terms[id], streams[id], after, id) && Stored(Published(terms[id]), streams[id], after, id)
                 && Published(terms[id]).Sound(streams[id])
                 && (terms[id].TakeCheckpoint().Some? ==> after[id].durable == terms[id].next)
  {
    FlushRefusedIff(terms, streams, records, batch);
    PendingIsSound(terms, streams, records, batch);
    BatchKeepsIntact(records, batch, streams);
    var after := CommitAll(records, batch).value;
    forall id | id in records && (id in terms ==> terms[id].TakeCheckpoint().None?)
      ensures id in after && after[id] == records[id]
    {
      assert !Names(batch, id);
    }
    forall id | id in terms
      ensures Stored(terms[id], streams[id], after, id) && Stored(Published(terms[id]), streams[id], after, id)
      ensures Published(terms[id]).Sound(streams[id])
      ensures terms[id].TakeCheckpoint().Some? ==> after[id].durable == terms[id].next
    {
      if terms[id].TakeCheckpoint().Some? {
        assert Names(batch, id);
        var i :| 0 <= i < |batch| && batch[i].id == id;
        BatchWrites(records, batch, |batch|, i);
      }
      WrittenIsStored(terms[id], streams[id], records, after, id);
    }
  }

  // ------------------------------------------------------------------------ collecting

  /** `filter_map`: the entries of the first `n` that have something to write. */
  function Batched(ids: seq<Id>, pending: seq<Option<Checkpoint>>, n: nat): seq<Entry>
    requires n <= |ids| == |pending|
  {
    if n == 0 then []
    else Batched(ids, pending, n - 1) + (if pending[n - 1].Some? then [Entry(ids[n - 1], pending[n - 1].value)] else [])
  }

  lemma {:induction false} BatchedHas(ids: seq<Id>, pending: seq<Option<Checkpoint>>, n: nat)
    requires n <= |ids| == |pending| && forall i, j | 0 <= i < j < |ids| :: ids[i] != ids[j]
    ensures forall e | e in Batched(ids, pending, n) ::
              exists i :: 0 <= i < n && pending[i] == Some(e.cp) && ids[i] == e.id
    ensures forall i | 0 <= i < n && pending[i].Some? :: Entry(ids[i], pending[i].value) in Batched(ids, pending, n)
    ensures Distinct(Batched(ids, pending, n))
  {
    if n > 0 {
      BatchedHas(ids, pending, n - 1);
      var before, all := Batched(ids, pending, n - 1), Batched(ids, pending, n);
      forall i, j | 0 <= i < j < |all|
        ensures all[i].id != all[j].id
      {
        assert all[i] in before;
        assert j < |before| ==> all[j] == before[j];
      }
    }
  }

  lemma BatchedIsPending(ids: seq<Id>, shown: seq<Term>, written: seq<seq<byte>>, pending: seq<Option<Checkpoint>>,
                         terms: map<Id, Term>, streams: map<Id, seq<byte>>)
    requires Values(ids, shown, written, terms, streams) && |pending| == |ids|
    requires forall i, j | 0 <= i < j < |ids| :: ids[i] != ids[j]
    requires forall i | 0 <= i < |ids| :: pending[i] == shown[i].TakeCheckpoint()
    ensures Pending(terms, Batched(ids, pending, |ids|))
  {
    var batch := Batched(ids, pending, |ids|);
    BatchedHas(ids, pending, |ids|);
    forall k | 0 <= k < |batch|
      ensures batch[k].id in terms && terms[batch[k].id].TakeCheckpoint() == Some(batch[k].cp)
    {
      assert batch[k] in batch;
    }
    forall id | id in terms && terms[id].TakeCheckpoint().Some?
      ensures Names(batch, id)
    {
      var i :| 0 <= i < |ids| && ids[i] == id;
      assert Entry(id, pending[i].value) in batch;
    }
  }

  // ------------------------------------------------------------------ the handles in place

  /** One handle, and what it shows. */
  ghost predicate Shows(handle: TerminalHandle, t: Term, stream: seq<byte>)
    reads handle, handle.ring, handle.ring.buf, handle.ring.buf.data
  {
    handle.Valid() && handle.View() == t && handle.stream == stream
  }

  /** `resident_handles`: different objects, each with its terminal's id. */
  predicate Different(handles: seq<TerminalHandle>, ids: seq<Id>) {
    && |ids| == |handles|
    && (forall i, j | 0 <= i < j < |handles| :: handles[i] != handles[j] && ids[i] != ids[j])
  }

  /** Their values by id. */
  ghost predicate Values(ids: seq<Id>, shown: seq<Term>, written: seq<seq<byte>>,
                         terms: map<Id, Term>, streams: map<Id, seq<byte>>)
  {
    && |shown| == |written| == |ids|
    && (forall i | 0 <= i < |ids| ::
          && ids[i] in terms && ids[i] in streams && terms[ids[i]] == shown[i] && streams[ids[i]] == written[i])
    && (forall id | id in terms :: id in ids)
  }

  method AskOne(handle: TerminalHandle, ghost t: Term, ghost stream: seq<byte>) returns (cp: Option<Checkpoint>)
    requires Shows(handle, t, stream)
    ensures cp == t.TakeCheckpoint()
  {
    cp := handle.TakeCheckpoint();
  }

  method TellOne(handle: TerminalHandle, ghost t: Term, ghost stream: seq<byte>, cp: Checkpoint)
    requires Shows(handle, t, stream) && t.TakeCheckpoint() == Some(cp)
    modifies handle
    ensures Shows(handle, Published(t), stream)
  {
    handle.CommitDurable(cp.durable, cp.close);
  }

  /** What each handle has to write, and what it is to become, are those of the values shown. */
  ghost predicate Tells(shown: seq<Term>, pending: seq<Option<Checkpoint>>, after: seq<Term>) {
    && |shown| == |pending| == |after|
    && forall i | 0 <= i < |shown| :: pending[i] == shown[i].TakeCheckpoint() && after[i] == Published(shown[i])
  }

  /** What each resident handle has to write. */
  method AskAll(handles: seq<TerminalHandle>, ghost shown: seq<Term>, ghost written: seq<seq<byte>>,
                ghost after: seq<Term>, ghost all: seq<Option<Checkpoint>>) returns (pending: seq<Option<Checkpoint>>)
    requires |written| == |handles| == |shown| && Tells(shown, all, after)
    requires forall i | 0 <= i < |handles| :: Shows(handles[i], shown[i], written[i])
    ensures pending == all
  {
    hide Shows;
    pending := [];
    for n := 0 to |handles|
      invariant pending == all[..n]
    {
      var cp := AskOne(handles[n], shown[n], written[n]);
      pending := pending + [cp];
    }
  }

  /** Telling one handle changes what no other shows. */
  method TellNth(handles: seq<TerminalHandle>, ghost now: seq<Term>, ghost written: seq<seq<byte>>, n: nat,
                 cp: Checkpoint, ghost t: Term)
    requires |now| == |written| == |handles| && n < |handles|
    requires forall i | 0 <= i < |handles| && i != n :: handles[i] != handles[n]
    requires forall i | 0 <= i < |handles| :: Shows(handles[i], now[i], written[i])
    requires now[n].TakeCheckpoint() == Some(cp) && t == Published(now[n])
    modifies handles[n]
    ensures forall i | 0 <= i < |handles| :: Shows(handles[i], now[n := t][i], written[i])
  {
    TellOne(handles[n], now[n], written[n], cp);
  }

  lemma UntoldStays(t: Term)
    requires t.TakeCheckpoint().None?
    ensures Published(t) == t
  {
  }

  method TellAll(handles: seq<TerminalHandle>, ids: seq<Id>, ghost shown: seq<Term>, ghost written: seq<seq<byte>>,
                 pending: seq<Option<Checkpoint>>, ghost after: seq<Term>)
    requires Different(handles, ids) && |shown| == |written| == |handles| && Tells(shown, pending, after)
    requires forall i | 0 <= i < |handles| :: Shows(handles[i], shown[i], written[i])
    modifies handles
    ensures forall i | 0 <= i < |handles| :: Shows(handles[i], after[i], written[i])
  {
    hide Shows, Term.TakeCheckpoint, Published;
    ghost var now := shown;
    for n := 0 to |handles|
      invariant |now| == |handles|
      invariant forall i | 0 <= i < n :: now[i] == after[i]
      invariant forall i | n <= i < |handles| :: now[i] == shown[i]
      invariant forall i | 0 <= i < |handles| :: Shows(handles[i], now[i], written[i])
    {
      if pending[n].Some? {
        TellNth(handles, now, written, n, pending[n].value, after[n]);
        now := now[n := after[n]];
      } else {
        UntoldStays(shown[n]);
      }
    }
  }

  // -------------------------------------------------------------------------- the flush

  /** Every terminal that had something to write is stored up to its end. */
  ghost predicate AllWritten(terms: map<Id, Term>, streams: map<Id, seq<byte>>, records: map<Id, Record>) {
    forall id | id in terms && id in streams ::
      && Stored(Published(terms[id]), streams[id], records, id)
      && (terms[id].TakeCheckpoint().Some? ==> records[id].durable == terms[id].next)
  }

  method CommitAny(db: Database, ghost terms: map<Id, Term>, ghost streams: map<Id, seq<byte>>,
                   batch: seq<Entry>, faults: seq<bool>) returns (committed: bool)
    requires AllStored(terms, streams, db.records) && Pending(terms, batch)
    modifies db
    ensures committed <==> false in faults && AnyPending(terms) && !AnyOverlap(terms, old(db.records))
    ensures !committed ==> db.records == old(db.records)
    ensures Unwritten(terms, old(db.records), db.records) && AllStored(terms, streams, db.records)
    ensures committed ==> AllWritten(terms, streams, db.records)
  {
    committed := false;
    PendingIffAny(terms, batch);
    FlushRefusedIff(terms, streams, db.records, batch);
    if batch != [] {
      committed := CommitWithRetry(db, batch, faults);
    }
    if committed {
      FlushStoresAll(terms, streams, old(db.records), batch);
    }
  }

  /** What there is to tell each handle, and what it becomes when told. */
  lemma ToTell(shown: seq<Term>) returns (all: seq<Option<Checkpoint>>, after: seq<Term>)
    ensures Tells(shown, all, after)
  {
    all := seq(|shown|, i requires 0 <= i < |shown| => shown[i].TakeCheckpoint());
    after := seq(|shown|, i requires 0 <= i < |shown| => Published(shown[i]));
  }

  /** The handles' part: what they have to write, by id. */
  method Collect(handles: seq<TerminalHandle>, ids: seq<Id>, ghost shown: seq<Term>, ghost written: seq<seq<byte>>,
                 ghost all: seq<Option<Checkpoint>>, ghost after: seq<Term>,
                 ghost terms: map<Id, Term>, ghost streams: map<Id, seq<byte>>)
      returns (pending: seq<Option<Checkpoint>>, batch: seq<Entry>)
    requires Different(handles, ids) && Values(ids, shown, written, terms, streams) && Tells(shown, all, after)
    requires forall i | 0 <= i < |handles| :: Shows(handles[i], shown[i], written[i])
    ensures pending == all && Pending(terms, batch)
  {
    pending := AskAll(handles, shown, written, after, all);
    BatchedIsPending(ids, shown, written, pending, terms, streams);
    batch := Batched(ids, pending, |ids|);
  }

  /** The database's part, which no handle notices. */
  method StoreAll(handles: seq<TerminalHandle>, ids: seq<Id>, ghost shown: seq<Term>, ghost written: seq<seq<byte>>,
                  ghost all: seq<Option<Checkpoint>>, ghost after: seq<Term>,
                  ghost terms: map<Id, Term>, ghost streams: map<Id, seq<byte>>, db: Database, faults: seq<bool>)
      returns (pending: seq<Option<Checkpoint>>, committed: bool)
    requires Different(handles, ids) && Values(ids, shown, written, terms, streams) && Tells(shown, all, after)
    requires forall i | 0 <= i < |handles| :: Shows(handles[i], shown[i], written[i])
    requires AllStored(terms, streams, db.records)
    modifies db
    ensures pending == all
    ensures committed <==> false in faults && AnyPending(terms) && !AnyOverlap(terms, old(db.records))
    ensures !committed ==> db.records == old(db.records)
    ensures Unwritten(terms, old(db.records), db.records) && AllStored(terms, streams, db.records)
    ensures committed ==> AllWritten(terms, streams, db.records)
  {
    var batch;
    pending, batch := Collect(handles, ids, shown, written, all, after, terms, streams);
    committed := CommitAny(db, terms, streams, batch, faults);
  }

  /** `flush_once`'s end: the handles are told, unless nothing was committed or nobody is there to do it. */
  method Finish(handles: seq<TerminalHandle>, ids: seq<Id>, ghost shown: seq<Term>, ghost written: seq<seq<byte>>,
                pending: seq<Option<Checkpoint>>, ghost after: seq<Term>, tell: bool)
    requires Different(handles, ids) && |shown| == |written| == |handles| && Tells(shown, pending, after)
    requires forall i | 0 <= i < |handles| :: Shows(handles[i], shown[i], written[i])
    modifies handles
    ensures forall i | 0 <= i < |handles| ::
              Shows(handles[i], if tell then Published(shown[i]) else shown[i], written[i])
  {
    if tell {
      TellAll(handles, ids, shown, written, pending, after);
    }
  }

  /**
   `flush_once`, over every resident handle in place: one transaction, and only then, and only if
   its caller is still there, the handles are told.
   */
  method FlushAll(handles: seq<TerminalHandle>, ids: seq<Id>, ghost shown: seq<Term>, ghost written: seq<seq<byte>>,
                  ghost terms: map<Id, Term>, ghost streams: map<Id, seq<byte>>,
                  db: Database, flushing: Flushing) returns (committed: bool)
    requires Different(handles, ids) && Values(ids, shown, written, terms, streams)
    requires forall i | 0 <= i < |handles| :: Shows(handles[i], shown[i], written[i])
    requires AllStored(terms, streams, db.records)
    modifies handles, db
    ensures committed <==> false in flushing.faults && AnyPending(terms) && !AnyOverlap(terms, old(db.records))
    ensures !committed ==> db.records == old(db.records)
    ensures Unwritten(terms, old(db.records), db.records) && AllStored(terms, streams, db.records)
    ensures committed ==> AllWritten(terms, streams, db.records)
    ensures forall i | 0 <= i < |handles| ::
              Shows(handles[i], if committed && !flushing.dropped then Published(shown[i]) else shown[i], written[i])
  {
    hide Shows, AllStored, AllWritten, Unwritten;
    ghost var all, after := ToTell(shown);
    var pending;
    pending, committed := StoreAll(handles, ids, shown, written, all, after, terms, streams, db, flushing.faults);
    Finish(handles, ids, shown, written, pending, after, committed && !flushing.dropped);
  }
}
