/**
 Durable output (`server/src/db/repo.rs`): the rows of `terminal_output`, the checkpoint
 transaction that changes them, and the reload after a restart.

 A terminal's rows are kept in the order of the index on (terminal_id, start_offset), which
 is also what makes two rows with one start offset impossible.
 */
module Store {
  import opened Bytes

  datatype Row = Row(start: nat, end: nat, bytes: seq<byte>)

  datatype Record = Record(rows: seq<Row>, durable: nat, earliest: nat, closed: Option<string>)

  datatype Checkpoint = Checkpoint(
    start: nat,             // where `chunk` begins
    chunk: seq<byte>,
    earliest: nat,
    durable: nat,           // and where it ends
    close: Option<string>)

  // -------------------------------------------------------------------- the statements

  /** INSERT; the unique index refuses a second row with the same start. */
  function Insert(rows: seq<Row>, row: Row): Option<seq<Row>> {
    if rows == [] || row.start < rows[0].start then
      Some([row] + rows)
    else if row.start == rows[0].start then
      None
    else match Insert(rows[1..], row)
      case None => None
      case Some(rest) => Some([rows[0]] + rest)
  }

  /** DELETE ... WHERE end_offset <= e. */
  function DeleteEnded(rows: seq<Row>, e: nat): seq<Row> {
    if rows == [] then []
    else if rows[0].end <= e then DeleteEnded(rows[1..], e)
    else [rows[0]] + DeleteEnded(rows[1..], e)
  }

  /** DELETE ... WHERE start_offset = s. */
  function DeleteStart(rows: seq<Row>, s: nat): seq<Row> {
    if rows == [] then []
    else if rows[0].start == s then DeleteStart(rows[1..], s)
    else [rows[0]] + DeleteStart(rows[1..], s)
  }

  /** SELECT ... WHERE start_offset < e AND end_offset > e, first match. */
  function Straddler(rows: seq<Row>, e: nat): Option<Row> {
    if rows == [] then None
    else if rows[0].start < e < rows[0].end then Some(rows[0])
    else Straddler(rows[1..], e)
  }

  // ------------------------------------------------------------------- the transaction

  function InsertChunk(rows: seq<Row>, cp: Checkpoint): Option<seq<Row>> {
    if cp.chunk == [] then Some(rows) else Insert(rows, Row(cp.start, cp.durable, cp.chunk))
  }

  /** Rewrite the one row that reaches across `e` so that it begins there. */
  function TrimStraddler(rows: seq<Row>, e: nat): Option<seq<Row>> {
    match Straddler(rows, e)
    case None => Some(rows)
    case Some(row) =>
      var skip := Minus(e, row.start);
      if skip < |row.bytes|
      then Insert(DeleteStart(rows, row.start), Row(e, row.end, row.bytes[skip..]))
      else Some(rows)
  }

  /** One checkpoint applied to its terminal; `None` when a statement fails. */
  function Commit(rec: Record, cp: Checkpoint): Option<Record> {
    match InsertChunk(rec.rows, cp)
    case None => None
    case Some(inserted) =>
      match TrimStraddler(DeleteEnded(inserted, cp.earliest), cp.earliest)
      case None => None
      case Some(trimmed) =>
        if cp.earliest > cp.durable then None   // the table's CHECK
        else Some(Record(trimmed, cp.durable, cp.earliest,
                    if cp.close.Some? then cp.close else rec.closed))
  }

  // --------------------------------------------------------------- what the rows hold

  /** The rows are non-empty pieces of `stream`, laid end to end over exactly [lo, hi). */
  predicate Tiles(rows: seq<Row>, lo: nat, hi: nat, stream: seq<byte>) {
    if rows == [] then lo == hi
    else
      && rows[0].start == lo
      && rows[0].bytes != []
      && rows[0].end == lo + |rows[0].bytes|
      && At(stream, lo, rows[0].bytes)
      && Tiles(rows[1..], rows[0].end, hi, stream)
  }

  predicate Intact(rec: Record, stream: seq<byte>) {
    rec.durable <= |stream| && Tiles(rec.rows, rec.earliest, rec.durable, stream)
  }

  /**
   What a checkpoint must be for its terminal's rows: it continues them, or it starts above
   them and the retained window has moved at least as far.
   */
  predicate Continues(rec: Record, cp: Checkpoint, stream: seq<byte>) {
    && At(stream, cp.start, cp.chunk)
    && cp.durable == cp.start + |cp.chunk|
    && rec.earliest <= cp.earliest <= cp.durable
    && (cp.start == rec.durable || rec.durable < cp.start <= cp.earliest)
  }

  /** Some row holds the byte at `off`. */
  predicate InRows(rows: seq<Row>, off: nat) {
    rows != [] && (rows[0].start <= off < rows[0].end || InRows(rows[1..], off))
  }

  lemma {:induction false} TilesHold(rows: seq<Row>, lo: nat, hi: nat, stream: seq<byte>, off: nat)
    requires Tiles(rows, lo, hi, stream)
    ensures lo <= hi && (InRows(rows, off) <==> lo <= off < hi)
    decreases |rows|
  {
    if rows != [] {
      TilesHold(rows[1..], rows[0].end, hi, stream, off);
    }
  }

  lemma {:induction false} TilesGrow(rows: seq<Row>, lo: nat, hi: nat, stream: seq<byte>, more: seq<byte>)
    requires Tiles(rows, lo, hi, stream)
    ensures Tiles(rows, lo, hi, stream + more) && lo <= hi
    decreases |rows|
  {
    if rows != [] {
      AtGrows(stream, more, lo, rows[0].bytes);
      TilesGrow(rows[1..], rows[0].end, hi, stream, more);
    }
  }

  lemma {:induction false} TilesCut(rows: seq<Row>, lo: nat, hi: nat, stream: seq<byte>, n: nat)
    requires Tiles(rows, lo, hi, stream) && hi <= n <= |stream|
    ensures Tiles(rows, lo, hi, stream[..n]) && lo <= hi
    decreases |rows|
  {
    if rows != [] {
      TilesCut(rows[1..], rows[0].end, hi, stream, n);
      AtCut(stream, lo, rows[0].bytes, n);
    }
  }

  /** A row at or above the end of the tiling goes behind all of it. */
  lemma {:induction false} InsertBehind(rows: seq<Row>, lo: nat, hi: nat, stream: seq<byte>, row: Row)
    requires Tiles(rows, lo, hi, stream) && hi <= row.start
    ensures lo <= hi && Insert(rows, row) == Some(rows + [row])
    decreases |rows|
  {
    if rows == [] {
      assert [row] + rows == rows + [row];
    } else {
      InsertBehind(rows[1..], rows[0].end, hi, stream, row);
      assert [rows[0]] + (rows[1..] + [row]) == rows + [row];
    }
  }

  lemma {:induction false} TilesAppend(rows: seq<Row>, lo: nat, hi: nat, stream: seq<byte>, row: Row)
    requires Tiles(rows, lo, hi, stream)
    requires row.start == hi && row.bytes != [] && row.end == hi + |row.bytes|
    requires At(stream, hi, row.bytes)
    ensures Tiles(rows + [row], lo, row.end, stream)
    decreases |rows|
  {
    if rows != [] {
      TilesAppend(rows[1..], rows[0].end, hi, stream, row);
      assert (rows + [row])[1..] == rows[1..] + [row];
    }
  }

  /** A checkpoint far above the old rows clears all of them away. */
  lemma {:induction false} DeleteBelow(rows: seq<Row>, lo: nat, hi: nat, stream: seq<byte>, more: seq<Row>, e: nat)
    requires Tiles(rows, lo, hi, stream) && hi <= e
    ensures lo <= hi && DeleteEnded(rows + more, e) == DeleteEnded(more, e)
    decreases |rows|
  {
    if rows == [] {
      assert rows + more == more;
    } else {
      DeleteBelow(rows[1..], rows[0].end, hi, stream, more, e);
      assert (rows + more)[1..] == rows[1..] + more;
    }
  }

  /** Rows that all lie above `e` are touched by none of the trimming statements. */
  lemma {:induction false} TilesAbove(rows: seq<Row>, lo: nat, hi: nat, stream: seq<byte>, e: nat)
    requires Tiles(rows, lo, hi, stream) && e <= lo
    ensures DeleteEnded(rows, e) == rows && Straddler(rows, e) == None
    ensures forall s: nat :: s < lo ==> DeleteStart(rows, s) == rows
    decreases |rows|
  {
    if rows != [] {
      TilesAbove(rows[1..], rows[0].end, hi, stream, e);
      assert [rows[0]] + rows[1..] == rows;
    }
  }

  /** The first row reaches across `e`: it is rewritten to begin there. */
  lemma TrimAcross(row: Row, rest: seq<Row>, lo: nat, hi: nat, stream: seq<byte>, e: nat)
    requires Tiles([row] + rest, lo, hi, stream) && lo < e < row.end
    ensures var trimmed := TrimStraddler([row] + rest, e);
            trimmed == Some([Row(e, row.end, row.bytes[e - lo..])] + rest)
            && Tiles(trimmed.value, e, hi, stream)
  {
    var rows, cut := [row] + rest, Row(e, row.end, row.bytes[e - lo..]);
    assert rows[1..] == rest && ([cut] + rest)[1..] == rest;
    TilesAbove(rest, row.end, hi, stream, e);
    AtSlice(stream, lo, row.bytes, e - lo, |row.bytes|);
    assert DeleteStart(rows, row.start) == rest;
    assert rest == [] || e < rest[0].start;
  }

  /** Trimming cuts the tiling off exactly at `e`; at most one row is rewritten. */
  lemma {:induction false} TrimTiles(rows: seq<Row>, lo: nat, hi: nat, stream: seq<byte>, e: nat)
    requires Tiles(rows, lo, hi, stream) && lo <= e <= hi
    ensures var trimmed := TrimStraddler(DeleteEnded(rows, e), e);
            trimmed.Some? && Tiles(trimmed.value, e, hi, stream)
    decreases |rows|
  {
    if rows != [] && rows[0].end <= e {
      TilesGrow(rows[1..], rows[0].end, hi, stream, []);
      TrimTiles(rows[1..], rows[0].end, hi, stream, e);
    } else if rows != [] && lo < e {
      TilesAbove(rows[1..], rows[0].end, hi, stream, e);
      assert rows == [rows[0]] + rows[1..];
      TrimAcross(rows[0], rows[1..], lo, hi, stream, e);
    } else if rows != [] {
      TilesAbove(rows, lo, hi, stream, e);
    }
  }

  /**
   The checkpoint invariant: committing a checkpoint that continues a terminal's rows always
   succeeds and leaves rows that tile exactly the new [earliest, durable) with the stream's
   own bytes.
   */
  lemma CommitKeepsIntact(rec: Record, cp: Checkpoint, stream: seq<byte>)
    requires Intact(rec, stream) && Continues(rec, cp, stream)
    ensures var after := Commit(rec, cp);
            && after.Some?
            && Intact(after.value, stream)
            && after.value.earliest == cp.earliest
            && after.value.durable == cp.durable
  {
    var row := Row(cp.start, cp.durable, cp.chunk);
    if cp.start == rec.durable {
      if cp.chunk != [] {
        InsertBehind(rec.rows, rec.earliest, rec.durable, stream, row);
        TilesAppend(rec.rows, rec.earliest, rec.durable, stream, row);
        TrimTiles(rec.rows + [row], rec.earliest, cp.durable, stream, cp.earliest);
      } else {
        TrimTiles(rec.rows, rec.earliest, cp.durable, stream, cp.earliest);
      }
    } else {
      var added := if cp.chunk == [] then [] else [row];
      if cp.chunk == [] {
        assert rec.rows + added == rec.rows;
      } else {
        InsertBehind(rec.rows, rec.earliest, rec.durable, stream, row);
        assert Tiles([row], cp.start, cp.durable, stream);
      }
      DeleteBelow(rec.rows, rec.earliest, rec.durable, stream, added, cp.earliest);
      TrimTiles(added, cp.start, cp.durable, stream, cp.earliest);
    }
  }

  /** A terminal is closed by the first checkpoint that says so, and no later one opens it. */
  lemma CommitKeepsClosed(rec: Record, cp: Checkpoint)
    requires Commit(rec, cp).Some?
    ensures cp.close.Some? ==> Commit(rec, cp).value.closed == cp.close
    ensures cp.close.None? ==> Commit(rec, cp).value.closed == rec.closed
  {
  }

  // ------------------------------------------------------------------------- the reload

  /**
   The loop of `load_terminal_output` over the selected rows: `None` is the reported gap.
   */
  function LoadFrom(rows: seq<Row>, expected: nat): Option<seq<byte>> {
    if rows == [] then Some([])
    else
      var row := rows[0];
      var skip := Minus(expected, row.start);
      if row.start > expected then None
      else if skip >= |row.bytes| then LoadFrom(rows[1..], expected)
      else match LoadFrom(rows[1..], row.start + |row.bytes|)
        case None => None
        case Some(rest) => Some(row.bytes[skip..] + rest)
  }

  /** SELECT ... WHERE end_offset > earliest ORDER BY start_offset, then the loop. */
  function Load(rec: Record): Option<seq<byte>> {
    LoadFrom(DeleteEnded(rec.rows, rec.earliest), rec.earliest)
  }

  /**
   However the rows overlap, and whatever is missing among them, a reload that succeeds
   is one contiguous slice of the stream: there is no hole in it and no byte twice.
   */
  lemma {:induction false} LoadHasNoHole(rows: seq<Row>, expected: nat, stream: seq<byte>)
    requires forall row | row in rows :: At(stream, row.start, row.bytes)
    requires expected <= |stream|
    ensures LoadFrom(rows, expected).Some? ==> At(stream, expected, LoadFrom(rows, expected).value)
    decreases |rows|
  {
    if rows != [] && rows[0].start <= expected {
      var row := rows[0];
      var skip := expected - row.start;
      if skip >= |row.bytes| {
        LoadHasNoHole(rows[1..], expected, stream);
      } else {
        LoadHasNoHole(rows[1..], row.start + |row.bytes|, stream);
        AtSlice(stream, row.start, row.bytes, skip, |row.bytes|);
        if LoadFrom(rows[1..], row.start + |row.bytes|).Some? {
          AtJoin(stream, expected, row.bytes[skip..], LoadFrom(rows[1..], row.start + |row.bytes|).value);
        }
      }
    }
  }

  lemma {:induction false} LoadTiles(rows: seq<Row>, lo: nat, hi: nat, stream: seq<byte>)
    requires Tiles(rows, lo, hi, stream)
    ensures lo <= hi && LoadFrom(rows, lo).Some? && |LoadFrom(rows, lo).value| == hi - lo
    ensures hi <= |stream| ==> At(stream, lo, LoadFrom(rows, lo).value)
    decreases |rows|
  {
    if rows != [] {
      LoadTiles(rows[1..], rows[0].end, hi, stream);
      if hi <= |stream| {
        AtJoin(stream, lo, rows[0].bytes, LoadFrom(rows[1..], rows[0].end).value);
      }
    }
  }

  /** On intact rows the reload never reports a gap and returns exactly [earliest, durable). */
  lemma LoadIsExact(rec: Record, stream: seq<byte>)
    requires Intact(rec, stream)
    ensures rec.earliest <= rec.durable
    ensures Load(rec) == Some(stream[rec.earliest..rec.durable])
  {
    TilesAbove(rec.rows, rec.earliest, rec.durable, stream, rec.earliest);
    LoadTiles(rec.rows, rec.earliest, rec.durable, stream);
  }

  // ------------------------------------------- rows in any state a transaction can leave

  /** A non-empty piece of the stream, with its own end. */
  predicate Piece(row: Row, stream: seq<byte>) {
    row.bytes != [] && row.end == row.start + |row.bytes| && At(stream, row.start, row.bytes)
  }

  predicate Rising(rows: seq<Row>) {
    forall i, j | 0 <= i < j < |rows| :: rows[i].start < rows[j].start
  }

  /** The rows are pieces of `stream` in order of where they begin; they may overlap, and leave gaps. */
  predicate Agree(rows: seq<Row>, stream: seq<byte>) {
    (forall row | row in rows :: Piece(row, stream)) && Rising(rows)
  }

  predicate HasStart(rows: seq<Row>, s: nat) { exists row :: row in rows && row.start == s }

  /** Some row ends at `x` or beyond. */
  predicate Reaching(rows: seq<Row>, x: nat) { exists row :: row in rows && x <= row.end }

  predicate Within(rows: seq<Row>, n: nat) { forall row | row in rows :: row.end <= n }

  lemma {:induction false} InRowsHas(rows: seq<Row>, off: nat)
    ensures InRows(rows, off) <==> exists row :: row in rows && row.start <= off < row.end
    decreases |rows|
  {
    if rows != [] {
      InRowsHas(rows[1..], off);
      assert forall row :: row in rows <==> row == rows[0] || row in rows[1..];
    }
  }

  lemma {:induction false} TilesAgree(rows: seq<Row>, lo: nat, hi: nat, stream: seq<byte>)
    requires Tiles(rows, lo, hi, stream)
    ensures lo <= hi && Agree(rows, stream) && Within(rows, hi)
    ensures forall row | row in rows :: lo <= row.start
    ensures lo < hi ==> Reaching(rows, hi)
    decreases |rows|
  {
    if rows != [] {
      var rest := rows[1..];
      TilesAgree(rest, rows[0].end, hi, stream);
      assert forall row :: row in rows <==> row == rows[0] || row in rest;
      forall j | 0 < j < |rows|
        ensures rows[0].start < rows[j].start
      {
        assert rows[j] in rest;
      }
      assert rows[0].end == hi ==> rows[0] in rows;
    }
  }

  lemma AgreeGrow(rows: seq<Row>, stream: seq<byte>, more: seq<byte>)
    requires Agree(rows, stream)
    ensures Agree(rows, stream + more)
  {
    forall row | row in rows
      ensures Piece(row, stream + more)
    {
      AtGrows(stream, more, row.start, row.bytes);
    }
  }

  lemma AgreeCut(rows: seq<Row>, stream: seq<byte>, n: nat)
    requires Agree(rows, stream) && Within(rows, n) && n <= |stream|
    ensures Agree(rows, stream[..n])
  {
    forall row | row in rows
      ensures Piece(row, stream[..n])
    {
      AtCut(stream, row.start, row.bytes, n);
    }
  }

  lemma RisingTail(rows: seq<Row>)
    requires Rising(rows) && rows != []
    ensures Rising(rows[1..]) && forall x | x in rows[1..] :: rows[0].start < x.start
    ensures forall x :: x in rows <==> x == rows[0] || x in rows[1..]
  {
    forall x | x in rows[1..]
      ensures rows[0].start < x.start
    {
      var i :| 0 <= i < |rows[1..]| && rows[1..][i] == x;
      assert rows[i + 1] == x;
    }
  }

  lemma RisingCons(first: Row, rest: seq<Row>)
    requires Rising(rest) && forall x | x in rest :: first.start < x.start
    ensures Rising([first] + rest) && forall x :: x in [first] + rest <==> x == first || x in rest
  {
    forall i, j | 0 <= i < j < |[first] + rest|
      ensures ([first] + rest)[i].start < ([first] + rest)[j].start
    {
      assert rest[j - 1] in rest;
    }
  }

  /** The unique index refuses exactly a start that is taken; otherwise the row goes in its place. */
  lemma {:induction false} InsertHas(rows: seq<Row>, row: Row)
    requires Rising(rows)
    ensures Insert(rows, row).None? <==> HasStart(rows, row.start)
    ensures Insert(rows, row).Some? ==>
              && Rising(Insert(rows, row).value)
              && (forall x :: x in Insert(rows, row).value <==> x == row || x in rows)
    decreases |rows|
  {
    if rows != [] {
      RisingTail(rows);
    }
    if rows == [] || row.start < rows[0].start {
      RisingCons(row, rows);
    } else if row.start > rows[0].start {
      InsertHas(rows[1..], row);
      if Insert(rows[1..], row).Some? {
        RisingCons(rows[0], Insert(rows[1..], row).value);
      }
    } else {
      assert rows[0] in rows;
    }
  }

  lemma {:induction false} DeleteEndedHas(rows: seq<Row>, e: nat)
    requires Rising(rows)
    ensures Rising(DeleteEnded(rows, e))
    ensures forall x :: x in DeleteEnded(rows, e) <==> x in rows && e < x.end
    decreases |rows|
  {
    if rows != [] {
      RisingTail(rows);
      DeleteEndedHas(rows[1..], e);
      if e < rows[0].end {
        RisingCons(rows[0], DeleteEnded(rows[1..], e));
      }
    }
  }

  lemma {:induction false} DeleteStartHas(rows: seq<Row>, s: nat)
    requires Rising(rows)
    ensures Rising(DeleteStart(rows, s))
    ensures forall x :: x in DeleteStart(rows, s) <==> x in rows && x.start != s
    decreases |rows|
  {
    if rows != [] {
      RisingTail(rows);
      DeleteStartHas(rows[1..], s);
      if rows[0].start != s {
        RisingCons(rows[0], DeleteStart(rows[1..], s));
      }
    }
  }

  lemma {:induction false} StraddlerHas(rows: seq<Row>, e: nat)
    ensures match Straddler(rows, e)
            case Some(y) => y in rows && y.start < e < y.end
            case None => forall x | x in rows :: !(x.start < e < x.end)
    decreases |rows|
  {
    if rows != [] {
      StraddlerHas(rows[1..], e);
      assert forall x :: x in rows <==> x == rows[0] || x in rows[1..];
    }
  }

  function Trimmed(row: Row, e: nat): Row
    requires row.start <= e && e - row.start <= |row.bytes|
  {
    Row(e, row.end, row.bytes[e - row.start..])
  }

  lemma TrimmedIsPiece(row: Row, e: nat, stream: seq<byte>)
    requires Piece(row, stream) && row.start <= e < row.end
    ensures Piece(Trimmed(row, e), stream)
  {
    AtSlice(stream, row.start, row.bytes, e - row.start, |row.bytes|);
  }

  /** The rewrite fails exactly when the offset it would begin at is taken. */
  lemma TrimHas(rows: seq<Row>, e: nat, stream: seq<byte>)
    requires Agree(rows, stream)
    ensures var cut, trimmed := Straddler(rows, e), TrimStraddler(rows, e);
            && (trimmed.None? <==> cut.Some? && HasStart(rows, e))
            && (cut.Some? ==> cut.value in rows && cut.value.start < e < cut.value.end && Piece(cut.value, stream))
            && (trimmed.Some? ==> Agree(trimmed.value, stream))
            && (trimmed.Some? && cut.Some? ==>
                  forall x :: x in trimmed.value <==> x == Trimmed(cut.value, e) || (x in rows && x != cut.value))
            && (trimmed.Some? && cut.None? ==> trimmed.value == rows)
  {
    StraddlerHas(rows, e);
    var cut := Straddler(rows, e);
    if cut.Some? {
      var row := cut.value;
      TrimmedIsPiece(row, e, stream);
      DeleteStartHas(rows, row.start);
      OneStart(rows, row);
      InsertHas(DeleteStart(rows, row.start), Trimmed(row, e));
      assert HasStart(rows, e) <==> HasStart(DeleteStart(rows, row.start), e);
    }
  }

  lemma OneStart(rows: seq<Row>, row: Row)
    requires Rising(rows) && row in rows
    ensures forall x | x in rows :: x.start == row.start <==> x == row
  {
    var i :| 0 <= i < |rows| && rows[i] == row;
    forall x | x in rows && x.start == row.start
      ensures x == row
    {
      var j :| 0 <= j < |rows| && rows[j] == x;
    }
  }

  // --------------------------------------------------- what any commit does to any such rows

  /** A checkpoint's shape: a piece of the stream, of which nothing below `earliest` is kept. */
  predicate Shaped(cp: Checkpoint, stream: seq<byte>) {
    At(stream, cp.start, cp.chunk) && cp.durable == cp.start + |cp.chunk| && cp.earliest <= cp.start
  }

  function ChunkRow(cp: Checkpoint): Row { Row(cp.start, cp.durable, cp.chunk) }

  lemma InsertChunkHas(rows: seq<Row>, cp: Checkpoint, stream: seq<byte>)
    requires Agree(rows, stream) && Shaped(cp, stream)
    ensures var inserted := InsertChunk(rows, cp);
            && (inserted.None? <==> cp.chunk != [] && HasStart(rows, cp.start))
            && (inserted.Some? ==>
                  Agree(inserted.value, stream)
                  && forall x :: x in inserted.value <==> x in rows || (cp.chunk != [] && x == ChunkRow(cp)))
  {
    InsertHas(rows, ChunkRow(cp));
  }

  /** After the insert and the range delete. */
  lemma KeptHas(rec: Record, cp: Checkpoint, stream: seq<byte>)
    requires Agree(rec.rows, stream) && Shaped(cp, stream) && InsertChunk(rec.rows, cp).Some?
    ensures var kept := DeleteEnded(InsertChunk(rec.rows, cp).value, cp.earliest);
            && Agree(kept, stream)
            && forall x ::
                 x in kept <==> cp.earliest < x.end && (x in rec.rows || (cp.chunk != [] && x == ChunkRow(cp)))
  {
    InsertChunkHas(rec.rows, cp, stream);
    DeleteEndedHas(InsertChunk(rec.rows, cp).value, cp.earliest);
  }

  /** The rows a transaction has after its insert and its range delete. */
  function Kept(rec: Record, cp: Checkpoint): seq<Row>
    requires InsertChunk(rec.rows, cp).Some?
  {
    DeleteEnded(InsertChunk(rec.rows, cp).value, cp.earliest)
  }

  predicate Offered(rec: Record, cp: Checkpoint, row: Row) {
    row in rec.rows || (cp.chunk != [] && row == ChunkRow(cp))
  }

  lemma CommitAgrees(rec: Record, cp: Checkpoint, stream: seq<byte>)
    requires Agree(rec.rows, stream) && Shaped(cp, stream) && Commit(rec, cp).Some?
    ensures Agree(Commit(rec, cp).value.rows, stream)
  {
    KeptHas(rec, cp, stream);
    TrimHas(Kept(rec, cp), cp.earliest, stream);
  }

  /** A row that reaches above `earliest` survives a commit, cut off at most from below. */
  lemma Survivor(rec: Record, cp: Checkpoint, stream: seq<byte>, y: Row) returns (x: Row)
    requires Agree(rec.rows, stream) && Shaped(cp, stream) && Commit(rec, cp).Some?
    requires Offered(rec, cp, y) && cp.earliest < y.end
    ensures x in Commit(rec, cp).value.rows && x.end == y.end
    ensures x.start == y.start || x.start == cp.earliest > y.start
  {
    KeptHas(rec, cp, stream);
    TrimHas(Kept(rec, cp), cp.earliest, stream);
    x := if Straddler(Kept(rec, cp), cp.earliest) == Some(y) then Trimmed(y, cp.earliest) else y;
  }

  /** Every row after a commit is what one offered to it, above `earliest`, has become. */
  lemma Origin(rec: Record, cp: Checkpoint, stream: seq<byte>, x: Row) returns (y: Row)
    requires Agree(rec.rows, stream) && Shaped(cp, stream) && Commit(rec, cp).Some?
    requires x in Commit(rec, cp).value.rows
    ensures Offered(rec, cp, y) && cp.earliest < y.end == x.end && y.start <= x.start
  {
    KeptHas(rec, cp, stream);
    TrimHas(Kept(rec, cp), cp.earliest, stream);
    var cut := Straddler(Kept(rec, cp), cp.earliest);
    y := if cut.Some? && x == Trimmed(cut.value, cp.earliest) then cut.value else x;
  }

  lemma RowAt(rows: seq<Row>, off: nat) returns (row: Row)
    requires InRows(rows, off)
    ensures row in rows && row.start <= off < row.end
  {
    InRowsHas(rows, off);
    row :| row in rows && row.start <= off < row.end;
  }

  lemma InRowsBy(rows: seq<Row>, row: Row, off: nat)
    requires row in rows && row.start <= off < row.end
    ensures InRows(rows, off)
  {
    InRowsHas(rows, off);
  }

  /** Above `earliest`, a commit adds exactly its chunk and loses nothing. */
  lemma CommitHolds(rec: Record, cp: Checkpoint, stream: seq<byte>, off: nat)
    requires Agree(rec.rows, stream) && Shaped(cp, stream) && Commit(rec, cp).Some? && cp.earliest <= off
    ensures InRows(Commit(rec, cp).value.rows, off) <==> InRows(rec.rows, off) || cp.start <= off < cp.durable
  {
    var after := Commit(rec, cp).value.rows;
    if InRows(after, off) {
      var x := RowAt(after, off);
      var y := Origin(rec, cp, stream, x);
      if y in rec.rows {
        InRowsBy(rec.rows, y, off);
      }
    }
    if InRows(rec.rows, off) || cp.start <= off < cp.durable {
      var y := ChunkRow(cp);
      if InRows(rec.rows, off) {
        y := RowAt(rec.rows, off);
      }
      var x := Survivor(rec, cp, stream, y);
      InRowsBy(after, x, off);
    }
  }

  lemma CommitReaches(rec: Record, cp: Checkpoint, stream: seq<byte>, x: nat)
    requires Agree(rec.rows, stream) && Shaped(cp, stream) && Commit(rec, cp).Some? && cp.earliest < x
    ensures Reaching(Commit(rec, cp).value.rows, x) <==> Reaching(rec.rows, x) || (cp.chunk != [] && x <= cp.durable)
  {
    var after := Commit(rec, cp).value.rows;
    if Reaching(after, x) {
      var z :| z in after && x <= z.end;
      var y := Origin(rec, cp, stream, z);
    }
    if Reaching(rec.rows, x) || (cp.chunk != [] && x <= cp.durable) {
      var y :| Offered(rec, cp, y) && x <= y.end;
      var z := Survivor(rec, cp, stream, y);
    }
  }

  lemma CommitStarts(rec: Record, cp: Checkpoint, stream: seq<byte>, s: nat)
    requires Agree(rec.rows, stream) && Shaped(cp, stream) && Commit(rec, cp).Some? && cp.earliest <= s
    requires HasStart(rec.rows, s) || (cp.chunk != [] && s == cp.start)
    ensures HasStart(Commit(rec, cp).value.rows, s)
  {
    var y :| Offered(rec, cp, y) && y.start == s;
    assert y in rec.rows ==> Piece(y, stream);
    var x := Survivor(rec, cp, stream, y);
  }

  lemma CommitWithin(rec: Record, cp: Checkpoint, stream: seq<byte>, n: nat)
    requires Agree(rec.rows, stream) && Shaped(cp, stream) && Commit(rec, cp).Some?
    requires Within(rec.rows, n) && cp.durable <= n
    ensures Within(Commit(rec, cp).value.rows, n)
  {
    forall x | x in Commit(rec, cp).value.rows
      ensures x.end <= n
    {
      var y := Origin(rec, cp, stream, x);
    }
  }

  /**
   A checkpoint is refused exactly when its own start is taken, or the offset at which a row that
   reaches across its earliest offset would have to begin.
   */
  lemma CommitRefusedIff(rec: Record, cp: Checkpoint, stream: seq<byte>)
    requires Agree(rec.rows, stream) && Shaped(cp, stream)
    ensures Commit(rec, cp).None? <==>
              || (cp.chunk != [] && HasStart(rec.rows, cp.start))
              || ((exists y :: y in rec.rows && y.start < cp.earliest < y.end)
                  && (HasStart(rec.rows, cp.earliest) || (cp.chunk != [] && cp.start == cp.earliest)))
  {
    InsertChunkHas(rec.rows, cp, stream);
    if InsertChunk(rec.rows, cp).Some? {
      KeptHas(rec, cp, stream);
      var kept := DeleteEnded(InsertChunk(rec.rows, cp).value, cp.earliest);
      TrimHas(kept, cp.earliest, stream);
      StraddlerHas(kept, cp.earliest);
      assert cp.chunk != [] ==> ChunkRow(cp) in kept;
      assert forall y | y in rec.rows && y.start == cp.earliest :: Piece(y, stream) && y in kept;
    }
  }

  // -------------------------------------------------------- a reload of any such rows, exactly

  lemma {:induction false} LoadFromCovers(rows: seq<Row>, expected: nat, stream: seq<byte>, off: nat)
    requires Agree(rows, stream) && LoadFrom(rows, expected).Some?
    requires expected <= off < expected + |LoadFrom(rows, expected).value|
    ensures InRows(rows, off)
    decreases |rows|
  {
    if rows != [] {
      var row, rest := rows[0], rows[1..];
      assert Piece(row, stream) && Agree(rest, stream);
      if row.end <= expected {
        LoadFromCovers(rest, expected, stream, off);
      } else if row.end <= off {
        LoadFromCovers(rest, row.end, stream, off);
      }
    }
  }

  lemma {:induction false} LoadFromReaches(rows: seq<Row>, expected: nat, stream: seq<byte>)
    requires Agree(rows, stream) && LoadFrom(rows, expected).Some?
    ensures Within(rows, expected + |LoadFrom(rows, expected).value|)
    decreases |rows|
  {
    if rows != [] {
      var row, rest := rows[0], rows[1..];
      assert Piece(row, stream) && Agree(rest, stream);
      assert forall x :: x in rows <==> x == row || x in rest;
      LoadFromReaches(rest, if row.end <= expected then expected else row.end, stream);
    }
  }

  /** Every byte from `lo` on is there, up to the last there is. */
  ghost predicate Gapless(rows: seq<Row>, lo: nat) {
    forall off: nat | lo <= off && Reaching(rows, off + 1) :: InRows(rows, off)
  }

  lemma {:induction false} LoadFromIff(rows: seq<Row>, expected: nat, stream: seq<byte>)
    requires Agree(rows, stream)
    ensures LoadFrom(rows, expected).Some? <==> Gapless(rows, expected)
    decreases |rows|
  {
    if rows != [] {
      var row, rest := rows[0], rows[1..];
      assert Piece(row, stream) && Agree(rest, stream);
      assert forall x :: x in rows <==> x == row || x in rest;
      if row.start > expected {
        InRowsHas(rows, expected);
        assert Reaching(rows, expected + 1);
        assert forall x | x in rows :: row.start <= x.start;
      } else {
        var there := if row.end <= expected then expected else row.end;
        LoadFromIff(rest, there, stream);
        GaplessRest(rows, expected, there, stream);
      }
    }
  }

  lemma GaplessRest(rows: seq<Row>, expected: nat, there: nat, stream: seq<byte>)
    requires Agree(rows, stream) && rows != [] && rows[0].start <= expected
    requires there == if rows[0].end <= expected then expected else rows[0].end
    ensures Gapless(rows, expected) <==> Gapless(rows[1..], there)
  {
    var row, rest := rows[0], rows[1..];
    assert Piece(row, stream);
    assert forall x :: x in rows <==> x == row || x in rest;
    if Gapless(rows, expected) {
      forall off: nat | there <= off && Reaching(rest, off + 1)
        ensures InRows(rest, off)
      {
        assert Reaching(rows, off + 1);
        assert InRows(rows, off) && !(row.start <= off < row.end);
      }
    }
    if Gapless(rest, there) {
      forall off: nat | expected <= off && Reaching(rows, off + 1)
        ensures InRows(rows, off)
      {
        if there <= off {
          assert Reaching(rest, off + 1);
        }
      }
    }
  }

  /** The reload fails exactly when there is a gap to report. */
  lemma LoadIffGapless(rec: Record, stream: seq<byte>)
    requires Agree(rec.rows, stream)
    ensures Load(rec).Some? <==> Gapless(rec.rows, rec.earliest)
  {
    var kept := DeleteEnded(rec.rows, rec.earliest);
    DeleteEndedHas(rec.rows, rec.earliest);
    LoadFromIff(kept, rec.earliest, stream);
    forall off: nat | rec.earliest <= off
      ensures InRows(kept, off) <==> InRows(rec.rows, off)
      ensures Reaching(kept, off + 1) <==> Reaching(rec.rows, off + 1)
    {
      InRowsHas(kept, off);
      InRowsHas(rec.rows, off);
    }
  }

  /** What it gives then is the stream from `earliest` to beyond every row, and every byte of it was there. */
  lemma LoadShows(rec: Record, stream: seq<byte>)
    requires Agree(rec.rows, stream) && Load(rec).Some? && rec.earliest <= |stream|
    ensures At(stream, rec.earliest, Load(rec).value)
    ensures Within(rec.rows, rec.earliest + |Load(rec).value|)
    ensures forall off: nat | rec.earliest <= off < rec.earliest + |Load(rec).value| :: InRows(rec.rows, off)
  {
    var kept, end := DeleteEnded(rec.rows, rec.earliest), rec.earliest + |Load(rec).value|;
    DeleteEndedHas(rec.rows, rec.earliest);
    LoadHasNoHole(kept, rec.earliest, stream);
    LoadFromReaches(kept, rec.earliest, stream);
    forall row | row in rec.rows
      ensures row.end <= end
    {
      assert row in kept || row.end <= rec.earliest;
    }
    forall off: nat | rec.earliest <= off < end
      ensures InRows(rec.rows, off)
    {
      LoadFromCovers(kept, rec.earliest, stream, off);
      InRowsHas(kept, off);
      InRowsHas(rec.rows, off);
    }
  }

  // -------------------------------------------------------------------------- the tables

  type Id = nat

  datatype Entry = Entry(id: Id, cp: Checkpoint)

  /** The first `n` checkpoints of a transaction: all of them, or `None`. */
  function CommitFirst(records: map<Id, Record>, batch: seq<Entry>, n: nat): Option<map<Id, Record>>
    requires n <= |batch|
  {
    if n == 0 then Some(records)
    else match CommitFirst(records, batch, n - 1)
      case None => None
      case Some(before) => CommitEntry(before, batch[n - 1])
  }

  function CommitAll(records: map<Id, Record>, batch: seq<Entry>): Option<map<Id, Record>> {
    CommitFirst(records, batch, |batch|)
  }

  /** A row for an unknown terminal breaks the foreign key; an update of one does nothing. */
  function CommitEntry(records: map<Id, Record>, entry: Entry): Option<map<Id, Record>> {
    if entry.id in records then
      match Commit(records[entry.id], entry.cp)
      case None => None
      case Some(rec) => Some(records[entry.id := rec])
    else if entry.cp.chunk == [] then Some(records)
    else None
  }

  predicate AllIntact(records: map<Id, Record>, streams: map<Id, seq<byte>>) {
    && records.Keys == streams.Keys
    && forall id | id in records :: Intact(records[id], streams[id])
  }

  predicate Names(batch: seq<Entry>, id: Id) { exists i | 0 <= i < |batch| :: batch[i].id == id }

  predicate Distinct(batch: seq<Entry>) {
    forall i, j | 0 <= i < j < |batch| :: batch[i].id != batch[j].id
  }

  /** Every terminal at most once, each with a checkpoint that continues its rows. */
  predicate Sound(records: map<Id, Record>, batch: seq<Entry>, streams: map<Id, seq<byte>>) {
    && Distinct(batch)
    && (forall i | 0 <= i < |batch| ::
          && batch[i].id in records && batch[i].id in streams
          && Continues(records[batch[i].id], batch[i].cp, streams[batch[i].id]))
  }

  /** The terminal is where its checkpoint puts it. */
  predicate Stands(records: map<Id, Record>, entry: Entry) {
    && entry.id in records
    && records[entry.id].durable == entry.cp.durable
    && records[entry.id].earliest == entry.cp.earliest
  }

  lemma EntryKeepsIntact(records: map<Id, Record>, entry: Entry, streams: map<Id, seq<byte>>)
    requires AllIntact(records, streams) && entry.id in records
    requires Continues(records[entry.id], entry.cp, streams[entry.id])
    ensures var after := CommitEntry(records, entry);
            && after.Some? && AllIntact(after.value, streams)
  {
    CommitKeepsIntact(records[entry.id], entry.cp, streams[entry.id]);
  }

  lemma SoundAt(records: map<Id, Record>, batch: seq<Entry>, streams: map<Id, seq<byte>>, n: nat)
    requires Sound(records, batch, streams) && n < |batch|
    ensures batch[n].id in records && batch[n].id in streams
    ensures Continues(records[batch[n].id], batch[n].cp, streams[batch[n].id])
    ensures forall i | 0 <= i < n :: batch[i].id != batch[n].id
  {
  }

  predicate FirstIntact(records: map<Id, Record>, batch: seq<Entry>, streams: map<Id, seq<byte>>, n: nat)
    requires n <= |batch|
  {
    var after := CommitFirst(records, batch, n); after.Some? && AllIntact(after.value, streams)
  }

  lemma NextKeepsIntact(records: map<Id, Record>, batch: seq<Entry>, streams: map<Id, seq<byte>>, n: nat)
    requires Sound(records, batch, streams) && n < |batch| && FirstIntact(records, batch, streams, n)
    ensures FirstIntact(records, batch, streams, n + 1)
  {
    SoundAt(records, batch, streams, n);
    FirstLeaveAlone(records, batch, n, batch[n].id);
    EntryKeepsIntact(CommitFirst(records, batch, n).value, batch[n], streams);
  }

  lemma FirstKeepIntact(records: map<Id, Record>, batch: seq<Entry>, streams: map<Id, seq<byte>>)
    requires AllIntact(records, streams) && Sound(records, batch, streams)
    ensures FirstIntact(records, batch, streams, |batch|)
  {
    for n := 0 to |batch|
      invariant FirstIntact(records, batch, streams, n)
    {
      NextKeepsIntact(records, batch, streams, n);
    }
  }

  /** A terminal that the first `n` checkpoints do not name is left as it was. */
  lemma {:induction false} FirstLeaveAlone(records: map<Id, Record>, batch: seq<Entry>, n: nat, id: Id)
    requires n <= |batch| && CommitFirst(records, batch, n).Some? && id in records
    requires forall i | 0 <= i < n :: batch[i].id != id
    ensures var after := CommitFirst(records, batch, n).value;
            id in after && after[id] == records[id]
  {
    if n > 0 {
      FirstLeaveAlone(records, batch, n - 1, id);
    }
  }

  lemma {:induction false} FirstReach(records: map<Id, Record>, batch: seq<Entry>, n: nat, i: nat)
    requires Distinct(batch) && i < n <= |batch| && batch[i].id in records
    requires CommitFirst(records, batch, n).Some?
    ensures Stands(CommitFirst(records, batch, n).value, batch[i])
  {
    if i < n - 1 {
      FirstReach(records, batch, n - 1, i);
      assert batch[i].id != batch[n - 1].id;
    } else {
      FirstLeaveAlone(records, batch, i, batch[i].id);
    }
  }

  /**
   A sound batch commits whole.  Every terminal is intact afterwards, those it names stand
   where their checkpoints say, and no other terminal is touched.
   */
  lemma BatchKeepsIntact(records: map<Id, Record>, batch: seq<Entry>, streams: map<Id, seq<byte>>)
    requires AllIntact(records, streams) && Sound(records, batch, streams)
    ensures var after := CommitAll(records, batch);
            && after.Some? && AllIntact(after.value, streams)
            && (forall i | 0 <= i < |batch| :: Stands(after.value, batch[i]))
            && (forall id | id in records && !Names(batch, id) :: after.value[id] == records[id])
  {
    FirstKeepIntact(records, batch, streams);
    forall i | 0 <= i < |batch|
      ensures Stands(CommitAll(records, batch).value, batch[i])
    {
      FirstReach(records, batch, |batch|, i);
    }
    forall id | id in records && !Names(batch, id)
      ensures CommitAll(records, batch).value[id] == records[id]
    {
      FirstLeaveAlone(records, batch, |batch|, id);
    }
  }

  /** One refused checkpoint fails the whole transaction, whatever else is in it. */
  lemma OneRefusedBlocksAll(records: map<Id, Record>, batch: seq<Entry>, i: nat)
    requires Distinct(batch) && i < |batch| && batch[i].id in records
    requires Commit(records[batch[i].id], batch[i].cp).None?
    ensures CommitAll(records, batch) == None
  {
    if CommitFirst(records, batch, i).Some? {
      FirstLeaveAlone(records, batch, i, batch[i].id);
      FailurePersists(records, batch, i + 1);
    } else {
      FailurePersists(records, batch, i);
    }
  }

  /** A chunk for a terminal the database does not know fails it too; without one there is nothing to fail. */
  lemma UnknownBlocksIff(records: map<Id, Record>, entry: Entry)
    requires entry.id !in records
    ensures CommitAll(records, [entry]) == if entry.cp.chunk == [] then Some(records) else None
  {
    assert CommitFirst(records, [entry], 0) == Some(records);
  }

  class Database {
    var records: map<Id, Record>

    constructor ()
      ensures records == map[]
    {
      records := map[];
    }

    /** One transaction: the whole batch is applied, or nothing is. */
    method CommitCheckpoints(batch: seq<Entry>) returns (ok: bool)
      modifies this
      ensures ok == CommitAll(old(records), batch).Some?
      ensures records == if ok then CommitAll(old(records), batch).value else old(records)
    {
      var before := records;
      ok := true;
      for i := 0 to |batch|
        invariant before == old(records)
        invariant CommitFirst(before, batch, i) == Some(records)
      {
        ok := Apply(batch[i]);
        if !ok {
          FailurePersists(before, batch, i + 1);
          records := before;
          return;
        }
      }
    }

    /** The statements of one checkpoint, in order. */
    method Apply(entry: Entry) returns (ok: bool)
      modifies this
      ensures ok == CommitEntry(old(records), entry).Some?
      ensures records == if ok then CommitEntry(old(records), entry).value else old(records)
    {
      var cp := entry.cp;
      if entry.id !in records {
        return cp.chunk == [];
      }
      var rec := records[entry.id];
      var rows := rec.rows;
      if cp.chunk != [] {
        var inserted := Insert(rows, Row(cp.start, cp.durable, cp.chunk));
        if inserted.None? {
          return false;
        }
        rows := inserted.value;
      }
      rows := DeleteEnded(rows, cp.earliest);
      var straddling := Straddler(rows, cp.earliest);
      if straddling.Some? {
        var row := straddling.value;
        var skip := Minus(cp.earliest, row.start);
        if skip < |row.bytes| {
          rows := DeleteStart(rows, row.start);
          var rewritten := Insert(rows, Row(cp.earliest, row.end, row.bytes[skip..]));
          if rewritten.None? {
            return false;
          }
          rows := rewritten.value;
        }
      }
      if cp.earliest > cp.durable {
        return false;
      }
      var closed := if cp.close.Some? then cp.close else rec.closed;
      records := records[entry.id := Record(rows, cp.durable, cp.earliest, closed)];
      return true;
    }

    /** Contiguous retained payload, or `None` for a gap in what is stored. */
    method LoadTerminalOutput(id: Id, earliest: nat) returns (out: Option<seq<byte>>)
      requires id in records
      ensures out == LoadFrom(DeleteEnded(records[id].rows, earliest), earliest)
    {
      var rows := DeleteEnded(records[id].rows, earliest);
      var bytes: seq<byte> := [];
      var expected: nat := earliest;
      assert rows[0..] == rows;
      assert forall rest: seq<byte> :: bytes + rest == rest;
      for i := 0 to |rows|
        invariant LoadFrom(rows, earliest)
               == match LoadFrom(rows[i..], expected) case None => None case Some(rest) => Some(bytes + rest)
      {
        var row := rows[i];
        assert rows[i..][1..] == rows[i + 1..];
        var skip := Minus(expected, row.start);
        if row.start > expected {
          return None;
        }
        if skip < |row.bytes| {
          ghost var rest := LoadFrom(rows[i + 1..], row.start + |row.bytes|);
          if rest.Some? {
            assert bytes + (row.bytes[skip..] + rest.value) == bytes + row.bytes[skip..] + rest.value;
          }
          bytes := bytes + row.bytes[skip..];
          expected := row.start + |row.bytes|;
        }
      }
      assert bytes + [] == bytes;
      return Some(bytes);
    }
  }

  lemma {:induction false} FailurePersists(records: map<Id, Record>, batch: seq<Entry>, i: nat)
    requires i <= |batch| && CommitFirst(records, batch, i) == None
    ensures CommitAll(records, batch) == None
    decreases |batch| - i
  {
    if i < |batch| {
      FailurePersists(records, batch, i + 1);
    }
  }
}
