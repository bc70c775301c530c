/**
 Keyset pagination: the list queries and cursors of `server/src/db/repo.rs`, cut into pages by
 `server/src/http/devices.rs` and `server/src/http/terminals.rs`.

 Both sort columns are text and compare as text does.  The base64 around a cursor is a
 bijection and is left off.
 */
module Paging {
  import opened Bytes
  import opened Results

  // --------------------------------------------------------------------- the sort order

  predicate TextLess(a: string, b: string) {
    if b == "" then false
    else if a == "" then true
    else a[0] < b[0] || (a[0] == b[0] && TextLess(a[1..], b[1..]))
  }

  lemma {:induction false} TextIsIrreflexive(a: string)
    ensures !TextLess(a, a)
    decreases |a|
  {
    if a != "" {
      TextIsIrreflexive(a[1..]);
    }
  }

  lemma {:induction false} TextIsTotal(a: string, b: string)
    ensures a == b || TextLess(a, b) || TextLess(b, a)
    ensures !(TextLess(a, b) && TextLess(b, a))
    decreases |a| + |b|
  {
    if a != "" && b != "" {
      TextIsTotal(a[1..], b[1..]);
      assert a == [a[0]] + a[1..] && b == [b[0]] + b[1..];
    }
  }

  lemma {:induction false} TextIsTransitive(a: string, b: string, c: string)
    requires TextLess(a, b) && TextLess(b, c)
    ensures TextLess(a, c)
    decreases |a|
  {
    if a != "" && a[0] == b[0] == c[0] {
      TextIsTransitive(a[1..], b[1..], c[1..]);
    }
  }

  datatype Cursor = Cursor(timestamp: string, id: string)

  predicate Before(a: Cursor, b: Cursor) {
    TextLess(a.timestamp, b.timestamp) || (a.timestamp == b.timestamp && TextLess(a.id, b.id))
  }

  lemma BeforeIsTotal(a: Cursor, b: Cursor)
    ensures a == b || Before(a, b) || Before(b, a)
    ensures !(Before(a, b) && Before(b, a)) && !Before(a, a)
  {
    TextIsTotal(a.timestamp, b.timestamp);
    TextIsTotal(a.id, b.id);
    TextIsIrreflexive(a.timestamp);
    TextIsIrreflexive(a.id);
  }

  lemma BeforeIsTransitive(a: Cursor, b: Cursor, c: Cursor)
    requires Before(a, b) && Before(b, c)
    ensures Before(a, c)
  {
    if TextLess(a.timestamp, b.timestamp) && TextLess(b.timestamp, c.timestamp) {
      TextIsTransitive(a.timestamp, b.timestamp, c.timestamp);
    }
    if TextLess(a.id, b.id) && TextLess(b.id, c.id) {
      TextIsTransitive(a.id, b.id, c.id);
    }
  }

  /** Text compares at its first difference, and a beginning comes before the whole. */
  lemma {:induction false} TextLessMeaning(same: string, a: char, b: char, s: string, t: string)
    ensures TextLess(same + [a] + s, same + [b] + t) <==> a < b || (a == b && TextLess(s, t))
    ensures TextLess(same, same + [a] + s)
    decreases |same|
  {
    var left, right := same + [a] + s, same + [b] + t;
    if same == "" {
      assert left[1..] == s && right[1..] == t;
    } else {
      TextLessMeaning(same[1..], a, b, s, t);
      assert left[1..] == same[1..] + [a] + s && right[1..] == same[1..] + [b] + t;
    }
  }

  // -------------------------------------------------------------------------- cursors

  const BAR: char := '|'

  function Encode(c: Cursor): string { c.timestamp + [BAR] + c.id }

  /** `split_once`: at the first bar. */
  function SplitOnce(text: string): (r: Option<Cursor>)
    ensures r.None? <==> BAR !in text
    ensures r.Some? ==> Encode(r.value) == text && BAR !in r.value.timestamp
  {
    if text == "" then None
    else if text[0] == BAR then Some(Cursor("", text[1..]))
    else match SplitOnce(text[1..])
      case None => None
      case Some(c) => Some(Cursor([text[0]] + c.timestamp, c.id))
  }

  lemma {:induction false} SplitAtFirstBar(timestamp: string, id: string)
    requires BAR !in timestamp
    ensures SplitOnce(Encode(Cursor(timestamp, id))) == Some(Cursor(timestamp, id))
    decreases |timestamp|
  {
    var text := Encode(Cursor(timestamp, id));
    if timestamp != "" {
      assert text[1..] == Encode(Cursor(timestamp[1..], id));
      SplitAtFirstBar(timestamp[1..], id);
      assert [text[0]] + timestamp[1..] == timestamp;
    } else {
      assert text[1..] == id;
    }
  }

  /** A cursor is read back as it was written exactly when its timestamp holds no bar. */
  lemma CursorRoundTripIff(c: Cursor)
    ensures SplitOnce(Encode(c)) == Some(c) <==> BAR !in c.timestamp
  {
    if BAR !in c.timestamp {
      SplitAtFirstBar(c.timestamp, c.id);
    }
  }

  // ------------------------------------------------------------------------- the queries

  datatype Row = Row(at: Cursor, identity: string, device: string, open: bool, revoked: bool)

  datatype Query =
    | Devices(identity: string)
    | Terminals(identity: string, device: Option<string>, open: Option<bool>)
  {
    predicate Matches(r: Row) {
      match this
      case Devices(who) => r.identity == who && !r.revoked
      case Terminals(who, d, o) =>
        r.identity == who && (d.Some? ==> r.device == d.value) && (o.Some? ==> r.open == o.value)
    }
  }

  /** WHERE, with the keyset condition when there is a cursor. */
  function Where(table: seq<Row>, q: Query, from: Option<Cursor>): seq<Row> {
    if table == [] then []
    else
      var rest := Where(table[1..], q, from);
      if q.Matches(table[0]) && (from.Some? ==> Before(from.value, table[0].at)) then [table[0]] + rest else rest
  }

  function Placed(r: Row, rows: seq<Row>): seq<Row> {
    if rows == [] || Before(r.at, rows[0].at) then [r] + rows else [rows[0]] + Placed(r, rows[1..])
  }

  /** ORDER BY created_at, id. */
  function OrderBy(rows: seq<Row>): seq<Row> {
    if rows == [] then [] else Placed(rows[0], OrderBy(rows[1..]))
  }

  /** The whole list a query stands for, from a cursor on. */
  function Listing(table: seq<Row>, q: Query, from: Option<Cursor>): seq<Row> {
    OrderBy(Where(table, q, from))
  }

  /** The primary key: no two rows share an id. */
  predicate Distinct(table: seq<Row>) {
    table == [] || ((forall x | x in table[1..] :: x.at.id != table[0].at.id) && Distinct(table[1..]))
  }

  predicate Ascending(rows: seq<Row>) {
    forall i, j | 0 <= i < j < |rows| :: Before(rows[i].at, rows[j].at)
  }

  lemma {:induction false} PlacedHas(r: Row, rows: seq<Row>)
    ensures multiset(Placed(r, rows)) == multiset{r} + multiset(rows)
    ensures forall x :: x in Placed(r, rows) <==> x == r || x in rows
    decreases |rows|
  {
    if rows == [] || Before(r.at, rows[0].at) {
    } else {
      PlacedHas(r, rows[1..]);
      assert rows == [rows[0]] + rows[1..];
    }
  }

  lemma {:induction false} PlacedAscends(r: Row, rows: seq<Row>)
    requires Ascending(rows) && forall x | x in rows :: x.at != r.at
    ensures Ascending(Placed(r, rows))
    decreases |rows|
  {
    if rows == [] {
    } else if Before(r.at, rows[0].at) {
      forall j | 0 < j < |rows|
        ensures Before(r.at, rows[j].at)
      {
        BeforeIsTransitive(r.at, rows[0].at, rows[j].at);
      }
    } else {
      var placed := Placed(r, rows[1..]);
      BeforeIsTotal(r.at, rows[0].at);
      PlacedAscends(r, rows[1..]);
      PlacedHas(r, rows[1..]);
      forall j | 0 <= j < |placed|
        ensures Before(rows[0].at, placed[j].at)
      {
        assert placed[j] in placed;
      }
    }
  }

  lemma {:induction false} OrderByHas(rows: seq<Row>)
    ensures multiset(OrderBy(rows)) == multiset(rows)
    ensures forall x :: x in OrderBy(rows) <==> x in rows
    decreases |rows|
  {
    if rows != [] {
      OrderByHas(rows[1..]);
      PlacedHas(rows[0], OrderBy(rows[1..]));
      assert rows == [rows[0]] + rows[1..];
    }
  }

  lemma {:induction false} OrderByAscends(rows: seq<Row>)
    requires Distinct(rows)
    ensures Ascending(OrderBy(rows))
    decreases |rows|
  {
    if rows != [] {
      OrderByAscends(rows[1..]);
      OrderByHas(rows[1..]);
      PlacedAscends(rows[0], OrderBy(rows[1..]));
    }
  }

  // ------------------------------------------------- a cursor's list is the rest of the list

  /** The rows past a cursor, of a list in order. */
  function After(rows: seq<Row>, from: Option<Cursor>): seq<Row> {
    if rows == [] then []
    else if from.Some? && !Before(from.value, rows[0].at) then After(rows[1..], from)
    else [rows[0]] + After(rows[1..], from)
  }

  lemma {:induction false} AfterHas(rows: seq<Row>, from: Option<Cursor>)
    ensures forall x | x in After(rows, from) :: x in rows
    decreases |rows|
  {
    if rows != [] {
      AfterHas(rows[1..], from);
    }
  }

  lemma {:induction false} AfterPlaced(r: Row, rows: seq<Row>, from: Option<Cursor>)
    requires Ascending(rows)
    ensures After(Placed(r, rows), from) ==
            if from.Some? && !Before(from.value, r.at) then After(rows, from) else Placed(r, After(rows, from))
    decreases |rows|
  {
    if rows == [] {
    } else if Before(r.at, rows[0].at) {
      var kept := After(rows, from);
      AfterHas(rows, from);
      if kept != [] {
        assert kept[0] in rows;
        if kept[0] != rows[0] {
          BeforeIsTransitive(r.at, rows[0].at, kept[0].at);
        }
      }
    } else {
      AfterPlaced(r, rows[1..], from);
      BeforeIsTotal(r.at, rows[0].at);
      if from.Some? && Before(from.value, rows[0].at) && r.at != rows[0].at {
        BeforeIsTransitive(from.value, rows[0].at, r.at);
      }
    }
  }

  lemma {:induction false} WhereHas(table: seq<Row>, q: Query, from: Option<Cursor>)
    requires Distinct(table)
    ensures Distinct(Where(table, q, from))
    ensures forall x :: x in Where(table, q, from)
              <==> x in table && q.Matches(x) && (from.Some? ==> Before(from.value, x.at))
    decreases |table|
  {
    if table != [] {
      WhereHas(table[1..], q, from);
      assert table == [table[0]] + table[1..];
      var rest := Where(table[1..], q, from);
      assert ([table[0]] + rest)[1..] == rest;
    }
  }

  lemma ListingAscends(table: seq<Row>, q: Query)
    requires Distinct(table)
    ensures Ascending(Listing(table, q, None))
    ensures forall x :: x in Listing(table, q, None) <==> x in table && q.Matches(x)
  {
    WhereHas(table, q, None);
    OrderByAscends(Where(table, q, None));
    OrderByHas(Where(table, q, None));
  }

  lemma {:induction false} AfterNone(rows: seq<Row>)
    ensures After(rows, None) == rows
    decreases |rows|
  {
    if rows != [] {
      AfterNone(rows[1..]);
    }
  }

  /** What the database answers past a cursor is what the whole list holds past it. */
  lemma {:induction false} ListingPastCursor(table: seq<Row>, q: Query, from: Option<Cursor>)
    requires Distinct(table)
    ensures Listing(table, q, from) == After(Listing(table, q, None), from)
    decreases |table|
  {
    if table != [] {
      ListingPastCursor(table[1..], q, from);
      ListingAscends(table[1..], q);
      AfterPlaced(table[0], Listing(table[1..], q, None), from);
      WhereStep(table, q, from);
      WhereStep(table, q, None);
    }
  }

  lemma WhereStep(table: seq<Row>, q: Query, from: Option<Cursor>)
    requires table != []
    ensures Listing(table, q, from) ==
            if q.Matches(table[0]) && (from.Some? ==> Before(from.value, table[0].at))
            then Placed(table[0], Listing(table[1..], q, from)) else Listing(table[1..], q, from)
  {
    var rest := Where(table[1..], q, from);
    assert ([table[0]] + rest)[1..] == rest;
  }

  lemma {:induction false} AfterItsOwnRow(rows: seq<Row>, k: nat)
    requires Ascending(rows) && k < |rows|
    ensures After(rows, Some(rows[k].at)) == rows[k + 1..]
    decreases k
  {
    var from := Some(rows[k].at);
    BeforeIsTotal(rows[k].at, rows[0].at);
    if k == 0 {
      AllAfter(rows[1..], from);
    } else {
      AfterItsOwnRow(rows[1..], k - 1);
      assert rows[1..][k..] == rows[k + 1..];
    }
  }

  lemma {:induction false} AllAfter(rows: seq<Row>, from: Option<Cursor>)
    requires from.Some? ==> forall x | x in rows :: Before(from.value, x.at)
    ensures After(rows, from) == rows
    decreases |rows|
  {
    if rows != [] {
      AllAfter(rows[1..], from);
    }
  }

  lemma {:induction false} AfterIsSuffix(rows: seq<Row>, from: Option<Cursor>)
    requires Ascending(rows)
    ensures |After(rows, from)| <= |rows|
    ensures After(rows, from) == rows[|rows| - |After(rows, from)|..]
    decreases |rows|
  {
    if rows == [] {
    } else if from.Some? && !Before(from.value, rows[0].at) {
      AfterIsSuffix(rows[1..], from);
    } else {
      forall j | 0 < j < |rows|
        ensures from.Some? ==> Before(from.value, rows[j].at)
      {
        if from.Some? {
          BeforeIsTransitive(from.value, rows[0].at, rows[j].at);
        }
      }
      AllAfter(rows, from);
    }
  }

  // ---------------------------------------------------------------------------- pages

  datatype Page = Page(rows: seq<Row>, next: Option<string>)

  const MALFORMED := "malformed cursor"

  function Decoded(raw: Option<string>): (r: Result<Option<Cursor>, string>)
    ensures r.Err? <==> raw.Some? && BAR !in raw.value
  {
    match raw
    case None => Ok(None)
    case Some(text) =>
      (match SplitOnce(text) case None => Err(MALFORMED) case Some(c) => Ok(Some(c)))
  }

  /** The first `limit` of what is left, and a cursor at the last of them when more is left. */
  function Cut(left: seq<Row>, limit: nat): Page {
    if |left| <= limit then Page(left, None)
    else Page(left[..limit], if limit == 0 then None else Some(Encode(left[limit - 1].at)))
  }

  /** `list`: one row more than asked for tells whether another page exists. */
  method List(table: seq<Row>, q: Query, raw: Option<string>, limit: nat) returns (r: Result<Page, string>)
    ensures Decoded(raw).Err? ==> r == Err(MALFORMED)
    ensures Decoded(raw).Ok? ==> r == Ok(Cut(Listing(table, q, Decoded(raw).value), limit))
  {
    var from := Decoded(raw);
    if from.Err? {
      return Err(from.error);
    }
    ghost var left := Listing(table, q, from.value);
    var rows := Listing(table, q, from.value);
    rows := rows[..Min(limit + 1, |rows|)];
    assert |left| <= limit ==> rows == left;
    var next := None;
    if |rows| > limit {
      assert rows[..limit] == left[..limit];
      rows := rows[..limit];
      if rows != [] {
        next := Some(Encode(rows[|rows| - 1].at));
      }
    }
    r := Ok(Page(rows, next));
  }

  /** `to_rfc3339` never writes a bar. */
  predicate NoBars(table: seq<Row>) { forall x | x in table :: BAR !in x.at.timestamp }

  lemma SuffixAt(whole: seq<Row>, k: nat, limit: nat)
    requires 1 <= limit && k + limit <= |whole|
    ensures whole[k..][limit - 1] == whole[k + limit - 1]
    ensures whole[k..][limit..] == whole[k + limit - 1 + 1..]
  {
  }

  lemma RestAfterCut(whole: seq<Row>, from: Option<Cursor>, limit: nat)
    requires Ascending(whole) && 1 <= limit < |After(whole, from)|
    ensures After(whole, from)[limit - 1] in whole
    ensures After(whole, Some(After(whole, from)[limit - 1].at)) == After(whole, from)[limit..]
  {
    AfterIsSuffix(whole, from);
    var k := |whole| - |After(whole, from)|;
    SuffixAt(whole, k, limit);
    AfterItsOwnRow(whole, k + limit - 1);
  }

  lemma CursorComesBack(at: Cursor)
    requires BAR !in at.timestamp
    ensures Decoded(Some(Encode(at))) == Ok(Some(at))
  {
    CursorRoundTripIff(at);
  }

  lemma NextPageIsTheRest(table: seq<Row>, q: Query, from: Option<Cursor>, limit: nat)
    requires Distinct(table) && NoBars(table) && 1 <= limit < |Listing(table, q, from)|
    ensures var left := Listing(table, q, from);
            && Decoded(Cut(left, limit).next) == Ok(Some(left[limit - 1].at))
            && Listing(table, q, Some(left[limit - 1].at)) == left[limit..]
  {
    var whole, left := Listing(table, q, None), Listing(table, q, from);
    ListingAscends(table, q);
    ListingPastCursor(table, q, from);
    RestAfterCut(whole, from, limit);
    ListingPastCursor(table, q, Some(left[limit - 1].at));
    assert left[limit - 1] in table;
    CursorComesBack(left[limit - 1].at);
  }

  /** Every page from here on, each fetched with the cursor the last one gave. */
  ghost function Followed(table: seq<Row>, q: Query, raw: Option<string>, limit: nat): (rows: seq<Row>)
    requires Distinct(table) && NoBars(table) && 1 <= limit && Decoded(raw).Ok?
    ensures rows == Listing(table, q, Decoded(raw).value)
    decreases |Listing(table, q, Decoded(raw).value)|
  {
    var left := Listing(table, q, Decoded(raw).value);
    var page := Cut(left, limit);
    if page.next.None? then page.rows
    else
      NextPageIsTheRest(table, q, Decoded(raw).value, limit);
      assert left == left[..limit] + left[limit..];
      page.rows + Followed(table, q, page.next, limit)
  }

  /**
   Following the cursors from the start ends, and gives every matching row once, in order.
   */
  lemma PagesAreTheList(table: seq<Row>, q: Query, limit: nat)
    requires Distinct(table) && NoBars(table) && 1 <= limit
    ensures var rows := Followed(table, q, None, limit);
            && Ascending(rows)
            && multiset(rows) == multiset(Where(table, q, None))
            && (forall x :: x in rows <==> x in table && q.Matches(x))
  {
    ListingAscends(table, q);
    OrderByHas(Where(table, q, None));
  }

  /** A device list shows exactly its owner's devices that have not been revoked, the oldest first. */
  lemma DevicesListed(table: seq<Row>, who: string, limit: nat)
    requires Distinct(table) && NoBars(table) && 1 <= limit
    ensures var rows := Followed(table, Devices(who), None, limit);
            && (forall x :: x in rows <==> x in table && x.identity == who && !x.revoked)
            && OldestFirst(rows)
  {
    PagesAreTheList(table, Devices(who), limit);
    AscendingIsOldestFirst(Followed(table, Devices(who), None, limit));
  }

  /** A terminal list exactly its owner's, of the device and in the state asked for. */
  lemma TerminalsListed(table: seq<Row>, who: string, device: Option<string>, open: Option<bool>, limit: nat)
    requires Distinct(table) && NoBars(table) && 1 <= limit
    ensures var rows := Followed(table, Terminals(who, device, open), None, limit);
            && (forall x :: x in rows <==>
                  && x in table && x.identity == who
                  && (device == None || device == Some(x.device)) && (open == None || open == Some(x.open)))
            && OldestFirst(rows)
  {
    PagesAreTheList(table, Terminals(who, device, open), limit);
    AscendingIsOldestFirst(Followed(table, Terminals(who, device, open), None, limit));
  }

  predicate OldestFirst(rows: seq<Row>) {
    forall i, j | 0 <= i < j < |rows| ::
      && !TextLess(rows[j].at.timestamp, rows[i].at.timestamp)
      && (rows[i].at.timestamp == rows[j].at.timestamp ==> TextLess(rows[i].at.id, rows[j].at.id))
  }

  lemma AscendingIsOldestFirst(rows: seq<Row>)
    requires Ascending(rows)
    ensures OldestFirst(rows)
  {
    forall i, j | 0 <= i < j < |rows|
      ensures !TextLess(rows[j].at.timestamp, rows[i].at.timestamp)
      ensures rows[i].at.timestamp == rows[j].at.timestamp ==> TextLess(rows[i].at.id, rows[j].at.id)
    {
      assert Before(rows[i].at, rows[j].at);
      TextIsTotal(rows[i].at.timestamp, rows[j].at.timestamp);
      TextIsIrreflexive(rows[i].at.timestamp);
    }
  }

  /** Every page but the last is full, and only the last gives no cursor. */
  lemma PagesAreFull(left: seq<Row>, limit: nat)
    requires 1 <= limit
    ensures |Cut(left, limit).rows| == Min(limit, |left|) && Cut(left, limit).rows <= left
    ensures Cut(left, limit).next.Some? <==> limit < |left|
  {
  }

  /** `resolve_limit` */
  function ResolveLimit(requested: Option<int>, fallback: int, most: int): (r: Result<int, string>)
    ensures r.Err? <==> requested.Some? && !(1 <= requested.value <= most)
    ensures r.Ok? && 1 <= fallback && 1 <= most ==> 1 <= r.value <= most
    ensures r.Ok? && requested.Some? ==> r.value == requested.value
    ensures requested.None? && fallback <= most ==> r == Ok(fallback)
  {
    match requested
    case None => Ok(Min(fallback, most))
    case Some(limit) => if 1 <= limit <= most then Ok(limit) else Err("limit must be within bounds")
  }
}
