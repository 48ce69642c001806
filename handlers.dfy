/**
  The request handlers of the quotes service over an abstract quotes table.

  The table is a sequence of records whose order is the order a `SELECT`
  returns them in. Identifiers and clock readings are supplied by the caller,
  and the outcome of the one persistence call each handler makes is the
  parameter `storeError`.
*/
module Handlers {
  import opened Utils

  /** A record identifier (a random 128-bit value in the service). */
  type Uuid = nat

  /** A clock reading. */
  type Timestamp = int

  datatype Quote = Quote(
    id: Uuid,
    username: string,
    quote: string,
    insertedAt: Timestamp,
    updatedAt: Timestamp)

  /** The response statuses the handlers produce. */
  datatype StatusCode = Ok | Created | NotFound | InternalServerError {
    function Code(): nat {
      match this
      case Ok => 200
      case Created => 201
      case NotFound => 404
      case InternalServerError => 500
    }
  }

  datatype Option<T> = None | Some(value: T)

  /** A handler's answer: a body on success, a bare status on failure. */
  datatype Result<T> = Success(value: T) | Failure(error: StatusCode)

  /** Upper bound of the page size. */
  const MAX_PER_PAGE: int := 100

  function Min(a: int, b: int): int { if a <= b then a else b }

  // ---------------------------------------------------------------------------
  // Health check and record construction
  // ---------------------------------------------------------------------------

  /** Liveness probe: always succeeds, touches nothing. */
  function HealthCheck(): (s: StatusCode)
    ensures s == Ok && s.Code() == 200
  {
    Ok
  }

  /** A new record: the caller's text, the given identity, both timestamps at `now`. */
  function NewQuote(id: Uuid, username: string, quote: string, now: Timestamp): (q: Quote)
    ensures q.id == id
    ensures q.username == username && q.quote == quote
    ensures q.insertedAt == now && q.updatedAt == now
  {
    Quote(id, username, quote, now, now)
  }

  // ---------------------------------------------------------------------------
  // Pagination arithmetic
  // ---------------------------------------------------------------------------

  /** Restricts `x` to the closed interval [lo, hi]. */
  function Clamp(x: int, lo: int, hi: int): (r: int)
    requires lo <= hi
    ensures lo <= r <= hi
    ensures lo <= x <= hi ==> r == x
    ensures x < lo ==> r == lo
    ensures hi < x ==> r == hi
  {
    if x < lo then lo else if x > hi then hi else x
  }

  /** The zero-based page index: page numbers 0 and 1 both mean the first page. */
  function PageIndex(page: Usize): (i: nat)
    ensures page <= 1 ==> i == 0
    ensures 1 <= page ==> i == page as int - 1
    ensures i < USIZE_MAX
  {
    Clamp(page as int, 1, USIZE_MAX) - 1
  }

  /** The effective page size, always between 1 and 100. */
  function PageSize(perPage: Usize): (n: nat)
    ensures 1 <= n <= MAX_PER_PAGE
    ensures 1 <= perPage as int <= MAX_PER_PAGE ==> n == perPage as int
    ensures perPage == 0 ==> n == 1
    ensures MAX_PER_PAGE < perPage as int ==> n == MAX_PER_PAGE
  {
    Clamp(perPage as int, 1, MAX_PER_PAGE)
  }

  /** Number of records skipped before the requested page: the pages before it, each a full page. */
  function Offset(p: Pagination): (o: nat)
    ensures p.page <= 1 ==> o == 0
    ensures 1 <= p.page ==> o == (p.page as int - 1) * PageSize(p.perPage)
  {
    PageIndex(p.page) * PageSize(p.perPage)
  }

  /** The parameters a list request is served with: the given ones, or the defaults. */
  function Effective(pagination: Option<Pagination>): (p: Pagination)
    ensures pagination.None? ==> p.page == 1 && p.perPage == 30
    ensures pagination.Some? ==> p == pagination.value
  {
    match pagination
    case None => DefaultPagination()
    case Some(p) => p
  }

  /** `LIMIT limit OFFSET offset` over the table: at most `limit` records, from `offset` on. */
  function Window(rows: seq<Quote>, offset: nat, limit: nat): (r: seq<Quote>)
    ensures |r| == if offset >= |rows| then 0 else Min(limit, |rows| - offset)
    ensures forall i :: 0 <= i < |r| ==> r[i] == rows[offset + i]
  {
    if offset >= |rows| then [] else rows[offset..Min(offset + limit, |rows|)]
  }

  /** The records a successful list request returns for the parameters `p`. */
  function Page(rows: seq<Quote>, p: Pagination): (r: seq<Quote>)
    ensures |r| <= PageSize(p.perPage) <= MAX_PER_PAGE
    ensures Offset(p) >= |rows| <==> r == []
    ensures r != [] ==> Offset(p) + |r| <= |rows|
    ensures Offset(p) < |rows| ==> |r| == Min(PageSize(p.perPage), |rows| - Offset(p))
    ensures forall i :: 0 <= i < |r| ==> r[i] == rows[Offset(p) + i]
  {
    Window(rows, Offset(p), PageSize(p.perPage))
  }

  /** Pages 1 to k of the table, read one after the other with the same page size. */
  function FirstPages(rows: seq<Quote>, perPage: Usize, k: nat): seq<Quote>
    requires k <= USIZE_MAX
  {
    if k == 0 then []
    else FirstPages(rows, perPage, k - 1) + Page(rows, Pagination(k as Usize, perPage))
  }

  lemma DefaultWithinClampRanges(rows: seq<Quote>)
    ensures Clamp(DefaultPagination().page as int, 1, USIZE_MAX) == DefaultPagination().page as int
    ensures Clamp(DefaultPagination().perPage as int, 1, MAX_PER_PAGE) == DefaultPagination().perPage as int
    ensures Offset(Effective(None)) == 0 && PageSize(Effective(None).perPage) == 30
    ensures Page(rows, Effective(None)) == rows[..Min(30, |rows|)]
  {
  }

  /** The lower clamps only ever raise a zero. */
  lemma LowerClampRaisesOnlyZero(x: Usize)
    ensures Clamp(x as int, 1, USIZE_MAX) > x as int <==> x == 0
    ensures Clamp(x as int, 1, MAX_PER_PAGE) > x as int <==> x == 0
  {
  }

  /** Page k + 1 starts exactly where page k ends. */
  lemma ConsecutivePagesAdjacent(page: Usize, perPage: Usize)
    requires 1 <= page as int < USIZE_MAX
    ensures Offset(Pagination(page + 1, perPage))
         == Offset(Pagination(page, perPage)) + PageSize(perPage)
  {
  }

  /** The records before `offset` followed by the window at `offset` are the longer prefix. */
  lemma WindowExtendsPrefix(rows: seq<Quote>, offset: nat, limit: nat)
    ensures rows[..Min(offset, |rows|)] + Window(rows, offset, limit) == rows[..Min(offset + limit, |rows|)]
  {
  }

  /** Page k starts after k - 1 full pages. */
  lemma PageStart(perPage: Usize, k: nat)
    requires 1 <= k <= USIZE_MAX
    ensures Offset(Pagination(k as Usize, perPage)) == (k - 1) * PageSize(perPage)
    ensures (k - 1) * PageSize(perPage) + PageSize(perPage) == k * PageSize(perPage)
  {
  }

  /** Reading pages 1..k in order yields the table's prefix: no record twice, none skipped. */
  lemma {:induction false} PagesTileTable(rows: seq<Quote>, perPage: Usize, k: nat)
    requires k <= USIZE_MAX
    ensures FirstPages(rows, perPage, k) == rows[..Min(k * PageSize(perPage), |rows|)]
  {
    if k == 0 {
      assert rows[..0] == [];
    } else {
      PagesTileTable(rows, perPage, k - 1);
      PageStart(perPage, k);
      WindowExtendsPrefix(rows, (k - 1) * PageSize(perPage), PageSize(perPage));
    }
  }

  // ---------------------------------------------------------------------------
  // The table and the effect of each statement on it
  // ---------------------------------------------------------------------------

  function Ids(rows: seq<Quote>): set<Uuid> {
    set q | q in rows :: q.id
  }

  /** The table's primary key: no two records share an identifier. */
  predicate UniqueIds(rows: seq<Quote>) {
    forall i, j :: 0 <= i < j < |rows| ==> rows[i].id != rows[j].id
  }

  /** Every record was last updated no earlier than it was inserted. */
  predicate TimestampsOrdered(rows: seq<Quote>) {
    forall q :: q in rows ==> q.insertedAt <= q.updatedAt
  }

  /** No record carries a timestamp later than `now`. */
  predicate NotAfter(rows: seq<Quote>, now: Timestamp) {
    forall q :: q in rows ==> q.updatedAt <= now
  }

  /** Number of records whose identifier is `id`: the rows a statement on `id` affects. */
  function CountId(rows: seq<Quote>, id: Uuid): (n: nat)
    ensures n <= |rows|
    ensures n == 0 <==> id !in Ids(rows)
  {
    if rows == [] then 0
    else
      assert Ids(rows) == {rows[0].id} + Ids(rows[1..]);
      (if rows[0].id == id then 1 else 0) + CountId(rows[1..], id)
  }

  /** The first record with identifier `id`, if any. */
  function Lookup(rows: seq<Quote>, id: Uuid): (r: Option<Quote>)
    ensures r.Some? <==> id in Ids(rows)
    ensures r.Some? ==> r.value in rows && r.value.id == id
  {
    if rows == [] then None
    else
      assert Ids(rows) == {rows[0].id} + Ids(rows[1..]);
      if rows[0].id == id then Some(rows[0]) else Lookup(rows[1..], id)
  }

  /** `UPDATE ... SET username, quote, updated_at WHERE id = id`. */
  function UpdateRows(rows: seq<Quote>, id: Uuid, username: string, quote: string, now: Timestamp): (r: seq<Quote>)
    ensures |r| == |rows|
    ensures forall i :: 0 <= i < |rows| ==>
      r[i].id == rows[i].id && r[i].insertedAt == rows[i].insertedAt
    ensures forall i :: 0 <= i < |rows| && rows[i].id == id ==>
      r[i].username == username && r[i].quote == quote && r[i].updatedAt == now
    ensures forall i :: 0 <= i < |rows| && rows[i].id != id ==> r[i] == rows[i]
  {
    if rows == [] then []
    else
      var head := if rows[0].id == id
        then rows[0].(username := username, quote := quote, updatedAt := now)
        else rows[0];
      [head] + UpdateRows(rows[1..], id, username, quote, now)
  }

  /** `DELETE ... WHERE id = id`: every other record stays. */
  function DeleteRows(rows: seq<Quote>, id: Uuid): (r: seq<Quote>)
    ensures |r| + CountId(rows, id) == |rows|
    ensures forall q :: q in r <==> q in rows && q.id != id
    ensures id !in Ids(r)
  {
    if rows == [] then []
    else if rows[0].id == id then DeleteRows(rows[1..], id)
    else [rows[0]] + DeleteRows(rows[1..], id)
  }

  /** The status of an update or delete that affected `rowsAffected` rows. */
  function AffectedStatus(rowsAffected: nat): (s: StatusCode)
    ensures s == NotFound <==> rowsAffected == 0
    ensures s == Ok <==> rowsAffected != 0
  {
    if rowsAffected == 0 then NotFound else Ok
  }

  // ---------------------------------------------------------------------------
  // Properties of the statements
  // ---------------------------------------------------------------------------

  /** Under the primary key a statement on one identifier affects at most one row. */
  lemma {:induction false} AtMostOneAffected(rows: seq<Quote>, id: Uuid)
    requires UniqueIds(rows)
    ensures CountId(rows, id) <= 1
  {
    if rows != [] {
      assert UniqueIds(rows[1..]) by {
        forall i, j | 0 <= i < j < |rows[1..]| ensures rows[1..][i].id != rows[1..][j].id {
          assert rows[1..][i] == rows[i + 1] && rows[1..][j] == rows[j + 1];
        }
      }
      AtMostOneAffected(rows[1..], id);
    }
  }

  /** A freshly appended record is found again by its identifier. */
  lemma CreateThenLookup(rows: seq<Quote>, q: Quote)
    requires q.id !in Ids(rows)
    ensures Lookup(rows + [q], q.id) == Some(q)
  {
  }

  /** Appending a fresh identifier keeps the primary key. */
  lemma AppendKeepsUniqueIds(rows: seq<Quote>, q: Quote)
    requires UniqueIds(rows) && q.id !in Ids(rows)
    ensures UniqueIds(rows + [q])
  {
  }

  /** An update leaves the identifiers in place, so the primary key is kept. */
  lemma UpdateKeepsUniqueIds(rows: seq<Quote>, id: Uuid, username: string, quote: string, now: Timestamp)
    requires UniqueIds(rows)
    ensures UniqueIds(UpdateRows(rows, id, username, quote, now))
  {
  }

  /** Under the primary key the first record's identifier is not repeated later, and the rest keeps the key. */
  lemma UniqueHeadAndTail(rows: seq<Quote>)
    requires rows != [] && UniqueIds(rows)
    ensures rows[0].id !in Ids(rows[1..])
    ensures UniqueIds(rows[1..])
  {
    var tail := rows[1..];
    forall q | q in tail ensures q.id != rows[0].id {
      var k :| 0 <= k < |tail| && tail[k] == q;
      assert tail[k] == rows[k + 1];
    }
    forall i, j | 0 <= i < j < |tail| ensures tail[i].id != tail[j].id {
      assert tail[i] == rows[i + 1] && tail[j] == rows[j + 1];
    }
  }

  /** Putting a record with a new identifier in front keeps the primary key. */
  lemma ConsKeepsUniqueIds(q: Quote, rows: seq<Quote>)
    requires UniqueIds(rows) && q.id !in Ids(rows)
    ensures UniqueIds([q] + rows)
  {
    forall j | 0 <= j < |rows| ensures rows[j].id != q.id {
      assert rows[j] in rows;
    }
  }

  /** A delete only drops records, so the primary key is kept. */
  lemma {:induction false} DeleteKeepsUniqueIds(rows: seq<Quote>, id: Uuid)
    requires UniqueIds(rows)
    ensures UniqueIds(DeleteRows(rows, id))
  {
    if rows != [] {
      UniqueHeadAndTail(rows);
      DeleteKeepsUniqueIds(rows[1..], id);
      if rows[0].id != id {
        var d := DeleteRows(rows[1..], id);
        assert rows[0].id !in Ids(d) by {
          forall q | q in d ensures q.id != rows[0].id {
            assert q in rows[1..];
          }
        }
        ConsKeepsUniqueIds(rows[0], d);
      }
    }
  }

  /** After an update, looking the identifier up shows the new text and time. */
  lemma {:induction false} UpdateThenLookup(rows: seq<Quote>, id: Uuid, username: string, quote: string, now: Timestamp)
    ensures Lookup(UpdateRows(rows, id, username, quote, now), id)
         == match Lookup(rows, id)
            case None => None
            case Some(q) => Some(q.(username := username, quote := quote, updatedAt := now))
  {
    if rows != [] {
      UpdateThenLookup(rows[1..], id, username, quote, now);
    }
  }

  /** An update that matches nothing leaves the table as it was. */
  lemma UpdateOfAbsentIsNoOp(rows: seq<Quote>, id: Uuid, username: string, quote: string, now: Timestamp)
    requires CountId(rows, id) == 0
    ensures UpdateRows(rows, id, username, quote, now) == rows
  {
  }

  /** A delete that matches nothing leaves the table as it was. */
  lemma {:induction false} DeleteOfAbsentIsNoOp(rows: seq<Quote>, id: Uuid)
    requires CountId(rows, id) == 0
    ensures DeleteRows(rows, id) == rows
  {
    if rows != [] {
      assert rows[0] in rows;
      DeleteOfAbsentIsNoOp(rows[1..], id);
      assert rows == [rows[0]] + rows[1..];
    }
  }

  /** Deleting the same identifier again affects nothing, so it reports not found. */
  lemma DeleteTwiceNotFound(rows: seq<Quote>, id: Uuid)
    ensures AffectedStatus(CountId(DeleteRows(rows, id), id)) == NotFound
    ensures DeleteRows(DeleteRows(rows, id), id) == DeleteRows(rows, id)
  {
  }

  /** With a clock that does not run backwards, updates keep inserted_at <= updated_at. */
  lemma UpdateKeepsTimestampsOrdered(rows: seq<Quote>, id: Uuid, username: string, quote: string, now: Timestamp)
    requires TimestampsOrdered(rows) && NotAfter(rows, now)
    ensures TimestampsOrdered(UpdateRows(rows, id, username, quote, now))
    ensures forall i :: 0 <= i < |rows| ==>
      rows[i].updatedAt <= UpdateRows(rows, id, username, quote, now)[i].updatedAt
  {
  }

  // ---------------------------------------------------------------------------
  // The quotes table and its handlers
  // ---------------------------------------------------------------------------

  class QuoteStore {
    var rows: seq<Quote>

    ghost predicate Valid()
      reads this
    {
      UniqueIds(rows)
    }

    constructor ()
      ensures Valid() && rows == []
    {
      rows := [];
    }

    /** `POST /quotes`: inserts a new record and answers with it. */
    method CreateQuote(username: string, quote: string, id: Uuid, now: Timestamp, storeError: bool)
      returns (r: Result<(StatusCode, Quote)>)
      requires Valid()
      requires id !in Ids(rows)
      modifies this
      ensures Valid()
      ensures storeError ==> r == Failure(InternalServerError) && rows == old(rows)
      ensures !storeError ==> r == Success((Created, NewQuote(id, username, quote, now)))
      ensures !storeError ==> rows == old(rows) + [NewQuote(id, username, quote, now)]
      ensures !storeError ==> Lookup(rows, id) == Some(NewQuote(id, username, quote, now))
    {
      var q := NewQuote(id, username, quote, now);
      if storeError {
        r := Failure(InternalServerError);
      } else {
        AppendKeepsUniqueIds(rows, q);
        CreateThenLookup(rows, q);
        rows := rows + [q];
        r := Success((Created, q));
      }
    }

    /** `GET /quotes`: one page of the table, possibly empty. */
    method ReadQuotes(pagination: Option<Pagination>, storeError: bool) returns (r: Result<seq<Quote>>)
      ensures r.Failure? <==> storeError
      ensures r.Failure? ==> r.error == InternalServerError
      ensures r.Success? ==> r.value == Page(rows, Effective(pagination))
      ensures r.Success? ==> |r.value| <= PageSize(Effective(pagination).perPage) <= MAX_PER_PAGE
      ensures !storeError && Offset(Effective(pagination)) >= |rows| ==> r == Success([])
    {
      var Pagination(page, perPage) := Effective(pagination);
      var index := PageIndex(page);
      var limit := PageSize(perPage);
      var offset := index * limit;
      if storeError {
        r := Failure(InternalServerError);
      } else {
        r := Success(Window(rows, offset, limit));
      }
    }

    /** `PUT /quotes/{id}`: replaces the text of the record `id` and stamps it with `now`. */
    method UpdateQuote(id: Uuid, payload: Quote, now: Timestamp, storeError: bool) returns (status: StatusCode)
      requires Valid()
      modifies this
      ensures Valid()
      ensures storeError ==> status == InternalServerError && rows == old(rows)
      ensures !storeError ==> status == AffectedStatus(CountId(old(rows), id))
      ensures !storeError ==> rows == UpdateRows(old(rows), id, payload.username, payload.quote, now)
      ensures status == NotFound ==> rows == old(rows)
      ensures old(TimestampsOrdered(rows)) && old(NotAfter(rows, now)) ==> TimestampsOrdered(rows)
    {
      if storeError {
        status := InternalServerError;
      } else {
        var affected := CountId(rows, id);
        if affected == 0 {
          UpdateOfAbsentIsNoOp(rows, id, payload.username, payload.quote, now);
        }
        UpdateKeepsUniqueIds(rows, id, payload.username, payload.quote, now);
        if TimestampsOrdered(rows) && NotAfter(rows, now) {
          UpdateKeepsTimestampsOrdered(rows, id, payload.username, payload.quote, now);
        }
        rows := UpdateRows(rows, id, payload.username, payload.quote, now);
        status := AffectedStatus(affected);
      }
    }

    /** `DELETE /quotes/{id}`: removes the record `id`. */
    method DeleteQuote(id: Uuid, storeError: bool) returns (status: StatusCode)
      requires Valid()
      modifies this
      ensures Valid()
      ensures storeError ==> status == InternalServerError && rows == old(rows)
      ensures !storeError ==> status == AffectedStatus(CountId(old(rows), id))
      ensures !storeError ==> rows == DeleteRows(old(rows), id)
      ensures status == NotFound ==> rows == old(rows)
      ensures id !in Ids(rows) || storeError
    {
      if storeError {
        status := InternalServerError;
      } else {
        var affected := CountId(rows, id);
        if affected == 0 {
          DeleteOfAbsentIsNoOp(rows, id);
        }
        DeleteKeepsUniqueIds(rows, id);
        rows := DeleteRows(rows, id);
        status := AffectedStatus(affected);
      }
    }
  }

  /** Create, update, read back, delete, delete again on one fresh table. */
  method Scenario(id: Uuid, t0: Timestamp, t1: Timestamp)
  {
    var store := new QuoteStore();
    var created := store.CreateQuote("alice", "hello", id, t0, false);
    assert created == Success((Created, Quote(id, "alice", "hello", t0, t0)));
    assert store.rows == [Quote(id, "alice", "hello", t0, t0)];

    var updated := store.UpdateQuote(id, Quote(0, "alice", "hi", 0, 0), t1, false);
    assert CountId([Quote(id, "alice", "hello", t0, t0)], id) == 1;
    assert updated == Ok;
    assert store.rows[0] == Quote(id, "alice", "hi", t0, t1);

    var listed := store.ReadQuotes(None, false);
    assert listed == Success([Quote(id, "alice", "hi", t0, t1)]);

    var deleted := store.DeleteQuote(id, false);
    assert deleted == Ok;
    var again := store.DeleteQuote(id, false);
    assert again == NotFound;
  }
}
