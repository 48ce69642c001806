# Quotes service: request handlers, modelled in Dafny

This project models the request-handling core of a small quotes service.
The service offers create, list, update and delete over one table of quote records, plus a health check.

- `utils.dfy` (module `Utils`) holds the `Pagination` query parameters and their defaults: page 1, thirty records per page.
  Both fields are unsigned machine-sized integers (`Usize`), so a negative value cannot be represented.
- `handlers.dfy` (module `Handlers`) holds the `Quote` record and `NewQuote`.
  It also holds the pagination arithmetic (clamping, page index, offset and the `LIMIT`/`OFFSET` window).
  The effect of the `UPDATE` and `DELETE` statements on the table is given as functions.
  The mapping from affected rows to a status code is `AffectedStatus`.
- The table itself is the class `Handlers.QuoteStore`.
  Its field `rows` is reassigned by the handler methods `CreateQuote`, `UpdateQuote` and `DeleteQuote`.
  `ReadQuotes` only reads it.
  The class invariant `Valid()` is the table's primary key: no two records share an identifier.

Each handler takes the values the web framework would have decoded (username and text, path identifier, optional query parameters) as plain parameters.
The outcome of its one persistence call is the boolean `storeError`.
A failed statement leaves the table as it was and yields `InternalServerError`.
Identifiers and clock readings are parameters too: `Uuid` is a `nat` and `Timestamp` an `int`.
Creating a record requires that its identifier is not already in the table, the contract a random 128-bit identifier generator stands for.

The order of `rows` is taken as the order in which `SELECT * FROM quotes` returns records, and a created record is appended at the end.

Update and delete are meant to affect one row.
The code maps any non-zero count of affected rows to `OK`, and the model follows the code (`AffectedStatus`).
`AtMostOneAffected` shows that the two agree while the primary key holds.

## Model

| member | source | states |
|---|---|---|
| `Utils.DefaultPagination` | src/utils.rs:9-16 | the default parameters are page 1 and 30 records per page |
| `Handlers.HealthCheck` | src/handlers.rs:14-16 | the health check always answers 200 OK |
| `Handlers.NewQuote` | src/handlers.rs:27-38 | a new record keeps the given identifier, username and text, and has `inserted_at == updated_at == now` |
| `Handlers.Clamp` | src/handlers.rs:76-77 | the result lies in [lo, hi]; it equals the input inside the range and the nearer bound outside it |
| `Handlers.PageIndex` | src/handlers.rs:76 | the zero-based page index is `page - 1` for `page >= 1`, and 0 for both page 0 and page 1 |
| `Handlers.PageSize` | src/handlers.rs:77 | the effective page size lies in [1, 100]; 0 becomes 1, anything above 100 becomes 100, and values in range are kept |
| `Handlers.LowerClampRaisesOnlyZero` | src/utils.rs:5-6 | for unsigned fields, the only value the lower clamp of 1 raises is 0, for both page and page size |
| `Handlers.DefaultWithinClampRanges` | src/handlers.rs:75-78 | the defaults already lie in both clamp ranges, so a request without parameters reads offset 0 with limit 30, i.e. the first 30 records |
| `Handlers.Offset` | src/handlers.rs:76-78 | the offset is 0 for pages 0 and 1, and `(page - 1) * size` records (whole pages before the requested one) otherwise; `ConsecutivePagesAdjacent` and `PageStart` carry its consequences |
| `Handlers.Effective` | src/handlers.rs:75 | an absent query falls back to page 1 with 30 records; a present query is used as decoded |
| `Handlers.ConsecutivePagesAdjacent` | src/handlers.rs:76-78 | page k + 1 starts exactly one page size after page k starts |
| `Handlers.Window` | src/handlers.rs:80-85 | `LIMIT n OFFSET o` returns `min(n, size - o)` records (none when `o` is past the end), the i-th being the table's record `o + i` |
| `Handlers.Page` | src/handlers.rs:77-88 | the records a successful list returns: at most the clamped size (never more than 100), empty exactly when the offset is at or past the end, and the i-th record is the table's record `offset + i` |
| `Handlers.PagesTileTable` | src/handlers.rs:75-85 | reading pages 1..k in order with the same page size yields exactly the first `k * size` records: windows do not overlap and skip nothing |
| `Handlers.CountId` | src/handlers.rs:112 | the number of rows a statement on `id` affects is 0 exactly when no record has that identifier |
| `Handlers.AffectedStatus` | src/handlers.rs:112-115 | zero affected rows gives NOT_FOUND and any other count gives OK (both directions) |
| `Handlers.AtMostOneAffected` | src/handlers.rs:112-115 | under the primary key, a statement on one identifier affects at most one row |
| `Handlers.UpdateRows` | src/handlers.rs:99-109 | an update keeps the table's length, every `id` and every `inserted_at`; records with the identifier get the new username, text and `updated_at`; all other records are unchanged |
| `Handlers.UpdateOfAbsentIsNoOp` | src/handlers.rs:99-115 | an update of an absent identifier leaves the table unchanged |
| `Handlers.UpdateKeepsUniqueIds` | src/handlers.rs:99-109 | an update keeps the primary key |
| `Handlers.UpdateKeepsTimestampsOrdered` | src/handlers.rs:98-109 | if the clock reading is not behind any stored `updated_at`, an update keeps `inserted_at <= updated_at` and never moves an `updated_at` back |
| `Handlers.UpdateThenLookup` | src/handlers.rs:99-109 | after an update, looking up the identifier finds the old record with the new username, text and time, or nothing if it was absent |
| `Handlers.DeleteRows` | src/handlers.rs:124 | a delete removes exactly the records with the identifier (the size drops by the affected count) and keeps every other record |
| `Handlers.DeleteOfAbsentIsNoOp` | src/handlers.rs:124-130 | a delete of an absent identifier leaves the table unchanged |
| `Handlers.DeleteKeepsUniqueIds` | src/handlers.rs:124 | a delete keeps the primary key |
| `Handlers.DeleteTwiceNotFound` | src/handlers.rs:123-136 | a second delete of the same identifier affects no row, so it answers NOT_FOUND and changes nothing |
| `Handlers.Lookup` | src/handlers.rs:103 | the selection `WHERE id = ...` of update and delete (lines 103 and 124): looking up an identifier finds a record exactly when one carries that identifier, and the record it finds has that identifier |
| `Handlers.CreateThenLookup` | src/handlers.rs:51-64 | a record appended under a fresh identifier is found again by that identifier |
| `Handlers.AppendKeepsUniqueIds` | src/handlers.rs:51-64 | inserting a fresh identifier keeps the primary key |
| `Handlers.QuoteStore.constructor` | src/handlers.rs:51-54 | stands for an empty quotes table, the one the insert statement writes into; it satisfies the primary key |
| `Handlers.QuoteStore.CreateQuote` | src/handlers.rs:46-68 | on success, answers CREATED with exactly the new record, the table grows by that record and it can be looked up; on a store error, answers INTERNAL_SERVER_ERROR and the table is unchanged |
| `Handlers.QuoteStore.ReadQuotes` | src/handlers.rs:71-91 | fails with INTERNAL_SERVER_ERROR exactly on a store error; otherwise returns the window for the effective parameters, at most the clamped page size and never more than 100 records; a page past the end of the table is an empty success, not an error |
| `Handlers.QuoteStore.UpdateQuote` | src/handlers.rs:93-121 | the status follows the affected-row count (NOT_FOUND leaves the table unchanged); only `username`, `quote` and `updated_at` of the matching record change, and the payload's `id` and timestamps are ignored; a store error gives INTERNAL_SERVER_ERROR and no change; the primary key and timestamp order are kept |
| `Handlers.QuoteStore.DeleteQuote` | src/handlers.rs:123-136 | the status follows the affected-row count (NOT_FOUND leaves the table unchanged); the identifier is absent afterwards and every other record stays; a store error gives INTERNAL_SERVER_ERROR and no change |

`Handlers.Scenario` follows one record through its life on a fresh table: create "alice"/"hello", update the text to "hi", list it, delete it, and delete it again.
The verifier checks that these steps answer CREATED, OK, the updated record, OK and NOT_FOUND in turn.

## Left out

- Process bootstrap in `src/main.rs` is not part of this model: environment variables, the TCP listener, the connection pool (`max_connections(5)`) and the router. That router registers only the health check and create routes. Its unused second `Quote` type is also left out.
- Asynchronous execution, the web framework's extractors and JSON (de)serialisation are not modelled. Handlers take the decoded values as parameters.
- A list query that cannot be decoded into both fields (for example `?per_page=10` alone, or `?page=-1`) may reach the list handler as an absent query, depending on the web framework's version. The model covers that case as `Effective(None)`: page 1 with 30 records.
- SQL text, connection errors and the database's own row order are not modelled. The table is a sequence, and every kind of store failure is the single flag `storeError`.
- Random identifier generation and the wall clock are parameters. Freshness of a created identifier is a precondition of `CreateQuote`.
- Handlers.QuoteStore.ReadQuotes: the offset is an unbounded integer, so the signed 64-bit arithmetic at src/handlers.rs:78 is not modelled. The cast `page as i64` never panics: page indices above `i64::MAX` become negative. The product `page * per_page` overflows once the page index exceeds `i64::MAX / per_page`, about 9.2e16 at 100 records per page. A debug build panics only when the product overflows. A release build wraps it modulo 2^64. A wrapped offset of 0 serves the first page (page 4611686018427387905 with `per_page` 4). A positive one serves the records from that offset (page 4611686018427387906 with `per_page` 4 gives offset 4). A negative one, from the product or from the cast (page `usize::MAX`), is rejected by the store, so the source answers INTERNAL_SERVER_ERROR. In all these cases the model answers an empty success.
- Concurrent requests and connection-pool behaviour are not modelled. Each handler call is one atomic step on the table.
- Handlers.UpdateKeepsTimestampsOrdered: `inserted_at <= updated_at` is proved only for clock readings that are not behind the stored timestamps. The service itself never checks the clock.
