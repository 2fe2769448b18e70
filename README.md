# generic-gorm repository core, modelled in Dafny

This project models the query-composition core of the generic GORM repository
`BaseGorm[T, PkType]` in `base/core.go`:

- sort descriptors (`OrderBy`) and filter descriptors (`Where`) rendered to SQL text;
- the `%…%` wrapping of LIKE values;
- the JSON decoding of the two filter flags;
- the loops that add filters and sort keys to a database handle one by one;
- pagination: count first, stop when the count is zero, else fetch one page;
- how the store's answers become the results of `Detail`, `Wheres`, `WheresList`,
  `List`, `ListCustom`, `UpdateWhere` and `CreateMultiple`.

Modules:

- `Wrappers`: `Option` and `Result`.
- `Descriptors`: `OrderBy`, `Where` and their renderings. The filter
  rendering determines the mode and the column, and a recognised sort
  descriptor is read back exactly from its rendering. The rendering does not
  carry the filter's value, nor the LIKE flag when full-text search is set.
  The filter flags are decoded in place on a `WhereRef` (a `*Where`).
- `Queries`: the query value a handle accumulates. `QueryBuilder` is the handle
  that accumulates clauses in place. `ApplyWheres` and `ApplyOrders` are the
  repository's two loops, written once. The offset arithmetic is done in Go's
  64-bit `int`, and lemmas show that consecutive pages tile the matching rows.
- `Store`: the database as an oracle. Each round trip is appended to a log, and
  its answer is a function of the earlier requests and the request itself.
- `Repository`: the `BaseGorm` class. Each method is proved against the requests
  it issues and the oracle's answers.

Filters and sort descriptors are passed as Dafny sequences, which are values.
So the caller's slice cannot be changed by the LIKE wrapping, which happens on
a copy of each filter (the Go range variable).

A native JSON boolean in `is_like` or `is_full_text_search` is not
normalised: the decoder reads those fields as strings (base/core.go:91-92), so
a boolean there is a type error (`UnmarshalTypeError`), and the flags keep
their old values.

## Model

| member | source | states |
|---|---|---|
| `Descriptors.OrderByString` | base/core.go:30-36 | The rendering is empty exactly when the field is empty or the direction is not literally "asc" or "desc" (so "ASC" renders empty). Otherwise it is field, space, direction. |
| `Descriptors.OrderByRoundTrip` | base/core.go:30-36 | Reading a rendering back gives the descriptor itself when it is recognised, and nothing otherwise. |
| `Descriptors.ParseOrderClauseSound` | base/core.go:30-36 | Any text that reads as an ORDER BY item is the rendering of the recognised descriptor it reads as. |
| `Descriptors.OrderByStringInjective` | base/core.go:30-36 | Two descriptors with the same non-empty rendering are equal. |
| `Descriptors.WhereString` | base/core.go:110-119 | The text reads back as the filter's mode and column: full text whatever the LIKE flag says (`MATCH(name) AGAINST (? IN BOOLEAN MODE)`), then LIKE (`name LIKE ?`), otherwise equality (`name = ?`). It holds exactly one `?` more than the column name (one, for a name without `?`). |
| `Descriptors.FullTextHidesLike` | base/core.go:110-119 | With the full-text flag set, the LIKE flag does not change the text, though it still changes the bound value. |
| `Descriptors.BoundValue` | base/core.go:136-138 | The bound value differs from the filter's value exactly when LIKE is set. It is then the value with one `%` before it and one after, whatever the full-text flag says. |
| `Descriptors.DecodeFlag` | base/core.go:104-105 | A flag string is true exactly when it is "1" or "true"; every other string, such as "TRUE", "0" or "", is false. |
| `Descriptors.WhereRef.UnmarshalJSON` | base/core.go:88-108 | Malformed JSON changes nothing and returns a syntax error. A top-level JSON value that is not an object or null changes nothing and returns a type error. A top-level null returns no error, keeps name and value, and sets both flags false. A non-string in a string-typed field returns a type error: name and value are still decoded, the flags are left as they were. Otherwise each flag is set true exactly when its JSON value is the string "1" or "true" (absent or null gives false). |
| `Queries.RenderingIgnoresValue` | base/core.go:136-139 | Wrapping the range copy's value does not change its rendered text. |
| `Queries.WhereClauses` | base/core.go:135-140 | Exactly one clause per filter, in input order. Each is the filter's rendering bound to its (possibly wrapped) value. |
| `Queries.OrderClauses` | base/core.go:174-179 | At most one ORDER BY item per descriptor, and no item is empty. |
| `Queries.OrderClausesConcat` | base/core.go:174-179 | Input order is kept: the items for a concatenation are the items of the first part followed by those of the second. |
| `Queries.OrderClausesMembers` | base/core.go:174-179 | Each item renders one of the descriptors, and every recognised descriptor's rendering is among the items. |
| `Queries.OrderClausesAllRecognized` | base/core.go:174-179 | When all descriptors are recognised, the items are their renderings, position by position. |
| `Queries.ApplyWheres` | base/core.go:135-140 | The filter loop appends exactly `WhereClauses(ws)` to the handle's conjunction and changes nothing else on it. |
| `Queries.ApplyOrders` | base/core.go:174-179 | The order loop appends exactly `OrderClauses(os)` to the handle's ORDER BY list and changes nothing else on it. |
| `Queries.Wrap64` | base/core.go:232 | 64-bit two's-complement wrap-around: congruent to the exact result modulo 2^64, and equal to it when it fits. |
| `Queries.OffsetFor` | base/core.go:232 | The offset is computed in 64-bit `int`: it is congruent to `(page - 1) * pageSize` modulo 2^64, and equal to it whenever that fits in 64 bits. |
| `Queries.OffsetExact` | base/core.go:232 | For page >= 1, page size >= 0 and no overflow, the offset is exactly `(page - 1) * pageSize`. |
| `Queries.PageZeroOffset` | base/core.go:232 | Page 0 is passed through unchecked and gives the negative offset `-pageSize`. |
| `Queries.OffsetOverflow` | base/core.go:232 | A large page number makes the 64-bit offset wrap to the most negative value. |
| `Queries.PagesTile` | base/core.go:232 | With the offsets the code computes, pages 1..k of size `pageSize` together are exactly the first `k * pageSize` rows. They never overlap and never skip a row. |
| `Repository.Lookup` | base/core.go:70-77 | A row comes back with no error. Not-found becomes (none, no error). Every other error comes back with no row. |
| `Repository.PaginatesWindow` | base/core.go:223-236 | Against a store that counts the matches and answers the page request with the window that the request's own offset and limit select, a listing returns page `page`: the at most `pageSize` rows after the first `(page - 1) * pageSize`, with the full count as total. |
| `Repository.DetailQuery` | base/core.go:60-68 | The lookup query is the entity's table with one predicate, the text an equality filter on the primary-key column renders to, bound to the id. It has no ordering, offset or limit. |
| `Repository.BaseGorm.Detail` | base/core.go:46-78 | Issues exactly one fetch-first, on the entity's table, filtered on `<primary key> = ?` bound to the id. Its result is `Lookup` of the answer. |
| `Repository.BaseGorm.Wheres` | base/core.go:121-150 | Issues exactly one fetch-first, on the table, with one clause per filter in order and no ordering. Its result is `Lookup` of the answer. |
| `Repository.BaseGorm.WheresList` | base/core.go:152-186 | Issues exactly one fetch-all with the filter clauses and then the recognised orders, and returns what the fetch left (rows and error). |
| `Repository.BaseGorm.List` | base/core.go:188-237 | The count is issued first, on the table with the filters and orders. A failed count returns no rows, no paginator and the error. Otherwise the paginator echoes page and page size with the count as total. A zero count returns at once with no rows and no fetch. Otherwise exactly one fetch is issued, with offset `(page - 1) * pageSize` (64-bit) and limit `pageSize`. |
| `Repository.BaseGorm.ListCustom` | base/core.go:372-422 | Same contract as `List`, but on the query the callback builds from the bare handle (no table). Everything the callback added comes before the filters and orders. |
| `Repository.BaseGorm.CountThenFetch` | base/core.go:223-236 | The count, zero-count early return and page fetch shared by the two listings, against the query as it was composed. |
| `Repository.BaseGorm.UpdateWhere` | base/core.go:319-346 | Issues exactly one mass update of the given column values, on the table filtered by one clause per filter. Returns the store's affected count and error. |
| `Repository.BaseGorm.CreateMultiple` | base/core.go:265-292 | The result always has as many rows as the input. An empty batch returns empty, with count 0, no error and no round trip. Otherwise exactly one batch insert is issued. Each returned row is the caller's row as the store filled it in, and the store's count and error are returned. |

## Left out

- `Create`, `Update` and `Upsert` (base/core.go:239-259, 294-317, 348-368) are not modelled. Each is one call into GORM, plus the choice to restrict `Update` to the named columns when there are any. Executing them is the store's business, and so is the dialect-dependent affected-row count of an upsert.
- The association methods (base/core.go:424-450) and `DB` (base/core.go:261-263) are not modelled. They only forward to GORM's reflective association handle or return the handle.
- Logging of errors on return and the logger-in-context helpers (logger_ctx.go) are left out: they are I/O.
- Context cancellation and transactions are left out. They belong to the database handle.
- What the store does with a query is the oracle's. This covers the semantics of `LIKE` and `MATCH … AGAINST`, how GORM turns a negative offset or limit into SQL, and `First` adding its own ordering and limit.
- The model assumes that `Count` leaves the handle's clauses as they were for the page fetch.
- The model assumes that the handle returned by a `ListCustom` callback accumulates the later `Where`/`Order` calls, as the callback in the integration test does. A callback that returned a fresh GORM session would silently drop the filters, because the code discards the result of `db.Where`/`db.Order`.
- Filter values are text. Go's `fmt` formatting of a non-string value in the LIKE wrapping is not modelled.
- Primary-key values are `Text` or an unbounded `Integer`. Only the closed set of key kinds is kept, not the width of each Go integer type.
- JSON decoding is modelled only as far as the flags need. A document is malformed, a top-level null, another non-object value, or an object. In an object, the name field is absent, null, a string or another JSON value, and the value field is absent or decoded text. A type error does not name its field.
