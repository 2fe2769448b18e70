/**
 * The generic repository `BaseGorm[T, PkType]` (base/core.go): it composes
 * filters, sort descriptors and pagination on a fresh handle for the entity's
 * table and maps the store's answers to its results. The entity type is
 * present only through its table name and primary-key column.
 */
module Repository {
  import opened Wrappers
  import opened Descriptors
  import opened Queries
  import opened Store

  /** Page bookkeeping returned by the paginated listings. */
  datatype Paginator = Paginator(page: int, perPage: int, total: int)

  /**
   * The result of a single-row lookup for the store's answer: not-found is an
   * empty success, any other error is returned, a row is returned with no error.
   */
  function Lookup<Row>(r: Result<Row, DbError>): (out: (Option<Row>, Option<DbError>))
    ensures out.0.Some? <==> r.Success?
    ensures r.Success? ==> out == (Some(r.value), None)
    ensures out.1.Some? <==> r.Failure? && r.error != RecordNotFound
    ensures out.1.Some? ==> out.1.value == r.error
  {
    match r
    case Success(row) => (Some(row), None)
    case Failure(e) => if e == RecordNotFound then (None, None) else (None, Some(e))
  }

  /**
   * The lookup by primary key: the entity's table and one predicate, the
   * text an equality filter on the primary-key column renders to, bound to
   * the id; no ordering, offset or limit.
   */
  function DetailQuery(table: string, primaryKey: string, id: Value): (q: Query)
    ensures q == OnTable(table).(wheres := [Clause(WhereString(Where(primaryKey, false, false, "")), id)])
  {
    OnTable(table).(wheres := [Clause(primaryKey + " = ?", id)])
  }

  /**
   * The contract shared by `List` and `ListCustom` once the query `q` is
   * composed: count first; a failed count gives no paginator; otherwise the
   * paginator echoes page and page size with the count as total; a zero count
   * ends there with no rows; otherwise one fetch with offset
   * `(page - 1) * pageSize` and limit `pageSize` gives the rows.
   */
  ghost predicate Paginates<Row>(oracle: Oracle<Row>, before: seq<Request<Row>>, q: Query,
                                 page: Int64, pageSize: Int64,
                                 rows: seq<Row>, paginator: Option<Paginator>, err: Option<DbError>,
                                 after: seq<Request<Row>>)
  {
    var counted := before + [CountReq(q)];
    match oracle.count(before, q)
    case Failure(e) =>
      after == counted && rows == [] && paginator == None && err == Some(e)
    case Success(n) =>
      paginator == Some(Paginator(page, pageSize, n)) &&
      if n == 0 then
        after == counted && rows == [] && err == None
      else
        var fetched := oracle.find(counted, Paged(q, page, pageSize));
        after == counted + [FindReq(Paged(q, page, pageSize))] && rows == fetched.rows && err == fetched.err
  }

  /**
   * Against a store whose count is the number of matching rows and whose
   * fetch returns the window its offset and limit select from them, a
   * paginated listing returns page `page` of the matches: at most `pageSize`
   * rows, starting after the `(page - 1) * pageSize` before it, with the
   * full count as total.
   */
  lemma PaginatesWindow<Row>(oracle: Oracle<Row>, before: seq<Request<Row>>, q: Query,
                             page: Int64, pageSize: Int64, matching: seq<Row>,
                             rows: seq<Row>, paginator: Option<Paginator>, err: Option<DbError>,
                             after: seq<Request<Row>>)
    requires 1 <= page && 0 < pageSize && page * pageSize <= MaxInt64 && |matching| <= MaxInt64
    requires oracle.count(before, q) == Success(|matching|)
    requires var p := Paged(q, page, pageSize);
             p.offset.value >= 0 &&
             oracle.find(before + [CountReq(q)], p) == Fetched(Window(matching, p.offset.value, p.limit.value), None)
    requires Paginates(oracle, before, q, page, pageSize, rows, paginator, err, after)
    ensures paginator == Some(Paginator(page, pageSize, |matching|)) && err == None
    ensures rows == Window(matching, (page - 1) * pageSize, pageSize) && |rows| <= pageSize
  {
    OffsetExact(page, pageSize);
    if |matching| == 0 {
      assert Window(matching, (page - 1) * pageSize, pageSize) == [];
    }
  }

  /** `BaseGorm[T, PkType]`: a shared database handle and the entity's table and primary-key column. */
  class BaseGorm<Row> {
    const db: Database<Row>
    const table: string
    const primaryKey: string

    /** `NewBaseGorm`, with `T.TableName()` and `T.PrimaryKey()` given as the entity's capability. */
    constructor (db: Database<Row>, table: string, primaryKey: string)
      ensures this.db == db && this.table == table && this.primaryKey == primaryKey
    {
      this.db, this.table, this.primaryKey := db, table, primaryKey;
    }

    /** One row by primary key; not-found is `(None, None)`. */
    method Detail(id: Value) returns (row: Option<Row>, err: Option<DbError>)
      modifies db
      ensures db.issued == old(db.issued) + [FirstReq(DetailQuery(table, primaryKey, id))]
      ensures (row, err) == Lookup(db.oracle.first(old(db.issued), DetailQuery(table, primaryKey, id)))
    {
      var q := new QueryBuilder(OnTable(table));
      q.AddWhere(primaryKey + " = ?", id);
      assert q.Snapshot() == DetailQuery(table, primaryKey, id);
      var r := db.First(q.Snapshot());
      row, err := Lookup(r).0, Lookup(r).1;
    }

    /** The first row matching the conjunction of the filters; not-found is `(None, None)`. */
    method Wheres(ws: seq<Where>) returns (row: Option<Row>, err: Option<DbError>)
      modifies db
      ensures db.issued == old(db.issued) + [FirstReq(Filtered(OnTable(table), ws, []))]
      ensures (row, err) == Lookup(db.oracle.first(old(db.issued), Filtered(OnTable(table), ws, [])))
    {
      var q := new QueryBuilder(OnTable(table));
      ApplyWheres(q, ws);
      assert q.Snapshot() == Filtered(OnTable(table), ws, []);
      var r := db.First(q.Snapshot());
      row, err := Lookup(r).0, Lookup(r).1;
    }

    /** All rows matching the filters, sorted by the recognised descriptors in order; the fetch's rows come back even with an error. */
    method WheresList(os: seq<OrderBy>, ws: seq<Where>) returns (rows: seq<Row>, err: Option<DbError>)
      modifies db
      ensures db.issued == old(db.issued) + [FindReq(Filtered(OnTable(table), ws, os))]
      ensures Fetched(rows, err) == db.oracle.find(old(db.issued), Filtered(OnTable(table), ws, os))
    {
      var q := new QueryBuilder(OnTable(table));
      ApplyWheres(q, ws);
      ApplyOrders(q, os);
      var r := db.Find(q.Snapshot());
      rows, err := r.rows, r.err;
    }

    /** A page of the rows matching the filters, sorted, with its paginator. */
    method List(page: Int64, pageSize: Int64, os: seq<OrderBy>, ws: seq<Where>)
      returns (rows: seq<Row>, paginator: Option<Paginator>, err: Option<DbError>)
      modifies db
      ensures Paginates(db.oracle, old(db.issued), Filtered(OnTable(table), ws, os), page, pageSize,
                        rows, paginator, err, db.issued)
    {
      var q := new QueryBuilder(OnTable(table));
      ApplyWheres(q, ws);
      ApplyOrders(q, os);
      rows, paginator, err := CountThenFetch(q, page, pageSize);
    }

    /**
     * `List` on a base the callback builds from the bare handle: the callback
     * runs first, so whatever it adds precedes the filters and the orders.
     */
    method ListCustom(page: Int64, pageSize: Int64, os: seq<OrderBy>, ws: seq<Where>, customCallback: Query -> Query)
      returns (rows: seq<Row>, paginator: Option<Paginator>, err: Option<DbError>)
      modifies db
      ensures Paginates(db.oracle, old(db.issued), Filtered(customCallback(Unscoped), ws, os), page, pageSize,
                        rows, paginator, err, db.issued)
    {
      var q := new QueryBuilder(customCallback(Unscoped));
      ApplyWheres(q, ws);
      ApplyOrders(q, os);
      rows, paginator, err := CountThenFetch(q, page, pageSize);
    }

    /** The count, early return and page fetch that `List` and `ListCustom` share. */
    method CountThenFetch(q: QueryBuilder, page: Int64, pageSize: Int64)
      returns (rows: seq<Row>, paginator: Option<Paginator>, err: Option<DbError>)
      requires q != db as object
      modifies db, q
      ensures Paginates(db.oracle, old(db.issued), old(q.Snapshot()), page, pageSize,
                        rows, paginator, err, db.issued)
    {
      var p := Paginator(page, pageSize, 0);
      rows := [];
      var counted := db.Count(q.Snapshot());
      if counted.Failure? {
        return rows, None, Some(counted.error);
      }
      var count := counted.value;
      p := p.(total := count);
      if count == 0 {
        return rows, Some(p), None;
      }
      q.SetPage(OffsetFor(page, pageSize), pageSize);
      var fetched := db.Find(q.Snapshot());
      rows, paginator, err := fetched.rows, Some(p), fetched.err;
    }

    /** A mass update of the given columns on every row matching the filters. */
    method UpdateWhere(ws: seq<Where>, values: map<string, Value>) returns (affected: Int64, err: Option<DbError>)
      modifies db
      ensures db.issued == old(db.issued) + [UpdatesReq(Filtered(OnTable(table), ws, []), values)]
      ensures var w := db.oracle.updates(old(db.issued), Filtered(OnTable(table), ws, []), values);
              affected == w.affected && err == w.err
    {
      var q := new QueryBuilder(OnTable(table));
      ApplyWheres(q, ws);
      assert q.Snapshot() == Filtered(OnTable(table), ws, []);
      var w := db.Updates(q.Snapshot(), values);
      affected, err := w.affected, w.err;
    }

    /**
     * A batch insert; an empty batch returns at once, with no round trip.
     * Otherwise the caller's rows come back, each as the store filled it in.
     */
    method CreateMultiple(rows: seq<Row>) returns (created: seq<Row>, affected: Int64, err: Option<DbError>)
      modifies db
      ensures |created| == |rows|
      ensures rows == [] ==> affected == 0 && err == None && db.issued == old(db.issued)
      ensures rows != [] ==>
        db.issued == old(db.issued) + [CreateReq(table, rows)] &&
        var ins := db.oracle.create(old(db.issued), table, rows);
        (forall i :: 0 <= i < |rows| ==> created[i] == ins.fill(i, rows[i])) &&
        affected == ins.affected && err == ins.err
    {
      if |rows| == 0 {
        return rows, 0, None;
      }
      created, affected, err := db.Create(table, rows);
    }
  }
}
