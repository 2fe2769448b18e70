/**
 * The database the repository talks to, as an oracle. Every round trip the
 * repository issues is appended to a log, and its answer is whatever the
 * oracle gives for that request after that log: any store whose answers
 * depend only on what was asked before fits. Executing SQL, mapping rows and
 * the dialect are the store's.
 */
module Store {
  import opened Wrappers
  import opened Queries

  /** `gorm.ErrRecordNotFound`, and every other error the store may report. */
  datatype DbError = RecordNotFound | Failed(message: string)

  /** One round trip: `First`, `Find`, `Count`, `Updates(values)` on a query, or a batch `Create`. */
  datatype Request<Row> =
    | FirstReq(q: Query)
    | FindReq(q: Query)
    | CountReq(q: Query)
    | UpdatesReq(q: Query, values: map<string, Value>)
    | CreateReq(table: string, rows: seq<Row>)

  /** What `Find` leaves in the destination, with the error if any. */
  datatype Fetched<Row> = Fetched(rows: seq<Row>, err: Option<DbError>)

  /** An update's outcome: the affected-row count and the error if any. */
  datatype Updated = Updated(affected: Int64, err: Option<DbError>)

  /**
   * A batch insert's outcome. The store writes into the rows it was given
   * (generated key, timestamps): `fill(i, row)` is row `i` as it stands
   * afterwards.
   */
  datatype Inserted<!Row> = Inserted(fill: (nat, Row) -> Row, affected: Int64, err: Option<DbError>)

  /** The store's answers, each a function of the requests issued before and the request itself. */
  datatype Oracle<!Row> = Oracle(
    first: (seq<Request<Row>>, Query) -> Result<Row, DbError>,
    find: (seq<Request<Row>>, Query) -> Fetched<Row>,
    count: (seq<Request<Row>>, Query) -> Result<Int64, DbError>,
    updates: (seq<Request<Row>>, Query, map<string, Value>) -> Updated,
    create: (seq<Request<Row>>, string, seq<Row>) -> Inserted<Row>)

  /** The shared `*gorm.DB`: the oracle and the log of round trips issued through it. */
  class Database<Row> {
    const oracle: Oracle<Row>
    var issued: seq<Request<Row>>

    constructor (oracle: Oracle<Row>)
      ensures this.oracle == oracle && issued == []
    {
      this.oracle := oracle;
      issued := [];
    }

    method First(q: Query) returns (r: Result<Row, DbError>)
      modifies this
      ensures issued == old(issued) + [FirstReq(q)]
      ensures r == oracle.first(old(issued), q)
    {
      r := oracle.first(issued, q);
      issued := issued + [FirstReq(q)];
    }

    method Find(q: Query) returns (r: Fetched<Row>)
      modifies this
      ensures issued == old(issued) + [FindReq(q)]
      ensures r == oracle.find(old(issued), q)
    {
      r := oracle.find(issued, q);
      issued := issued + [FindReq(q)];
    }

    method Count(q: Query) returns (r: Result<Int64, DbError>)
      modifies this
      ensures issued == old(issued) + [CountReq(q)]
      ensures r == oracle.count(old(issued), q)
    {
      r := oracle.count(issued, q);
      issued := issued + [CountReq(q)];
    }

    method Updates(q: Query, values: map<string, Value>) returns (r: Updated)
      modifies this
      ensures issued == old(issued) + [UpdatesReq(q, values)]
      ensures r == oracle.updates(old(issued), q, values)
    {
      r := oracle.updates(issued, q, values);
      issued := issued + [UpdatesReq(q, values)];
    }

    /**
     * `Create(rows)` on a slice of `*Row`: the same rows come back, each
     * as the store filled it in, with the affected count and the error.
     */
    method Create(table: string, rows: seq<Row>) returns (filled: seq<Row>, affected: Int64, err: Option<DbError>)
      modifies this
      ensures issued == old(issued) + [CreateReq(table, rows)]
      ensures var ins := oracle.create(old(issued), table, rows);
              |filled| == |rows| && (forall i :: 0 <= i < |rows| ==> filled[i] == ins.fill(i, rows[i])) &&
              affected == ins.affected && err == ins.err
    {
      var ins := oracle.create(issued, table, rows);
      filled := seq(|rows|, i requires 0 <= i < |rows| => ins.fill(i, rows[i]));
      affected, err := ins.affected, ins.err;
      issued := issued + [CreateReq(table, rows)];
    }
  }
}
