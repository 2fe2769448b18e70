/**
 * The query that the repository composes on a database handle: the table,
 * whatever a caller's customisation added, the conjunction of predicates with
 * their bound arguments, the ORDER BY items, and offset and limit. The handle
 * accumulates clauses in place (QueryBuilder); the repository's two loops
 * over filters and sort descriptors live here once (base/core.go).
 */
module Queries {
  import opened Wrappers
  import opened Descriptors

  // ------------------------------------------------------ 64-bit integers

  const MinInt64: int := -0x8000_0000_0000_0000
  const MaxInt64: int := 0x7fff_ffff_ffff_ffff

  /** Go's `int` and `int64` on a 64-bit platform. */
  type Int64 = x: int | MinInt64 <= x <= MaxInt64

  /** Two's-complement wrap-around of a mathematical result into 64 bits. */
  function Wrap64(x: int): (r: Int64)
    ensures (r - x) % TwoTo64 == 0
    ensures MinInt64 <= x <= MaxInt64 ==> r == x
  {
    (x - MinInt64) % TwoTo64 + MinInt64
  }

  // ---------------------------------------------------------------- queries

  /** A value bound to a placeholder, or assigned to a column: text or an integer. */
  datatype Value = Text(s: string) | Integer(i: int)

  /** One predicate of the conjunction with the argument bound to its placeholder. */
  datatype Clause = Clause(sql: string, arg: Value)

  /**
   * The state a handle has accumulated. `scopes` stands for what a
   * customisation callback may add beyond predicates and orders (a model,
   * joins, selected columns).
   */
  datatype Query = Query(
    table: Option<string>,
    scopes: seq<string>,
    wheres: seq<Clause>,
    orders: seq<string>,
    offset: Option<int>,
    limit: Option<int>)

  /** The bare handle `db.WithContext(ctx)`: no table, no clauses. */
  const Unscoped: Query := Query(None, [], [], [], None, None)

  function OnTable(table: string): Query {
    Unscoped.(table := Some(table))
  }

  /** The rendering of a filter does not depend on its value, so wrapping the range copy's value leaves it as it was. */
  lemma RenderingIgnoresValue(w: Where, value: string)
    ensures WhereString(w.(value := value)) == WhereString(w)
  {
  }

  /** The clause one filter contributes: its rendering, bound to its (possibly wrapped) value. */
  function WhereClause(w: Where): Clause {
    Clause(WhereString(w), Text(BoundValue(w)))
  }

  /** The clauses a sequence of filters contributes: one per filter, in order. */
  function WhereClauses(ws: seq<Where>): (cs: seq<Clause>)
    ensures |cs| == |ws|
    ensures forall i :: 0 <= i < |ws| ==> cs[i] == WhereClause(ws[i])
  {
    if ws == [] then [] else WhereClauses(ws[..|ws| - 1]) + [WhereClause(ws[|ws| - 1])]
  }

  lemma WhereClausesStep(ws: seq<Where>, i: nat)
    requires i < |ws|
    ensures WhereClauses(ws[..i + 1]) == WhereClauses(ws[..i]) + [WhereClause(ws[i])]
  {
    assert ws[..i + 1][..i] == ws[..i];
  }

  /** The ORDER BY items a sequence of sort descriptors contributes: the non-empty renderings, in order. */
  function OrderClauses(os: seq<OrderBy>): (cs: seq<string>)
    ensures |cs| <= |os|
    ensures forall i :: 0 <= i < |cs| ==> cs[i] != ""
  {
    if os == [] then []
    else
      var r := OrderByString(os[|os| - 1]);
      OrderClauses(os[..|os| - 1]) + (if r == "" then [] else [r])
  }

  /**
   * Nothing else gets in and no recognised descriptor is dropped: every item
   * is the rendering of one of the descriptors, and every recognised
   * descriptor's rendering is among the items.
   */
  lemma {:induction false} OrderClausesMembers(os: seq<OrderBy>)
    ensures forall c :: c in OrderClauses(os) ==> exists o :: o in os && OrderByString(o) == c
    ensures forall o :: o in os && IsRecognized(o) ==> OrderByString(o) in OrderClauses(os)
  {
    if os != [] {
      var rest, last := os[..|os| - 1], os[|os| - 1];
      OrderClausesMembers(rest);
      assert os == rest + [last];
      assert forall o :: o in os <==> o in rest || o == last;
    }
  }

  /** Order is kept: the items of a concatenation are those of the first part, then those of the second. */
  lemma {:induction false} OrderClausesConcat(a: seq<OrderBy>, b: seq<OrderBy>)
    ensures OrderClauses(a + b) == OrderClauses(a) + OrderClauses(b)
  {
    if b == [] {
      assert a + b == a;
    } else {
      var b' := b[..|b| - 1];
      assert (a + b)[..|a + b| - 1] == a + b';
      assert (a + b)[|a + b| - 1] == b[|b| - 1];
      OrderClausesConcat(a, b');
    }
  }

  /** When every descriptor is recognised, each one contributes its rendering, position for position. */
  lemma {:induction false} OrderClausesAllRecognized(os: seq<OrderBy>)
    requires forall o :: o in os ==> IsRecognized(o)
    ensures |OrderClauses(os)| == |os|
    ensures forall i :: 0 <= i < |os| ==> OrderClauses(os)[i] == OrderByString(os[i])
  {
    if os != [] {
      var rest, last := os[..|os| - 1], os[|os| - 1];
      assert forall o :: o in rest ==> o in os;
      assert last in os;
      OrderClausesAllRecognized(rest);
      var r := OrderByString(last);
      assert r != "";
      assert OrderClauses(os) == OrderClauses(rest) + [r];
      forall i | 0 <= i < |os|
        ensures OrderClauses(os)[i] == OrderByString(os[i])
      {
        if i < |rest| {
          assert os[i] == rest[i];
        }
      }
    }
  }

  /** The query once the filters and then the sort descriptors are layered on a base. */
  function Filtered(base: Query, ws: seq<Where>, os: seq<OrderBy>): Query {
    base.(wheres := base.wheres + WhereClauses(ws), orders := base.orders + OrderClauses(os))
  }

  // ------------------------------------------------------------- pagination

  const TwoTo64: int := 0x1_0000_0000_0000_0000

  /** A product keeps a congruence modulo 2^64 of its first factor. */
  lemma CongruentProduct(a: int, x: int, b: int)
    requires (a - x) % TwoTo64 == 0
    ensures (a * b - x * b) % TwoTo64 == 0
  {
    var k := (a - x) / TwoTo64;
    assert a - x == TwoTo64 * k;
    assert a * b - x * b == (a - x) * b;
    assert a * b - x * b == TwoTo64 * (k * b);
  }

  /** Congruence modulo 2^64 is transitive. */
  lemma CongruentTrans(a: int, b: int, c: int)
    requires (a - b) % TwoTo64 == 0 && (b - c) % TwoTo64 == 0
    ensures (a - c) % TwoTo64 == 0
  {
    var j, k := (a - b) / TwoTo64, (b - c) / TwoTo64;
    assert a - b == TwoTo64 * j && b - c == TwoTo64 * k;
    assert a - c == TwoTo64 * (j + k);
  }

  /** Two 64-bit values congruent modulo 2^64 are equal. */
  lemma CongruentInt64Equal(a: Int64, b: Int64)
    requires (a - b) % TwoTo64 == 0
    ensures a == b
  {
    var k := (a - b) / TwoTo64;
    assert a - b == TwoTo64 * k;
  }

  /**
   * `(page - 1) * pageSize`, computed in Go's 64-bit `int`: congruent to the
   * exact product modulo 2^64, and equal to it whenever it fits.
   */
  function OffsetFor(page: Int64, pageSize: Int64): (r: Int64)
    ensures (r - (page - 1) * pageSize) % TwoTo64 == 0
    ensures MinInt64 <= (page - 1) * pageSize <= MaxInt64 ==> r == (page - 1) * pageSize
  {
    var pagesBefore := Wrap64(page - 1);
    var r := Wrap64(pagesBefore * pageSize);
    CongruentProduct(pagesBefore, page - 1, pageSize);
    CongruentTrans(r, pagesBefore * pageSize, (page - 1) * pageSize);
    if MinInt64 <= (page - 1) * pageSize <= MaxInt64 then
      CongruentInt64Equal(r, (page - 1) * pageSize);
      r
    else
      r
  }

  /** The page fetch: the counted query with offset and limit set. */
  function Paged(q: Query, page: Int64, pageSize: Int64): Query {
    q.(offset := Some(OffsetFor(page, pageSize)), limit := Some(pageSize))
  }

  /** Without overflow the offset is exactly the rows of the pages before `page`. */
  lemma OffsetExact(page: Int64, pageSize: Int64)
    requires 1 <= page && 0 <= pageSize && page * pageSize <= MaxInt64
    ensures OffsetFor(page, pageSize) == (page - 1) * pageSize
  {
    assert (page - 1) * pageSize == page * pageSize - pageSize;
  }

  /** Page 0 is not rejected: its offset is negative. */
  lemma PageZeroOffset(pageSize: Int64)
    requires 0 <= pageSize
    ensures OffsetFor(0, pageSize) == -pageSize
  {
  }

  /** A large page number wraps the offset around to the most negative 64-bit value. */
  lemma OffsetOverflow()
    ensures OffsetFor(0x4000_0000_0000_0001, 2) == MinInt64
  {
  }

  /**
   * Reference meaning of OFFSET/LIMIT over the rows that match, in order:
   * the rows at positions offset .. offset + limit - 1 that exist.
   */
  function Window<T>(rows: seq<T>, offset: nat, limit: nat): (w: seq<T>)
    ensures |w| <= limit
  {
    var from := if offset <= |rows| then offset else |rows|;
    var to := if offset + limit <= |rows| then offset + limit else |rows|;
    rows[from..to]
  }

  lemma ProductFacts(k: nat, pageSize: nat)
    requires 0 < k && 0 < pageSize
    ensures k <= k * pageSize && pageSize <= k * pageSize
    ensures (k - 1) * pageSize == k * pageSize - pageSize
  {
  }

  /** Pages 1 .. k of size `pageSize`, one after another. */
  function PagesUpTo<T>(rows: seq<T>, k: nat, pageSize: nat): seq<T>
    requires 0 < pageSize && k * pageSize <= MaxInt64
  {
    if k == 0 then []
    else
      ProductFacts(k, pageSize);
      OffsetExact(k, pageSize);
      PagesUpTo(rows, k - 1, pageSize) + Window(rows, OffsetFor(k, pageSize), pageSize)
  }

  /**
   * The offsets neither overlap nor skip: the first k pages together are
   * exactly the first k * pageSize matching rows.
   */
  lemma {:induction false} PagesTile<T>(rows: seq<T>, k: nat, pageSize: nat)
    requires 0 < pageSize && k * pageSize <= MaxInt64
    ensures PagesUpTo(rows, k, pageSize) == rows[..if k * pageSize <= |rows| then k * pageSize else |rows|]
  {
    if k > 0 {
      ProductFacts(k, pageSize);
      var lo := k * pageSize - pageSize;
      assert OffsetFor(k, pageSize) == lo by { OffsetExact(k, pageSize); }
      assert PagesUpTo(rows, k, pageSize) == PagesUpTo(rows, k - 1, pageSize) + Window(rows, lo, pageSize);
      PagesTile(rows, k - 1, pageSize);
      WindowExtends(rows, lo, pageSize);
    }
  }

  /** The window after the first `lo` rows extends that prefix by up to `pageSize` rows. */
  lemma WindowExtends<T>(rows: seq<T>, lo: nat, pageSize: nat)
    ensures var a, b := lo + pageSize, if lo <= |rows| then lo else |rows|;
      rows[..b] + Window(rows, lo, pageSize) == rows[..if a <= |rows| then a else |rows|]
  {
    var b := if lo + pageSize <= |rows| then lo + pageSize else |rows|;
    assert rows[..if lo <= |rows| then lo else |rows|] + Window(rows, lo, pageSize) == rows[..b];
  }

  // ---------------------------------------------------------------- builder

  /** A `*gorm.DB` whose statement accumulates clauses in place. */
  class QueryBuilder {
    var table: Option<string>
    var scopes: seq<string>
    var wheres: seq<Clause>
    var orders: seq<string>
    var offset: Option<int>
    var limit: Option<int>

    /** The accumulated query. */
    function Snapshot(): Query
      reads this
    {
      Query(table, scopes, wheres, orders, offset, limit)
    }

    constructor (q: Query)
      ensures Snapshot() == q
    {
      table, scopes, wheres, orders := q.table, q.scopes, q.wheres, q.orders;
      offset, limit := q.offset, q.limit;
    }

    /** `db.Where(sql, arg)`: one more predicate, conjoined after the others. */
    method AddWhere(sql: string, arg: Value)
      modifies this
      ensures Snapshot() == old(Snapshot()).(wheres := old(wheres) + [Clause(sql, arg)])
    {
      wheres := wheres + [Clause(sql, arg)];
    }

    /** `db.Order(sql)`: one more ORDER BY item, after the others. */
    method AddOrder(sql: string)
      modifies this
      ensures Snapshot() == old(Snapshot()).(orders := old(orders) + [sql])
    {
      orders := orders + [sql];
    }

    /** `db.Offset(n).Limit(m)`. */
    method SetPage(offset: int, limit: int)
      modifies this
      ensures Snapshot() == old(Snapshot()).(offset := Some(offset), limit := Some(limit))
    {
      this.offset, this.limit := Some(offset), Some(limit);
    }
  }

  /**
   * The repository's filter loop: for each filter, in order, the range copy
   * gets its value wrapped when LIKE is set, and its rendering is added with
   * that value bound. The caller's sequence is a value and stays as it was.
   */
  method ApplyWheres(db: QueryBuilder, ws: seq<Where>)
    modifies db
    ensures db.Snapshot() == old(db.Snapshot()).(wheres := old(db.wheres) + WhereClauses(ws))
  {
    for i := 0 to |ws|
      invariant db.Snapshot() == old(db.Snapshot()).(wheres := old(db.wheres) + WhereClauses(ws[..i]))
    {
      var v := ws[i];
      if v.isLike {
        v := v.(value := "%" + v.value + "%");
      }
      assert Clause(WhereString(v), Text(v.value)) == WhereClause(ws[i]) by {
        assert v == ws[i].(value := BoundValue(ws[i]));
        RenderingIgnoresValue(ws[i], BoundValue(ws[i]));
      }
      db.AddWhere(WhereString(v), Text(v.value));
      WhereClausesStep(ws, i);
    }
    assert ws[..|ws|] == ws;
  }

  /** The repository's order loop: each descriptor that renders non-empty adds one ORDER BY item, in order. */
  method ApplyOrders(db: QueryBuilder, os: seq<OrderBy>)
    modifies db
    ensures db.Snapshot() == old(db.Snapshot()).(orders := old(db.orders) + OrderClauses(os))
  {
    for i := 0 to |os|
      invariant db.Snapshot() == old(db.Snapshot()).(orders := old(db.orders) + OrderClauses(os[..i]))
    {
      var orderByStr := OrderByString(os[i]);
      if orderByStr != "" {
        db.AddOrder(orderByStr);
      }
      assert os[..i + 1][..i] == os[..i];
    }
    assert os[..|os|] == os;
  }
}
