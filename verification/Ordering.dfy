/** The SQL `ORDER BY ... LIMIT` over a set of keys, and keyset pagination on top of it.
    One definition serves the retention batch, the node export and the fleet audit query. */
module Ordering {

  import opened Prelude

  /** `lt` is a strict total order on the whole key type. */
  ghost predicate StrictTotal<T(!new)>(lt: (T, T) -> bool) {
    && (forall x :: !lt(x, x))
    && (forall x, y, z {:trigger lt(x, y), lt(y, z)} :: lt(x, y) && lt(y, z) ==> lt(x, z))
    && (forall x, y {:trigger lt(x, y), lt(y, x)} :: x == y || lt(x, y) || lt(y, x))
  }

  ghost predicate Ascending<T>(lt: (T, T) -> bool, rows: seq<T>) {
    forall i, j :: 0 <= i < j < |rows| ==> lt(rows[i], rows[j])
  }

  /** `rows` lists exactly the members of `s`. */
  ghost predicate Lists<T(!new)>(rows: seq<T>, s: set<T>) {
    forall x :: x in rows <==> x in s
  }

  function SetOf<T(==)>(rows: seq<T>): set<T> {
    set x | x in rows
  }

  ghost predicate IsLeast<T>(lt: (T, T) -> bool, s: set<T>, m: T) {
    m in s && forall y :: y in s ==> y == m || lt(m, y)
  }

  lemma {:induction false} LeastExists<T(!new)>(lt: (T, T) -> bool, s: set<T>)
    requires StrictTotal(lt) && s != {}
    ensures exists m :: IsLeast(lt, s, m)
    decreases s
  {
    var x :| x in s;
    if s == {x} {
      assert IsLeast(lt, s, x);
    } else {
      LeastExists(lt, s - {x});
      var m :| IsLeast(lt, s - {x}, m);
      var least := if lt(x, m) then x else m;
      forall y | y in s ensures y == least || lt(least, y) {
        assert y == x || y in s - {x};
      }
      assert IsLeast(lt, s, least);
    }
  }

  function Least<T(!new, ==)>(lt: (T, T) -> bool, s: set<T>): (m: T)
    requires StrictTotal(lt) && s != {}
    ensures IsLeast(lt, s, m)
  {
    LeastExists(lt, s);
    assert forall a, b :: IsLeast(lt, s, a) && IsLeast(lt, s, b) ==> a == b;
    var m :| m in s && forall y :: y in s ==> y == m || lt(m, y);
    m
  }

  /** SELECT ... ORDER BY. */
  function OrderBy<T(!new, ==)>(lt: (T, T) -> bool, s: set<T>): (rows: seq<T>)
    requires StrictTotal(lt)
    ensures Ascending(lt, rows) && Lists(rows, s) && |rows| == |s|
    decreases s
  {
    if s == {} then [] else
      var m := Least(lt, s);
      var rest := OrderBy(lt, s - {m});
      assert forall x :: x in [m] + rest <==> x == m || x in rest;
      [m] + rest
  }

  /** ... LIMIT n; no limit when `None`. */
  function Limited<T>(rows: seq<T>, limit: Option<nat>): (page: seq<T>) {
    if limit.Some? && limit.value < |rows| then rows[..limit.value] else rows
  }

  /** An ascending listing of a set is unique, so ORDER BY has one answer. */
  lemma {:induction false} AscendingUnique<T(!new)>(lt: (T, T) -> bool, a: seq<T>, b: seq<T>, s: set<T>)
    requires StrictTotal(lt)
    requires Ascending(lt, a) && Ascending(lt, b) && Lists(a, s) && Lists(b, s)
    ensures a == b
    decreases |a|
  {
    assert b == [] || b[0] in b;
    if a == [] {
      assert s == {};
    } else {
      assert a[0] in s;
      assert b != [];
      assert b[0] in s;
      assert a[0] == b[0] by {
        FirstIsLeast(lt, a, s);
        FirstIsLeast(lt, b, s);
      }
      TailLists(lt, a, s);
      TailLists(lt, b, s);
      AscendingUnique(lt, a[1..], b[1..], s - {a[0]});
      assert a == [a[0]] + a[1..] && b == [b[0]] + b[1..];
    }
  }

  lemma FirstIsLeast<T(!new)>(lt: (T, T) -> bool, a: seq<T>, s: set<T>)
    requires Ascending(lt, a) && Lists(a, s) && a != []
    ensures IsLeast(lt, s, a[0])
  {}

  lemma TailLists<T(!new)>(lt: (T, T) -> bool, a: seq<T>, s: set<T>)
    requires StrictTotal(lt) && Ascending(lt, a) && Lists(a, s) && a != []
    ensures Lists(a[1..], s - {a[0]}) && Ascending(lt, a[1..])
  {}

  /** Dropping the first n rows drops exactly those members. */
  lemma {:induction false} SuffixLists<T(!new)>(lt: (T, T) -> bool, rows: seq<T>, s: set<T>, n: nat)
    requires StrictTotal(lt) && Ascending(lt, rows) && Lists(rows, s) && n <= |rows|
    ensures Ascending(lt, rows[n..]) && Lists(rows[n..], s - SetOf(rows[..n]))
    decreases n
  {}

  /** Keys strictly above a keyset cursor. */
  function Above<T(!new, ==)>(lt: (T, T) -> bool, s: set<T>, cursor: T): set<T> {
    set x | x in s && lt(cursor, x)
  }

  /** One page of at most `limit` rows after `cursor`. */
  function Page<T(!new, ==)>(lt: (T, T) -> bool, s: set<T>, cursor: T, limit: nat): (page: seq<T>)
    requires StrictTotal(lt) && limit >= 1
    ensures |page| <= limit && (page == [] <==> Above(lt, s, cursor) == {})
    ensures page <= OrderBy(lt, Above(lt, s, cursor))
  {
    var rows := OrderBy(lt, Above(lt, s, cursor));
    assert rows != [] ==> rows[0] in Above(lt, s, cursor);
    Limited(rows, Some(limit))
  }

  /** Cutting an ascending listing after its n-th row leaves the keys above that row. */
  lemma CutLists<T(!new)>(lt: (T, T) -> bool, rows: seq<T>, s: set<T>, n: nat)
    requires StrictTotal(lt) && Ascending(lt, rows) && Lists(rows, s)
    requires 0 < n <= |rows|
    ensures rows[n - 1] in s
    ensures Ascending(lt, rows[n..]) && Lists(rows[n..], Above(lt, s, rows[n - 1]))
  {}

  /** A first page plus everything above its last key is everything. */
  lemma CutPage<T(!new)>(lt: (T, T) -> bool, s: set<T>, limit: nat)
    requires StrictTotal(lt) && limit >= 1 && s != {}
    ensures var page := Limited(OrderBy(lt, s), Some(limit));
            && page != [] && page[|page| - 1] in s
            && OrderBy(lt, s) == page + OrderBy(lt, Above(lt, s, page[|page| - 1]))
  {
    hide OrderBy, Least;
    var rows := OrderBy(lt, s);
    var page := Limited(rows, Some(limit));
    assert |rows| > 0;
    var next := page[|page| - 1];
    CutLists(lt, rows, s, |page|);
    AscendingUnique(lt, rows[|page|..], OrderBy(lt, Above(lt, s, next)), Above(lt, s, next));
    assert rows == page + rows[|page|..];
  }

  /** What remains above the last key of a page is exactly what the page left out. */
  lemma PageRest<T(!new)>(lt: (T, T) -> bool, s: set<T>, cursor: T, limit: nat)
    requires StrictTotal(lt) && limit >= 1
    requires Page(lt, s, cursor, limit) != []
    ensures var page := Page(lt, s, cursor, limit);
            var next := page[|page| - 1];
            && lt(cursor, next)
            && Above(lt, s, next) < Above(lt, s, cursor)
            && OrderBy(lt, Above(lt, s, cursor)) == page + OrderBy(lt, Above(lt, s, next))
  {
    hide OrderBy, Least;
    CutPage(lt, Above(lt, s, cursor), limit);
    var page := Page(lt, s, cursor, limit);
    var next := page[|page| - 1];
    assert Above(lt, Above(lt, s, cursor), next) == Above(lt, s, next);
    assert next in Above(lt, s, cursor) && next !in Above(lt, s, next);
  }
}
