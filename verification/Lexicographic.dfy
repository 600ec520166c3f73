/** The orders SQLite sorts by: text by code point, tuples column by column. */
module Lexicographic {

  import opened Ordering

  predicate TextLess(a: string, b: string) {
    b != "" && (a == "" || a[0] < b[0] || (a[0] == b[0] && TextLess(a[1..], b[1..])))
  }

  lemma {:induction false} TextTransitive(a: string, b: string, c: string)
    requires TextLess(a, b) && TextLess(b, c)
    ensures TextLess(a, c)
  {
    if a != "" && a[0] == b[0] == c[0] { TextTransitive(a[1..], b[1..], c[1..]); }
  }

  lemma {:induction false} TextTotal(a: string, b: string)
    ensures a == b || TextLess(a, b) || TextLess(b, a)
    ensures !TextLess(a, a)
    decreases |a|
  {
    if a != "" {
      TextTotal(a[1..], if b == "" then b else b[1..]);
      if b != "" && a[0] == b[0] {
        assert a == [a[0]] + a[1..] && b == [b[0]] + b[1..];
      }
    }
  }

  lemma TextOneWay(a: string, b: string)
    ensures !(TextLess(a, b) && TextLess(b, a))
  {
    if TextLess(a, b) && TextLess(b, a) {
      TextTransitive(a, b, a);
      TextTotal(a, a);
    }
  }

  function ByText(): (lt: (string, string) -> bool)
    ensures StrictTotal(lt)
  {
    var lt := (a: string, b: string) => TextLess(a, b);
    assert StrictTotal(lt) by {
      forall x, y ensures !lt(x, x) && (x == y || lt(x, y) || lt(y, x)) { TextTotal(x, y); }
      forall x, y, z | lt(x, y) && lt(y, z) ensures lt(x, z) { TextTransitive(x, y, z); }
    }
    lt
  }

  function ByInt(): (lt: (int, int) -> bool)
    ensures StrictTotal(lt)
  {
    (a: int, b: int) => a < b
  }

  predicate PairLess<A(==), B>(first: (A, A) -> bool, second: (B, B) -> bool, x: (A, B), y: (A, B)) {
    first(x.0, y.0) || (x.0 == y.0 && second(x.1, y.1))
  }

  /** Compare the first column, then the second. */
  function Then<A(!new, ==), B(!new, ==)>(first: (A, A) -> bool, second: (B, B) -> bool)
    : (lt: ((A, B), (A, B)) -> bool)
    requires StrictTotal(first) && StrictTotal(second)
    ensures StrictTotal(lt)
    ensures forall x, y :: lt(x, y) <==> PairLess(first, second, x, y)
  {
    (x: (A, B), y: (A, B)) => PairLess(first, second, x, y)
  }

  /** Sort rows by a list of columns that identifies them. */
  function On<K(!new), T(!new, ==)>(columns: K -> T, lt: (T, T) -> bool): (r: (K, K) -> bool)
    requires StrictTotal(lt)
    requires forall a, b {:trigger columns(a), columns(b)} :: columns(a) == columns(b) ==> a == b
    ensures StrictTotal(r)
    ensures forall a, b :: r(a, b) <==> lt(columns(a), columns(b))
  {
    (a: K, b: K) => lt(columns(a), columns(b))
  }
}
