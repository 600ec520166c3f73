/** Integer congruence, powers of two, and little-endian bytes. */
module Congruence {

  function Times(k: int, p: int): int {
    k * p
  }

  ghost predicate Cong(a: int, b: int, p: int) {
    exists k :: a - b == Times(k, p)
  }

  lemma CongAdd(a: int, b: int, c: int, d: int, p: int)
    requires Cong(a, b, p) && Cong(c, d, p)
    ensures Cong(a + c, b + d, p) && Cong(a - c, b - d, p)
  {
    var k :| a - b == Times(k, p);
    var l :| c - d == Times(l, p);
    assert (a + c) - (b + d) == Times(k + l, p);
    assert (a - c) - (b - d) == Times(k - l, p);
  }

  lemma CongMul(a: int, b: int, c: int, d: int, p: int)
    requires Cong(a, b, p) && Cong(c, d, p)
    ensures Cong(a * c, b * d, p)
  {
    var k :| a - b == Times(k, p);
    var l :| c - d == Times(l, p);
    calc {
      a * c - b * d;
      (a - b) * c + b * (c - d);
      (k * p) * c + b * (l * p);
      (k * c + b * l) * p;
      Times(k * c + b * l, p);
    }
  }

  lemma CongTransitive(a: int, b: int, c: int, p: int)
    requires Cong(a, b, p) && Cong(b, c, p)
    ensures Cong(a, c, p)
  {
    var k :| a - b == Times(k, p);
    var l :| b - c == Times(l, p);
    assert a - c == Times(k + l, p);
  }

  lemma CongSelf(a: int, p: int)
    ensures Cong(a, a, p)
  {
    assert a - a == Times(0, p);
  }

  lemma CongMod(a: int, p: int)
    requires p > 0
    ensures Cong(a % p, a, p) && 0 <= a % p < p
  {
    assert a % p - a == Times(-(a / p), p);
  }

  lemma AtLeastOnce(k: int, p: int)
    requires k >= 1 && p > 0
    ensures k * p >= p
  {}

  lemma QuotientUnique(q: int, r: int, q': int, r': int, p: int)
    requires p > 0 && 0 <= r < p && 0 <= r' < p && q * p + r == q' * p + r'
    ensures q == q' && r == r'
  {
    assert (q - q') * p == q * p - q' * p && (q' - q) * p == q' * p - q * p;
    if q > q' {
      AtLeastOnce(q - q', p);
    } else if q < q' {
      AtLeastOnce(q' - q, p);
    }
  }

  /** Congruent numbers have the same remainder. */
  lemma CongRemainder(a: int, b: int, p: int)
    requires p > 0 && Cong(a, b, p)
    ensures a % p == b % p
  {
    var k :| a - b == Times(k, p);
    assert a / p * p + a % p == (b / p + k) * p + b % p;
    QuotientUnique(a / p, a % p, b / p + k, b % p, p);
  }

  function Pow2(k: nat): (r: nat)
    ensures r > 0
  {
    if k == 0 then 1 else 2 * Pow2(k - 1)
  }

  lemma {:induction false} Pow2Add(a: nat, b: nat)
    ensures Pow2(a + b) == Pow2(a) * Pow2(b)
    decreases a
  {
    if a > 0 { Pow2Add(a - 1, b); }
  }

  lemma Pow2Values()
    ensures Pow2(3) == 8 && Pow2(8) == 256 && Pow2(64) == 0x1_0000_0000_0000_0000
    ensures Pow2(254) * 2 == Pow2(255) && Pow2(255) * 2 == Pow2(256)
  {
    assert Pow2(4) == 16;
    Pow2Add(4, 4);
    Pow2Add(8, 8);
    Pow2Add(16, 16);
    Pow2Add(32, 32);
  }

  lemma Pow2Of255()
    ensures Pow2(255) == 0x8000000000000000_0000000000000000_0000000000000000_0000000000000000
  {
    Pow2Values();
    Pow2Add(64, 64);
    Pow2Add(128, 128);
  }

  type Byte = b: nat | b < 256

  /** a & b and a | b, bit by bit. */
  function BitAnd(a: nat, b: nat): (r: nat)
    ensures r <= a
  {
    if a == 0 || b == 0 then 0 else 2 * BitAnd(a / 2, b / 2) + (if a % 2 == 1 && b % 2 == 1 then 1 else 0)
  }

  function BitOr(a: nat, b: nat): nat {
    if a == 0 then b else if b == 0 then a
    else 2 * BitOr(a / 2, b / 2) + (if a % 2 == 1 || b % 2 == 1 then 1 else 0)
  }

  lemma AndHalves(a: nat, m: nat)
    ensures BitAnd(a, 2 * m) == 2 * BitAnd(a / 2, m) && BitAnd(a, 2 * m + 1) == 2 * BitAnd(a / 2, m) + a % 2
  {}

  lemma OrHalves(a: nat, m: nat)
    requires m > 0
    ensures BitOr(a, 2 * m) == 2 * BitOr(a / 2, m) + a % 2
  {}

  /** A mask of k ones keeps the remainder. */
  lemma {:induction false} LowMask(a: nat, k: nat)
    ensures BitAnd(a, Pow2(k) - 1) == a % Pow2(k)
    decreases k
  {
    if k > 0 {
      LowMask(a / 2, k - 1);
      var p := Pow2(k - 1);
      AndHalves(a, p - 1);
      hide BitAnd;
      HalfRemainder(a, p);
    }
  }

  /** Setting bit k of a number with no higher bit. */
  lemma {:induction false} SetBit(a: nat, k: nat)
    requires a < 2 * Pow2(k)
    ensures BitOr(a, Pow2(k)) == Pow2(k) + a % Pow2(k)
    decreases k
  {
    if k > 0 {
      SetBit(a / 2, k - 1);
      OrHalves(a, Pow2(k - 1));
      hide BitOr;
      HalfRemainder(a, Pow2(k - 1));
    }
  }

  lemma HalfRemainder(a: nat, p: nat)
    requires p > 0
    ensures a % (2 * p) == 2 * ((a / 2) % p) + a % 2
  {
    var q, r := (a / 2) / p, (a / 2) % p;
    assert a / 2 == q * p + r;
    assert a == q * (2 * p) + (2 * r + a % 2);
    QuotientUnique(a / (2 * p), a % (2 * p), q, 2 * r + a % 2, 2 * p);
  }

  /** int.from_bytes(b, "little"). */
  function FromBytes(b: seq<Byte>): (n: nat) {
    if b == [] then 0 else b[0] + 256 * FromBytes(b[1..])
  }

  /** n.to_bytes(size, "little"); a number that does not fit is refused. */
  function ToBytes(n: nat, size: nat): (b: seq<Byte>)
    requires n < Pow2(8 * size)
    ensures |b| == size
  {
    if size == 0 then [] else
      NextByteFits(n, size);
      [n % 256] + ToBytes(n / 256, size - 1)
  }

  lemma NextByteFits(n: nat, size: nat)
    requires size > 0 && n < Pow2(8 * size)
    ensures n / 256 < Pow2(8 * (size - 1))
  {
    Pow2Values();
    Pow2Add(8, 8 * (size - 1));
  }

  lemma FromBytesFirst(first: Byte, rest: seq<Byte>)
    ensures FromBytes([first] + rest) == first + 256 * FromBytes(rest)
  {
    assert ([first] + rest)[1..] == rest;
  }

  lemma {:induction false} BytesRoundTrip(n: nat, size: nat)
    requires n < Pow2(8 * size)
    ensures FromBytes(ToBytes(n, size)) == n
    decreases size
  {
    if size > 0 {
      NextByteFits(n, size);
      BytesRoundTrip(n / 256, size - 1);
      FromBytesFirst(n % 256, ToBytes(n / 256, size - 1));
      hide FromBytes, Pow2;
    }
  }

  lemma {:induction false} FromBytesFits(b: seq<Byte>)
    ensures FromBytes(b) < Pow2(8 * |b|)
    decreases |b|
  {
    if b != [] {
      FromBytesFits(b[1..]);
      Pow2Values();
      Pow2Add(8, 8 * |b[1..]|);
    }
  }
}
