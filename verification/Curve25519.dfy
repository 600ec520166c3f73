/** The hand-written X25519 ladder (section 5 of RFC 7748): its step is the Montgomery step, and its
    deferred-swap loop is the textbook ladder. */
module Curve25519 {

  import opened Prelude
  import opened Congruence

  const P: int := 0x7FFFFFFFFFFFFFFF_FFFFFFFFFFFFFFFF_FFFFFFFFFFFFFFFF_FFFFFFFFFFFFFFED
  const A24: int := 121665

  /** x = X/Z on the curve y^2 = x^3 + 486662 x^2 + x. */
  datatype Point = Point(x: int, z: int)

  datatype Rungs = Rungs(low: Point, high: Point)

  const BASE_X: int := 9
  const ORIGIN: Point := Point(1, 0)
  const BASE: Point := Point(9, 1)

  predicate Reduced(q: Point) {
    0 <= q.x < P && 0 <= q.z < P
  }

  /* ---------- the Montgomery formulas ---------- */

  function DoubleX(x: int, z: int): int {
    (x * x - z * z) * (x * x - z * z)
  }

  function DoubleZ(x: int, z: int): int {
    4 * x * z * (x * x + 486662 * x * z + z * z)
  }

  function AddX(q: Point, r: Point): int {
    4 * ((q.x * r.x - q.z * r.z) * (q.x * r.x - q.z * r.z))
  }

  function AddZ(q: Point, r: Point): int {
    9 * (4 * ((q.x * r.z - q.z * r.x) * (q.x * r.z - q.z * r.x)))
  }

  /** x-only doubling. */
  function Double(q: Point): (r: Point)
    ensures Reduced(r)
  {
    Point(DoubleX(q.x, q.z) % P, DoubleZ(q.x, q.z) % P)
  }

  /** Differential addition of two points whose difference is the base point. */
  function Add(q: Point, r: Point): (s: Point)
    ensures Reduced(s)
  {
    Point(AddX(q, r) % P, AddZ(q, r) % P)
  }

  lemma AddCommutes(q: Point, r: Point)
    ensures Add(q, r) == Add(r, q)
  {
    assert AddX(q, r) == AddX(r, q) by {
      assert q.x * r.x - q.z * r.z == r.x * q.x - r.z * q.z;
    }
    assert AddZ(q, r) == AddZ(r, q) by {
      var d := q.x * r.z - q.z * r.x;
      assert r.x * q.z - r.z * q.x == -d;
      assert (-d) * (-d) == d * d;
    }
  }

  /* ---------- the code's step ---------- */

  /** One pass of the loop body after the conditional swap. */
  method LadderStep(x1: int, q: Point, r: Point) returns (q': Point, r': Point)
    requires x1 == BASE_X
    ensures q' == Double(q) && r' == Add(r, q)
    ensures Reduced(q') && Reduced(r')
  {
    hide Double, Add, Cong, DoubleX, DoubleZ, AddX, AddZ;
    var x2, z2, x3, z3 := q.x, q.z, r.x, r.z;
    var a := Reduce(x2 + z2);
    var aa := Reduce(Times(a, a));
    var b := Reduce(x2 - z2);
    var bb := Reduce(Times(b, b));
    var e := Reduce(aa - bb);
    var c := Reduce(x3 + z3);
    var d := Reduce(x3 - z3);
    var da := Reduce(Times(d, a));
    var cb := Reduce(Times(c, b));
    var sum, difference := Reduce(da + cb), Reduce(da - cb);
    x3 := Reduce(Times(sum, sum));
    var square := Reduce(Times(difference, difference));
    z3 := Reduce(Times(x1, square));
    x2 := Reduce(Times(aa, bb));
    var m := Reduce(Times(A24, e));
    var n := Reduce(aa + m);
    z2 := Reduce(Times(e, n));
    q', r' := Point(x2, z2), Point(x3, z3);
    hide Times, Reduce;
    DoublingResidues(q.x + q.z, q.x - q.z, a, aa, b, bb, e, m, n, x2, z2);
    AddingResidues(q, r, a, b, c, d, da, cb, sum, difference, square, x3, z3);
    DoublingIdentity(q.x, q.z);
    AddingIdentity(q, r);
    DoubleIs(q, x2, z2);
    AddIs(r, q, x3, z3);
  }

  /** v % P. */
  function Reduce(v: int): (r: int)
    ensures 0 <= r < P && Cong(r, v, P)
  {
    CongMod(v, P);
    v % P
  }

  lemma DoubleIs(q: Point, x: int, z: int)
    requires Cong(x, DoubleX(q.x, q.z), P) && Cong(z, DoubleZ(q.x, q.z), P) && 0 <= x < P && 0 <= z < P
    ensures Double(q) == Point(x, z)
  {
    hide DoubleX, DoubleZ, Cong;
    RemainderOf(x, DoubleX(q.x, q.z));
    RemainderOf(z, DoubleZ(q.x, q.z));
  }

  lemma AddIs(q: Point, r: Point, x: int, z: int)
    requires Cong(x, AddX(q, r), P) && Cong(z, AddZ(q, r), P) && 0 <= x < P && 0 <= z < P
    ensures Add(q, r) == Point(x, z)
  {
    hide AddX, AddZ, Cong;
    RemainderOf(x, AddX(q, r));
    RemainderOf(z, AddZ(q, r));
  }

  /** A representative of a product of representatives represents the product; likewise sums. */
  lemma ProductOf(r: int, a: int, b: int, c: int, d: int)
    requires Cong(r, Times(a, c), P) && Cong(a, b, P) && Cong(c, d, P)
    ensures Cong(r, Times(b, d), P)
  {
    CongMul(a, b, c, d, P);
    hide Cong;
    CongTransitive(r, a * c, b * d, P);
  }

  lemma SumOf(r: int, a: int, b: int, c: int, d: int)
    requires Cong(r, a + c, P) && Cong(a, b, P) && Cong(c, d, P)
    ensures Cong(r, b + d, P)
  {
    CongAdd(a, b, c, d, P);
    hide Cong;
    CongTransitive(r, a + c, b + d, P);
  }

  lemma DifferenceOf(r: int, a: int, b: int, c: int, d: int)
    requires Cong(r, a - c, P) && Cong(a, b, P) && Cong(c, d, P)
    ensures Cong(r, b - d, P)
  {
    CongAdd(a, b, c, d, P);
    hide Cong;
    CongTransitive(r, a - c, b - d, P);
  }

  /** (X+Z)^2 (X-Z)^2 = (X^2-Z^2)^2, and with e = 4XZ, e ((X+Z)^2 + a24 e) = 4XZ (X^2 + 486662 XZ + Z^2). */
  lemma DoublingIdentity(x: int, z: int)
    ensures var uu, vv := Times(x + z, x + z), Times(x - z, x - z);
            && Times(uu, vv) == DoubleX(x, z)
            && Times(uu - vv, uu + Times(A24, uu - vv)) == DoubleZ(x, z)
  {}

  /** (x3-z3)(x2+z2) +- (x3+z3)(x2-z2) = 2 (x2 x3 - z2 z3) and 2 (x3 z2 - z3 x2). */
  lemma AddingIdentity(q: Point, r: Point)
    ensures var da, cb := Times(r.x - r.z, q.x + q.z), Times(r.x + r.z, q.x - q.z);
            Times(da + cb, da + cb) == AddX(r, q) && Times(BASE_X, Times(da - cb, da - cb)) == AddZ(r, q)
  {}

  /** The doubling half of the step on residues of u = X+Z and v = X-Z, with w = u^2 - v^2. */
  lemma DoublingResidues(u: int, v: int, a: int, aa: int, b: int, bb: int, e: int, m: int, n: int, x: int, z: int)
    requires Cong(a, u, P) && Cong(b, v, P) && Cong(aa, Times(a, a), P) && Cong(bb, Times(b, b), P)
    requires Cong(e, aa - bb, P) && Cong(m, Times(A24, e), P) && Cong(n, aa + m, P)
    requires Cong(x, Times(aa, bb), P) && Cong(z, Times(e, n), P)
    ensures var w := Times(u, u) - Times(v, v);
            && Cong(x, Times(Times(u, u), Times(v, v)), P)
            && Cong(z, Times(w, Times(u, u) + Times(A24, w)), P)
  {
    hide Cong, Times;
    var uu, vv := Times(u, u), Times(v, v);
    var w := uu - vv;
    ProductOf(aa, a, u, a, u);
    ProductOf(bb, b, v, b, v);
    ProductOf(x, aa, uu, bb, vv);
    DifferenceOf(e, aa, uu, bb, vv);
    CongSelf(A24, P);
    ProductOf(m, A24, A24, e, w);
    SumOf(n, aa, uu, m, Times(A24, w));
    ProductOf(z, e, w, n, uu + Times(A24, w));
  }

  /** The adding half. */
  lemma AddingResidues(q: Point, r: Point, a: int, b: int, c: int, d: int, da: int, cb: int, sum: int,
                       difference: int, square: int, x: int, z: int)
    requires Cong(a, q.x + q.z, P) && Cong(b, q.x - q.z, P) && Cong(c, r.x + r.z, P) && Cong(d, r.x - r.z, P)
    requires Cong(da, Times(d, a), P) && Cong(cb, Times(c, b), P)
    requires Cong(sum, da + cb, P) && Cong(difference, da - cb, P)
    requires Cong(x, Times(sum, sum), P) && Cong(square, Times(difference, difference), P)
    requires Cong(z, Times(BASE_X, square), P)
    ensures var da', cb' := Times(r.x - r.z, q.x + q.z), Times(r.x + r.z, q.x - q.z);
            && Cong(x, Times(da' + cb', da' + cb'), P)
            && Cong(z, Times(BASE_X, Times(da' - cb', da' - cb')), P)
  {
    hide Cong, Times;
    var da', cb' := Times(r.x - r.z, q.x + q.z), Times(r.x + r.z, q.x - q.z);
    ProductOf(da, d, r.x - r.z, a, q.x + q.z);
    ProductOf(cb, c, r.x + r.z, b, q.x - q.z);
    SumOf(sum, da, da', cb, cb');
    DifferenceOf(difference, da, da', cb, cb');
    ProductOf(x, sum, da' + cb', sum, da' + cb');
    ProductOf(square, difference, da' - cb', difference, da' - cb');
    CongSelf(BASE_X, P);
    ProductOf(z, BASE_X, BASE_X, square, Times(da' - cb', da' - cb'));
  }

  lemma RemainderOf(r: int, a: int)
    requires Cong(r, a, P) && 0 <= r < P
    ensures r == a % P
  {
    CongRemainder(r, a, P);
  }

  /* ---------- the textbook ladder ---------- */

  function Bit(n: nat, t: nat): (b: nat)
    ensures b == 0 || b == 1
  {
    (n / Pow2(t)) % 2
  }

  function Swap(r: Rungs): Rungs {
    Rungs(r.high, r.low)
  }

  /** The pair after handling bits 254 down to t. */
  function Ladder(n: nat, t: nat): Rungs
    requires t <= 255
    decreases 255 - t
  {
    if t == 255 then Rungs(ORIGIN, BASE) else
      var r := Ladder(n, t + 1);
      if Bit(n, t) == 0 then Rungs(Double(r.low), Add(r.low, r.high))
      else Rungs(Add(r.low, r.high), Double(r.high))
  }

  lemma ShiftStep(n: nat, t: nat)
    ensures n / Pow2(t) == 2 * (n / Pow2(t + 1)) + Bit(n, t)
  {
    HalveQuotient(n, Pow2(t));
  }

  lemma HalveQuotient(n: nat, p: nat)
    requires p > 0
    ensures (n / p) / 2 == n / (2 * p)
  {
    var m, s := n / p, n % p;
    var h, b := m / 2, m % 2;
    assert n == m * p + s;
    assert m * p == h * (2 * p) + b * p;
    assert b * p == if b == 0 then 0 else p;
    QuotientUnique(n / (2 * p), n % (2 * p), h, b * p + s, 2 * p);
  }

  ghost predicate StandsFor(rep: (nat, Point) -> bool, m: nat, r: Rungs) {
    rep(m, r.low) && rep(m + 1, r.high)
  }

  /** `rep(m, q)` reads "q stands for m times the base point"; it is any relation that doubling and
      differential addition respect. */
  ghost predicate Respected(rep: (nat, Point) -> bool) {
    hide Double, Add;
    && rep(0, ORIGIN) && rep(1, BASE)
    && (forall m: nat, q: Point :: rep(m, q) ==> rep(2 * m, Double(q)))
    && (forall m: nat, r: Rungs :: StandsFor(rep, m, r) ==> rep(2 * m + 1, Add(r.low, r.high)))
  }

  lemma RungsAdvance(rep: (nat, Point) -> bool, m: nat, r: Rungs)
    requires Respected(rep) && StandsFor(rep, m, r)
    ensures StandsFor(rep, 2 * m, Rungs(Double(r.low), Add(r.low, r.high)))
    ensures StandsFor(rep, 2 * m + 1, Rungs(Add(r.low, r.high), Double(r.high)))
  {
    hide Double, Add;
    assert rep(2 * (m + 1), Double(r.high));
  }

  /** After handling bits 254 down to t the rungs stand for m and m + 1, m = n >> t: every differential
      addition sees two points that differ by the base point. */
  lemma {:induction false} LadderStandsFor(rep: (nat, Point) -> bool, n: nat, t: nat)
    requires Respected(rep) && n < Pow2(255) && t <= 255
    ensures StandsFor(rep, n / Pow2(t), Ladder(n, t))
    decreases 255 - t
  {
    hide Double, Add, Pow2, StandsFor, Respected, Bit;
    if t == 255 {
      BelowPower(n, Pow2(255));
      StartStandsFor(rep);
    } else {
      LadderStandsFor(rep, n, t + 1);
      ShiftStep(n, t);
      RungsAdvance(rep, n / Pow2(t + 1), Ladder(n, t + 1));
    }
  }

  lemma BelowPower(n: nat, p: nat)
    requires n < p
    ensures n / p == 0
  {}

  lemma StartStandsFor(rep: (nat, Point) -> bool)
    requires Respected(rep)
    ensures StandsFor(rep, 0, Rungs(ORIGIN, BASE))
  {
    hide Double, Add;
  }

  /** At the end the lower rung stands for n times the base point. */
  lemma LadderEnds(rep: (nat, Point) -> bool, n: nat)
    requires Respected(rep) && n < Pow2(255)
    ensures rep(n, Ladder(n, 0).low)
  {
    hide Respected, Ladder;
    LadderStandsFor(rep, n, 0);
  }

  lemma {:induction false} LadderReduced(n: nat, t: nat)
    requires t <= 255
    ensures Reduced(Ladder(n, t).low) && Reduced(Ladder(n, t).high)
    decreases 255 - t
  {}

  /* ---------- the deferred-swap loop ---------- */

  method RunLadder(n: nat) returns (q: Point)
    ensures q == Ladder(n, 0).low && Reduced(q)
  {
    hide Double, Add, Bit, Reduced;
    var x1 := BASE_X;
    var r := Rungs(Point(1, 0), Point(x1, 1));
    var swap := 0;
    var t := 255;
    while t > 0
      invariant 0 <= t <= 255 && (swap == 0 || swap == 1)
      invariant Ladder(n, t) == if swap == 0 then r else Swap(r)
    {
      t := t - 1;
      var kt := Bit(n, t);
      swap := if swap == kt then 0 else 1;
      if swap == 1 { r := Swap(r); }
      swap := kt;
      AddCommutes(r.high, r.low);
      var low, high := LadderStep(x1, r.low, r.high);
      r := Rungs(low, high);
    }
    if swap == 1 { r := Swap(r); }
    LadderReduced(n, 0);
    q := r.low;
  }

  /* ---------- clamping ---------- */

  function Clamp(k: seq<Byte>): (c: seq<Byte>)
    requires |k| == 32
    ensures |c| == 32
  {
    ClampLast(k[31]);
    [BitAnd(k[0], 248)] + k[1..31] + [BitOr(BitAnd(k[31], 127), 64)]
  }

  lemma ClampFirst(b: Byte)
    ensures BitAnd(b, 248) == b - b % 8
  {
    hide BitAnd, Pow2;
    AndHalves(b, 124);
    AndHalves(b / 2, 62);
    AndHalves(b / 4, 31);
    SmallPowers();
    LowMask(b / 8, 5);
  }

  lemma ClampLast(b: Byte)
    ensures BitOr(BitAnd(b, 127), 64) == 64 + b % 64
  {
    hide BitAnd, BitOr, Pow2;
    SmallPowers();
    LowMask(b, 7);
    SetBit(b % 128, 6);
  }

  lemma Pow2Byte(k: nat)
    ensures 256 * Pow2(k) == Pow2(8 + k)
  {
    Pow2Values();
    Pow2Add(8, k);
  }

  lemma {:induction false} LastByte(front: seq<Byte>, last: Byte)
    ensures FromBytes(front + [last]) == FromBytes(front) + Times(Pow2(8 * |front|), last)
    decreases |front|
  {
    if front == [] {
      FromBytesFirst(last, []);
      assert [last] + [] == front + [last];
    } else {
      hide FromBytes;
      LastByte(front[1..], last);
      FromBytesFirst(front[0], front[1..]);
      FromBytesFirst(front[0], front[1..] + [last]);
      assert front == [front[0]] + front[1..] && front + [last] == [front[0]] + (front[1..] + [last]);
      Pow2Byte(8 * |front[1..]|);
      ByteUp(Pow2(8 * |front[1..]|), last);
    }
  }

  lemma ByteUp(p: nat, last: nat)
    ensures 256 * Times(p, last) == Times(256 * p, last)
  {}

  /** 32 bytes as first, middle and last. */
  lemma ThreeParts(first: Byte, middle: seq<Byte>, last: Byte)
    requires |middle| == 30
    ensures FromBytes([first] + middle + [last]) == first + 256 * FromBytes(middle) + Times(Pow2(248), last)
  {
    hide FromBytes, Pow2, Times;
    FromBytesFirst(first, middle + [last]);
    assert [first] + middle + [last] == [first] + (middle + [last]);
    LastByte(middle, last);
    Pow2Byte(240);
    ByteUp(Pow2(240), last);
  }

  /** Clamping sets bit 254, clears bit 255 and the three low bits, and changes nothing else. */
  lemma ClampedScalar(k: seq<Byte>)
    requires |k| == 32
    ensures var n, raw := FromBytes(Clamp(k)), FromBytes(k);
            n == Pow2(254) + raw % Pow2(254) - raw % 8
  {
    hide FromBytes, Pow2, Times, BitAnd, BitOr;
    ClampFirst(k[0]);
    ClampLast(k[31]);
    assert k == [k[0]] + k[1..31] + [k[31]];
    ThreeParts(k[0], k[1..31], k[31]);
    ThreeParts(BitAnd(k[0], 248), k[1..31], BitOr(BitAnd(k[31], 127), 64));
    MiddleFits(k[1..31]);
    TopPowers();
    ClampArithmetic(k[0], FromBytes(k[1..31]), k[31], Pow2(248), Pow2(245));
  }

  lemma MiddleFits(middle: seq<Byte>)
    requires |middle| == 30
    ensures 256 * FromBytes(middle) + 256 <= Pow2(248)
  {
    hide FromBytes, Pow2;
    FromBytesFits(middle);
    Pow2Byte(240);
  }

  lemma TopPowers()
    ensures Pow2(248) == 8 * Pow2(245) && Pow2(254) == 64 * Pow2(248)
  {}

  lemma SmallPowers()
    ensures Pow2(3) == 8 && Pow2(5) == 32 && Pow2(6) == 64 && Pow2(7) == 128
  {}

  lemma ClampArithmetic(first: nat, middle: nat, last: nat, top: nat, eighth: nat)
    requires first < 256 && 256 * middle + 256 <= top && last < 256 && top == 8 * eighth
    ensures var raw := first + 256 * middle + Times(top, last);
            first - first % 8 + 256 * middle + Times(top, 64 + last % 64) == 64 * top + raw % (64 * top) - raw % 8
  {
    var raw := first + 256 * middle + Times(top, last);
    LowPart(first, middle, last, top);
    LowBits(first, middle, last, eighth);
    assert Times(top, 64 + last % 64) == 64 * top + Times(top, last % 64);
  }

  lemma LowPart(first: nat, middle: nat, last: nat, top: nat)
    requires first < 256 && 256 * middle + 256 <= top && last < 256
    ensures (first + 256 * middle + Times(top, last)) % (64 * top) == first + 256 * middle + Times(top, last % 64)
  {
    var raw, low := first + 256 * middle + Times(top, last), first + 256 * middle + Times(top, last % 64);
    assert Times(top, last % 64) <= 63 * top by { TimesMonotone(top, last % 64, 63); }
    assert last == 64 * (last / 64) + last % 64;
    assert Times(top, last) == (last / 64) * (64 * top) + Times(top, last % 64);
    QuotientUnique(raw / (64 * top), raw % (64 * top), last / 64, low, 64 * top);
  }

  lemma TimesMonotone(p: nat, a: nat, b: nat)
    requires a <= b
    ensures 0 <= Times(p, a) <= b * p
  {
    assert b * p == Times(p, a) + p * (b - a);
  }

  lemma LowBits(first: nat, middle: nat, last: nat, eighth: nat)
    ensures (first + 256 * middle + Times(8 * eighth, last)) % 8 == first % 8
  {
    EightTimes(eighth, last);
    hide Times;
    LowEight(first, middle, Times(eighth, last));
  }

  lemma EightTimes(a: int, b: int)
    ensures Times(8 * a, b) == 8 * Times(a, b)
  {}

  lemma LowEight(first: nat, middle: nat, q: int)
    ensures (first + 256 * middle + 8 * q) % 8 == first % 8
  {}

  /** The scalar is a multiple of 8 in [2^254, 2^255). */
  lemma ClampedRange(k: seq<Byte>)
    requires |k| == 32
    ensures var n := FromBytes(Clamp(k)); Pow2(254) <= n < Pow2(255) && n % 8 == 0
  {
    hide FromBytes, Clamp, Pow2;
    ClampedScalar(k);
    SmallPowers();
    Pow2Add(3, 251);
    Pow2Add(1, 254);
    OnePower();
    RangeArithmetic(FromBytes(k), Pow2(251));
  }

  lemma OnePower()
    ensures Pow2(1) == 2
  {}

  lemma RangeArithmetic(raw: nat, p: nat)
    requires p > 0
    ensures var n := 8 * p + raw % (8 * p) - raw % 8; 8 * p <= n < 16 * p && n % 8 == 0
  {
    RemainderKeepsLowBits(raw, p);
    LowBitsGone(p, raw % (8 * p));
  }

  lemma LowBitsGone(p: nat, m: nat)
    ensures (8 * p + m - m % 8) % 8 == 0 && m % 8 <= m
  {
    assert 8 * p + m - m % 8 == 8 * (p + m / 8);
  }

  lemma RemainderKeepsLowBits(raw: nat, p: nat)
    requires p > 0
    ensures (raw % (8 * p)) % 8 == raw % 8 && raw % 8 <= raw % (8 * p) < 8 * p
  {
    var m, k := raw % (8 * p), raw / (8 * p);
    assert raw == k * (8 * p) + m;
    assert k * (8 * p) == 8 * (k * p);
    var q := k * p;
    assert raw == 8 * q + m;
  }

  /** For every private key the ladder ends at the clamped scalar times the base point. */
  lemma KeyStandsFor(rep: (nat, Point) -> bool, private: seq<Byte>)
    requires Respected(rep) && |private| == 32
    ensures rep(FromBytes(Clamp(private)), Ladder(FromBytes(Clamp(private)), 0).low)
  {
    hide FromBytes, Clamp, Ladder, Respected;
    ClampedRange(private);
    LadderEnds(rep, FromBytes(Clamp(private)));
  }

  /* ---------- the public key ---------- */

  lemma PrimeIs()
    ensures P == Pow2(255) - 19
  {
    Pow2Of255();
  }

  /** b to the e, unreduced. */
  function Exp(b: int, e: nat): int {
    if e == 0 then 1 else b * Exp(b, e - 1)
  }

  /** pow(b, e, P). */
  function PowMod(b: int, e: nat): (r: int)
    ensures 0 <= r < P
  {
    if e == 0 then 1 else (b * PowMod(b, e - 1)) % P
  }

  lemma {:induction false} PowModIsExp(b: int, e: nat)
    ensures PowMod(b, e) == Exp(b, e) % P
  {
    if e > 0 {
      hide Cong;
      PowModIsExp(b, e - 1);
      CongMod(Exp(b, e - 1), P);
      CongSelf(b, P);
      CongMul(b, b, PowMod(b, e - 1), Exp(b, e - 1), P);
      CongRemainder(b * PowMod(b, e - 1), b * Exp(b, e - 1), P);
    }
  }

  lemma ExpStep(b: int, e: nat)
    ensures Exp(b, e + 1) == b * Exp(b, e)
  {}

  function AffineX(q: Point): (x: int)
    ensures 0 <= x < P
  {
    (q.x * PowMod(q.z, P - 2)) % P
  }

  /** The affine coordinate is the quotient x / z: where z has the inverse that Fermat's theorem promises, it is the
      one residue that times z is x; where z is zero, it is zero. */
  ghost predicate IsQuotient(u: int, q: Point) {
    && (Exp(q.z, P - 1) % P == 1 ==> Cong(Times(u, q.z), q.x, P) && forall v :: 0 <= v < P && Cong(Times(v, q.z), q.x, P) ==> v == u)
    && (q.z == 0 ==> u == 0)
  }

  lemma AffineXDivides(q: Point)
    ensures IsQuotient(AffineX(q), q)
  {
    if Exp(q.z, P - 1) % P == 1 {
      hide Exp, PowMod, Cong, Times, AffineX;
      InverseOf(q.z);
      QuotientTimes(q, PowMod(q.z, P - 2), AffineX(q)) by { AffineXIs(q); }
      forall v | 0 <= v < P && Cong(Times(v, q.z), q.x, P) ensures v == AffineX(q) {
        OneQuotient(q, PowMod(q.z, P - 2), v, AffineX(q));
      }
    }
    if q.z == 0 { ZeroPower(P - 2); }
  }

  lemma AffineXIs(q: Point)
    ensures AffineX(q) == Times(q.x, PowMod(q.z, P - 2)) % P
  {
    hide PowMod;
  }

  lemma ZeroPower(e: nat)
    requires e > 0
    ensures PowMod(0, e) == 0
  {}

  /** z^(P-2) is an inverse of z when z^(P-1) is one. */
  lemma InverseOf(z: int)
    requires Exp(z, P - 1) % P == 1
    ensures Cong(Times(PowMod(z, P - 2), z), 1, P)
  {
    hide Exp, PowMod, Cong;
    ExpStep(z, P - 2);
    PowModIsExp(z, P - 2);
    var e := Exp(z, P - 2);
    CongMod(e, P);
    CongSelf(z, P);
    CongMul(e % P, e, z, z, P);
    CongMod(e * z, P);
    assert e * z == z * e;
    CongOne(e * z);
    CongTransitive(PowMod(z, P - 2) * z, e * z, 1, P);
  }

  lemma CongOne(v: int)
    requires v % P == 1
    ensures Cong(v, 1, P)
  {
    assert v - 1 == Times(v / P, P);
  }

  lemma QuotientTimes(q: Point, w: int, u: int)
    requires Cong(Times(w, q.z), 1, P) && u == Times(q.x, w) % P
    ensures Cong(Times(u, q.z), q.x, P)
  {
    CongMod(q.x * w, P);
    CongSelf(q.z, P);
    CongSelf(q.x, P);
    CongMul(u, q.x * w, q.z, q.z, P);
    CongMul(q.x, q.x, w * q.z, 1, P);
    assert (q.x * w) * q.z == q.x * (w * q.z);
    hide Cong;
    CongTransitive(u * q.z, q.x * (w * q.z), q.x * 1, P);
  }

  lemma OneQuotient(q: Point, w: int, v: int, u: int)
    requires Cong(Times(w, q.z), 1, P) && Cong(Times(v, q.z), q.x, P) && 0 <= v < P && u == Times(q.x, w) % P
    ensures v == u
  {
    CongSelf(v, P);
    CongSelf(w, P);
    CongMul(v, v, w * q.z, 1, P);
    CongMul(v * q.z, q.x, w, w, P);
    assert v * (w * q.z) == (v * q.z) * w && v * 1 == v;
    hide Cong;
    CongRemainder(v * (w * q.z), v, P);
    CongRemainder((v * q.z) * w, q.x * w, P);
    SmallMod(v);
  }

  lemma SmallMod(v: int)
    requires 0 <= v < P
    ensures v % P == v
  {}

  /** _x25519_scalarmult_base; `None` for a private key that is not 32 bytes. The result always fits. */
  method ScalarMultBase(private: seq<Byte>) returns (public: Option<seq<Byte>>)
    ensures public.Some? <==> |private| == 32
    ensures public.Some? ==> |public.value| == 32 && 0 <= FromBytes(public.value) < P
    ensures public.Some? ==> IsQuotient(FromBytes(public.value), Ladder(FromBytes(Clamp(private)), 0).low)
    ensures public.Some? ==> FromBytes(public.value) == AffineX(Ladder(FromBytes(Clamp(private)), 0).low)
  {
    hide Ladder, Pow2, FromBytes, ToBytes, IsQuotient;
    if |private| != 32 { return None; }
    var n := FromBytes(Clamp(private));
    var q := RunLadder(n);
    var x := AffineX(q);
    AffineXDivides(q);
    assert x < Pow2(8 * 32) by { Pow2Of255(); Pow2Values(); }
    BytesRoundTrip(x, 32);
    return Some(ToBytes(x, 32));
  }
}
