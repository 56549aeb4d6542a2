/** Go's signed 64-bit integer arithmetic, written out over unbounded `int`. */
module GoInt {

  const MinInt64: int := -0x8000_0000_0000_0000
  const MaxInt64: int := 0x7FFF_FFFF_FFFF_FFFF
  const TwoTo64: int := 0x1_0000_0000_0000_0000

  predicate IsInt64(x: int) {
    MinInt64 <= x <= MaxInt64
  }

  /** Two's-complement wrap-around, as `+`, `-`, `*` and `/` on Go's int64 behave on overflow. */
  function Wrap(x: int): (r: int)
    ensures IsInt64(r)
    ensures IsInt64(x) ==> r == x
    ensures exists k: int :: r == x + k * TwoTo64
  {
    var r := (x - MinInt64) % TwoTo64 + MinInt64;
    assert r == x + (-((x - MinInt64) / TwoTo64)) * TwoTo64;
    r
  }

  function Abs(x: int): nat {
    if x < 0 then -x else x
  }

  /** Go's integer division: the quotient is truncated toward zero. */
  function TruncDiv(a: int, b: int): int
    requires b != 0
  {
    if (a < 0) == (b < 0) then Abs(a) / Abs(b) else -(Abs(a) / Abs(b))
  }

  /** Go's remainder: it takes the dividend's sign. */
  function TruncMod(a: int, b: int): int
    requires b != 0
  {
    if a < 0 then -(Abs(a) % Abs(b)) else Abs(a) % Abs(b)
  }

  /** Euclid's identity on naturals, stated once so the sign cases below stay linear. */
  lemma NaturalDivision(n: nat, d: nat)
    requires d > 0
    ensures n == d * (n / d) + n % d && 0 <= n % d < d
  {
  }

  /** Negation moves freely through a product. */
  lemma ProductNegation(x: int, y: int)
    ensures x * (-y) == -(x * y) && (-x) * y == -(x * y)
  {
  }

  /** Go's `/` and `%` satisfy `a == b * (a / b) + a % b`, the remainder is smaller
      than the divisor and is zero or carries the dividend's sign. */
  lemma TruncDivision(a: int, b: int)
    requires b != 0
    ensures a == b * TruncDiv(a, b) + TruncMod(a, b)
    ensures Abs(TruncMod(a, b)) < Abs(b)
    ensures TruncMod(a, b) == 0 || (TruncMod(a, b) < 0 <==> a < 0)
  {
    var n: int, d: int := Abs(a), Abs(b);
    var q: int := n / d;
    NaturalDivision(n, d);
    var p: int := d * q;
    ProductNegation(d, q);
    if b > 0 && a < 0 {
      assert b * TruncDiv(a, b) == d * (-q) == -p;
    } else if b > 0 {
      assert b * TruncDiv(a, b) == p;
    } else if a < 0 {
      assert b * TruncDiv(a, b) == (-d) * q == -p;
    } else {
      ProductNegation(-d, q);
      ProductNegation(d, -q);
      assert b * TruncDiv(a, b) == (-d) * (-q) == p;
    }
  }

  /** On non-negative operands Go's `/` and `%` agree with Dafny's Euclidean ones. */
  lemma TruncAgreesOnNaturals(a: int, b: int)
    requires a >= 0 && b > 0
    ensures TruncDiv(a, b) == a / b && TruncMod(a, b) == a % b
  {
  }

  /** Dividing by at least two at least halves a natural. */
  lemma QuotientHalves(n: nat, d: nat)
    requires d >= 2
    ensures 2 * (n / d) <= n
  {
    var q := n / d;
    NaturalDivision(n, d);
    var e: nat := d - 2;
    assert d * q == 2 * q + e * q;
  }

  /** The only int64 quotient that overflows is MinInt64 / -1, which wraps back to MinInt64. */
  lemma WrappedQuotient(a: int, b: int)
    requires IsInt64(a) && IsInt64(b) && b != 0
    ensures Wrap(TruncDiv(a, b)) == (if a == MinInt64 && b == -1 then MinInt64 else TruncDiv(a, b))
  {
    var n, d := Abs(a), Abs(b);
    if d >= 2 {
      QuotientHalves(n, d);
      assert IsInt64(TruncDiv(a, b));
    } else {
      assert n / d == n;
    }
  }

  /** The int64 remainder never overflows. */
  lemma TruncModInRange(a: int, b: int)
    requires IsInt64(a) && IsInt64(b) && b != 0
    ensures IsInt64(TruncMod(a, b))
  {
    TruncDivision(a, b);
  }

  /** `strconv` saturates an out-of-range value to the nearest int64 bound. */
  function Clamp(x: int): (r: int)
    ensures IsInt64(r)
    ensures IsInt64(x) ==> r == x
    ensures x > MaxInt64 ==> r == MaxInt64
    ensures x < MinInt64 ==> r == MinInt64
  {
    if x > MaxInt64 then MaxInt64 else if x < MinInt64 then MinInt64 else x
  }

  /** Go's `byte(v)` conversion keeps the low eight bits of the two's-complement value. */
  function LowByte(v: int): (b: int)
    ensures 0 <= b < 256
    ensures exists k: int :: v == k * 256 + b
  {
    assert v == (v / 256) * 256 + v % 256;
    v % 256
  }
}
