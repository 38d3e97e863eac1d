/** Small value types shared by every component of the choreography engine. */
module Common {

  datatype Option<+T> = None | Some(value: T) {
    /** The wrapped value, or `default` when absent (the `??` operator). */
    function GetOr(default: T): T {
      match this
      case Some(v) => v
      case None => default
    }
  }

  /** A point or vector in world space. */
  datatype Vec3 = Vec3(x: real, y: real, z: real)

  /** A point in a plane (the heart curve, a firework canvas). */
  datatype Point2 = Point2(x: real, y: real)

  /** A colour with channels in [0, 1]. */
  datatype Rgb = Rgb(r: real, g: real, b: real)

  function Scale(v: Vec3, k: real): Vec3 {
    Vec3(v.x * k, v.y * k, v.z * k)
  }

  function DistSq(a: Vec3, b: Vec3): real {
    (a.x - b.x) * (a.x - b.x) + (a.y - b.y) * (a.y - b.y) + (a.z - b.z) * (a.z - b.z)
  }

  function Add(a: Vec3, b: Vec3): Vec3 {
    Vec3(a.x + b.x, a.y + b.y, a.z + b.z)
  }

  /** `b` raised to the natural power `n`. */
  function Pow(b: real, n: nat): real {
    if n == 0 then 1.0 else b * Pow(b, n - 1)
  }

  function MinInt(a: int, b: int): int { if a < b then a else b }
  function MaxInt(a: int, b: int): int { if a < b then b else a }
  function MinReal(a: real, b: real): real { if a < b then a else b }
  function MaxReal(a: real, b: real): real { if a < b then b else a }

  /** A draw of Math.random(): a real in [0, 1). */
  predicate IsRoll(u: real) { 0.0 <= u < 1.0 }

  /** `randomBetween(min, max)` with the random draw `u` made explicit. */
  function RandomBetween(lo: real, hi: real, u: real): (r: real)
    requires IsRoll(u)
    ensures lo <= hi ==> lo <= r <= hi
    ensures lo < hi ==> r < hi
  {
    var span := hi - lo;
    var offset := u * span;
    assert lo <= hi ==> 0.0 <= offset <= span && (span > 0.0 ==> offset < span) by {
      if lo <= hi { RollTimesBound(u, span); }
    }
    lo + offset
  }

  /** A roll scales a non-negative span into [0, span], strictly below a positive span. */
  lemma RollTimesBound(u: real, d: real)
    requires IsRoll(u) && d >= 0.0
    ensures 0.0 <= u * d <= d
    ensures d > 0.0 ==> u * d < d
  {
    assert d - u * d == (1.0 - u) * d;
  }

  /** `randomInt(min, maxInclusive)`: floor of a draw in [min, maxInclusive + 1). */
  function RandomInt(lo: int, hiInclusive: int, u: real): (r: int)
    requires IsRoll(u)
    requires lo <= hiInclusive
    ensures lo <= r <= hiInclusive
  {
    RandomBetween(lo as real, (hiInclusive + 1) as real, u).Floor
  }

  // Integer division facts the solver does not find on its own.

  lemma MulPos(x: int, m: int)
    requires m > 0 && x * m > 0
    ensures x > 0
  {
  }

  /** Division and remainder are determined by any representation v = q * d + r with 0 <= r < d. */
  lemma DivModUnique(v: int, d: int, q: int, r: int)
    requires d > 0 && 0 <= r < d && v == q * d + r
    ensures v / d == q && v % d == r
  {
    var q0, r0 := v / d, v % d;
    assert v == q0 * d + r0;
    assert (q - q0) * d == r0 - r;
    assert (q - q0 + 1) * d > 0;
    MulPos(q - q0 + 1, d);
    assert (q0 - q + 1) * d > 0;
    MulPos(q0 - q + 1, d);
  }

  lemma ModShift(v: nat, d: nat)
    requires d > 0
    ensures (v + d) % d == v % d
  {
    DivModUnique(v + d, d, v / d + 1, v % d);
  }

  lemma AddMultipleMod(v: nat, k: nat, d: nat)
    requires d > 0
    ensures (v + k * d) % d == v % d
  {
    DivModUnique(v + k * d, d, v / d + k, v % d);
  }

  lemma DivBelow(a: nat, m: nat, n: nat)
    requires m > 0 && a < m * n
    ensures a / m < n
  {
    var q := a / m;
    assert q * m <= a;
    assert (n - q) * m > 0;
    MulPos(n - q, m);
  }

  lemma DivAtLeast(a: nat, m: nat, q: nat)
    requires m > 0 && a >= q * m
    ensures a / m >= q
  {
    var q0 := a / m;
    assert a < (q0 + 1) * m;
    assert (q0 + 1 - q) * m > 0;
    MulPos(q0 + 1 - q, m);
  }
}
