/**
  The fixed-point geometry of src/geometry.c. Angles are 1/65536 of a circle; sines and cosines
  are scaled by 32768. The tables are parameters: how floating point fills them is not modelled.
 */
module Geometry {

  type Angle = a: int | 0 <= a < 0x1_0000

  /** An int stored in an unsigned short. */
  function ToAngle(n: int): Angle { n % 0x1_0000 }

  /** (unsigned short) -a */
  function Opposite(a: Angle): Angle { ToAngle(-(a as int)) }

  /** The division of C, which truncates toward zero. */
  function Div(n: int, d: int): int
    requires d != 0
  {
    if (n < 0) == (d < 0) then Abs(n) / Abs(d) else -(Abs(n) / Abs(d))
  }

  function Abs(n: int): nat { if n < 0 then -n else n }

  /** What is left over is smaller than the divisor and on the side of the dividend. */
  lemma DivTruncates(n: int, d: int)
    requires d != 0
    ensures var rest := n - Div(n, d) * d; Abs(rest) < Abs(d) && (rest == 0 || (rest < 0) == (n < 0))
  {
    var q, r := Abs(n) / Abs(d), Abs(n) % Abs(d);
    assert Abs(n) == q * Abs(d) + r;
    if (n < 0) == (d < 0) {
      assert q * d == if d < 0 then -(q * Abs(d)) else q * Abs(d);
    } else {
      assert -q * d == if d < 0 then q * Abs(d) else -(q * Abs(d));
    }
  }

  // ---------- sine and cosine ----------

  const K := 32768

  /** What the model needs of sin_table: its size, that it starts with 0 and fits a short. */
  ghost predicate SineTable(t: seq<int>) {
    |t| == 16385 && t[0] == 0 && forall i :: 0 <= i < |t| ==> 0 <= t[i] < K
  }

  function Sin(t: seq<int>, a: Angle): int
    requires |t| == 16385
  {
    if a < 16384 then t[a]
    else if a < 32768 then t[32768 - a]
    else if a < 49152 then -t[a - 32768]
    else -t[65536 - a]
  }

  function Cos(t: seq<int>, a: Angle): int
    requires |t| == 16385
  {
    if a < 16384 then t[16384 - a]
    else if a < 32768 then -t[a - 16384]
    else if a < 49152 then -t[49152 - a]
    else t[a - 49152]
  }

  /** The quadrants fold as they should, and the first one is the table. */
  lemma Folding(t: seq<int>, a: Angle)
    requires SineTable(t)
    ensures a <= 16384 ==> Sin(t, a) == t[a] && Cos(t, a) == t[16384 - a]
    ensures Sin(t, Opposite(a)) == -Sin(t, a)
    ensures Cos(t, Opposite(a)) == Cos(t, a)
    ensures Cos(t, a) == Sin(t, ToAngle(a + 16384))
    ensures Sin(t, ToAngle(a + 32768)) == -Sin(t, a)
    ensures -K < Sin(t, a) < K && -K < Cos(t, a) < K
  {
    assert a != 0 ==> Opposite(a) == 65536 - a;
  }

  // ---------- coordinates ----------

  class Coordinate {
    var x: int
    var y: int
    var z: int
    var xzRotation: Angle
  }

  /** How far sines and cosines from the table are off the unit circle. */
  ghost predicate OffBy(t: seq<int>, d: nat)
    requires |t| == 16385
  {
    forall a: Angle :: Abs(Sin(t, a) * Sin(t, a) + Cos(t, a) * Cos(t, a) - K * K) <= d
  }

  /** A sum of two truncated quotients, as both transformations compute it. */
  function Mix(p: int, c: int, q: int, s: int): int { Div(p * c, K) + Div(q * s, K) }

  /** geo_transformCoordinatesOutward */
  method TransformOutward(t: seq<int>, objectPos: Coordinate, coordinateSystem: Coordinate, result: Coordinate)
    requires SineTable(t) && result != objectPos && result != coordinateSystem
    modifies result
    ensures var (s, c) := (Sin(t, coordinateSystem.xzRotation), Cos(t, coordinateSystem.xzRotation));
            && result.x == Mix(objectPos.x, c, objectPos.z, s) + coordinateSystem.x
            && result.z == Mix(-objectPos.x, s, objectPos.z, c) + coordinateSystem.z
    ensures result.y == objectPos.y + coordinateSystem.y
    ensures result.xzRotation == ToAngle(objectPos.xzRotation + coordinateSystem.xzRotation)
    ensures var (s, c) := (Sin(t, coordinateSystem.xzRotation), Cos(t, coordinateSystem.xzRotation));
            && Abs(K * (result.x - coordinateSystem.x) - (objectPos.x * c + objectPos.z * s)) < 2 * K
            && Abs(K * (result.z - coordinateSystem.z) - (-objectPos.x * s + objectPos.z * c)) < 2 * K
  {
    var s, c := Sin(t, coordinateSystem.xzRotation), Cos(t, coordinateSystem.xzRotation);
    MixIsClose(objectPos.x, c, objectPos.z, s);
    MixIsClose(-objectPos.x, s, objectPos.z, c);
    result.x := Div(objectPos.x * c, K) + Div(objectPos.z * s, K) + coordinateSystem.x;
    result.z := Div(-objectPos.x * s, K) + Div(objectPos.z * c, K) + coordinateSystem.z;
    result.y := objectPos.y + coordinateSystem.y;
    result.xzRotation := ToAngle(objectPos.xzRotation + coordinateSystem.xzRotation);
  }

  /** geo_transformCoordinatesInward */
  method TransformInward(t: seq<int>, objectPos: Coordinate, coordinateSystem: Coordinate, result: Coordinate)
    requires SineTable(t) && result != objectPos && result != coordinateSystem
    modifies result
    ensures var (s, c) := (Sin(t, coordinateSystem.xzRotation), Cos(t, coordinateSystem.xzRotation));
            var (dx, dz) := (objectPos.x - coordinateSystem.x, objectPos.z - coordinateSystem.z);
            && result.x == Mix(dx, c, dz, -s)
            && result.z == Mix(-dx, -s, dz, c)
    ensures result.y == objectPos.y - coordinateSystem.y
    ensures result.xzRotation == ToAngle(objectPos.xzRotation - coordinateSystem.xzRotation)
    ensures var (s, c) := (Sin(t, coordinateSystem.xzRotation), Cos(t, coordinateSystem.xzRotation));
            var (dx, dz) := (objectPos.x - coordinateSystem.x, objectPos.z - coordinateSystem.z);
            && Abs(K * result.x - (dx * c + dz * -s)) < 2 * K
            && Abs(K * result.z - (-dx * -s + dz * c)) < 2 * K
  {
    var tempx, tempz := objectPos.x - coordinateSystem.x, objectPos.z - coordinateSystem.z;
    var s, c := Sin(t, Opposite(coordinateSystem.xzRotation)), Cos(t, Opposite(coordinateSystem.xzRotation));
    Folding(t, coordinateSystem.xzRotation);
    MixIsClose(tempx, c, tempz, s);
    MixIsClose(-tempx, s, tempz, c);
    result.x := Div(tempx * c, K) + Div(tempz * s, K);
    result.z := Div(-tempx * s, K) + Div(tempz * c, K);
    result.y := objectPos.y - coordinateSystem.y;
    result.xzRotation := ToAngle(objectPos.xzRotation - coordinateSystem.xzRotation);
  }

  // ---------- there and back again ----------

  lemma DivIsClose(n: int)
    ensures -K < K * Div(n, K) - n < K
  {}

  lemma MixIsClose(p: int, c: int, q: int, s: int)
    ensures -2 * K < K * Mix(p, c, q, s) - (p * c + q * s) < 2 * K
  {
    DivIsClose(p * c);
    DivIsClose(q * s);
  }

  /** A small number times a sine or cosine. */
  lemma ScaledError(e: int, s: int)
    requires -2 * K < e < 2 * K && -K < s < K
    ensures -2 * K * K <= e * s <= 2 * K * K
  {
    assert Abs(e) * Abs(s) <= (2 * K) * Abs(s) <= (2 * K) * K by {
      Monotone(Abs(e), 2 * K, Abs(s));
      Monotone(Abs(s), K, 2 * K);
    }
    assert e * s == Abs(e) * Abs(s) || e * s == -(Abs(e) * Abs(s));
  }

  lemma Monotone(a: nat, b: nat, c: nat)
    requires a <= b
    ensures a * c <= b * c
  {}

  /** The algebra: p and q are a rotated pair up to rounding errors e and f; rotating back gives
      the first of the pair, times the sum of squares, up to those errors. */
  lemma RotatedBack(x: int, z: int, s: int, c: int, p: int, q: int)
    ensures K * (p * c - q * s) - x * (s * s + c * c) ==
            (K * p - (x * c + z * s)) * c - (K * q - (z * c - x * s)) * s
  {
    var u, v := x * c + z * s, z * c - x * s;
    assert (K * p - u) * c == K * (p * c) - u * c;
    assert (K * q - v) * s == K * (q * s) - v * s;
    assert u * c - v * s == x * (s * s + c * c) by {
      assert u * c == x * (c * c) + z * (s * c);
      assert v * s == z * (s * c) - x * (s * s);
    }
  }

  lemma OffCircle(x: int, n: int, d: nat)
    requires Abs(n - K * K) <= d
    ensures Abs(x * n - K * K * x) <= Abs(x) * d
  {
    var m := n - K * K;
    assert x * n - K * K * x == x * m;
    assert Abs(x * m) == Abs(x) * Abs(m);
    Monotone(Abs(m), d, Abs(x));
  }

  /** One coordinate, there and back. */
  lemma BackWithin(x: int, z: int, s: int, c: int, p: int, q: int, r: int, d: nat)
    requires -K < s < K && -K < c < K && Abs(s * s + c * c - K * K) <= d
    requires -2 * K < K * p - (x * c + z * s) < 2 * K && -2 * K < K * q - (z * c - x * s) < 2 * K
    requires -2 * K < K * r - (p * c - q * s) < 2 * K
    ensures K * K * Abs(r - x) <= 6 * K * K + Abs(x) * d
  {
    var e, f, g := K * p - (x * c + z * s), K * q - (z * c - x * s), K * r - (p * c - q * s);
    RotatedBack(x, z, s, c, p, q);
    ScaledError(e, c);
    ScaledError(f, s);
    OffCircle(x, s * s + c * c, d);
    assert K * K * r - K * K * x == K * g + (e * c - f * s) + (x * (s * s + c * c) - K * K * x);
    assert -2 * K * K <= K * g <= 2 * K * K;
    assert K * K * Abs(r - x) == Abs(K * K * r - K * K * x);
  }

  /** Outward and then inward in the same frame: the angle and the height come back exactly,
      x and z each within 6 plus the share by which the table is off the unit circle. */
  method OutwardThenInward(t: seq<int>, ghost d: nat, objectPos: Coordinate, coordinateSystem: Coordinate,
                           outside: Coordinate, result: Coordinate)
    requires SineTable(t) && OffBy(t, d)
    requires outside != objectPos && outside != coordinateSystem
    requires result != objectPos && result != coordinateSystem && result != outside
    modifies outside, result
    ensures result.xzRotation == objectPos.xzRotation && result.y == objectPos.y
    ensures K * K * Abs(result.x - objectPos.x) <= 6 * K * K + Abs(objectPos.x) * d
    ensures K * K * Abs(result.z - objectPos.z) <= 6 * K * K + Abs(objectPos.z) * d
  {
    TransformOutward(t, objectPos, coordinateSystem, outside);
    TransformInward(t, outside, coordinateSystem, result);
    Restored(t, d, coordinateSystem.xzRotation, objectPos.x, objectPos.z);
    RotationRestored(objectPos.xzRotation, coordinateSystem.xzRotation);
  }

  lemma RotationRestored(a: Angle, b: Angle)
    ensures ToAngle(ToAngle(a + b) - b) == a
  {
  }

  lemma Restored(t: seq<int>, d: nat, a: Angle, x: int, z: int)
    requires SineTable(t) && OffBy(t, d)
    ensures var (s, c) := (Sin(t, a), Cos(t, a));
            var (p, q) := (Mix(x, c, z, s), Mix(-x, s, z, c));
            && K * K * Abs(Mix(p, c, q, -s) - x) <= 6 * K * K + Abs(x) * d
            && K * K * Abs(Mix(-p, -s, q, c) - z) <= 6 * K * K + Abs(z) * d
  {
    var s, c := Sin(t, a), Cos(t, a);
    Folding(t, a);
    assert Abs(s * s + c * c - K * K) <= d;
    RotatedThereAndBack(x, z, s, c, d);
  }

  lemma RotatedThereAndBack(x: int, z: int, s: int, c: int, d: nat)
    requires -K < s < K && -K < c < K && Abs(s * s + c * c - K * K) <= d
    ensures var (p, q) := (Mix(x, c, z, s), Mix(-x, s, z, c));
            && K * K * Abs(Mix(p, c, q, -s) - x) <= 6 * K * K + Abs(x) * d
            && K * K * Abs(Mix(-p, -s, q, c) - z) <= 6 * K * K + Abs(z) * d
  {
    var p, q := Mix(x, c, z, s), Mix(-x, s, z, c);
    var r, r' := Mix(p, c, q, -s), Mix(-p, -s, q, c);
    MixIsClose(x, c, z, s);
    MixIsClose(-x, s, z, c);
    MixIsClose(p, c, q, -s);
    MixIsClose(-p, -s, q, c);
    Signs(x, s);
    Signs(x, c);
    Signs(q, s);
    Signs(p, s);
    BackWithin(x, z, s, c, p, q, r, d);
    BackWithin(z, -x, s, c, q, -p, r', d);
  }

  lemma Signs(a: int, b: int)
    ensures -a * b == -(a * b) && a * -b == -(a * b) && -a * -b == a * b
  {}

  // ---------- the arctangent ----------

  /** What the model needs of atan_table: its size and its ends, 0 and 45 degrees. */
  ghost predicate AtanTable(t: seq<int>) {
    |t| == 8193 && t[0] == 0 && t[8192] == 8192
  }

  /** The quotient of two sides, the smaller one on top, as an index of the table. */
  function Ratio(n: nat, d: nat): (i: nat)
    requires n <= d && d > 0
    ensures i <= 8192
  {
    RatioFits(n, d);
    n * 8192 / d
  }

  lemma RatioFits(n: nat, d: nat)
    requires n <= d && d > 0
    ensures n * 8192 / d <= 8192
  {
    var i := n * 8192 / d;
    assert i * d <= n * 8192 <= d * 8192;
    if i >= 8193 {
      Monotone(8193, i, d);
      assert false;
    }
  }

  lemma RatioEnds(d: nat)
    requires d > 0
    ensures Ratio(0, d) == 0 && Ratio(d, d) == 8192
  {
    SelfRatio(d, d * 8192 / d);
    assert 0 * 8192 == 0;
  }

  lemma SelfRatio(d: nat, i: nat)
    requires d > 0 && i == d * 8192 / d
    ensures i == 8192
  {
    RatioFits(d, d);
    var rest := d * 8192 % d;
    assert d * 8192 == i * d + rest;
    if i <= 8191 {
      Monotone(i, 8191, d);
      assert false;
    }
  }

  /** The quotients of geo_atan, all of them of sides of the same sign. */
  lemma SameSign(a: int, b: int)
    requires b != 0 && (a == 0 || (a < 0) == (b < 0)) && Abs(a) <= Abs(b)
    ensures Div(a * 8192, b) == Ratio(Abs(a), Abs(b))
  {
    assert Abs(a * 8192) == Abs(a) * 8192;
  }

  /** geo_atan */
  function Atan(t: seq<int>, dx: int, dz: int): Angle
    requires |t| == 8193
  {
    if dx == 0 && dz == 0 then 0
    else if dz > 0 then
      if dx > 0 then
        if dz > dx then ToAngle(t[Ratio(dx, dz)]) else ToAngle(16384 - t[Ratio(dz, dx)])
      else
        if dz > -dx then ToAngle(65536 - t[Ratio(-dx, dz)]) else ToAngle(49152 + t[Ratio(dz, -dx)])
    else
      if dx > 0 then
        if -dz > dx then ToAngle(32768 - t[Ratio(dx, -dz)]) else ToAngle(16384 + t[Ratio(-dz, dx)])
      else
        if -dz > -dx then SameSign(dx, dz); ToAngle(32768 + t[Div(dx * 8192, dz)])
        else SameSign(dz, dx); ToAngle(49152 - t[Div(dz * 8192, dx)])
  }

  /** The direction within the quarter between the two positive axes. */
  function Quarter(t: seq<int>, u: nat, w: nat): int
    requires |t| == 8193 && (u > 0 || w > 0)
  {
    if w > u then t[Ratio(u, w)] else 16384 - t[Ratio(w, u)]
  }

  /** A direction of the first quarter, mirrored into the quarter of a vector. */
  function Turned(q: int, dx: int, dz: int): int {
    if dz > 0 then (if dx > 0 then q else 65536 - q) else (if dx > 0 then 32768 - q else 32768 + q)
  }

  lemma AtanByQuarter(t: seq<int>, dx: int, dz: int)
    requires |t| == 8193 && (dx != 0 || dz != 0)
    ensures Atan(t, dx, dz) == ToAngle(Turned(Quarter(t, Abs(dx), Abs(dz)), dx, dz))
  {
    if dz <= 0 && dx <= 0 {
      if -dz > -dx { SameSign(dx, dz); } else { SameSign(dz, dx); }
    }
  }

  lemma TurnedMirrors(q: int, q': int, dx: int, dz: int)
    requires (dx == 0 ==> q == 0) && (dz == 0 ==> q == 16384) && q + q' == 16384
    ensures ToAngle(Turned(q, -dx, dz)) == Opposite(ToAngle(Turned(q, dx, dz)))
    ensures ToAngle(Turned(q, dx, -dz)) == ToAngle(32768 - ToAngle(Turned(q, dx, dz)))
    ensures ToAngle(Turned(q', dz, dx)) == ToAngle(16384 - ToAngle(Turned(q, dx, dz)))
  {
    var y := Turned(q, dx, dz);
    Nested(0, y);
    Nested(32768, y);
    Nested(16384, y);
    Period(Turned(q, -dx, dz));
    Period(-y);
    Period(32768 - y);
    Period(Turned(q, dx, -dz));
    Period(16384 - y);
    Period(Turned(q', dz, dx));
  }

  lemma Nested(c: int, y: int)
    ensures ToAngle(c - ToAngle(y)) == ToAngle(c - y)
  {
    var k := y / 0x1_0000;
    assert c - ToAngle(y) == c - y + k * 0x1_0000;
  }

  lemma Period(n: int)
    ensures ToAngle(n + 65536) == ToAngle(n)
  {}

  lemma QuarterEnds(t: seq<int>, u: nat, w: nat)
    requires AtanTable(t) && (u > 0 || w > 0)
    ensures u == 0 ==> Quarter(t, u, w) == 0
    ensures w == 0 ==> Quarter(t, u, w) == 16384
    ensures Quarter(t, u, w) + Quarter(t, w, u) == 16384
  {
    RatioEnds(if u < w then w else u);
  }

  /** The eight sections fit together: the direction of a mirrored vector is the mirrored
      direction, for each of the three mirrors. */
  lemma AtanMirrors(t: seq<int>, dx: int, dz: int)
    requires AtanTable(t) && (dx != 0 || dz != 0)
    ensures Atan(t, -dx, dz) == Opposite(Atan(t, dx, dz))
    ensures Atan(t, dx, -dz) == ToAngle(32768 - Atan(t, dx, dz))
    ensures Atan(t, dz, dx) == ToAngle(16384 - Atan(t, dx, dz))
  {
    AtanByQuarter(t, dx, dz);
    AtanByQuarter(t, -dx, dz);
    AtanByQuarter(t, dx, -dz);
    AtanByQuarter(t, dz, dx);
    QuarterEnds(t, Abs(dx), Abs(dz));
    TurnedMirrors(Quarter(t, Abs(dx), Abs(dz)), Quarter(t, Abs(dz), Abs(dx)), dx, dz);
  }
}
