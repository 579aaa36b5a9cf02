/**
 Fixed-scale int8 quantization (internal/v3/embed/quantize.go), over exact reals. The point of
 the fixed scale is that int8 L2 distances rank like the true ones; the margin is explicit here.
 */
module Quantize {

  const INT8_SCALE: int := 256

  /** math.Round: to the nearest integer, halves away from zero. */
  function Round(x: real): int {
    if x >= 0.0 then (x + 0.5).Floor else -((-x + 0.5).Floor)
  }

  /** The code of one component: rounded, then saturated symmetrically. */
  function Code(x: real, scale: real): (q: int)
    ensures -127 <= q <= 127
  {
    var r := Round(x * scale);
    if r > 127 then 127 else if r < -127 then -127 else r
  }

  method QuantizeInt8(v: seq<real>) returns (out: array<int>)
    ensures out.Length == |v| && forall i :: 0 <= i < |v| ==> out[i] == Code(v[i], INT8_SCALE as real)
  {
    out := QuantizeAt(v, INT8_SCALE as real);
  }

  method QuantizeAt(v: seq<real>, scale: real) returns (out: array<int>)
    ensures out.Length == |v| && forall i :: 0 <= i < |v| ==> out[i] == Code(v[i], scale)
  {
    out := new int[|v|];
    for i := 0 to |v|
      invariant forall j :: 0 <= j < i ==> out[j] == Code(v[j], scale)
    {
      var q := Round(v[i] * scale);
      if q > 127 {
        q := 127;
      } else if q < -127 {
        q := -127;
      }
      out[i] := q;
    }
  }

  // ---------------------------------------------------------------- one component

  function Abs(x: real): real {
    if x < 0.0 then -x else x
  }

  /** A code is within one half of the scaled component exactly when the component is not clipped. */
  lemma WithinHalfIff(x: real, scale: real)
    ensures Abs(Code(x, scale) as real - x * scale) <= 0.5 <==> Abs(x * scale) <= 127.5
  {
    var y := x * scale;
    assert Abs(Round(y) as real - y) <= 0.5;
  }

  /** The code is the nearest whole number, halves going away from zero, as far as 127 reaches. */
  lemma CodeIsNearest(x: real, scale: real)
    ensures var y, q := x * scale, Code(x, scale);
            && (y >= 127.0 ==> q == 127) && (y <= -127.0 ==> q == -127)
            && (-127.0 < y < 127.0 ==>
                  Abs(q as real - y) <= 0.5 && (Abs(q as real - y) == 0.5 ==> Abs(q as real) > Abs(y)))
  {
  }

  lemma CodeIsOdd(x: real, scale: real)
    ensures Code(-x, scale) == -Code(x, scale)
  {
    var y := x * scale;
    assert -x * scale == -y;
    assert Round(-y) == -Round(y);
  }

  lemma MulNonNegative(p: real, q: real)
    requires p >= 0.0 && q >= 0.0
    ensures p * q >= 0.0
  {
  }

  lemma MulPositive(p: real, q: real)
    requires p > 0.0 && q > 0.0
    ensures p * q > 0.0
  {
  }

  lemma CodeIsMonotone(x: real, y: real, scale: real)
    requires x <= y && scale >= 0.0
    ensures Code(x, scale) <= Code(y, scale)
  {
    MulNonNegative(y - x, scale);
    var a, b := x * scale, y * scale;
    assert a <= b;
    assert Round(a) <= Round(b);
  }

  // ---------------------------------------------------------------- vectors

  function Dot(x: seq<real>, y: seq<real>, n: nat): real
    requires n <= |x| && n <= |y|
  {
    if n == 0 then 0.0 else Dot(x, y, n - 1) + x[n - 1] * y[n - 1]
  }

  /** The squared L2 norm. */
  function Norm2(x: seq<real>): real {
    Dot(x, x, |x|)
  }

  function Plus(x: seq<real>, y: seq<real>): (z: seq<real>)
    requires |x| == |y|
    ensures |z| == |x| && forall i :: 0 <= i < |z| ==> z[i] == x[i] + y[i]
  {
    seq(|x|, i requires 0 <= i < |x| => x[i] + y[i])
  }

  function Minus(x: seq<real>, y: seq<real>): (z: seq<real>)
    requires |x| == |y|
    ensures |z| == |x| && forall i :: 0 <= i < |z| ==> z[i] == x[i] - y[i]
  {
    seq(|x|, i requires 0 <= i < |x| => x[i] - y[i])
  }

  function Times(s: real, x: seq<real>): (z: seq<real>)
    ensures |z| == |x| && forall i :: 0 <= i < |z| ==> z[i] == s * x[i]
  {
    seq(|x|, i requires 0 <= i < |x| => s * x[i])
  }

  /** The codes of a vector, as reals. */
  function Codes(x: seq<real>, scale: real): (z: seq<real>)
    ensures |z| == |x| && forall i :: 0 <= i < |z| ==> z[i] == Code(x[i], scale) as real
  {
    seq(|x|, i requires 0 <= i < |x| => Code(x[i], scale) as real)
  }

  lemma SquareOrder(u: real, v: real)
    requires v >= 0.0 && u * u <= v * v
    ensures u <= v
  {
    assert u * u - v * v == (u - v) * (u + v);
    if u > v { MulPositive(u - v, u + v); }
  }

  lemma SquareNonNegative(u: real)
    ensures u * u >= 0.0
  {
  }

  lemma {:induction false} DotNonNegative(x: seq<real>, n: nat)
    requires n <= |x|
    ensures Dot(x, x, n) >= 0.0
  {
    if n > 0 {
      DotNonNegative(x, n - 1);
      SquareNonNegative(x[n - 1]);
    }
  }

  /** (d + xy)^2 <= (X + x^2)(Y + y^2) when d^2 <= XY. */
  lemma CauchyStep(d: real, bigX: real, bigY: real, x: real, y: real)
    requires d * d <= bigX * bigY && bigX >= 0.0 && bigY >= 0.0
    ensures (d + x * y) * (d + x * y) <= (bigX + x * x) * (bigY + y * y)
  {
    var p, q := bigX * (y * y), bigY * (x * x);
    CrossTerm(d, bigX, bigY, x, y);
    assert (d + x * y) * (d + x * y) == d * d + 2.0 * d * (x * y) + (x * y) * (x * y);
    assert (bigX + x * x) * (bigY + y * y) == bigX * bigY + p + q + (x * x) * (y * y);
    assert (x * y) * (x * y) == (x * x) * (y * y);
  }

  lemma CrossTerm(d: real, bigX: real, bigY: real, x: real, y: real)
    requires d * d <= bigX * bigY && bigX >= 0.0 && bigY >= 0.0
    ensures 2.0 * d * (x * y) <= bigX * (y * y) + bigY * (x * x)
  {
    var p, q := bigX * (y * y), bigY * (x * x);
    var u, s := 2.0 * d * (x * y), (x * y) * (x * y);
    SquareNonNegative(x * y);
    SquareNonNegative(x);
    SquareNonNegative(y);
    assert u * u == 4.0 * (d * d) * s;
    assert p * q == (bigX * bigY) * s;
    assert (d * d) * s <= (bigX * bigY) * s;
    SquareNonNegative(p - q);
    assert (p + q) * (p + q) == (p - q) * (p - q) + 4.0 * (p * q);
    SquareOrder(u, p + q);
  }

  /** The Cauchy-Schwarz inequality. */
  lemma {:induction false} CauchySchwarz(x: seq<real>, y: seq<real>, n: nat)
    requires n <= |x| && n <= |y|
    ensures Dot(x, y, n) * Dot(x, y, n) <= Dot(x, x, n) * Dot(y, y, n)
  {
    if n > 0 {
      CauchySchwarz(x, y, n - 1);
      DotNonNegative(x, n - 1);
      DotNonNegative(y, n - 1);
      CauchyStep(Dot(x, y, n - 1), Dot(x, x, n - 1), Dot(y, y, n - 1), x[n - 1], y[n - 1]);
    }
  }

  lemma {:induction false} NormOfSum(x: seq<real>, y: seq<real>, n: nat)
    requires |x| == |y| && n <= |x|
    ensures Dot(Plus(x, y), Plus(x, y), n) == Dot(x, x, n) + 2.0 * Dot(x, y, n) + Dot(y, y, n)
  {
    if n > 0 {
      NormOfSum(x, y, n - 1);
      LastProduct(x, x, n);
      LastProduct(x, y, n);
      LastProduct(y, y, n);
      LastProduct(Plus(x, y), Plus(x, y), n);
      hide Dot;
      SquareOfSum(x[n - 1], y[n - 1]);
    }
  }

  lemma LastProduct(x: seq<real>, y: seq<real>, n: nat)
    requires 0 < n <= |x| && n <= |y|
    ensures Dot(x, y, n) == Dot(x, y, n - 1) + x[n - 1] * y[n - 1]
  {
  }

  lemma SquareOfSum(a: real, b: real)
    ensures (a + b) * (a + b) == a * a + 2.0 * (a * b) + b * b
  {
  }

  /** The triangle inequality: norms bounded by `m` and `r` give a sum bounded by m + r. */
  lemma Triangle(x: seq<real>, y: seq<real>, m: real, r: real)
    requires |x| == |y| && m >= 0.0 && r >= 0.0
    requires Norm2(x) <= m * m && Norm2(y) <= r * r
    ensures Norm2(Plus(x, y)) <= (m + r) * (m + r)
  {
    var n := |x|;
    var d := Dot(x, y, n);
    CauchySchwarz(x, y, n);
    DotNonNegative(x, n);
    DotNonNegative(y, n);
    NormOfSum(x, y, n);
    ProductBound(d, Dot(x, x, n), Dot(y, y, n), m, r);
    assert (m + r) * (m + r) == m * m + 2.0 * (m * r) + r * r;
  }

  lemma ProductBound(d: real, bigX: real, bigY: real, m: real, r: real)
    requires d * d <= bigX * bigY && 0.0 <= bigX <= m * m && 0.0 <= bigY <= r * r && m >= 0.0 && r >= 0.0
    ensures d <= m * r
  {
    assert bigX * bigY <= (m * m) * bigY;
    SquareNonNegative(m);
    assert (m * m) * bigY <= (m * m) * (r * r);
    assert (m * r) * (m * r) == (m * m) * (r * r);
    assert m * r >= 0.0;
    SquareOrder(d, m * r);
  }

  lemma {:induction false} SmallComponents(e: seq<real>, n: nat)
    requires n <= |e| && forall i :: 0 <= i < |e| ==> -1.0 <= e[i] <= 1.0
    ensures Dot(e, e, n) <= n as real
  {
    if n > 0 {
      SmallComponents(e, n - 1);
      var a := e[n - 1];
      MulNonNegative(1.0 - a, 1.0 + a);
      assert a * a == 1.0 - (1.0 - a) * (1.0 + a);
    }
  }

  lemma {:induction false} DotScales(s: real, x: seq<real>, n: nat)
    requires n <= |x|
    ensures Dot(Times(s, x), Times(s, x), n) == s * s * Dot(x, x, n)
  {
    if n > 0 {
      DotScales(s, x, n - 1);
      var a, d := x[n - 1], Dot(x, x, n - 1);
      assert (s * a) * (s * a) == s * s * (a * a);
      assert s * s * (d + a * a) == s * s * d + s * s * (a * a);
    }
  }

  // ---------------------------------------------------------------- ranking

  /** No component saturates. */
  ghost predicate Unclipped(x: seq<real>, scale: real) {
    forall i :: 0 <= i < |x| ==> Representable(x[i], scale)
  }

  predicate Representable(x: real, scale: real) {
    Abs(x * scale) <= 127.5
  }

  /** The rounding error of a difference of codes, component by component. */
  function Noise(a: seq<real>, b: seq<real>, scale: real): (e: seq<real>)
    requires |a| == |b|
    ensures |e| == |a|
  {
    Minus(Minus(Codes(a, scale), Codes(b, scale)), Times(scale, Minus(a, b)))
  }

  lemma NoiseComponent(x: real, y: real, scale: real)
    requires Representable(x, scale) && Representable(y, scale)
    ensures -1.0 <= (Code(x, scale) as real - Code(y, scale) as real) - scale * (x - y) <= 1.0
  {
    WithinHalfIff(x, scale);
    WithinHalfIff(y, scale);
    hide Code;
    assert scale * (x - y) == x * scale - y * scale;
  }

  lemma NoiseAt(a: seq<real>, b: seq<real>, scale: real, i: nat)
    requires |a| == |b| && i < |a| && Representable(a[i], scale) && Representable(b[i], scale)
    ensures -1.0 <= Noise(a, b, scale)[i] <= 1.0
  {
    hide Code, Representable;
    NoiseComponent(a[i], b[i], scale);
  }

  lemma NoiseIsSmall(a: seq<real>, b: seq<real>, scale: real)
    requires |a| == |b| && Unclipped(a, scale) && Unclipped(b, scale)
    ensures Norm2(Noise(a, b, scale)) <= |a| as real
  {
    hide Code, Representable, Noise;
    var e := Noise(a, b, scale);
    forall i | 0 <= i < |e|
      ensures -1.0 <= e[i] <= 1.0
    {
      NoiseAt(a, b, scale, i);
    }
    SmallComponents(e, |e|);
  }

  /** The squared L2 distance of the stored codes, which is what the index ranks by. */
  function CodeDistance2(a: seq<real>, b: seq<real>, scale: real): real
    requires |a| == |b|
  {
    Norm2(Minus(Codes(a, scale), Codes(b, scale)))
  }

  lemma ScaledNorm(x: seq<real>, scale: real, dist: real)
    requires dist * dist == Norm2(x)
    ensures Norm2(Times(scale, x)) == (scale * dist) * (scale * dist)
  {
    DotScales(scale, x, |x|);
    assert (scale * dist) * (scale * dist) == scale * scale * (dist * dist);
  }

  lemma NegatedNorm(x: seq<real>)
    ensures Norm2(Times(-1.0, x)) == Norm2(x)
  {
    DotScales(-1.0, x, |x|);
  }

  /** A code distance exceeds the scaled distance by at most sqrt(n). */
  lemma CodeDistanceUpper(a: seq<real>, b: seq<real>, scale: real, dist: real, root: real)
    requires |a| == |b| && scale >= 0.0 && Unclipped(a, scale) && Unclipped(b, scale)
    requires dist >= 0.0 && dist * dist == Norm2(Minus(a, b)) && root >= 0.0 && root * root == |a| as real
    ensures CodeDistance2(a, b, scale) <= (scale * dist + root) * (scale * dist + root)
  {
    var x := Times(scale, Minus(a, b));
    var e := Noise(a, b, scale);
    assert Plus(x, e) == Minus(Codes(a, scale), Codes(b, scale));
    hide Norm2, Unclipped, Noise;
    NoiseIsSmall(a, b, scale);
    ScaledNorm(Minus(a, b), scale, dist);
    MulNonNegative(scale, dist);
    Triangle(x, e, scale * dist, root);
  }

  lemma NoiseBack(a: seq<real>, b: seq<real>, scale: real)
    requires |a| == |b|
    ensures Plus(Minus(Codes(a, scale), Codes(b, scale)), Times(-1.0, Noise(a, b, scale))) == Times(scale, Minus(a, b))
  {
    hide Code;
    var q, e, x := Minus(Codes(a, scale), Codes(b, scale)), Noise(a, b, scale), Times(scale, Minus(a, b));
    var z := Plus(q, Times(-1.0, e));
    forall i | 0 <= i < |z|
      ensures z[i] == x[i]
    {
      assert z[i] == q[i] + -1.0 * e[i];
      assert e[i] == q[i] - x[i];
    }
  }

  /** A code distance falls short of the scaled distance by at most sqrt(n). */
  lemma CodeDistanceLower(a: seq<real>, b: seq<real>, scale: real, dist: real, root: real, m: real)
    requires |a| == |b| && scale >= 0.0 && Unclipped(a, scale) && Unclipped(b, scale)
    requires dist >= 0.0 && dist * dist == Norm2(Minus(a, b)) && root >= 0.0 && root * root == |a| as real
    requires m >= 0.0 && CodeDistance2(a, b, scale) <= m * m
    ensures scale * dist <= m + root
  {
    hide *;
    CodesAndNoise(a, b, scale, root, m);
    ScaledNorm(Minus(a, b), scale, dist);
    RootOrder(Norm2(Times(scale, Minus(a, b))), scale * dist, m + root);
  }

  lemma RootOrder(square: real, u: real, v: real)
    requires square == u * u && square <= v * v && v >= 0.0
    ensures u <= v
  {
    SquareOrder(u, v);
  }

  lemma CodesAndNoise(a: seq<real>, b: seq<real>, scale: real, root: real, m: real)
    requires |a| == |b| && Unclipped(a, scale) && Unclipped(b, scale)
    requires root >= 0.0 && root * root == |a| as real && m >= 0.0 && CodeDistance2(a, b, scale) <= m * m
    ensures Norm2(Times(scale, Minus(a, b))) <= (m + root) * (m + root)
  {
    var e := Noise(a, b, scale);
    var q := Minus(Codes(a, scale), Codes(b, scale));
    assert Norm2(q) == CodeDistance2(a, b, scale);
    hide *;
    NoiseBack(a, b, scale);
    NoiseIsSmall(a, b, scale);
    NegatedNorm(e);
    Triangle(q, Times(-1.0, e), m, root);
  }

  /**
   Ranking is preserved with an explicit margin: if S|a - c| exceeds S|a - b| by more than twice
   the square root of the dimension, the codes of b are strictly nearer to those of a than c's.
   The distances and the root are given by their squares.
   */
  lemma RankingPreserved(a: seq<real>, b: seq<real>, c: seq<real>, scale: real, near: real, far: real, root: real)
    requires |a| == |b| == |c| && scale >= 0.0
    requires Unclipped(a, scale) && Unclipped(b, scale) && Unclipped(c, scale)
    requires near >= 0.0 && near * near == Norm2(Minus(a, b))
    requires far >= 0.0 && far * far == Norm2(Minus(a, c))
    requires root >= 0.0 && root * root == |a| as real
    requires scale * far > scale * near + 2.0 * root
    ensures CodeDistance2(a, b, scale) < CodeDistance2(a, c, scale)
  {
    var m := scale * near + root;
    hide CodeDistance2, Norm2, Unclipped;
    MulNonNegative(scale, near);
    CodeDistanceUpper(a, b, scale, near, root);
    if CodeDistance2(a, c, scale) <= m * m { CodeDistanceLower(a, c, scale, far, root, m); }
  }
}
