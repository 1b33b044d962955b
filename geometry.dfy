/** Plane vectors as the physics library represents body positions, the
    handful of vector operations the widget uses, and the friction options
    given to bodies. Coordinates are reals. */
module Geometry {

  datatype Vec = Vec(x: real, y: real)

  /** Friction options handed to the physics library with each body. */
  datatype Friction = Friction(friction: real, frictionAir: real, frictionStatic: real)

  function Add(a: Vec, b: Vec): Vec { Vec(a.x + b.x, a.y + b.y) }

  function Sub(a: Vec, b: Vec): Vec { Vec(a.x - b.x, a.y - b.y) }

  function Mult(a: Vec, k: real): Vec { Vec(a.x * k, a.y * k) }

  /** The point halfway between `a` and `b`, computed as the source does. */
  function Midpoint(a: Vec, b: Vec): Vec { Mult(Add(a, b), 0.5) }

  /** Sum of a sequence of reals, folded from the front as an accumulating
      loop does. */
  function Total(xs: seq<real>): real
  {
    if |xs| == 0 then 0.0 else Total(xs[..|xs| - 1]) + xs[|xs| - 1]
  }

  function Xs(ps: seq<Vec>): (r: seq<real>)
    ensures |r| == |ps| && forall i :: 0 <= i < |ps| ==> r[i] == ps[i].x
  {
    seq(|ps|, i requires 0 <= i < |ps| => ps[i].x)
  }

  function Ys(ps: seq<Vec>): (r: seq<real>)
    ensures |r| == |ps| && forall i :: 0 <= i < |ps| ==> r[i] == ps[i].y
  {
    seq(|ps|, i requires 0 <= i < |ps| => ps[i].y)
  }

  /** Coordinate-wise sum of a sequence of points. */
  function Sum(ps: seq<Vec>): Vec
  {
    Vec(Total(Xs(ps)), Total(Ys(ps)))
  }

  /** The total of `n` copies of one real is `n` times that real. */
  lemma {:induction false} TotalConstant(xs: seq<real>, c: real)
    requires forall i :: 0 <= i < |xs| ==> xs[i] == c
    ensures Total(xs) == c * (|xs| as real)
  {
    if |xs| > 0 {
      var n := |xs| - 1;
      TotalConstant(xs[..n], c);
      var k := n as real;
      assert c * (k + 1.0) == c * k + c;
    }
  }

  /** The sum of `n` copies of one point is `n` times that point. */
  lemma {:induction false} SumConstant(ps: seq<Vec>, p: Vec)
    requires forall i :: 0 <= i < |ps| ==> ps[i] == p
    ensures Sum(ps) == Mult(p, |ps| as real)
  {
    TotalConstant(Xs(ps), p.x);
    TotalConstant(Ys(ps), p.y);
  }

  /** The coordinate sum divided by `n`: what `getCenter` returns for a ring
      declared with `n` bodies. */
  function Mean(ps: seq<Vec>, n: nat): (r: Vec)
    requires n != 0
    ensures r.x * (n as real) == Sum(ps).x && r.y * (n as real) == Sum(ps).y
  {
    Mult(Sum(ps), 1.0 / (n as real))
  }

  lemma DivideShift(s: real, c: real, n: real)
    requires n != 0.0
    ensures (s + c * n) * (1.0 / n) == s * (1.0 / n) + c
  {
    calc {
      (s + c * n) * (1.0 / n);
      s * (1.0 / n) + c * (n * (1.0 / n));
      s * (1.0 / n) + c;
    }
  }

  /** The mean of `n` copies of one point is that point. */
  lemma {:induction false} MeanConstant(ps: seq<Vec>, p: Vec)
    requires |ps| != 0
    requires forall i :: 0 <= i < |ps| ==> ps[i] == p
    ensures Mean(ps, |ps|) == p
  {
    SumConstant(ps, p);
    var n := |ps| as real;
    DivideShift(0.0, p.x, n);
    DivideShift(0.0, p.y, n);
  }
}
