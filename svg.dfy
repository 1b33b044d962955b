/** The SVG outline of a blob: every ring node is pushed outward from the
    blob's centre, rounded down to a tenth, and joined into one closed path
    of quadratic curves whose control points are the pushed-out nodes and
    whose end points are the midpoints between neighbours. */
module SvgRender {
  import opened Geometry

  /** `a` rounded down to a multiple of one tenth, as `Math.floor(a * 10) * 0.1`. */
  function RoundDown(a: real): (r: real)
    ensures r <= a < r + 0.1
  {
    var f := (a * 10.0).Floor;
    assert (f as real) <= a * 10.0 < (f as real) + 1.0;
    (f as real) * 0.1
  }

  /** `pixelPerfect`: both coordinates rounded down to a tenth, never up. */
  function PixelPerfect(v: Vec): (r: Vec)
    ensures r.x <= v.x < r.x + 0.1
    ensures r.y <= v.y < r.y + 0.1
  {
    Vec(RoundDown(v.x), RoundDown(v.y))
  }

  /** Rounding down gives the largest multiple of a tenth not above `a`. */
  lemma RoundDownIsLargestTenth(a: real, k: int)
    requires (k as real) * 0.1 <= a
    ensures (k as real) * 0.1 <= RoundDown(a)
  {
    var f := (a * 10.0).Floor;
    assert (k as real) <= a * 10.0;
    assert k <= f;
  }

  /** Rounding an already rounded value changes nothing. */
  lemma RoundDownIdempotent(a: real)
    ensures RoundDown(RoundDown(a)) == RoundDown(a)
  {
    var f := (a * 10.0).Floor;
    assert RoundDown(a) * 10.0 == f as real;
    assert (RoundDown(a) * 10.0).Floor == f;
  }

  lemma PixelPerfectIdempotent(v: Vec)
    ensures PixelPerfect(PixelPerfect(v)) == PixelPerfect(v)
  {
    RoundDownIdempotent(v.x);
    RoundDownIdempotent(v.y);
  }

  /** One command of the path's `d` attribute. */
  datatype PathCommand = M(to: Vec) | Q(control: Vec, to: Vec)

  /** Node `k` pushed `size` outward from `center` along the normalised
      direction from the centre, then rounded down. `normalise` stands for
      the physics library's vector normalisation. */
  function Projected(nodes: seq<Vec>, k: nat, center: Vec, size: real, normalise: Vec -> Vec): (r: Vec)
    requires k < |nodes|
    ensures var p := Add(nodes[k], Mult(normalise(Sub(nodes[k], center)), size));
      r.x <= p.x < r.x + 0.1 && r.y <= p.y < r.y + 0.1
    ensures PixelPerfect(r) == r
  {
    var p := Add(nodes[k], Mult(normalise(Sub(nodes[k], center)), size));
    PixelPerfectIdempotent(p);
    PixelPerfect(p)
  }

  /** All nodes projected, in ring order. */
  function Projections(nodes: seq<Vec>, center: Vec, size: real, normalise: Vec -> Vec): (r: seq<Vec>)
    ensures |r| == |nodes|
    ensures forall k :: 0 <= k < |nodes| ==> r[k] == Projected(nodes, k, center, size, normalise)
  {
    seq(|nodes|, k requires 0 <= k < |nodes| => Projected(nodes, k, center, size, normalise))
  }

  /** `k mod n` for `k` below `2 n`, the only range the loop needs. */
  function Wrap(k: nat, n: nat): (r: nat)
    requires 0 < n && k < 2 * n
    ensures r < n
  {
    if k < n then k else k - n
  }

  /** `Wrap` is the remainder the loop computes. */
  lemma WrapIsMod(k: nat, n: nat)
    requires 0 < n && k < 2 * n
    ensures Wrap(k, n) == k % n
  {
    if k >= n {
      assert k == 1 * n + (k - n);
    }
  }

  /** Curve `k` of the outline through ring points `ps`: control point
      `k mod n`, ending at the rounded midpoint of that point and the next. */
  function Curve(ps: seq<Vec>, k: nat): (r: PathCommand)
    requires |ps| >= 2 && k <= |ps|
    ensures r.Q? && r.control == ps[k % |ps|]
    ensures var m := Midpoint(ps[k % |ps|], ps[(k + 1) % |ps|]);
      r.to.x <= m.x < r.to.x + 0.1 && r.to.y <= m.y < r.to.y + 0.1
  {
    var n := |ps|;
    WrapIsMod(k, n);
    WrapIsMod(k + 1, n);
    Q(ps[Wrap(k, n)], PixelPerfect(Midpoint(ps[Wrap(k, n)], ps[Wrap(k + 1, n)])))
  }

  /** The outline through ring points `ps`: a move to the (unrounded)
      midpoint of the first two, then the curves `1..n`. */
  function Curves(ps: seq<Vec>): (path: seq<PathCommand>)
    requires |ps| >= 2
    ensures |path| == |ps| + 1
    ensures path[0] == M(Midpoint(ps[0], ps[1]))
    ensures forall k :: 1 <= k <= |ps| ==> path[k] == Curve(ps, k)
  {
    [M(Midpoint(ps[0], ps[1]))] + seq(|ps|, m requires 0 <= m < |ps| => Curve(ps, m + 1))
  }

  /** The path `draw` writes: the outline through the projected nodes. */
  function CurvePath(nodes: seq<Vec>, center: Vec, size: real, normalise: Vec -> Vec): seq<PathCommand>
    requires |nodes| >= 2
  {
    Curves(Projections(nodes, center, size, normalise))
  }

  /** The first `i - 1` commands of the outline through `ps`. */
  ghost predicate CurvesSoFar(ps: seq<Vec>, path: seq<PathCommand>, i: nat)
    requires |ps| >= 2 && i <= |ps| + 2
  {
    && |path| == i - 1 >= 1
    && path[0] == M(Midpoint(ps[0], ps[1]))
    && forall k :: 1 <= k < i - 1 ==> path[k] == Curve(ps, k)
  }

  /** One pass of the `draw` loop adds curve `i - 1`. */
  lemma CurveStep(ps: seq<Vec>, path: seq<PathCommand>, i: nat)
    requires |ps| >= 2 && 2 <= i < |ps| + 2 && CurvesSoFar(ps, path, i)
    ensures CurvesSoFar(ps, path + [Q(ps[Wrap(i - 1, |ps|)],
      PixelPerfect(Midpoint(ps[Wrap(i - 1, |ps|)], ps[Wrap(i, |ps|)])))], i + 1)
  {
  }

  /** All curves so far make the whole outline. */
  lemma CurvesDone(ps: seq<Vec>, path: seq<PathCommand>)
    requires |ps| >= 2 && CurvesSoFar(ps, path, |ps| + 2)
    ensures path == Curves(ps)
  {
  }

  /** `draw`, with the outline string kept as its list of commands. The
      centre and `size` (the blob's size times its current scale) are
      supplied by the caller. */
  method Draw(nodes: seq<Vec>, center: Vec, size: real, normalise: Vec -> Vec)
    returns (path: seq<PathCommand>)
    requires |nodes| >= 2
    ensures path == CurvePath(nodes, center, size, normalise)
  {
    var n := |nodes|;
    ghost var ps := Projections(nodes, center, size, normalise);
    var v1 := ProjectNode(nodes, 0, center, size, normalise);
    var v2 := ProjectNode(nodes, 1, center, size, normalise);
    var between := Midpoint(v1, v2);
    path := [M(between)];
    v1 := v2;
    var i := 2;
    while i < n + 2
      invariant 2 <= i <= n + 2
      invariant CurvesSoFar(ps, path, i)
      invariant v1 == ps[Wrap(i - 1, n)]
    {
      var index := i % n;
      WrapIsMod(i, n);
      v2 := ProjectNode(nodes, index, center, size, normalise);
      between := PixelPerfect(Midpoint(v1, v2));
      CurveStep(ps, path, i);
      path := path + [Q(v1, between)];
      i := i + 1;
      v1 := v2;
    }
    CurvesDone(ps, path);
  }

  /** The three statements `draw` repeats for each node: the offset along
      the normalised direction from the centre, added, then rounded. */
  method ProjectNode(nodes: seq<Vec>, k: nat, center: Vec, size: real, normalise: Vec -> Vec)
    returns (v: Vec)
    requires k < |nodes|
    ensures v == Projected(nodes, k, center, size, normalise)
  {
    v := nodes[k];
    var offset := Mult(normalise(Sub(v, center)), size);
    v := PixelPerfect(Add(v, offset));
  }

  /** The control points of the curve commands, in path order. */
  function Controls(path: seq<PathCommand>): (r: seq<Vec>)
    requires forall k :: 0 <= k < |path| ==> path[k].Q? || k == 0
    requires |path| >= 1
    ensures |r| == |path| - 1
    ensures forall k :: 0 <= k < |r| ==> r[k] == path[k + 1].control
  {
    seq(|path| - 1, k requires 0 <= k < |path| - 1 => path[k + 1].control)
  }

  /** The control points are the ring points `1, 2, ..., n-1, 0`: the ring
      rotated by one, so every point is a control point exactly once. */
  lemma ControlsRotateRing(ps: seq<Vec>)
    requires |ps| >= 2
    ensures var path := Curves(ps);
      && (forall k :: 0 <= k < |path| ==> path[k].Q? || k == 0)
      && Controls(path) == ps[1..] + [ps[0]]
      && multiset(Controls(path)) == multiset(ps)
  {
    var path := Curves(ps);
    var cs := Controls(path);
    assert forall k :: 0 <= k < |ps| ==> cs[k] == path[k + 1].control == ps[Wrap(k + 1, |ps|)];
    assert cs == ps[1..] + [ps[0]];
    assert ps == [ps[0]] + ps[1..];
  }

  /** Every curve ends at the rounded midpoint of its own control point and
      the next curve's control point, wrapping from the last curve to the
      first. */
  lemma EndpointsAreRoundedMidpoints(ps: seq<Vec>)
    requires |ps| >= 2
    ensures forall k: nat :: 1 <= k <= |ps| ==>
      && Curves(ps)[k].Q? && Curves(ps)[Wrap(k, |ps|) + 1].Q?
      && Curves(ps)[k].to
           == PixelPerfect(Midpoint(Curves(ps)[k].control, Curves(ps)[Wrap(k, |ps|) + 1].control))
  {
    var path := Curves(ps);
    var n := |ps|;
    forall k: nat | 1 <= k <= n
      ensures path[Wrap(k, n) + 1].control == ps[Wrap(k + 1, n)]
    {
      assert Wrap(Wrap(k, n) + 1, n) == Wrap(k + 1, n);
    }
  }

  /** The last curve ends at the rounded start point, so the outline closes
      only up to rounding: the end lies less than a tenth below the start in
      each coordinate. */
  lemma PathClosesUpToRounding(ps: seq<Vec>)
    requires |ps| >= 2
    ensures var path := Curves(ps);
      var n := |ps|;
      && path[n].to == PixelPerfect(path[0].to)
      && path[n].to.x <= path[0].to.x < path[n].to.x + 0.1
      && path[n].to.y <= path[0].to.y < path[n].to.y + 0.1
  {
    assert Curves(ps)[|ps|] == Curve(ps, |ps|);
  }

  /** Two rounded neighbours a tenth apart have a midpoint that is not a
      tenth, so the start point and the last end point can differ. */
  lemma RoundingCanOpenPath()
    ensures var a, b := Vec(0.0, 0.0), Vec(0.1, 0.0);
      && PixelPerfect(a) == a && PixelPerfect(b) == b
      && PixelPerfect(Midpoint(a, b)) != Midpoint(a, b)
  {
    assert (0.1 * 10.0).Floor == 1;
    assert (0.05 * 10.0).Floor == 0;
  }
}
