/** The dish: a ring of `num` static rectangular segments around `position`
    at `radius`. `moveTo` and `resizeTo` only set targets; each `update`
    eases the radius a tenth of the way toward its target, drags the centre
    along, and re-places every segment. */
module Dishes {
  import opened Geometry

  const DishFriction: Friction := Friction(0.0, 0.01, 0.0)

  /** The point at `angle` on the circle of radius `r` about the origin. */
  function Polar(angle: real, r: real, cos: real -> real, sin: real -> real): Vec
  {
    Vec(cos(angle) * r, sin(angle) * r)
  }

  /** A boundary segment: a static rectangle with its centre, size and angle. */
  datatype Segment = Segment(position: Vec, width: real, height: real, angle: real,
                             isStatic: bool, friction: Friction)

  /** Everything `update` reads and writes. */
  datatype DishState = DishState(position: Vec, targetPosition: Vec, radius: real,
                                 targetRadius: real, bodies: seq<Segment>)

  /** The relative gap below which `update` stops easing. */
  const Epsilon: real := 0.001
  /** The fraction of the remaining distance covered per `update`. */
  const Rate: real := 0.1

  /** Whether `targetRadius / radius` is more than `Epsilon` away from 1. */
  predicate Pending(radius: real, targetRadius: real)
    requires radius != 0.0
  {
    var targetScale := targetRadius / radius;
    targetScale - 1.0 > Epsilon || 1.0 - targetScale > Epsilon
  }

  /** The factor `update` multiplies the radius and the segments by. */
  function StepScale(radius: real, targetRadius: real): (r: real)
    requires radius != 0.0
    ensures radius * r == radius + Rate * (targetRadius - radius)
    ensures r == 1.0 <==> targetRadius == radius
  {
    assert radius * (targetRadius / radius) == targetRadius;
    assert targetRadius / radius == 1.0 <==> targetRadius == radius;
    1.0 + (targetRadius / radius - 1.0) * Rate
  }

  /** A segment re-placed about the centre `c`, scaled by `scale`. */
  function Replace(body: Segment, c: Vec, scale: real): (r: Segment)
    ensures r.position.x - c.x == -scale * (body.position.x - c.x)
    ensures r.position.y - c.y == -scale * (body.position.y - c.y)
    ensures r.width == scale * body.width && r.height == scale * body.height
    ensures r.angle == body.angle && r.isStatic == body.isStatic && r.friction == body.friction
  {
    body.(position := Add(c, Mult(Sub(c, body.position), scale)),
          width := body.width * scale, height := body.height * scale)
  }

  function ReplaceAll(bodies: seq<Segment>, c: Vec, scale: real): (r: seq<Segment>)
    ensures |r| == |bodies|
    ensures forall i :: 0 <= i < |bodies| ==> r[i] == Replace(bodies[i], c, scale)
  {
    seq(|bodies|, i requires 0 <= i < |bodies| => Replace(bodies[i], c, scale))
  }

  /** One `update` of the dish, on values. */
  function Step(s: DishState): (r: DishState)
    requires s.radius != 0.0
    ensures r.targetPosition == s.targetPosition && |r.bodies| == |s.bodies|
    ensures !Pending(s.radius, s.targetRadius) ==> r.targetRadius == r.radius
  {
    if Pending(s.radius, s.targetRadius) then
      var position := Add(s.position, Mult(Sub(s.targetPosition, s.position), Rate));
      var scale := StepScale(s.radius, s.targetRadius);
      s.(position := position, radius := s.radius * scale,
         bodies := ReplaceAll(s.bodies, position, scale))
    else
      s.(targetRadius := s.radius)
  }

  lemma EaseAlgebra(r: real, t: real)
    requires r != 0.0
    ensures r * StepScale(r, t) == r + Rate * (t - r)
  {
    calc {
      r * StepScale(r, t);
      r + (r * (t / r) - r) * Rate;
      { assert r * (t / r) == t; }
      r + Rate * (t - r);
    }
  }

  /** While a resize is pending, `update` moves the radius a tenth of the
      way to its target: strictly between the old radius and the target,
      never past it, and still positive. The centre moves a tenth of the way
      to its target; both targets are kept. */
  lemma StepEases(s: DishState)
    requires s.radius > 0.0 && s.targetRadius > 0.0
    requires Pending(s.radius, s.targetRadius)
    ensures Step(s).radius == s.radius + Rate * (s.targetRadius - s.radius)
    ensures s.radius < s.targetRadius ==> s.radius < Step(s).radius < s.targetRadius
    ensures s.targetRadius < s.radius ==> s.targetRadius < Step(s).radius < s.radius
    ensures Step(s).radius > 0.0
    ensures Step(s).position == Add(s.position, Mult(Sub(s.targetPosition, s.position), Rate))
    ensures Step(s).targetRadius == s.targetRadius && Step(s).targetPosition == s.targetPosition
  {
    EaseAlgebra(s.radius, s.targetRadius);
    assert s.radius / s.radius == 1.0;
  }

  /** The remaining radius gap shrinks to nine tenths each pending update. */
  lemma StepContracts(s: DishState)
    requires s.radius > 0.0 && Pending(s.radius, s.targetRadius)
    ensures s.targetRadius - Step(s).radius == (1.0 - Rate) * (s.targetRadius - s.radius)
  {
    EaseAlgebra(s.radius, s.targetRadius);
  }

  /** Every segment is sent to `c + scale * (c - p)`, `c` the new centre and
      `p` its old position: a point reflection through the new centre with
      the distance to it multiplied by `scale`, the ratio of new to old
      radius. */
  lemma StepReflectsSegments(s: DishState)
    requires s.radius > 0.0 && Pending(s.radius, s.targetRadius)
    ensures |Step(s).bodies| == |s.bodies|
    ensures forall i :: 0 <= i < |s.bodies| ==>
      Sub(Step(s).bodies[i].position, Step(s).position)
        == Mult(Sub(s.bodies[i].position, Step(s).position), -(Step(s).radius / s.radius))
  {
    var c := Step(s).position;
    var scale := StepScale(s.radius, s.targetRadius);
    assert Step(s).radius / s.radius == scale;
    forall i | 0 <= i < |s.bodies|
      ensures Sub(Step(s).bodies[i].position, c) == Mult(Sub(s.bodies[i].position, c), -scale)
    {
      var p := s.bodies[i].position;
      assert Step(s).bodies[i].position == Add(c, Mult(Sub(c, p), scale));
    }
  }

  /** Once the radius is within `Epsilon` of its target, `update` only
      snaps the target onto the radius: the centre does not follow a new
      `targetPosition`, the segments stay, and further updates change
      nothing. */
  lemma StepSettles(s: DishState)
    requires s.radius > 0.0 && !Pending(s.radius, s.targetRadius)
    ensures Step(s).position == s.position && Step(s).radius == s.radius
    ensures Step(s).bodies == s.bodies
    ensures Step(s).targetRadius == s.radius
    ensures !Pending(Step(s).radius, Step(s).targetRadius)
    ensures Step(Step(s)) == Step(s)
  {
    assert s.radius / s.radius == 1.0;
  }

  class Dish {
    var position: Vec
    var targetPosition: Vec
    const num: nat
    var radius: real
    var targetRadius: real
    var bodies: seq<Segment>

    /** The radius and its target stay positive. */
    ghost predicate Valid()
      reads this
    {
      radius > 0.0 && targetRadius > 0.0
    }

    function State(): DishState
      reads this
    {
      DishState(position, targetPosition, radius, targetRadius, bodies)
    }

    constructor (position: Vec, num: nat, radius: real)
      requires num > 0 && radius > 0.0
      ensures Valid()
      ensures State() == DishState(position, position, radius, radius, [])
      ensures this.num == num
    {
      this.position := position;
      this.targetPosition := position;
      this.num := num;
      this.radius := radius;
      this.targetRadius := radius;
      this.bodies := [];
    }

    /** The angle between neighbouring segments, `2 pi / num`. */
    function Arc(pi: real): real
      requires num > 0
    {
      pi * 2.0 / (num as real)
    }

    /** Segment `i` of a fresh ring of width `w`. */
    function RingSegment(position: Vec, radius: real, i: nat, w: real,
                         cos: real -> real, sin: real -> real, pi: real): Segment
      requires num > 0
    {
      var angle := (i as real) * Arc(pi);
      Segment(Add(position, Polar(angle, radius, cos, sin)), w, 1.0,
              angle + pi / 2.0, true, DishFriction)
    }

    /** The common width of the segments: the chord between the vertices
        at angles `2 pi / num` and `4 pi / num`. */
    function ChordWidth(radius: real, cos: real -> real, sin: real -> real, pi: real, magnitude: Vec -> real): real
      requires num > 0
    {
      magnitude(Sub(Polar(Arc(pi), radius, cos, sin), Polar(Arc(pi) * 2.0, radius, cos, sin)))
    }

    /** Appends `num` segments of one common width, the chord between
        neighbouring vertices; segment `i` sits at angle `i * 2 pi / num` and
        is turned a further quarter turn. `cos`, `sin`, `pi` and `magnitude`
        stand for the floating-point library. */
    method Init(cos: real -> real, sin: real -> real, pi: real, magnitude: Vec -> real)
      requires num > 0
      modifies this
      ensures position == old(position) && targetPosition == old(targetPosition)
      ensures radius == old(radius) && targetRadius == old(targetRadius)
      ensures |bodies| == |old(bodies)| + num
      ensures bodies[..|old(bodies)|] == old(bodies)
      ensures forall k :: |old(bodies)| <= k < |bodies| ==>
        bodies[k] == RingSegment(position, radius, k - |old(bodies)|, ChordWidth(radius, cos, sin, pi, magnitude), cos, sin, pi)
      ensures forall k :: |old(bodies)| <= k < |bodies| ==>
        && bodies[k].width == ChordWidth(radius, cos, sin, pi, magnitude)
        && bodies[k].angle == ((k - |old(bodies)|) as real) * (pi * 2.0 / (num as real)) + pi / 2.0
    {
      var segment := Arc(pi);
      var v1 := Polar(segment, radius, cos, sin);
      var v2 := Polar(segment * 2.0, radius, cos, sin);
      var w := magnitude(Sub(v1, v2));
      assert w == ChordWidth(radius, cos, sin, pi, magnitude);
      var start := |bodies|;
      var i := 0;
      while i < num
        invariant 0 <= i <= num
        invariant |bodies| == start + i
        invariant bodies[..start] == old(bodies)
        invariant position == old(position) && targetPosition == old(targetPosition)
        invariant radius == old(radius) && targetRadius == old(targetRadius)
        invariant forall k :: start <= k < |bodies| ==> bodies[k] == RingSegment(position, radius, k - start, w, cos, sin, pi)
      {
        var angle := (i as real) * segment;
        var offset := Polar(angle, radius, cos, sin);
        var x := position.x + offset.x;
        var y := position.y + offset.y;
        var rectangle := Segment(Vec(x, y), w, 1.0, angle + pi / 2.0, true, DishFriction);
        assert angle == (i as real) * Arc(pi);
        assert Vec(x, y) == Add(position, Polar((i as real) * Arc(pi), radius, cos, sin));
        assert rectangle == RingSegment(position, radius, i, w, cos, sin, pi);
        bodies := bodies + [rectangle];
        i := i + 1;
      }
    }

    /** One animation step; see `Step`. */
    method Update()
      requires Valid()
      modifies this
      ensures Valid()
      ensures State() == Step(old(State()))
    {
      var targetScale := targetRadius / radius;
      if targetScale - 1.0 > Epsilon || 1.0 - targetScale > Epsilon {
        ghost var s := State();
        StepEases(s);
        var offset := Sub(targetPosition, position);
        offset := Mult(offset, Rate);
        position := Add(position, offset);
        var scaleStep := (targetScale - 1.0) * Rate;
        var scale := 1.0 + scaleStep;
        assert scale == StepScale(s.radius, s.targetRadius);
        radius := radius * scale;
        ReplaceBodies(position, scale);
      } else {
        targetRadius := radius;
      }
    }

    /** The segment loop of `update`: every segment re-placed about `c`. */
    method ReplaceBodies(c: Vec, scale: real)
      modifies this
      ensures bodies == ReplaceAll(old(bodies), c, scale)
      ensures position == old(position) && targetPosition == old(targetPosition)
      ensures radius == old(radius) && targetRadius == old(targetRadius)
    {
      ghost var moved := bodies;
      var i := 0;
      while i < |bodies|
        invariant 0 <= i <= |bodies| == |moved|
        invariant forall j :: 0 <= j < i ==> bodies[j] == Replace(moved[j], c, scale)
        invariant forall j :: i <= j < |bodies| ==> bodies[j] == moved[j]
        invariant position == old(position) && targetPosition == old(targetPosition)
        invariant radius == old(radius) && targetRadius == old(targetRadius)
      {
        var body := bodies[i];
        var bodyOffset := Sub(c, body.position);
        bodyOffset := Mult(bodyOffset, scale);
        body := body.(position := Add(c, bodyOffset));
        body := body.(width := body.width * scale, height := body.height * scale);
        bodies := bodies[i := body];
        i := i + 1;
      }
    }

    /** Body positions, in ring order. The segments are a different record
        from the blob circles (`Blobs.Blob.Positions`), so each class
        reads its own positions, as both `getCenter` methods do. */
    function Positions(): (ps: seq<Vec>)
      reads this
      ensures |ps| == |bodies|
      ensures forall i :: 0 <= i < |bodies| ==> ps[i] == bodies[i].position
    {
      var bs := bodies;
      seq(|bs|, i requires 0 <= i < |bs| => bs[i].position)
    }

    /** The coordinate sum of the segments divided by `num`: their mean
        whenever the ring holds `num` segments. */
    method GetCenter() returns (center: Vec)
      requires num != 0
      ensures center == Mean(Positions(), num)
      ensures |bodies| == num && (forall i :: 0 <= i < |bodies| ==> bodies[i].position == bodies[0].position)
              ==> center == bodies[0].position
    {
      var ps := Positions();
      center := Vec(0.0, 0.0);
      var i := 0;
      while i < |bodies|
        invariant 0 <= i <= |bodies|
        invariant center == Vec(Total(Xs(ps)[..i]), Total(Ys(ps)[..i]))
      {
        assert Xs(ps)[..i + 1][..i] == Xs(ps)[..i];
        assert Ys(ps)[..i + 1][..i] == Ys(ps)[..i];
        center := Vec(center.x + bodies[i].position.x, center.y + bodies[i].position.y);
        i := i + 1;
      }
      assert Xs(ps)[..i] == Xs(ps) && Ys(ps)[..i] == Ys(ps);
      center := Vec(center.x / (num as real), center.y / (num as real));
      if |bodies| == num && (forall i :: 0 <= i < |bodies| ==> bodies[i].position == bodies[0].position) {
        MeanConstant(ps, bodies[0].position);
      }
    }

    /** Sets the target centre and nothing else. */
    method MoveTo(p: Vec)
      requires Valid()
      modifies this
      ensures Valid()
      ensures State() == old(State()).(targetPosition := p)
    {
      targetPosition := p;
    }

    /** Sets the target radius and nothing else. */
    method ResizeTo(r: real)
      requires Valid() && r > 0.0
      modifies this
      ensures Valid()
      ensures State() == old(State()).(targetRadius := r)
    {
      targetRadius := r;
    }
  }
}
