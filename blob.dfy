/** The soft blob's physical representation: a ring of circular bodies tied
    together by a doubled ring of springs, and the grow and shrink steps that
    rescale it. Bodies and springs are plain records; the physics library
    that integrates them is not modelled. */
module Blobs {
  import opened Geometry

  const NodeFriction: Friction := Friction(0.1, 0.5, 0.01)

  /** A ring node: its centre, its radius and its friction options. */
  datatype Circle = Circle(position: Vec, radius: real, friction: Friction)

  /** A physics constraint between the bodies at indices `bodyA` and `bodyB`. */
  datatype Constraint = Constraint(bodyA: nat, bodyB: nat, stiffness: real, damping: real, length: real)

  /** A spring: the constraint plus the lengths recorded when it was made. */
  datatype Spring = Spring(constraint: Constraint, restLength: real, growLength: real)

  const SpringStiffness: real := 0.01
  /** Damping of the spring to the next node (i -> i+1). */
  const NextDamping: real := 0.1
  /** Damping of the spring to the node after next (i -> i+2). */
  const SkipDamping: real := 0.001
  /** Body scale factor of one grow step; a shrink step uses its inverse. */
  const BodyGrowth: real := 1.1

  /** The easing step `current + (dest - current) / (dest * smoothing)`. It
      stays put exactly at the destination and, for a positive divisor,
      always steps toward it. */
  function Smoothed(current: real, dest: real, smoothing: real): (r: real)
    requires dest * smoothing != 0.0
    ensures r == current <==> current == dest
    ensures dest * smoothing > 0.0 ==> (r > current <==> dest > current)
    ensures dest * smoothing > 0.0 ==> (r < current <==> dest < current)
  {
    current + (dest - current) / (dest * smoothing)
  }

  /** Index of the second body of spring slot `s`: slot 2i ties node i to
      node i+1, slot 2i+1 ties node i to node i+2, both modulo `num`. */
  function RingPartner(s: nat, num: nat): (j: nat)
    requires num > 0
    ensures j < num
  {
    (s / 2 + 1 + s % 2) % num
  }

  lemma SlotHalves(i: nat)
    ensures (2 * i) / 2 == i && (2 * i) % 2 == 0
    ensures (2 * i + 1) / 2 == i && (2 * i + 1) % 2 == 1
  {
  }

  /** The doubled ring topology that `init` builds. */
  ghost predicate IsDoubledRing(springs: seq<Spring>, num: nat)
  {
    && |springs| == 2 * num
    && forall s :: 0 <= s < |springs| ==>
         && springs[s].constraint.bodyA == s / 2
         && springs[s].constraint.bodyB == RingPartner(s, num)
  }

  /** The first endpoints of the springs, in order. */
  function BodyAs(springs: seq<Spring>): (r: seq<nat>)
    ensures |r| == |springs|
    ensures forall s :: 0 <= s < |springs| ==> r[s] == springs[s].constraint.bodyA
  {
    seq(|springs|, s requires 0 <= s < |springs| => springs[s].constraint.bodyA)
  }

  lemma {:induction false} BodyACountPrefix(springs: seq<Spring>, num: nat, k: nat)
    requires IsDoubledRing(springs, num)
    requires k <= num
    ensures forall i :: 0 <= i < num ==>
      multiset(BodyAs(springs)[..2 * k])[i] == if i < k then 2 else 0
  {
    if k > 0 {
      BodyACountPrefix(springs, num, k - 1);
      var a := BodyAs(springs);
      assert a[..2 * k] == a[..2 * (k - 1)] + [k - 1, k - 1];
    }
  }

  /** In the doubled ring every node is the first endpoint of exactly two
      springs. */
  lemma EachNodeStartsTwoSprings(springs: seq<Spring>, num: nat)
    requires IsDoubledRing(springs, num)
    ensures forall i :: 0 <= i < num ==> multiset(BodyAs(springs))[i] == 2
  {
    BodyACountPrefix(springs, num, num);
    assert BodyAs(springs)[..2 * num] == BodyAs(springs);
  }

  /** Every body's radius multiplied by `k`; positions are kept. */
  function ScaleBodies(bodies: seq<Circle>, k: real): (r: seq<Circle>)
    ensures |r| == |bodies|
    ensures forall i :: 0 <= i < |r| ==>
      r[i] == bodies[i].(radius := bodies[i].radius * k)
  {
    seq(|bodies|, i requires 0 <= i < |bodies| => bodies[i].(radius := bodies[i].radius * k))
  }

  /** Factors drawn as `Math.random() * 0.1 + 1.1`, one per spring. */
  ghost predicate ValidFactors(fs: seq<real>)
  {
    forall k :: 0 <= k < |fs| ==> 1.1 <= fs[k] < 1.2
  }

  /** Spring `k`'s length multiplied by `fs[k]`; all else kept. */
  function Stretch(springs: seq<Spring>, fs: seq<real>): (r: seq<Spring>)
    requires |fs| == |springs|
    ensures |r| == |springs|
    ensures forall k :: 0 <= k < |r| ==>
      r[k] == springs[k].(constraint := springs[k].constraint.(length := springs[k].constraint.length * fs[k]))
  {
    seq(|springs|, k requires 0 <= k < |springs| =>
      springs[k].(constraint := springs[k].constraint.(length := springs[k].constraint.length * fs[k])))
  }

  /** Spring `k`'s length divided by `fs[k]`; all else kept. */
  function Compress(springs: seq<Spring>, fs: seq<real>): (r: seq<Spring>)
    requires |fs| == |springs|
    requires forall k :: 0 <= k < |fs| ==> fs[k] != 0.0
    ensures |r| == |springs|
    ensures forall k :: 0 <= k < |r| ==>
      r[k] == springs[k].(constraint := springs[k].constraint.(length := springs[k].constraint.length / fs[k]))
  {
    seq(|springs|, k requires 0 <= k < |springs| =>
      springs[k].(constraint := springs[k].constraint.(length := springs[k].constraint.length / fs[k])))
  }

  /** A grow step keeps every spring's endpoints and lengthens every spring
      of positive length by at least a tenth and by less than a fifth. */
  lemma StretchLengthens(springs: seq<Spring>, fs: seq<real>)
    requires |fs| == |springs| && ValidFactors(fs)
    ensures forall k :: 0 <= k < |springs| ==>
      && Stretch(springs, fs)[k].constraint.bodyA == springs[k].constraint.bodyA
      && Stretch(springs, fs)[k].constraint.bodyB == springs[k].constraint.bodyB
    ensures forall k :: 0 <= k < |springs| && springs[k].constraint.length > 0.0 ==>
      springs[k].constraint.length * 1.1 <= Stretch(springs, fs)[k].constraint.length
                                          < springs[k].constraint.length * 1.2
  {
    forall k | 0 <= k < |springs| && springs[k].constraint.length > 0.0
      ensures springs[k].constraint.length * 1.1 <= Stretch(springs, fs)[k].constraint.length
                                                 < springs[k].constraint.length * 1.2
    {
      var l := springs[k].constraint.length;
      assert l * 1.1 <= l * fs[k] < l * 1.2;
    }
  }

  /** A shrink step keeps every spring's endpoints and strictly shortens
      every spring of positive length. */
  lemma CompressShortens(springs: seq<Spring>, fs: seq<real>)
    requires |fs| == |springs| && ValidFactors(fs)
    ensures forall k :: 0 <= k < |springs| ==>
      && Compress(springs, fs)[k].constraint.bodyA == springs[k].constraint.bodyA
      && Compress(springs, fs)[k].constraint.bodyB == springs[k].constraint.bodyB
    ensures forall k :: 0 <= k < |springs| && springs[k].constraint.length > 0.0 ==>
      0.0 < Compress(springs, fs)[k].constraint.length < springs[k].constraint.length
  {
    forall k | 0 <= k < |springs| && springs[k].constraint.length > 0.0
      ensures 0.0 < Compress(springs, fs)[k].constraint.length < springs[k].constraint.length
    {
      DivideShortens(springs[k].constraint.length, fs[k]);
    }
  }

  /** Dividing a positive length by a factor above one shortens it. */
  lemma DivideShortens(l: real, f: real)
    requires l > 0.0 && f > 1.0
    ensures 0.0 < l / f < l
  {
    var q := l / f;
    assert q * f == l;
    calc {
      (l - q) * f;
      l * f - q * f;
      l * f - l;
      l * (f - 1.0);
    >
      0.0;
    }
    if q >= l {
      assert false;
    }
  }

  /** Shrinking by the very factors a grow step drew restores every spring. */
  lemma {:induction false} CompressUndoesStretch(springs: seq<Spring>, fs: seq<real>)
    requires |fs| == |springs| && ValidFactors(fs)
    ensures Compress(Stretch(springs, fs), fs) == springs
  {
    forall k | 0 <= k < |springs|
      ensures Compress(Stretch(springs, fs), fs)[k] == springs[k]
    {
      var l := springs[k].constraint.length;
      assert l * fs[k] / fs[k] == l;
    }
  }

  /** The body factors of grow (1.1) and shrink (1/1.1) cancel exactly. */
  lemma {:induction false} BodyScalesCancel(bodies: seq<Circle>)
    ensures ScaleBodies(ScaleBodies(bodies, BodyGrowth), 1.0 / BodyGrowth) == bodies
  {
    forall i | 0 <= i < |bodies|
      ensures ScaleBodies(ScaleBodies(bodies, BodyGrowth), 1.0 / BodyGrowth)[i] == bodies[i]
    {
      var r := bodies[i].radius;
      assert r * 1.1 * (1.0 / 1.1) == r;
    }
  }

  /** The spring factors of a grow and a later shrink are drawn
      independently, so a grow followed by a shrink need not restore a
      spring: here one of length 1 ends at 1.1 / 1.15. */
  lemma GrowThenShrinkMovesSpring()
    ensures
      var s := [Spring(Constraint(0, 1, SpringStiffness, NextDamping, 1.0), 1.0, 10.0)];
      && ValidFactors([1.1]) && ValidFactors([1.15])
      && Compress(Stretch(s, [1.1]), [1.15]) != s
  {
    var s := [Spring(Constraint(0, 1, SpringStiffness, NextDamping, 1.0), 1.0, 10.0)];
    assert Compress(Stretch(s, [1.1]), [1.15])[0].constraint.length == 1.1 / 1.15;
  }

  class Blob {
    const position: Vec
    const num: nat
    const size: real
    const radius: real
    var bodies: seq<Circle>
    var springs: seq<Spring>

    constructor (position: Vec, num: nat, size: real, radius: real)
      ensures this.position == position && this.num == num
      ensures this.size == size && this.radius == radius
      ensures bodies == [] && springs == []
    {
      this.position := position;
      this.num := num;
      this.size := size;
      this.radius := radius;
      bodies := [];
      springs := [];
    }

    /** Where node `i` is placed: on the circle of `radius` about `position`
        at angle `i / num * 2 pi`. */
    function NodeAngle(i: nat, pi: real): real
      requires num != 0
    {
      (i as real) / (num as real) * pi * 2.0
    }

    function NodePlacement(i: nat, cos: real -> real, sin: real -> real, pi: real): Vec
      requires num != 0
    {
      var angle := NodeAngle(i, pi);
      Add(position, Vec(cos(angle) * radius, sin(angle) * radius))
    }

    /** The spring in slot `s` given the bodies: its endpoints follow the
        doubled ring, its length is the distance between them, and its rest
        and grow lengths are that length and ten times it. */
    static function RingSpring(bodies: seq<Circle>, s: nat, magnitude: Vec -> real): (r: Spring)
      requires |bodies| > 0 && s < 2 * |bodies|
      ensures r.constraint.bodyA == s / 2 && r.constraint.bodyB < |bodies|
      ensures r.constraint.bodyB == RingPartner(s, |bodies|)
      ensures r.constraint.length == magnitude(Sub(bodies[s / 2].position, bodies[r.constraint.bodyB].position))
      ensures r.restLength == r.constraint.length && r.growLength == 10.0 * r.restLength
    {
      var a := s / 2;
      var b := RingPartner(s, |bodies|);
      var length := magnitude(Sub(bodies[a].position, bodies[b].position));
      Spring(Constraint(a, b, SpringStiffness, if s % 2 == 0 then NextDamping else SkipDamping, length),
             length, length * 10.0)
    }

    /** Body positions, in ring order. The circles are a different record
        from the dish segments (`Dishes.Dish.Positions`), so each class
        reads its own positions, as both `getCenter` methods do. */
    function Positions(): (ps: seq<Vec>)
      reads this
      ensures |ps| == |bodies|
      ensures forall i :: 0 <= i < |bodies| ==> ps[i] == bodies[i].position
    {
      var bs := bodies;
      seq(|bs|, i requires 0 <= i < |bs| => bs[i].position)
    }

    /** Creates the `num` ring nodes and the `2 * num` springs of the
        doubled ring. `cos`, `sin`, `pi` and `magnitude` stand for the
        floating-point library. */
    method Init(cos: real -> real, sin: real -> real, pi: real, magnitude: Vec -> real)
      requires bodies == [] && springs == []
      modifies this
      ensures |bodies| == num
      ensures forall i :: 0 <= i < num ==>
        bodies[i] == Circle(NodePlacement(i, cos, sin, pi), size, NodeFriction)
      ensures IsDoubledRing(springs, num)
      ensures forall s :: 0 <= s < |springs| ==> springs[s] == RingSpring(bodies, s, magnitude)
    {
      PlaceNodes(cos, sin, pi);
      LinkNodes(magnitude);
    }

    /** The first loop of `init`: one node per ring slot. */
    method PlaceNodes(cos: real -> real, sin: real -> real, pi: real)
      requires bodies == [] && springs == []
      modifies this
      ensures springs == []
      ensures |bodies| == num
      ensures forall i :: 0 <= i < num ==>
        bodies[i] == Circle(NodePlacement(i, cos, sin, pi), size, NodeFriction)
    {
      var i := 0;
      while i < num
        invariant 0 <= i <= num
        invariant |bodies| == i && springs == []
        invariant forall j :: 0 <= j < i ==>
          bodies[j] == Circle(NodePlacement(j, cos, sin, pi), size, NodeFriction)
      {
        var angle := NodeAngle(i, pi);
        var offset := Vec(cos(angle) * radius, sin(angle) * radius);
        var x := position.x + offset.x;
        var y := position.y + offset.y;
        assert Vec(x, y) == NodePlacement(i, cos, sin, pi);
        bodies := bodies + [Circle(Vec(x, y), size, NodeFriction)];
        i := i + 1;
      }
    }

    /** The second loop of `init`: two springs per node, to the next node and
        to the one after it. */
    method LinkNodes(magnitude: Vec -> real)
      requires |bodies| == num && springs == []
      modifies this
      ensures bodies == old(bodies)
      ensures IsDoubledRing(springs, num)
      ensures forall s :: 0 <= s < |springs| ==> springs[s] == RingSpring(bodies, s, magnitude)
    {
      ghost var placed := bodies;
      var i := 0;
      while i < num
        invariant 0 <= i <= num
        invariant bodies == placed
        invariant |springs| == 2 * i
        invariant forall s :: 0 <= s < |springs| ==> springs[s] == RingSpring(bodies, s, magnitude)
      {
        var j := (i + 1) % num;
        var k := (i + 2) % num;
        var bodyA, bodyB, bodyC := bodies[i], bodies[j], bodies[k];
        var lengthAB := magnitude(Sub(bodyA.position, bodyB.position));
        var lengthAC := magnitude(Sub(bodyA.position, bodyC.position));
        var constraintAB := Constraint(i, j, SpringStiffness, NextDamping, lengthAB);
        var constraintAC := Constraint(i, k, SpringStiffness, SkipDamping, lengthAC);
        var springAB := Spring(constraintAB, constraintAB.length, constraintAB.length * 10.0);
        var springAC := Spring(constraintAC, constraintAC.length, constraintAC.length * 10.0);
        SlotHalves(i);
        assert springAB == RingSpring(bodies, 2 * i, magnitude);
        assert springAC == RingSpring(bodies, 2 * i + 1, magnitude);
        springs := springs + [springAB, springAC];
        i := i + 1;
      }
    }

    /** The coordinate sum of the bodies divided by `num`: their mean
        whenever the ring holds `num` bodies. */
    method GetCenter() returns (center: Vec)
      requires num != 0
      ensures center == Mean(Positions(), num)
      ensures |bodies| == num && (forall i :: 0 <= i < |bodies| ==> bodies[i].position == bodies[0].position)
              ==> center == bodies[0].position
    {
      var ps := Positions();
      center := Vec(0.0, 0.0);
      var i := 0;
      while i < |bodies|
        invariant 0 <= i <= |bodies|
        invariant center == Vec(Total(Xs(ps)[..i]), Total(Ys(ps)[..i]))
      {
        assert Xs(ps)[..i + 1][..i] == Xs(ps)[..i];
        assert Ys(ps)[..i + 1][..i] == Ys(ps)[..i];
        center := Vec(center.x + bodies[i].position.x, center.y + bodies[i].position.y);
        i := i + 1;
      }
      assert Xs(ps)[..i] == Xs(ps) && Ys(ps)[..i] == Ys(ps);
      center := Vec(center.x / (num as real), center.y / (num as real));
      if |bodies| == num && (forall i :: 0 <= i < |bodies| ==> bodies[i].position == bodies[0].position) {
        MeanConstant(ps, bodies[0].position);
      }
    }

    /** One grow step: every body scaled by 1.1, every spring lengthened by
        its own factor `incrs[k]` drawn from [1.1, 1.2). */
    method Grow(incrs: seq<real>)
      requires |incrs| == |springs| && ValidFactors(incrs)
      modifies this
      ensures bodies == ScaleBodies(old(bodies), BodyGrowth)
      ensures springs == Stretch(old(springs), incrs)
    {
      var i := 0;
      while i < |bodies|
        invariant 0 <= i <= |bodies| && |bodies| == |old(bodies)| && springs == old(springs)
        invariant forall j :: 0 <= j < i ==> bodies[j] == ScaleBodies(old(bodies), BodyGrowth)[j]
        invariant forall j :: i <= j < |bodies| ==> bodies[j] == old(bodies)[j]
      {
        bodies := bodies[i := bodies[i].(radius := bodies[i].radius * BodyGrowth)];
        i := i + 1;
      }
      i := 0;
      while i < |springs|
        invariant 0 <= i <= |springs| && |springs| == |old(springs)|
        invariant bodies == ScaleBodies(old(bodies), BodyGrowth)
        invariant forall j :: 0 <= j < i ==> springs[j] == Stretch(old(springs), incrs)[j]
        invariant forall j :: i <= j < |springs| ==> springs[j] == old(springs)[j]
      {
        var spring := springs[i];
        springs := springs[i := spring.(constraint := spring.constraint.(length := spring.constraint.length * incrs[i]))];
        i := i + 1;
      }
    }

    /** One shrink step: every body scaled by 1/1.1, every spring shortened
        by its own factor `decrs[k]` drawn from [1.1, 1.2). */
    method Shrink(decrs: seq<real>)
      requires |decrs| == |springs| && ValidFactors(decrs)
      modifies this
      ensures bodies == ScaleBodies(old(bodies), 1.0 / BodyGrowth)
      ensures springs == Compress(old(springs), decrs)
    {
      var i := 0;
      while i < |bodies|
        invariant 0 <= i <= |bodies| && |bodies| == |old(bodies)| && springs == old(springs)
        invariant forall j :: 0 <= j < i ==> bodies[j] == ScaleBodies(old(bodies), 1.0 / BodyGrowth)[j]
        invariant forall j :: i <= j < |bodies| ==> bodies[j] == old(bodies)[j]
      {
        bodies := bodies[i := bodies[i].(radius := bodies[i].radius * (1.0 / BodyGrowth))];
        i := i + 1;
      }
      i := 0;
      while i < |springs|
        invariant 0 <= i <= |springs| && |springs| == |old(springs)|
        invariant bodies == ScaleBodies(old(bodies), 1.0 / BodyGrowth)
        invariant forall j :: 0 <= j < i ==> springs[j] == Compress(old(springs), decrs)[j]
        invariant forall j :: i <= j < |springs| ==> springs[j] == old(springs)[j]
      {
        var spring := springs[i];
        springs := springs[i := spring.(constraint := spring.constraint.(length := spring.constraint.length / decrs[i]))];
        i := i + 1;
      }
    }
  }
}
