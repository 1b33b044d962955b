/** The value-level pieces of the cluster controller: what the controller
    sees of a blob, the target scales `scaleBlob` hands out, the random
    re-ordering of the scale palette built by `randomizeScales`, and the
    rejection loop that draws a blob slot other than the current one.
    Random draws are supplied by the caller. */
module Scales {

  /** A blob as the controller uses it: the scale it rests at, the scale it
      is easing toward (`scaleTo` sets it) and its start-up state. */
  datatype BlobView = BlobView(restScale: real, destScale: real, state: int)

  // ---------------------------------------------------------------------
  // scaleBlob

  /** The target scales `scaleBlob(index, amount)` gives: blob `index` gets
      `amount`, every other blob the mean of its rest scale and its rest
      scale shrunk by `restScale[index] / amount`. Rest scales and states
      are kept. */
  function ScaledTargets(blobs: seq<BlobView>, index: nat, amount: real): (r: seq<BlobView>)
    requires index < |blobs| && amount != 0.0
    ensures |r| == |blobs|
    ensures forall k :: 0 <= k < |blobs| ==>
      r[k].restScale == blobs[k].restScale && r[k].state == blobs[k].state
    ensures r[index].destScale == amount
    ensures forall k :: 0 <= k < |blobs| && k != index ==>
      r[k].destScale == blobs[k].restScale * (1.0 + blobs[index].restScale / amount) / 2.0
  {
    seq(|blobs|, k requires 0 <= k < |blobs| =>
      if k == index then blobs[k].(destScale := amount)
      else blobs[k].(destScale := blobs[k].restScale * (1.0 + blobs[index].restScale / amount) / 2.0))
  }

  /** The arithmetic of `scaleBlob`: `r * (1 - (1 - 1 / (a / ri)) / 2)` is
      `r * (1 + ri / a) / 2`. */
  lemma ScaleBlobAlgebra(r: real, ri: real, a: real)
    requires ri != 0.0 && a != 0.0
    ensures r * (1.0 - (1.0 - 1.0 / (a / ri)) / 2.0) == r * (1.0 + ri / a) / 2.0
  {
    assert 1.0 / (a / ri) == ri / a;
  }

  /** `ri / a` lies strictly between 0 and 1 when `a > ri > 0`. */
  lemma RatioBelowOne(ri: real, a: real)
    requires a > ri > 0.0
    ensures 0.0 < ri / a < 1.0
  {
    var q := ri / a;
    assert q * a == ri;
    calc {
      (1.0 - q) * a;
      a - q * a;
      a - ri;
    >
      0.0;
    }
    if q >= 1.0 {
      assert false;
    }
  }

  /** `r (1 + q) / 2` lies strictly between `r / 2` and `r` for `0 < q < 1`. */
  lemma MeanBetween(r: real, q: real)
    requires r > 0.0 && 0.0 < q < 1.0
    ensures r / 2.0 < r * (1.0 + q) / 2.0 < r
  {
    assert r * (1.0 + q) / 2.0 == r / 2.0 + r * q / 2.0;
    assert 0.0 < r * q < r;
  }

  /** When the scaled blob's new target exceeds its rest scale, every other
      blob's target lies strictly between half and all of its rest scale. */
  lemma ScaledTargetsShrinkOthers(blobs: seq<BlobView>, index: nat, amount: real)
    requires index < |blobs| && amount > blobs[index].restScale > 0.0
    ensures forall k :: 0 <= k < |blobs| && k != index && blobs[k].restScale > 0.0 ==>
      blobs[k].restScale / 2.0 < ScaledTargets(blobs, index, amount)[k].destScale < blobs[k].restScale
  {
    var q := blobs[index].restScale / amount;
    RatioBelowOne(blobs[index].restScale, amount);
    var r := ScaledTargets(blobs, index, amount);
    forall k | 0 <= k < |blobs| && k != index && blobs[k].restScale > 0.0
      ensures blobs[k].restScale / 2.0 < r[k].destScale < blobs[k].restScale
    {
      MeanBetween(blobs[k].restScale, q);
    }
  }

  /** Two blob lists that agree on every rest scale and start-up state. */
  predicate SameRest(a: seq<BlobView>, b: seq<BlobView>)
  {
    |a| == |b| && forall k :: 0 <= k < |a| ==> a[k].restScale == b[k].restScale && a[k].state == b[k].state
  }

  /** `scaleBlob` overwrites every target, so its outcome depends only on
      the rest scales: earlier targets are forgotten. */
  lemma ScaledTargetsForget(a: seq<BlobView>, b: seq<BlobView>, index: nat, amount: real)
    requires SameRest(a, b) && index < |a| && amount != 0.0
    ensures ScaledTargets(a, index, amount) == ScaledTargets(b, index, amount)
  {
    var ra := ScaledTargets(a, index, amount);
    var rb := ScaledTargets(b, index, amount);
    forall k | 0 <= k < |ra|
      ensures ra[k] == rb[k]
    {
    }
  }

  /** Every blob's target set to the matching entry of `scales`, as the
      `scaleTo` loop of `randomizeScales` does. */
  function ScaleAll(blobs: seq<BlobView>, scales: seq<real>): (r: seq<BlobView>)
    requires |scales| == |blobs|
    ensures |r| == |blobs| && SameRest(r, blobs)
    ensures forall k :: 0 <= k < |blobs| ==> r[k].destScale == scales[k]
  {
    seq(|blobs|, k requires 0 <= k < |blobs| => blobs[k].(destScale := scales[k]))
  }

  /** `randomizeScales` overwrites every target too. */
  lemma ScaleAllForget(a: seq<BlobView>, b: seq<BlobView>, scales: seq<real>)
    requires SameRest(a, b) && |scales| == |a|
    ensures ScaleAll(a, scales) == ScaleAll(b, scales)
  {
    var ra := ScaleAll(a, scales);
    var rb := ScaleAll(b, scales);
    forall k | 0 <= k < |ra|
      ensures ra[k] == rb[k]
    {
    }
  }

  /** The palette `dishSize * 0.6 * {1, 0.8, 0.7, 0.5} / 24`. */
  function Palette(dishSize: real): (r: seq<real>)
    ensures |r| == 4
  {
    var rNorm := dishSize * 0.6;
    [rNorm * 1.0 / 24.0, rNorm * 0.8 / 24.0, rNorm * 0.7 / 24.0, rNorm * 0.5 / 24.0]
  }

  /** The scale `highlight` gives the chosen blob. */
  function HighlightAmount(dishSize: real): (r: real)
    ensures 24.0 * r == 0.65 * dishSize
    ensures dishSize > 0.0 ==> r > 0.0
  {
    dishSize / 24.0 * 0.65
  }

  /** For a positive dish size, the highlight scale exceeds every palette
      entry, and every entry is positive. */
  lemma HighlightExceedsPalette(dishSize: real)
    requires dishSize > 0.0
    ensures forall k :: 0 <= k < 4 ==> 0.0 < Palette(dishSize)[k] < HighlightAmount(dishSize)
  {
  }

  // ---------------------------------------------------------------------
  // randomizeScales

  /** `s` with element `i` spliced out. */
  function Remove<T>(s: seq<T>, i: nat): (r: seq<T>)
    requires i < |s|
    ensures |r| == |s| - 1
    ensures forall k :: 0 <= k < i ==> r[k] == s[k]
    ensures forall k :: i <= k < |r| ==> r[k] == s[k + 1]
  {
    s[..i] + s[i + 1..]
  }

  /** `s` with `x` spliced in at `i`. */
  function Insert<T>(s: seq<T>, i: nat, x: T): (r: seq<T>)
    requires i <= |s|
    ensures |r| == |s| + 1 && r[i] == x
    ensures r[..i] + r[i + 1..] == s
  {
    assert (s[..i] + [x] + s[i..])[i + 1..] == s[i..];
    s[..i] + [x] + s[i..]
  }

  /** Draw `i` picks among the `n - i` entries still left. */
  predicate DrawsFit(n: nat, ds: seq<nat>)
  {
    |ds| <= n && forall i :: 0 <= i < |ds| ==> ds[i] < n - i
  }

  /** The values taken out of `pool`, one per draw: each draw names a
      position among the entries still left, which is then spliced out. */
  function Picks(pool: seq<real>, ds: seq<nat>): (r: seq<real>)
    requires DrawsFit(|pool|, ds)
    ensures |r| == |ds|
    decreases |ds|
  {
    if |ds| == 0 then []
    else [pool[ds[0]]] + Picks(Remove(pool, ds[0]), ds[1..])
  }

  /** Splicing entry `i` out leaves every other entry. */
  lemma RemoveMultiset(s: seq<real>, i: nat)
    requires i < |s|
    ensures multiset(Remove(s, i)) + multiset{s[i]} == multiset(s)
  {
    assert s == s[..i] + [s[i]] + s[i + 1..];
  }

  /** After the first draw, the remaining draws fit the shorter pool. */
  lemma DrawsFitTail(n: nat, ds: seq<nat>)
    requires DrawsFit(n, ds) && |ds| > 0
    ensures ds[0] < n && DrawsFit(n - 1, ds[1..])
  {
    forall i | 0 <= i < |ds| - 1
      ensures ds[1..][i] < n - 1 - i
    {
      assert ds[1..][i] == ds[i + 1];
    }
  }

  /** Drawing as many times as there are entries takes every entry exactly
      once. */
  lemma {:induction false} PicksPermute(pool: seq<real>, ds: seq<nat>)
    requires DrawsFit(|pool|, ds) && |ds| == |pool|
    ensures multiset(Picks(pool, ds)) == multiset(pool)
    decreases |ds|
  {
    if |ds| > 0 {
      var i := ds[0];
      DrawsFitTail(|pool|, ds);
      var rest := Remove(pool, i);
      PicksPermute(rest, ds[1..]);
      RemoveMultiset(pool, i);
      assert Picks(pool, ds) == [pool[i]] + Picks(rest, ds[1..]);
    }
  }

  /** `ds` all zero takes the entries in order. */
  lemma {:induction false} PicksInOrder(pool: seq<real>, ds: seq<nat>)
    requires |ds| == |pool| && forall i :: 0 <= i < |ds| ==> ds[i] == 0
    ensures DrawsFit(|pool|, ds) && Picks(pool, ds) == pool
    decreases |ds|
  {
    if |ds| > 0 {
      PicksInOrder(pool[1..], ds[1..]);
      assert Remove(pool, 0) == pool[1..];
    }
  }

  /** The draws `randomizeScales(index)` makes: one per palette entry when
      `index` is -1, one per entry but the first otherwise. */
  predicate ScalesDraws(blobScales: seq<real>, index: int, ds: seq<nat>)
  {
    && |blobScales| >= 1
    && -1 <= index < |blobScales|
    && (index == -1 ==> |ds| == |blobScales| && DrawsFit(|blobScales|, ds))
    && (index != -1 ==> |ds| == |blobScales| - 1 && DrawsFit(|blobScales| - 1, ds))
  }

  /** The scales `randomizeScales(index)` hands the blobs, in blob order:
      a random order of the palette for -1, otherwise a random order of the
      palette without its first entry with that first entry spliced in at
      `index`. */
  function RandomScales(blobScales: seq<real>, index: int, ds: seq<nat>): (r: seq<real>)
    requires ScalesDraws(blobScales, index, ds)
    ensures |r| == |blobScales|
  {
    if index == -1 then Picks(blobScales, ds)
    else Insert(Picks(blobScales[1..], ds), index, blobScales[0])
  }

  /** When every draw is 0 (`Math.random` returning 0), `randomizeScales`
      keeps the palette's order: without a pinned slot the blobs get the
      palette as it is, and with slot `k` pinned the first entry is moved
      to position `k`. */
  lemma RandomScalesZeroDraws(blobScales: seq<real>, index: int, ds: seq<nat>)
    requires ScalesDraws(blobScales, index, ds)
    requires forall i :: 0 <= i < |ds| ==> ds[i] == 0
    ensures index == -1 ==> RandomScales(blobScales, index, ds) == blobScales
    ensures index >= 0 ==>
      RandomScales(blobScales, index, ds) == Insert(blobScales[1..], index, blobScales[0])
    ensures index == 0 ==> RandomScales(blobScales, index, ds) == blobScales
  {
    if index == -1 {
      PicksInOrder(blobScales, ds);
    } else {
      PicksInOrder(blobScales[1..], ds);
      if index == 0 {
        assert [blobScales[0]] + blobScales[1..] == blobScales;
      }
    }
  }

  /** Without a pinned slot, the blobs get the palette in some order. */
  lemma RandomScalesPermute(blobScales: seq<real>, ds: seq<nat>)
    requires ScalesDraws(blobScales, -1, ds)
    ensures |RandomScales(blobScales, -1, ds)| == |blobScales|
    ensures multiset(RandomScales(blobScales, -1, ds)) == multiset(blobScales)
  {
    PicksPermute(blobScales, ds);
  }

  /** With slot `k` pinned, blob `k` gets the first palette entry and the
      other blobs get the rest of the palette in some order. */
  lemma RandomScalesPin(blobScales: seq<real>, k: nat, ds: seq<nat>)
    requires ScalesDraws(blobScales, k, ds)
    ensures var r := RandomScales(blobScales, k, ds);
      && |r| == |blobScales|
      && r[k] == blobScales[0]
      && multiset(r[..k] + r[k + 1..]) == multiset(blobScales[1..])
  {
    PicksPermute(blobScales[1..], ds);
  }

  /** `[lo, lo + 1, ..., hi - 1]`. */
  function Range(lo: nat, hi: nat): (r: seq<nat>)
    requires lo <= hi
    ensures |r| == hi - lo && forall k :: 0 <= k < |r| ==> r[k] == lo + k
  {
    seq(hi - lo, k requires 0 <= k < hi - lo => lo + k)
  }

  /** The entries of `bs` at positions `idx`. */
  function Gather(bs: seq<real>, idx: seq<nat>): (r: seq<real>)
    requires forall k :: 0 <= k < |idx| ==> idx[k] < |bs|
    ensures |r| == |idx| && forall k :: 0 <= k < |idx| ==> r[k] == bs[idx[k]]
  {
    seq(|idx|, k requires 0 <= k < |idx| => bs[idx[k]])
  }

  /** One splice step on the list of positions is one pick from the values
      at those positions. */
  lemma PickStep(bs: seq<real>, idx: seq<nat>, ds: seq<nat>, i: nat)
    requires forall k :: 0 <= k < |idx| ==> idx[k] < |bs|
    requires i < |ds| && DrawsFit(|idx|, ds[i..])
    ensures ds[i] < |idx|
    ensures DrawsFit(|idx| - 1, ds[i + 1..])
    ensures Picks(Gather(bs, idx), ds[i..])
      == [bs[idx[ds[i]]]] + Picks(Gather(bs, Remove(idx, ds[i])), ds[i + 1..])
  {
    assert ds[i..][0] == ds[i];
    assert ds[i..][1..] == ds[i + 1..];
    assert Remove(Gather(bs, idx), ds[i]) == Gather(bs, Remove(idx, ds[i]));
  }

  /** The first loop of `randomizeScales`: the positions `first`, ...,
      `n - 1` pushed in order. */
  method FillIndexes(first: nat, n: nat) returns (indexes: seq<nat>)
    requires first <= n
    ensures indexes == Range(first, n)
  {
    indexes := [];
    var i := first;
    while i < n
      invariant first <= i <= n
      invariant indexes == Range(first, i)
    {
      indexes := indexes + [i];
      i := i + 1;
    }
  }

  /** The second loop of `randomizeScales`: take the value at the drawn
      position and splice that position out, once per draw. */
  method SpliceDraws(blobScales: seq<real>, indexes: seq<nat>, ds: seq<nat>) returns (randomScales: seq<real>)
    requires forall k :: 0 <= k < |indexes| ==> indexes[k] < |blobScales|
    requires DrawsFit(|indexes|, ds)
    ensures randomScales == Picks(Gather(blobScales, indexes), ds)
  {
    ghost var pool := Gather(blobScales, indexes);
    var left: seq<nat> := indexes;
    randomScales := [];
    var i := 0;
    while i < |ds|
      invariant 0 <= i <= |ds|
      invariant |left| == |indexes| - i
      invariant forall k :: 0 <= k < |left| ==> left[k] < |blobScales|
      invariant DrawsFit(|left|, ds[i..])
      invariant randomScales + Picks(Gather(blobScales, left), ds[i..]) == Picks(pool, ds)
    {
      PickStep(blobScales, left, ds, i);
      var randomIndex := ds[i];
      randomScales := randomScales + [blobScales[left[randomIndex]]];
      left := Remove(left, randomIndex);
      i := i + 1;
    }
  }

  /** `randomizeScales` without the final `scaleTo` calls: fill a list of
      palette positions (all of them, or all but the first when a slot is
      pinned), draw the values out of it, and splice the first palette entry
      in at the pinned slot. */
  method BuildScales(blobScales: seq<real>, index: int, ds: seq<nat>) returns (randomScales: seq<real>)
    requires ScalesDraws(blobScales, index, ds)
    ensures randomScales == RandomScales(blobScales, index, ds)
  {
    var first := if index == -1 then 0 else 1;
    var indexes := FillIndexes(first, |blobScales|);
    assert Gather(blobScales, indexes) == blobScales[first..];
    randomScales := SpliceDraws(blobScales, indexes, ds);
    if index != -1 {
      randomScales := Insert(randomScales, index, blobScales[0]);
    }
  }

  // ---------------------------------------------------------------------
  // The rejection loop of hover and highlight

  /** A stream of `Math.floor(Math.random() * 4)` draws that is long enough
      to leave any current slot: every roll is a slot and two rolls differ. */
  predicate RollsValid(rolls: seq<int>)
  {
    && (forall k :: 0 <= k < |rolls| ==> 0 <= rolls[k] < 4)
    && exists k :: 0 < k < |rolls| && rolls[k] != rolls[0]
  }

  /** Some roll differs from `avoid`. */
  predicate Escapes(rolls: seq<int>, avoid: int)
  {
    exists k :: 0 <= k < |rolls| && rolls[k] != avoid
  }

  lemma ValidRollsEscape(rolls: seq<int>, avoid: int)
    requires RollsValid(rolls)
    ensures Escapes(rolls, avoid)
  {
    var k :| 0 < k < |rolls| && rolls[k] != rolls[0];
    if rolls[0] == avoid {
      assert rolls[k] != avoid;
    } else {
      assert rolls[0] != avoid;
    }
  }

  /** The first roll that differs from `avoid`. */
  function FirstOther(rolls: seq<int>, avoid: int): (r: int)
    requires Escapes(rolls, avoid)
    ensures r != avoid
    ensures exists k :: 0 <= k < |rolls| && rolls[k] == r && forall j :: 0 <= j < k ==> rolls[j] == avoid
    decreases |rolls|
  {
    if rolls[0] != avoid then rolls[0]
    else
      assert Escapes(rolls[1..], avoid) by {
        var k :| 0 <= k < |rolls| && rolls[k] != avoid;
        assert rolls[1..][k - 1] != avoid;
      }
      var r := FirstOther(rolls[1..], avoid);
      assert exists k :: 0 <= k < |rolls| && rolls[k] == r && forall j :: 0 <= j < k ==> rolls[j] == avoid by {
        var k :| 0 <= k < |rolls[1..]| && rolls[1..][k] == r && forall j :: 0 <= j < k ==> rolls[1..][j] == avoid;
        assert rolls[k + 1] == r;
        assert forall j :: 0 <= j < k + 1 ==> rolls[j] == avoid by {
          forall j | 0 <= j < k + 1
            ensures rolls[j] == avoid
          {
            if j > 0 {
              assert rolls[j] == rolls[1..][j - 1];
            }
          }
        }
      }
      r
  }

  /** The first roll that differs from `avoid` is a slot other than it. */
  lemma FirstOtherIsOtherSlot(rolls: seq<int>, avoid: int)
    requires RollsValid(rolls)
    ensures Escapes(rolls, avoid)
    ensures 0 <= FirstOther(rolls, avoid) < 4 && FirstOther(rolls, avoid) != avoid
  {
    ValidRollsEscape(rolls, avoid);
  }

  /** `index = floor(random * 4); while (index == avoid) index = floor(random * 4)`. */
  method RejectionDraw(rolls: seq<int>, avoid: int) returns (index: int)
    requires Escapes(rolls, avoid)
    ensures index == FirstOther(rolls, avoid)
  {
    var j := 0;
    index := rolls[0];
    while index == avoid
      invariant 0 <= j < |rolls| && index == rolls[j]
      invariant forall i :: 0 <= i < j ==> rolls[i] == avoid
      invariant FirstOther(rolls, avoid) == FirstOther(rolls[j..], avoid)
      decreases |rolls| - j
    {
      assert j + 1 < |rolls| by {
        var k :| 0 <= k < |rolls| && rolls[k] != avoid;
        assert k > j;
      }
      assert rolls[j..][1..] == rolls[j + 1..];
      j := j + 1;
      index := rolls[j];
    }
  }
}
