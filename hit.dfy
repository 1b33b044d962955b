/** Pointer hit selection: on each pointer move the app scans its blobs in
    order, keeping a running minimum of the pointer's distance to each
    blob's centre that starts at 99999. Whenever a blob lowers that minimum
    and the pointer is inside the blob's radius, the blob becomes the
    selection; the selection left at the end, or -1, is stored in
    `overblob`. */
module PointerHit {

  /** The starting value of the running minimum. */
  const FarAway: real := 99999.0

  /** Blob `k` lowers the running minimum: its distance is below the start
      value and strictly below every earlier blob's distance. */
  ghost predicate LowersMinimum(dists: seq<real>, k: int)
    requires 0 <= k < |dists|
  {
    dists[k] < FarAway && forall j :: 0 <= j < k ==> dists[k] < dists[j]
  }

  /** Blob `k` is selected when it is reached: it lowers the running minimum
      and the pointer is inside its radius. */
  ghost predicate Selects(dists: seq<real>, radii: seq<real>, k: int)
    requires |radii| == |dists| && 0 <= k < |dists|
  {
    LowersMinimum(dists, k) && dists[k] < radii[k]
  }

  /** The scan of the `mousemove` closure. `dists[k]` is the distance from
      the pointer to blob `k`'s centre and `radii[k]` that blob's radius;
      the distances are computed by the caller. The result is the last blob
      that was selected when reached, or -1 when there is none. */
  method SelectBlob(dists: seq<real>, radii: seq<real>) returns (blobIndex: int)
    requires |radii| == |dists|
    ensures -1 <= blobIndex < |dists|
    ensures blobIndex >= 0 ==>
      && dists[blobIndex] < radii[blobIndex]
      && dists[blobIndex] < FarAway
      && (forall j :: 0 <= j < blobIndex ==> dists[blobIndex] < dists[j])
    ensures blobIndex >= 0 ==> forall k :: blobIndex < k < |dists| ==> !Selects(dists, radii, k)
    ensures blobIndex == -1 <==> forall k :: 0 <= k < |dists| ==> !Selects(dists, radii, k)
  {
    var distance := FarAway;
    var index := 0;
    blobIndex := -1;
    while index < |dists|
      invariant 0 <= index <= |dists|
      invariant -1 <= blobIndex < index
      invariant distance <= FarAway
      invariant forall j :: 0 <= j < index ==> distance <= dists[j]
      invariant distance == FarAway || exists j :: 0 <= j < index && distance == dists[j]
      invariant blobIndex >= 0 ==> Selects(dists, radii, blobIndex)
      invariant blobIndex >= 0 ==> forall k :: blobIndex < k < index ==> !Selects(dists, radii, k)
      invariant blobIndex == -1 ==> forall k :: 0 <= k < index ==> !Selects(dists, radii, k)
    {
      var distBlob := dists[index];
      if distBlob < distance {
        distance := distBlob;
        if distance < radii[index] {
          blobIndex := index;
        }
      } else {
        if distance == FarAway {
          assert !LowersMinimum(dists, index);
        } else {
          var j :| 0 <= j < index && distance == dists[j];
          assert !LowersMinimum(dists, index);
        }
      }
      index := index + 1;
    }
  }

  /** Of two blobs at the same distance, only the earlier can be selected:
      the comparison is strict. */
  lemma TieKeepsEarlier(dists: seq<real>, radii: seq<real>, j: int, k: int)
    requires |radii| == |dists| && 0 <= j < k < |dists| && dists[j] == dists[k]
    ensures !Selects(dists, radii, k)
  {
  }

  /** A later, nearer blob outside its own radius lowers the minimum without
      being selected, and does not clear an earlier selection: with blob 0
      inside its radius and blob 1 nearer but outside its own, blob 0 stays
      the last selected blob. */
  lemma NearerMissKeepsSelection()
    ensures Selects([5.0, 1.0], [10.0, 0.5], 0)
    ensures LowersMinimum([5.0, 1.0], 1) && !Selects([5.0, 1.0], [10.0, 0.5], 1)
  {
    assert LowersMinimum([5.0, 1.0], 1);
  }

  /** The part of the app that the pointer scan updates. */
  class MatterApp {
    var overblob: int

    constructor ()
      ensures overblob == -1
    {
      overblob := -1;
    }

    /** The throttled `mousemove` handler: scan, then store the selection. */
    method Mousemove(dists: seq<real>, radii: seq<real>)
      requires |radii| == |dists|
      modifies this
      ensures -1 <= overblob < |dists|
      ensures overblob >= 0 ==> Selects(dists, radii, overblob)
      ensures overblob >= 0 ==> forall k :: overblob < k < |dists| ==> !Selects(dists, radii, k)
      ensures overblob == -1 <==> forall k :: 0 <= k < |dists| ==> !Selects(dists, radii, k)
    {
      var blobIndex := SelectBlob(dists, radii);
      overblob := blobIndex;
    }
  }
}
