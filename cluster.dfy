/** The cluster controller `MatterApp`: two dishes, four blobs with their
    renderers, a readiness gate, and the selection state driven by
    `highlight`, `hover`, `activate`, `reset` and the pointer. Blob and
    renderer objects are seen through `BlobView` and `RenderView`. Random
    draws, image load events, `isInside` answers and the state each blob
    reaches in its own `update` are supplied by the caller. */
module Cluster {
  import opened Geometry
  import opened Scales
  import opened ClusterSteps
  import Dishes

  /** Segments in each dish ring. */
  const DishSegments: nat := 24

  /** The number of blobs: the length of the scale palette and the range of
      the slot draws. */
  const BlobCount: nat := 4

  /** The outcome of `activate`: it declines without a current slot, and it
      throws when the slot has no embassy at that position to name. */
  datatype ActivateResult = Declined | Done | Threw

  /** The blobs as `createBlobs` makes them: blob `k` rests at and aims for
      palette entry `k`, in start-up state 0. */
  function FreshBlobs(palette: seq<real>): (r: seq<BlobView>)
    requires |palette| == BlobCount
    ensures |r| == BlobCount
    ensures forall k :: 0 <= k < BlobCount ==> r[k] == BlobView(palette[k], palette[k], 0)
  {
    seq(BlobCount, k requires 0 <= k < BlobCount => BlobView(palette[k], palette[k], 0))
  }

  /** Every blob after `blob.reset()`: aiming for its rest scale again. */
  function Rested(blobs: seq<BlobView>): (r: seq<BlobView>)
    ensures SameRest(r, blobs)
    ensures forall k :: 0 <= k < |r| ==> r[k].destScale == r[k].restScale
  {
    seq(|blobs|, k requires 0 <= k < |blobs| => blobs[k].(destScale := blobs[k].restScale))
  }

  /** `reset` forgets every target that `highlight` or the pointer set. */
  lemma RestedForgets(a: seq<BlobView>, b: seq<BlobView>)
    requires SameRest(a, b)
    ensures Rested(a) == Rested(b)
  {
    var ra, rb := Rested(a), Rested(b);
    forall k | 0 <= k < |ra|
      ensures ra[k] == rb[k]
    {
    }
  }

  /** Every blob after its own `update()`, which moves blob `k` to state
      `states[k]` and leaves its scales alone. */
  function WithStates(blobs: seq<BlobView>, states: seq<int>): (r: seq<BlobView>)
    requires |states| == |blobs|
    ensures |r| == |blobs|
    ensures forall k :: 0 <= k < |blobs| ==>
      r[k].restScale == blobs[k].restScale && r[k].destScale == blobs[k].destScale && r[k].state == states[k]
  {
    seq(|blobs|, k requires 0 <= k < |blobs| => blobs[k].(state := states[k]))
  }

  /** The `forEach` of `scaleBlob`, given `relativeScale = amount /
      rest_index`: blob `index` aims for `amount`, every other blob for its
      rest scale times `1 - (1 - 1 / relativeScale) / 2`. */
  method ScaleEach(blobs: seq<BlobView>, index: nat, amount: real, relativeScale: real)
    returns (bs: seq<BlobView>)
    requires index < |blobs| && amount != 0.0 && blobs[index].restScale != 0.0
    requires relativeScale == amount / blobs[index].restScale
    ensures bs == ScaledTargets(blobs, index, amount)
  {
    assert relativeScale * blobs[index].restScale == amount;
    bs := blobs;
    var key := 0;
    while key < |bs|
      invariant 0 <= key <= |bs| == |blobs|
      invariant forall j :: 0 <= j < key ==> bs[j] == ScaledTargets(blobs, index, amount)[j]
      invariant forall j :: key <= j < |bs| ==> bs[j] == blobs[j]
    {
      if key == index {
        bs := bs[key := bs[key].(destScale := amount)];
      } else {
        var negativeAmount := 1.0 / relativeScale;
        var normalized := 1.0 - ((1.0 - negativeAmount) / 2.0);
        var scale := bs[key].restScale * normalized;
        ScaleBlobAlgebra(bs[key].restScale, blobs[index].restScale, amount);
        bs := bs[key := bs[key].(destScale := scale)];
      }
      key := key + 1;
    }
  }

  /** The `forEach` of `update` once the blobs have settled: every blob's
      own `update()`. */
  method UpdateEach(blobs: seq<BlobView>, nextStates: seq<int>) returns (bs: seq<BlobView>)
    requires |nextStates| == |blobs|
    ensures bs == WithStates(blobs, nextStates)
  {
    bs := blobs;
    var k := 0;
    while k < |bs|
      invariant 0 <= k <= |bs| == |blobs|
      invariant forall j :: 0 <= j < k ==> bs[j] == blobs[j].(state := nextStates[j])
      invariant forall j :: k <= j < |bs| ==> bs[j] == blobs[j]
    {
      bs := bs[k := bs[k].(state := nextStates[k])];
      k := k + 1;
    }
  }

  /** The `forEach` of `update` before the blobs have settled: note
      whether each blob is in state 1, then run its own `update()`. */
  method CheckAndUpdateEach(blobs: seq<BlobView>, nextStates: seq<int>) returns (bs: seq<BlobView>, settled: bool)
    requires |nextStates| == |blobs|
    ensures bs == WithStates(blobs, nextStates)
    ensures settled <==> AllSettled(blobs)
  {
    bs := blobs;
    settled := true;
    var k := 0;
    while k < |bs|
      invariant 0 <= k <= |bs| == |blobs|
      invariant forall j :: 0 <= j < k ==> bs[j] == blobs[j].(state := nextStates[j])
      invariant forall j :: k <= j < |bs| ==> bs[j] == blobs[j]
      invariant settled <==> forall j :: 0 <= j < k ==> blobs[j].state == 1
    {
      if bs[k].state != 1 {
        settled := false;
      }
      bs := bs[k := bs[k].(state := nextStates[k])];
      k := k + 1;
    }
  }

  class MatterApp {
    const embassies: seq<Embassy>
    const dishSize: real
    const blobScales: seq<real>
    const dish: Dishes.Dish
    const dishOuter: Dishes.Dish
    var blobs: seq<BlobView>
    var renders: seq<RenderView>
    var overblob: int
    var currentBlob: int
    var blobsInitialized: bool
    var initialized: bool
    var preloadedImages: nat
    /** The embassies whose image has fired its `load` event. */
    ghost var loaded: set<nat>
    var isRunning: bool
    /** The resize and pointer listeners registered, with their capture
        flags. */
    var listeners: set<Listener>
    /** The events dispatched on the wrapper, in order. */
    var events: seq<Event>

    /** Two distinct valid dishes, one blob and one renderer per palette
        entry with the palette's rest scales, slots that are -1 or a blob,
        a preload count of distinct embassies with an image, and a sound
        gate, which opens only once every embassy has an image. */
    ghost predicate Valid()
      reads this, dish, dishOuter
    {
      && dish != dishOuter && dish.Valid() && dishOuter.Valid()
      && dishSize > 0.0 && blobScales == Palette(dishSize)
      && |blobs| == BlobCount && |renders| == BlobCount
      && (forall k :: 0 <= k < BlobCount ==> blobs[k].restScale == blobScales[k])
      && -1 <= currentBlob < BlobCount && -1 <= overblob < BlobCount
      && loaded <= WithImage(embassies) && preloadedImages == |loaded|
      && GateSound(GateView())
      && (initialized ==> forall k :: 0 <= k < |embassies| ==> embassies[k].image != "")
    }

    function GateView(): Gate
      reads this
    {
      Gate(blobsInitialized, initialized, events)
    }

    function Selected(): Selection
      reads this
    {
      Selection(blobs, renders, currentBlob)
    }

    function PointerView(): Pointer
      reads this
    {
      Pointer(blobs, overblob)
    }

    /** The constructor together with the dish and blob creation of `init`:
        a dish of radius `dishSize` and an outer dish 4 wider around
        `origin`, and four blobs resting at the palette scales. */
    constructor (embassies: seq<Embassy>, origin: Vec, dishSize: real,
                 cos: real -> real, sin: real -> real, pi: real, magnitude: Vec -> real)
      requires dishSize > 0.0
      ensures Valid() && fresh(dish) && fresh(dishOuter)
      ensures this.embassies == embassies && this.dishSize == dishSize
      ensures blobScales == Palette(dishSize)
      ensures dish.num == DishSegments && dishOuter.num == DishSegments
      ensures dish.State() == Dishes.DishState(origin, origin, dishSize, dishSize, dish.bodies)
      ensures dishOuter.State() == Dishes.DishState(origin, origin, dishSize + 4.0, dishSize + 4.0, dishOuter.bodies)
      ensures |dish.bodies| == DishSegments && |dishOuter.bodies| == DishSegments
      ensures blobs == FreshBlobs(blobScales)
      ensures renders == seq(BlobCount, _ => RenderView(None, false))
      ensures overblob == -1 && currentBlob == -1
      ensures !blobsInitialized && !initialized && preloadedImages == 0 && loaded == {}
      ensures isRunning && listeners == Attached() && events == []
    {
      this.embassies := embassies;
      this.dishSize := dishSize;
      var rNorm := dishSize * 0.6;
      blobScales := [rNorm * 1.0 / 24.0, rNorm * 0.8 / 24.0, rNorm * 0.7 / 24.0, rNorm * 0.5 / 24.0];
      dish := new Dishes.Dish(origin, DishSegments, dishSize);
      dishOuter := new Dishes.Dish(origin, DishSegments, dishSize + 4.0);
      blobs := FreshBlobs(Palette(dishSize));
      renders := seq(BlobCount, _ => RenderView(None, false));
      overblob := -1;
      currentBlob := -1;
      blobsInitialized := false;
      initialized := false;
      preloadedImages := 0;
      loaded := {};
      isRunning := true;
      listeners := Attached();
      events := [];
      new;
      dish.Init(cos, sin, pi, magnitude);
      dishOuter.Init(cos, sin, pi, magnitude);
    }

    /** The `load` listener of embassy `k`'s preloaded image. Only embassies
        with an image get one, and each image loads once. */
    method ImageLoaded(k: nat)
      requires Valid() && k < |embassies| && embassies[k].image != "" && k !in loaded
      modifies this`preloadedImages, this`loaded
      ensures Valid()
      ensures preloadedImages == old(preloadedImages) + 1 && loaded == old(loaded) + {k}
    {
      preloadedImages := preloadedImages + 1;
      loaded := loaded + {k};
    }

    /** One `update` tick: the readiness gate, every blob's own update
        (checking first, while the blobs have not settled, whether each was
        in state 1), then both dishes. */
    method Update(nextStates: seq<int>)
      requires Valid() && |nextStates| == BlobCount
      modifies this`blobs, this`blobsInitialized, this`initialized, this`events, dish, dishOuter
      ensures Valid()
      ensures GateView() == GateTick(old(GateView()), Tick(preloadedImages == |embassies|, AllSettled(old(blobs))))
      ensures blobs == WithStates(old(blobs), nextStates)
      ensures dish.State() == Dishes.Step(old(dish.State()))
      ensures dishOuter.State() == Dishes.Step(old(dishOuter.State()))
    {
      ghost var g := GateView();
      ghost var t := Tick(preloadedImages == |embassies|, AllSettled(blobs));
      if !initialized {
        if blobsInitialized && preloadedImages == |embassies| {
          initialized := true;
          events := events + [Initialized];
          AllLoadedMeansEveryImage(embassies, loaded);
        }
      }
      var bs := blobs;
      if blobsInitialized {
        bs := UpdateEach(bs, nextStates);
      } else {
        var settled;
        bs, settled := CheckAndUpdateEach(bs, nextStates);
        blobsInitialized := settled;
      }
      blobs := bs;
      GateTickSound(g, t);
      dish.Update();
      dishOuter.Update();
    }

    /** `scaleBlob`: blob `index` aims for `amount`, every other blob for its
        rest scale times `1 - (1 - 1 / (amount / rest_index)) / 2`. */
    method ScaleBlob(index: nat, amount: real)
      requires Valid() && index < BlobCount && amount != 0.0
      modifies this`blobs
      ensures Valid() && blobs == ScaledTargets(old(blobs), index, amount)
    {
      HighlightExceedsPalette(dishSize);
      var relativeScale := amount / blobs[index].restScale;
      var bs := ScaleEach(blobs, index, amount, relativeScale);
      blobs := bs;
    }

    /** `setBlobBackground`: renderer `index` shows `image`. */
    method SetBlobBackground(index: nat, image: string)
      requires Valid() && index < BlobCount
      modifies this`renders
      ensures Valid()
      ensures renders == old(renders)[index := old(renders)[index].(background := Some(image))]
    {
      renders := renders[index := renders[index].(background := Some(image))];
    }

    /** `highlight(slug)`: once initialized and given a slug, every embassy
        carrying it moves the highlight to a freshly drawn other slot, and
        the answer is true even when no embassy carries it. `rolls[k]` are
        the draws made for embassy `k`. */
    method Highlight(slug: string, rolls: seq<seq<int>>) returns (ok: bool)
      requires Valid() && HighlightRolls(embassies, rolls)
      modifies this`blobs, this`renders, this`currentBlob
      ensures Valid()
      ensures ok <==> initialized && slug != ""
      ensures Selected() == if ok
        then HighlightScan(old(Selected()), embassies, slug, HighlightAmount(dishSize), rolls, |embassies|)
        else old(Selected())
    {
      ok := false;
      if initialized {
        if slug != "" {
          HighlightExceedsPalette(dishSize);
          ghost var start := Selected();
          var i := 0;
          while i < |embassies|
            invariant 0 <= i <= |embassies|
            invariant Valid()
            invariant Selected() == HighlightScan(start, embassies, slug, HighlightAmount(dishSize), rolls, i)
          {
            HighlightEmbassy(embassies[i], slug, rolls[i]);
            i := i + 1;
          }
          ok := true;
        }
      }
    }

    /** The body of the `highlight` loop for one embassy. */
    method HighlightEmbassy(embassy: Embassy, slug: string, rolls: seq<int>)
      requires Valid() && RollsValid(rolls)
      modifies this`blobs, this`renders, this`currentBlob
      ensures Valid()
      ensures Selected() == HighlightStep(old(Selected()), embassy, slug, HighlightAmount(dishSize), rolls)
    {
      HighlightExceedsPalette(dishSize);
      if embassy.slug == slug {
        FirstOtherIsOtherSlot(rolls, currentBlob);
        var index := RejectionDraw(rolls, currentBlob);
        var scale := dishSize / 24.0 * 0.65;
        ScaleBlob(index, scale);
        SetBlobBackground(index, embassy.image);
        currentBlob := index;
      }
    }

    /** `hover`: once initialized, make a freshly drawn slot other than the
        current one current. */
    method Hover(rolls: seq<int>)
      requires Valid() && RollsValid(rolls)
      modifies this`currentBlob
      ensures Valid()
      ensures initialized ==> Escapes(rolls, old(currentBlob)) && currentBlob == FirstOther(rolls, old(currentBlob))
      ensures initialized ==> 0 <= currentBlob < BlobCount && currentBlob != old(currentBlob)
      ensures !initialized ==> currentBlob == old(currentBlob)
    {
      if initialized {
        FirstOtherIsOtherSlot(rolls, currentBlob);
        var index := RejectionDraw(rolls, currentBlob);
        currentBlob := index;
      }
    }

    /** `activate`: with a current slot, stop, blow that slot's renderer
        up, run `destroy` and announce the embassy at the slot's position;
        the announcement throws when there is none. As `destroy` removes
        the listeners with a capture flag they were not added with, they
        stay attached. */
    method Activate() returns (r: ActivateResult)
      requires Valid()
      modifies this`isRunning, this`listeners, this`renders, this`events
      ensures Valid()
      ensures r == Declined <==> currentBlob == -1
      ensures r == Declined ==>
        isRunning == old(isRunning) && listeners == old(listeners) && renders == old(renders) && events == old(events)
      ensures r != Declined ==>
        && !isRunning && listeners == Detach(old(listeners), false)
        && (old(listeners) == Attached() ==> listeners == Attached())
        && renders == old(renders)[currentBlob := old(renders)[currentBlob].(blownUp := true)]
      ensures r == Done <==> 0 <= currentBlob < |embassies|
      ensures r == Done ==> events == old(events) + [Activated(embassies[currentBlob].slug)]
      ensures r == Threw ==> events == old(events)
    {
      if currentBlob > -1 {
        Stop();
        renders := renders[currentBlob := renders[currentBlob].(blownUp := true)];
        Destroy();
        if currentBlob < |embassies| {
          Announce(Activated(embassies[currentBlob].slug));
          r := Done;
        } else {
          r := Threw;
        }
      } else {
        r := Declined;
      }
    }

    /** Dispatch the 'activated' event carrying a slug. */
    method Announce(e: Event)
      requires Valid() && e.Activated?
      modifies this`events
      ensures Valid() && events == old(events) + [e]
    {
      AnnouncedAppend(events, e);
      events := events + [e];
    }

    /** `reset`: every blob aims for its rest scale again; the current slot
        is kept. */
    method Reset()
      requires Valid()
      modifies this`blobs
      ensures Valid()
      ensures blobs == Rested(old(blobs)) && currentBlob == old(currentBlob)
    {
      var bs := blobs;
      var k := 0;
      while k < |bs|
        invariant 0 <= k <= |bs| == |blobs|
        invariant forall j :: 0 <= j < k ==> bs[j] == blobs[j].(destScale := blobs[j].restScale)
        invariant forall j :: k <= j < |bs| ==> bs[j] == blobs[j]
      {
        bs := bs[k := bs[k].(destScale := bs[k].restScale)];
        k := k + 1;
      }
      assert bs == Rested(blobs);
      blobs := bs;
    }

    method Run()
      requires Valid()
      modifies this`isRunning
      ensures Valid() && isRunning
    {
      isRunning := true;
    }

    method Stop()
      requires Valid()
      modifies this`isRunning
      ensures Valid() && !isRunning
    {
      isRunning := false;
    }

    /** `destroy` as written: both removals pass capture `false`, so they
        remove nothing that `addEventListeners` added; then stop. */
    method Destroy()
      requires Valid()
      modifies this`listeners, this`isRunning
      ensures Valid() && !isRunning
      ensures listeners == Detach(old(listeners), false)
      ensures old(listeners) == Attached() ==> listeners == Attached()
    {
      listeners := Detach(listeners, false);
      Stop();
    }

    /** `destroy` with the removals passing the capture flag the listeners
        were added with: both are detached, then the run stops. */
    method DestroyMatched()
      requires Valid()
      modifies this`listeners, this`isRunning
      ensures Valid() && !isRunning
      ensures listeners == Detach(old(listeners), true)
      ensures old(listeners) == Attached() ==> listeners == {}
    {
      listeners := Detach(listeners, true);
      if old(listeners) == Attached() {
        DetachMatchedClears();
      }
      Stop();
    }

    /** `randomizeScales(index)`: every blob aims for its entry of the
        re-ordered palette. */
    method RandomizeScales(index: int, ds: seq<nat>)
      requires Valid() && ScalesDraws(blobScales, index, ds)
      modifies this`blobs
      ensures Valid() && blobs == ScaleAll(old(blobs), RandomScales(blobScales, index, ds))
    {
      var randomScales := BuildScales(blobScales, index, ds);
      var bs := blobs;
      var key := 0;
      while key < |bs|
        invariant 0 <= key <= |bs| == |blobs|
        invariant forall j :: 0 <= j < key ==> bs[j] == blobs[j].(destScale := randomScales[j])
        invariant forall j :: key <= j < |bs| ==> bs[j] == blobs[j]
      {
        bs := bs[key := bs[key].(destScale := randomScales[key])];
        key := key + 1;
      }
      assert bs == ScaleAll(blobs, randomScales);
      blobs := bs;
    }

    /** The throttled `mousemove` handler of the controller: once
        initialized, every blob containing the pointer becomes `overblob`
        in turn, re-ordering the targets whenever it was not `overblob`
        already. `inside[k]` is `isInside` for blob `k`, `draws[k]` the
        splice draws for re-ordering with blob `k` pinned. */
    method Mousemove(inside: seq<bool>, draws: seq<seq<nat>>)
      requires Valid() && |inside| == BlobCount && MouseDraws(blobScales, inside, draws)
      modifies this`blobs, this`overblob
      ensures Valid()
      ensures PointerView() == if initialized
        then MouseScan(old(PointerView()), blobScales, inside, draws, |inside|)
        else old(PointerView())
    {
      if initialized {
        ghost var start := PointerView();
        var key := 0;
        while key < |blobs|
          invariant 0 <= key <= |blobs| == BlobCount
          invariant Valid()
          invariant PointerView() == MouseScan(start, blobScales, inside, draws, key)
        {
          if inside[key] {
            if key != overblob {
              RandomizeScales(key, draws[key]);
            }
            overblob := key;
          }
          key := key + 1;
        }
      }
    }
  }
}
