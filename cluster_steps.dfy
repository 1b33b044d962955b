/** The bookkeeping of the cluster controller stated on values: the
    readiness gate `update` runs on every tick, the embassy scan of
    `highlight` and the pointer scan of `mousemove`. The controller class in
    module `Cluster` is proved to take exactly these steps. */
module ClusterSteps {
  import opened Scales

  datatype Option<T> = None | Some(value: T)

  /** An embassy record. The empty string stands for a missing (falsy)
      slug or image. */
  datatype Embassy = Embassy(slug: string, image: string)

  /** What the controller sees of a blob's SVG renderer: the embassy image
      set by `setBackgroundImage`, and whether `blowUp` has run. */
  datatype RenderView = RenderView(background: Option<string>, blownUp: bool)

  /** The custom events dispatched on the wrapper element. */
  datatype Event = Initialized | Activated(slug: string)

  // ---------------------------------------------------------------------
  // The listeners of `addEventListeners` and `destroy`

  /** The events the controller listens to: window resizes and pointer
      moves over the wrapper. */
  datatype EventKind = Resize | Mousemove

  /** A registered listener: its event and the capture flag it was added
      with. The DOM tells two registrations apart by that flag. */
  datatype Listener = Listener(kind: EventKind, capture: bool)

  /** `addEventListeners`: both listeners, added in the capture phase. */
  function Attached(): (r: set<Listener>)
    ensures forall l: Listener :: l in r <==> l.capture
  {
    assert forall l: Listener :: l.kind == Resize || l.kind == Mousemove;
    {Listener(Resize, true), Listener(Mousemove, true)}
  }

  /** `removeEventListener(kind, handler, capture)`: only the registration
      with the same event and the same capture flag goes. */
  function RemoveListener(ls: set<Listener>, kind: EventKind, capture: bool): (r: set<Listener>)
    ensures r <= ls
    ensures forall l :: l in ls ==> (l in r <==> l.kind != kind || l.capture != capture)
  {
    ls - {Listener(kind, capture)}
  }

  /** The two removals of `destroy`, both passing the flag `capture`. */
  function Detach(ls: set<Listener>, capture: bool): (r: set<Listener>)
    ensures forall l :: l in r <==> l in ls && l.capture != capture
  {
    RemoveListener(RemoveListener(ls, Resize, capture), Mousemove, capture)
  }

  /** `destroy` as written passes `false` to listeners added with `true`:
      both stay attached, the pointer listener included. */
  lemma DestroyKeepsListeners()
    ensures Detach(Attached(), false) == Attached()
    ensures Listener(Mousemove, true) in Detach(Attached(), false)
  {
  }

  /** Removing with the flag the listeners were added with detaches both. */
  lemma DetachMatchedClears()
    ensures Detach(Attached(), true) == {}
  {
    assert forall l: Listener :: l !in Detach(Attached(), true);
  }

  /** In general the removals of `destroy` leave nothing attached exactly
      when every listener was added with the flag they pass. */
  lemma DetachClearsIff(ls: set<Listener>, capture: bool)
    ensures Detach(ls, capture) == {} <==> forall l :: l in ls ==> l.capture == capture
  {
    if Detach(ls, capture) != {} {
      var l :| l in Detach(ls, capture);
    }
  }

  // ---------------------------------------------------------------------
  // The readiness gate of `update`

  datatype Gate = Gate(blobsInitialized: bool, initialized: bool, events: seq<Event>)

  /** What one tick observes: whether every embassy image has loaded
      (`preloadedImages === embassies.length`) and whether every blob was in
      state 1 before its own `update()`. */
  datatype Tick = Tick(imagesReady: bool, settled: bool)

  /** Every blob is in state 1. */
  predicate AllSettled(blobs: seq<BlobView>)
  {
    forall k :: 0 <= k < |blobs| ==> blobs[k].state == 1
  }

  /** One tick of the gate: `initialized` opens, and the 'initialized' event
      is dispatched, when the blobs had already settled on an earlier tick
      and the images are ready; `blobsInitialized` then records whether the
      blobs have settled now. */
  function GateTick(g: Gate, t: Tick): (r: Gate)
    ensures r.initialized <==> g.initialized || (g.blobsInitialized && t.imagesReady)
    ensures r.blobsInitialized <==> g.blobsInitialized || t.settled
    ensures r.events == g.events + (if !g.initialized && r.initialized then [Initialized] else [])
  {
    var opens := !g.initialized && g.blobsInitialized && t.imagesReady;
    Gate(
      if g.blobsInitialized then true else t.settled,
      g.initialized || opens,
      if opens then g.events + [Initialized] else g.events)
  }

  /** The gate after a sequence of ticks. */
  function GateRun(g: Gate, ticks: seq<Tick>): (r: Gate)
    ensures g.initialized ==> r.initialized
    ensures g.blobsInitialized ==> r.blobsInitialized
    ensures |g.events| <= |r.events| && r.events[..|g.events|] == g.events
    decreases |ticks|
  {
    if |ticks| == 0 then g
    else GateTick(GateRun(g, ticks[..|ticks| - 1]), ticks[|ticks| - 1])
  }

  /** The number of 'initialized' events in `events`. */
  function Announced(events: seq<Event>): nat
    decreases |events|
  {
    if |events| == 0 then 0
    else Announced(events[..|events| - 1]) + (if events[|events| - 1] == Initialized then 1 else 0)
  }

  lemma AnnouncedAppend(events: seq<Event>, e: Event)
    ensures Announced(events + [e]) == Announced(events) + (if e == Initialized then 1 else 0)
  {
    assert (events + [e])[..|events|] == events;
  }

  /** The gate's invariant: the 'initialized' event has been dispatched
      once if the widget is initialized and never otherwise, and it is only
      initialized once the blobs are. */
  predicate GateSound(g: Gate)
  {
    && Announced(g.events) == (if g.initialized then 1 else 0)
    && (g.initialized ==> g.blobsInitialized)
  }

  /** A tick keeps the invariant, never resets either flag, and opens the
      gate only when the blobs had settled before and the images are
      ready. */
  lemma GateTickSound(g: Gate, t: Tick)
    requires GateSound(g)
    ensures GateSound(GateTick(g, t))
    ensures g.initialized ==> GateTick(g, t).initialized
    ensures g.blobsInitialized ==> GateTick(g, t).blobsInitialized
    ensures !g.initialized && GateTick(g, t).initialized ==> g.blobsInitialized && t.imagesReady
    ensures GateTick(g, t).events[..|g.events|] == g.events
  {
    var r := GateTick(g, t);
    if r.events != g.events {
      AnnouncedAppend(g.events, Initialized);
    }
    assert r.events[..|g.events|] == g.events;
  }

  /** Over any run from a sound gate the invariant holds: at most one
      'initialized' event is ever dispatched. */
  lemma {:induction false} GateRunSound(g: Gate, ticks: seq<Tick>)
    requires GateSound(g)
    ensures GateSound(GateRun(g, ticks))
    ensures Announced(GateRun(g, ticks).events) <= 1
    ensures g.initialized ==> GateRun(g, ticks).initialized
    decreases |ticks|
  {
    if |ticks| > 0 {
      var prev := GateRun(g, ticks[..|ticks| - 1]);
      GateRunSound(g, ticks[..|ticks| - 1]);
      GateTickSound(prev, ticks[|ticks| - 1]);
    }
  }

  /** From the start state the gate opens only on a tick with the images
      ready that follows a tick on which every blob had settled, so never
      on the first tick. */
  lemma {:induction false} GateOpensAfterSettling(g: Gate, ticks: seq<Tick>)
    requires !g.blobsInitialized && !g.initialized
    ensures GateRun(g, ticks).blobsInitialized ==>
      exists i :: 0 <= i < |ticks| && ticks[i].settled
    ensures GateRun(g, ticks).initialized ==>
      exists i, j :: 0 <= i < j < |ticks| && ticks[i].settled && ticks[j].imagesReady
    decreases |ticks|
  {
    if |ticks| > 0 {
      var n := |ticks| - 1;
      var front := ticks[..n];
      var prev := GateRun(g, front);
      GateOpensAfterSettling(g, front);
      if prev.blobsInitialized {
        var i :| 0 <= i < |front| && front[i].settled;
        assert ticks[i].settled;
        if prev.initialized {
          var i', j :| 0 <= i' < j < |front| && front[i'].settled && front[j].imagesReady;
          assert ticks[i'].settled && ticks[j].imagesReady;
        } else if GateRun(g, ticks).initialized {
          assert ticks[n].imagesReady;
        }
      } else if GateRun(g, ticks).blobsInitialized {
        assert ticks[n].settled;
      }
    }
  }

  // ---------------------------------------------------------------------
  // Image preloading

  /** The embassies whose image is preloaded; only their load events count. */
  function WithImage(embassies: seq<Embassy>): (r: set<nat>)
    ensures forall k: nat :: k in r <==> k < |embassies| && embassies[k].image != ""
  {
    set k: nat | k < |embassies| && embassies[k].image != ""
  }

  /** The positions below `n`. */
  function Indexes(n: nat): (r: set<nat>)
    ensures forall k: nat :: k in r <==> k < n
  {
    if n == 0 then {} else Indexes(n - 1) + {n - 1}
  }

  lemma {:induction false} IndexesSize(n: nat)
    ensures |Indexes(n)| == n
  {
    if n > 0 {
      var front := Indexes(n - 1);
      IndexesSize(n - 1);
      assert n - 1 !in front;
      assert |front + {n - 1}| == |front| + 1;
    }
  }

  lemma {:induction false} SubsetSize(a: set<nat>, b: set<nat>)
    requires a <= b
    ensures |a| <= |b|
    decreases |a|
  {
    if a != {} {
      var x :| x in a;
      SubsetSize(a - {x}, b - {x});
      assert a == (a - {x}) + {x};
      assert b == (b - {x}) + {x};
    }
  }

  /** Only embassies with an image raise the preload count, so the count
      reaches the number of embassies only when every embassy has an image:
      one embassy without an image keeps the gate shut for good. */
  lemma AllLoadedMeansEveryImage(embassies: seq<Embassy>, loaded: set<nat>)
    requires loaded <= WithImage(embassies) && |loaded| == |embassies|
    ensures forall k :: 0 <= k < |embassies| ==> embassies[k].image != ""
  {
    forall k | 0 <= k < |embassies|
      ensures embassies[k].image != ""
    {
      if embassies[k].image == "" {
        var rest := Indexes(|embassies|) - {k};
        IndexesSize(|embassies|);
        assert Indexes(|embassies|) == rest + {k};
        SubsetSize(loaded, rest);
        assert false;
      }
    }
  }

  // ---------------------------------------------------------------------
  // Scans: the last position with a flag set

  /** The last position below `n` whose flag is set, or -1. */
  function LastSet(flags: seq<bool>, n: nat): (r: int)
    requires n <= |flags|
    ensures -1 <= r < n
    ensures r == -1 <==> forall k :: 0 <= k < n ==> !flags[k]
    ensures r >= 0 ==> flags[r] && forall k :: r < k < n ==> !flags[k]
  {
    if n == 0 then -1
    else if flags[n - 1] then n - 1
    else LastSet(flags, n - 1)
  }

  // ---------------------------------------------------------------------
  // highlight

  /** The part of the controller `highlight` changes. */
  datatype Selection = Selection(blobs: seq<BlobView>, renders: seq<RenderView>, currentBlob: int)

  /** Four blobs with a renderer each, and a current slot that is -1 or one
      of them. */
  predicate Slotted(sel: Selection)
  {
    |sel.blobs| == 4 && |sel.renders| == 4 && -1 <= sel.currentBlob < 4
  }

  /** Which embassies carry `slug`. */
  function Matches(embassies: seq<Embassy>, slug: string): (r: seq<bool>)
    ensures |r| == |embassies|
    ensures forall k :: 0 <= k < |embassies| ==> (r[k] <==> embassies[k].slug == slug)
  {
    seq(|embassies|, k requires 0 <= k < |embassies| => embassies[k].slug == slug)
  }

  /** One random-draw stream per embassy, each long enough to leave any
      slot. */
  predicate HighlightRolls(embassies: seq<Embassy>, rolls: seq<seq<int>>)
  {
    |rolls| == |embassies| && forall k :: 0 <= k < |rolls| ==> RollsValid(rolls[k])
  }

  /** The loop body of `highlight` for one embassy: on a slug match, draw a
      slot other than the current one, scale that blob up by `amount`, give
      its renderer the embassy's image and make it current. */
  function HighlightStep(sel: Selection, embassy: Embassy, slug: string, amount: real, rolls: seq<int>): (r: Selection)
    requires Slotted(sel) && amount != 0.0 && RollsValid(rolls)
    ensures Slotted(r) && SameRest(r.blobs, sel.blobs)
  {
    if embassy.slug == slug then
      FirstOtherIsOtherSlot(rolls, sel.currentBlob);
      var index := FirstOther(rolls, sel.currentBlob);
      var render := sel.renders[index];
      Selection(
        ScaledTargets(sel.blobs, index, amount),
        sel.renders[index := render.(background := Some(embassy.image))],
        index)
    else sel
  }

  /** The `highlight` loop over the first `n` embassies. */
  function HighlightScan(sel: Selection, embassies: seq<Embassy>, slug: string, amount: real,
                         rolls: seq<seq<int>>, n: nat): (r: Selection)
    requires Slotted(sel) && amount != 0.0 && HighlightRolls(embassies, rolls) && n <= |embassies|
    ensures Slotted(r) && SameRest(r.blobs, sel.blobs)
  {
    if n == 0 then sel
    else
      var prev := HighlightScan(sel, embassies, slug, amount, rolls, n - 1);
      HighlightStep(prev, embassies[n - 1], slug, amount, rolls[n - 1])
  }

  /** What `highlight` leaves behind. Without a matching embassy nothing
      changes. Otherwise the current slot is the one drawn for the last
      match, it differs from the slot current before that match, the target
      scales are those of `scaleBlob` on that slot alone (earlier matches are
      overwritten), and that slot's renderer shows the last match's image. */
  lemma {:induction false} HighlightOutcome(sel: Selection, embassies: seq<Embassy>, slug: string,
                                            amount: real, rolls: seq<seq<int>>, n: nat)
    requires Slotted(sel) && amount != 0.0 && HighlightRolls(embassies, rolls) && n <= |embassies|
    ensures var r := HighlightScan(sel, embassies, slug, amount, rolls, n);
      var m := LastSet(Matches(embassies, slug), n);
      && (m == -1 ==> r == sel)
      && (m >= 0 ==>
        var before := HighlightScan(sel, embassies, slug, amount, rolls, m).currentBlob;
        && 0 <= r.currentBlob < 4
        && r.currentBlob != before
        && Escapes(rolls[m], before)
        && r.currentBlob == FirstOther(rolls[m], before)
        && r.blobs == ScaledTargets(sel.blobs, r.currentBlob, amount)
        && r.renders[r.currentBlob].background == Some(embassies[m].image))
    decreases n
  {
    if n > 0 {
      var flags := Matches(embassies, slug);
      var prev := HighlightScan(sel, embassies, slug, amount, rolls, n - 1);
      HighlightOutcome(sel, embassies, slug, amount, rolls, n - 1);
      if flags[n - 1] {
        FirstOtherIsOtherSlot(rolls[n - 1], prev.currentBlob);
        var r := HighlightScan(sel, embassies, slug, amount, rolls, n);
        ScaledTargetsForget(prev.blobs, sel.blobs, r.currentBlob, amount);
      }
    }
  }

  /** With exactly one matching embassy the current slot always changes. */
  lemma HighlightMovesOnSingleMatch(sel: Selection, embassies: seq<Embassy>, slug: string,
                                    amount: real, rolls: seq<seq<int>>, m: nat)
    requires Slotted(sel) && amount != 0.0 && HighlightRolls(embassies, rolls)
    requires m < |embassies| && embassies[m].slug == slug
    requires forall k :: 0 <= k < |embassies| && k != m ==> embassies[k].slug != slug
    ensures HighlightScan(sel, embassies, slug, amount, rolls, |embassies|).currentBlob != sel.currentBlob
  {
    var flags := Matches(embassies, slug);
    HighlightOutcome(sel, embassies, slug, amount, rolls, |embassies|);
    HighlightOutcome(sel, embassies, slug, amount, rolls, m);
    assert LastSet(flags, m) == -1;
  }

  // ---------------------------------------------------------------------
  // mousemove

  /** The part of the controller `mousemove` changes. */
  datatype Pointer = Pointer(blobs: seq<BlobView>, overblob: int)

  /** The splice draws for every blob the pointer may enter. */
  predicate MouseDraws(palette: seq<real>, inside: seq<bool>, draws: seq<seq<nat>>)
  {
    && |draws| == |inside| && |inside| <= |palette|
    && forall k :: 0 <= k < |inside| ==> ScalesDraws(palette, k, draws[k])
  }

  /** Blob `key` contains the pointer: re-order the targets with `key`
      pinned unless it already was the blob under the pointer, then record
      it as that blob. */
  function MouseStep(p: Pointer, palette: seq<real>, key: nat, ds: seq<nat>): (r: Pointer)
    requires |p.blobs| == |palette| && ScalesDraws(palette, key, ds)
    ensures SameRest(r.blobs, p.blobs)
  {
    if key != p.overblob then Pointer(ScaleAll(p.blobs, RandomScales(palette, key, ds)), key)
    else Pointer(p.blobs, key)
  }

  /** The `mousemove` loop over the first `n` blobs; `inside[k]` is
      `blob.isInside(mouse)` for blob `k`. */
  function MouseScan(p: Pointer, palette: seq<real>, inside: seq<bool>, draws: seq<seq<nat>>, n: nat): (r: Pointer)
    requires |p.blobs| == |palette| && MouseDraws(palette, inside, draws) && n <= |inside|
    ensures |r.blobs| == |p.blobs| && SameRest(r.blobs, p.blobs)
  {
    if n == 0 then p
    else
      var prev := MouseScan(p, palette, inside, draws, n - 1);
      if inside[n - 1] then MouseStep(prev, palette, n - 1, draws[n - 1]) else prev
  }

  /** Where the pointer ends up: with the pointer in no blob nothing
      changes, otherwise `overblob` is the last blob containing it. */
  lemma {:induction false} MouseOverblob(p: Pointer, palette: seq<real>, inside: seq<bool>,
                                         draws: seq<seq<nat>>, n: nat)
    requires |p.blobs| == |palette| && MouseDraws(palette, inside, draws) && n <= |inside|
    ensures LastSet(inside, n) == -1 ==> MouseScan(p, palette, inside, draws, n) == p
    ensures LastSet(inside, n) >= 0 ==> MouseScan(p, palette, inside, draws, n).overblob == LastSet(inside, n)
    decreases n
  {
    if n > 0 {
      MouseOverblob(p, palette, inside, draws, n - 1);
    }
  }

  /** Blobs after the last one containing the pointer change nothing. */
  lemma {:induction false} MouseSkipsOutside(p: Pointer, palette: seq<real>, inside: seq<bool>,
                                             draws: seq<seq<nat>>, m: nat, n: nat)
    requires |p.blobs| == |palette| && MouseDraws(palette, inside, draws)
    requires m <= n <= |inside| && forall k :: m <= k < n ==> !inside[k]
    ensures MouseScan(p, palette, inside, draws, n) == MouseScan(p, palette, inside, draws, m)
    decreases n
  {
    if n > m {
      MouseSkipsOutside(p, palette, inside, draws, m, n - 1);
    }
  }

  /** The targets `mousemove` leaves: the palette re-ordered with the last
      blob containing the pointer pinned, unless that blob is the only one
      containing the pointer and was already `overblob`, in which case the
      targets are untouched. Earlier re-orderings are overwritten. */
  lemma MouseTargets(p: Pointer, palette: seq<real>, inside: seq<bool>, draws: seq<seq<nat>>, n: nat)
    requires |p.blobs| == |palette| && MouseDraws(palette, inside, draws) && n <= |inside|
    requires LastSet(inside, n) >= 0
    ensures var r := MouseScan(p, palette, inside, draws, n);
      var m := LastSet(inside, n);
      && (LastSet(inside, m) >= 0 || m != p.overblob ==>
            r.blobs == ScaleAll(p.blobs, RandomScales(palette, m, draws[m])))
      && (LastSet(inside, m) == -1 && m == p.overblob ==> r.blobs == p.blobs)
  {
    var m := LastSet(inside, n);
    MouseSkipsOutside(p, palette, inside, draws, m + 1, n);
    var prev := MouseScan(p, palette, inside, draws, m);
    MouseOverblob(p, palette, inside, draws, m);
    var scales := RandomScales(palette, m, draws[m]);
    ScaleAllForget(prev.blobs, p.blobs, scales);
  }

  /** A pointer outside every blob changes nothing, and a pointer staying
      in the blob it is already over leaves the targets alone. */
  lemma MouseIdleKeepsTargets(p: Pointer, palette: seq<real>, inside: seq<bool>, draws: seq<seq<nat>>, key: nat)
    requires |p.blobs| == |palette| && MouseDraws(palette, inside, draws)
    requires key < |inside| && p.overblob == key
    requires forall k :: 0 <= k < |inside| ==> (inside[k] <==> k == key)
    ensures MouseScan(p, palette, inside, draws, |inside|) == p
  {
    assert inside[key];
    assert LastSet(inside, |inside|) == key;
    assert LastSet(inside, key) == -1;
    MouseTargets(p, palette, inside, draws, |inside|);
    MouseOverblob(p, palette, inside, draws, |inside|);
  }
}
