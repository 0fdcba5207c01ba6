/** The three-slot "about" carousel (AboutCarousel3D.tsx): the layout
    configurator that turns viewport and card width into five slot
    configurations, the card-size computation, and the rotation state
    machine that relabels which of the three fixed card elements plays
    the left, center and right role. Animation interpolation is not
    modelled: a transition is its three discrete events (start, the
    content reassignment at offset 0.32, completion). */
module Carousel {
  import opened Common

  // ---------------------------------------------------------------------------
  // Static content

  datatype Card = Card(title: string, description: string, chips: seq<string>)

  /** Number of cards in the fixed card table. */
  const N: nat := 5

  const Cards: seq<Card> := [
    Card("Product", "Turning ambiguity into structured direction and measurable outcomes.", ["Vision", "Metrics", "Impact"]),
    Card("Operations", "Execution discipline across teams and delivery cycles.", ["QA", "Releases", "Execution"]),
    Card("Design", "Human-centered systems shaped through clarity and iteration.", ["UX", "Flows", "Prototypes"]),
    Card("Technology", "Scalable systems built with performance and architecture in mind.", ["Architecture", "Data", "Performance"]),
    Card("Shipping", "From concept to release with structured execution and ownership.", ["Build", "Iterate", "Deliver"])
  ]

  // ---------------------------------------------------------------------------
  // Pure geometry

  /** `clamp(value, min, max)`, written as `Math.min(max, Math.max(min, value))`. */
  function Clamp(value: real, lo: real, hi: real): (r: real)
    ensures lo <= hi ==> lo <= r <= hi
    ensures lo <= value <= hi ==> r == value
    ensures value < lo ==> r == Min(hi, lo)
    ensures hi < value ==> r == hi
  {
    Min(hi, Max(lo, value))
  }

  /** `Math.round`: the nearest integer, halves rounded up. */
  function Round(x: real): (r: int)
    ensures x - 0.5 < r as real <= x + 0.5
  {
    (x + 0.5).Floor
  }

  /** JavaScript's `v || fallback` on a measured size: zero falls back. */
  function OrElse(v: nat, fallback: nat): (r: nat)
    ensures v != 0 ==> r == v
    ensures v == 0 ==> r == fallback
  {
    if v == 0 then fallback else v
  }

  datatype CardDims = CardDims(width: real, height: real)

  /** The height-driven card size of the resize `compute` callback,
      applied to the viewport height after the `|| 310` fallback. */
  function CardSize(height: real): (d: CardDims)
    ensures 200.0 <= d.height <= 340.0
    ensures 200.0 <= d.width <= 300.0
    ensures height >= 436.0 ==> d == CardDims(300.0, 340.0)
    ensures height <= 256.0 ==> d == CardDims(200.0, 200.0)
  {
    var cardHeight := Clamp(Round(height * 0.78) as real, 200.0, 340.0);
    var cardWidth := Clamp(Round(cardHeight * 0.9) as real, 200.0, 300.0);
    CardDims(cardWidth, cardHeight)
  }

  /** A zero viewport height falls back to 310 px, which gives a 218 x 242 card. */
  lemma CardSizeFallback()
    ensures CardSize(OrElse(0, 310) as real) == CardDims(218.0, 242.0)
  {
    assert Round(310.0 * 0.78) == 242;
    assert Round(242.0 * 0.9) == 218;
  }

  /** One visual configuration of a card. */
  datatype Slot = Slot(x: real, scale: real, rotationY: real, z: real, opacity: real,
                       filter: string, boxShadow: string,
                       contentOpacity: real, contentFilter: string)

  /** The off-band entry/exit positions carry only a subset of a slot's properties. */
  datatype OffSlot = OffSlot(x: real, opacity: real, scale: real, rotationY: real, z: real, filter: string)

  datatype SlotConfig = SlotConfig(left: Slot, center: Slot, right: Slot, offLeft: OffSlot, offRight: OffSlot)

  const SideShadow: string := "0 10px 24px rgba(32,36,43,0.08)"
  const CenterShadow: string := "0 18px 36px rgba(32,36,43,0.10)"

  /** Horizontal offset of the side slots. */
  function Base(viewportWidth: real, cardWidth: real): (b: real)
    ensures b <= cardWidth * 1.05
    ensures b >= Min(120.0, cardWidth * 1.05)
    ensures cardWidth > 0.0 ==> b > 0.0
  {
    Min(Max(120.0, (viewportWidth - cardWidth) / 2.0), cardWidth * 1.05)
  }

  function GetSlotConfig(viewportWidth: real, cardWidth: real, reducedMotion: bool): (c: SlotConfig)
    // geometry: mirrored side slots, off-slots twice as far, strictly ordered for a real card
    ensures c.center.x == 0.0 && c.left.x == -c.right.x && c.offLeft.x == -c.offRight.x
    ensures c.offRight.x == 2.0 * c.right.x && c.right.x == Base(viewportWidth, cardWidth)
    ensures cardWidth > 0.0 ==> c.offLeft.x < c.left.x < c.center.x < c.right.x < c.offRight.x
    // the side slots are mirror images of each other
    ensures c.left.rotationY == -c.right.rotationY && c.left.z == c.right.z
    ensures c.left.contentFilter == c.right.contentFilter && c.left.contentOpacity == c.right.contentOpacity
    ensures c.center.rotationY == 0.0 && c.center.contentOpacity == 1.0 && c.center.contentFilter == "blur(0px)"
    // reduced motion suppresses rotation, depth and side blur
    ensures reducedMotion ==>
      c.left.rotationY == 0.0 && c.left.z == 0.0 && c.left.contentFilter == "blur(0px)"
      && c.left.contentOpacity == 0.9 && c.left.scale == 0.98 && c.center.scale == 1.0
    ensures !reducedMotion ==>
      c.left.rotationY == 45.0 && c.left.z == -80.0 && c.left.contentFilter == "blur(2px)"
      && c.left.contentOpacity == 0.65 && c.left.scale == 0.88 && c.center.scale == 1.04
    // the off-slots are invisible and flat
    ensures c.offLeft.opacity == 0.0 && c.offRight.opacity == 0.0
    ensures c.offLeft.rotationY == 0.0 && c.offRight.z == 0.0
  {
    var base := Base(viewportWidth, cardWidth);
    var off := base * 2.0;
    var sideScale := if reducedMotion then 0.98 else 0.88;
    var centerScale := if reducedMotion then 1.0 else 1.04;
    var rotate := if reducedMotion then 0.0 else 45.0;
    var blur := if reducedMotion then "blur(0px)" else "blur(2px)";
    var sideOpacity := if reducedMotion then 0.9 else 0.65;
    var sideZ := if reducedMotion then 0.0 else -80.0;
    SlotConfig(
      Slot(-base, sideScale, rotate, sideZ, 1.0, "blur(0px)", SideShadow, sideOpacity, blur),
      Slot(0.0, centerScale, 0.0, 0.0, 1.0, "blur(0px)", CenterShadow, 1.0, "blur(0px)"),
      Slot(base, sideScale, -rotate, sideZ, 1.0, "blur(0px)", SideShadow, sideOpacity, blur),
      OffSlot(-off, 0.0, sideScale, 0.0, 0.0, "blur(0px)"),
      OffSlot(off, 0.0, sideScale, 0.0, 0.0, "blur(0px)"))
  }

  /** The configuration the component starts with, before any measurement:
      base 200 (since 240 x 1.05 = 252 > 200) and off-slots at 400. */
  lemma InitialSlotConfig()
    ensures var c := GetSlotConfig(640.0, 240.0, false);
      c.right.x == 200.0 && c.left.x == -200.0 && c.offRight.x == 400.0 && c.offLeft.x == -400.0
      && c.center.scale == 1.04 && c.left.rotationY == 45.0 && c.right.rotationY == -45.0
  {
  }

  /** Result of the resize `compute` callback: the card size and the slot configuration. */
  datatype Layout = Layout(dims: CardDims, config: SlotConfig)

  function ComputeLayout(clientHeight: nat, clientWidth: nat, reducedMotion: bool): (l: Layout)
    ensures 200.0 <= l.dims.height <= 340.0 && 200.0 <= l.dims.width <= 300.0
    ensures l.config.right.x == Base(OrElse(clientWidth, 640) as real, l.dims.width)
    ensures l.config.offLeft.x < l.config.left.x < 0.0 < l.config.right.x < l.config.offRight.x
  {
    var dims := CardSize(OrElse(clientHeight, 310) as real);
    Layout(dims, GetSlotConfig(OrElse(clientWidth, 640) as real, dims.width, reducedMotion))
  }

  // ---------------------------------------------------------------------------
  // Elements, roles and content indices

  /** The three card elements, named by the ref they are mounted through.
      Their identities never change; only the roles they play do. */
  datatype Elem = LeftEl | CenterEl | RightEl

  /** `slotElsRef`: which element plays each role; null before mount. */
  datatype SlotEls = SlotEls(left: Option<Elem>, center: Option<Elem>, right: Option<Elem>) {
    /** The role map, when every role is bound to an element. */
    function Bound(): (r: Option<Roles>)
      ensures r.Some? <==> left.Some? && center.Some? && right.Some?
      ensures r.Some? ==> r.value == Roles(left.value, center.value, right.value)
    {
      if left.Some? && center.Some? && right.Some? then Some(Roles(left.value, center.value, right.value)) else None
    }
  }

  datatype Roles = Roles(left: Elem, center: Elem, right: Elem)

  predicate IsPermutation(r: Roles) {
    r.left != r.center && r.center != r.right && r.left != r.right
  }

  /** `elementIndices`: the card index each element displays, keyed by the
      element's ref name and NOT by the role the element currently plays. */
  datatype Indices = Indices(left: int, center: int, right: int) {
    function At(e: Elem): int {
      match e
      case LeftEl => left
      case CenterEl => center
      case RightEl => right
    }

    /** `{ ...prev, [key]: index }` */
    function With(e: Elem, index: int): (r: Indices)
      ensures r.At(e) == index
      ensures forall o :: o != e ==> r.At(o) == At(o)
    {
      match e
      case LeftEl => this.(left := index)
      case CenterEl => this.(center := index)
      case RightEl => this.(right := index)
    }
  }

  /** The initial `elementIndices`: the last card on the left, the first in the
      center, the second on the right. */
  function InitialIndices(): (ix: Indices)
    ensures ix.At(LeftEl) == N - 1 && ix.At(CenterEl) == 0 && ix.At(RightEl) == 1 % N
    ensures forall e :: 0 <= ix.At(e) < N
  {
    Indices((N - 1 + N) % N, 0, 1 % N)
  }

  /** `getIndexForElement` followed by the state update of `setElementIndex`:
      a missing element changes nothing. */
  function SetElementIndex(ix: Indices, el: Option<Elem>, index: int): (r: Indices)
    ensures el.None? ==> r == ix
    ensures el.Some? ==> r.At(el.value) == index
    ensures forall o :: el != Some(o) ==> r.At(o) == ix.At(o)
  {
    match el
    case None => ix
    case Some(e) => ix.With(e, index)
  }

  // ---------------------------------------------------------------------------
  // The idle state and the two transitions as functions on it

  /** What the carousel shows while no transition runs. */
  datatype View = View(roles: Roles, indices: Indices, active: int)

  /** Left shows the card before the active one, center the active one,
      right the one after it (all modulo N). */
  predicate Coherent(v: View) {
    && IsPermutation(v.roles)
    && 0 <= v.active < N
    && v.indices.At(v.roles.left) == (v.active - 1 + N) % N
    && v.indices.At(v.roles.center) == v.active
    && v.indices.At(v.roles.right) == (v.active + 1) % N
  }

  /** A completed `handleNext`: the old left element is given the card two
      ahead of the old center, then every element moves one role to the left. */
  function NextView(v: View): View {
    View(Roles(v.roles.center, v.roles.right, v.roles.left),
         v.indices.With(v.roles.left, (v.active + 2) % N),
         (v.active + 1) % N)
  }

  /** A completed `handlePrev`: the mirror image of NextView. */
  function PrevView(v: View): View {
    View(Roles(v.roles.right, v.roles.left, v.roles.center),
         v.indices.With(v.roles.right, (v.active - 2 + N) % N),
         (v.active - 1 + N) % N)
  }

  datatype Dir = Forward | Backward

  function Advance(v: View, d: Dir): View {
    match d
    case Forward => NextView(v)
    case Backward => PrevView(v)
  }

  lemma InitialViewCoherent()
    ensures Coherent(View(Roles(LeftEl, CenterEl, RightEl), InitialIndices(), 0))
  {
  }

  /** Every content index in a coherent view is a valid card index. */
  lemma {:induction false} CoherentIndicesInRange(v: View, e: Elem)
    requires Coherent(v)
    ensures 0 <= v.indices.At(e) < N
  {
    if e != v.roles.left && e != v.roles.center {
      assert e == v.roles.right;
    }
  }

  lemma NextKeepsCoherent(v: View)
    requires Coherent(v)
    ensures Coherent(NextView(v))
    ensures var w := NextView(v);
      w.active == (v.active + 1) % N
      && w.indices.At(w.roles.left) == v.indices.At(v.roles.center)
      && w.indices.At(w.roles.center) == v.indices.At(v.roles.right)
      && w.indices.At(w.roles.right) == (v.indices.At(v.roles.center) + 2) % N
  {
  }

  lemma PrevKeepsCoherent(v: View)
    requires Coherent(v)
    ensures Coherent(PrevView(v))
    ensures var w := PrevView(v);
      w.active == (v.active - 1 + N) % N
      && w.indices.At(w.roles.right) == v.indices.At(v.roles.center)
      && w.indices.At(w.roles.center) == v.indices.At(v.roles.left)
      && w.indices.At(w.roles.left) == (v.indices.At(v.roles.center) - 2 + N) % N
  {
  }

  /** Two coherent views with the same roles and active index are equal:
      the content indices are determined by them. */
  lemma {:induction false} CoherentDetermined(v: View, w: View)
    requires Coherent(v) && Coherent(w)
    requires v.roles == w.roles && v.active == w.active
    ensures v == w
  {
    forall e: Elem ensures v.indices.At(e) == w.indices.At(e) {
      if e != v.roles.left && e != v.roles.center {
        assert e == v.roles.right;
      }
    }
    assert v.indices.left == v.indices.At(LeftEl);
    assert v.indices.center == v.indices.At(CenterEl);
    assert v.indices.right == v.indices.At(RightEl);
  }

  /** `prev` after `next` restores the idle state exactly. */
  lemma {:induction false} PrevUndoesNext(v: View)
    requires Coherent(v)
    ensures PrevView(NextView(v)) == v
  {
    NextKeepsCoherent(v);
    PrevKeepsCoherent(NextView(v));
    CoherentDetermined(PrevView(NextView(v)), v);
  }

  /** `next` after `prev` restores the idle state exactly. */
  lemma {:induction false} NextUndoesPrev(v: View)
    requires Coherent(v)
    ensures NextView(PrevView(v)) == v
  {
    PrevKeepsCoherent(v);
    NextKeepsCoherent(PrevView(v));
    CoherentDetermined(NextView(PrevView(v)), v);
  }

  /** The wrap-around boundary cases. */
  lemma Wraps(v: View)
    requires Coherent(v)
    ensures v.active == N - 1 ==> NextView(v).active == 0
    ensures v.active == 0 ==> PrevView(v).active == N - 1
  {
  }

  // ---------------------------------------------------------------------------
  // Static placement (applySlot / syncSlots)

  /** `applySlot`: a missing element is skipped. */
  function ApplySlot(placed: map<Elem, Slot>, el: Option<Elem>, s: Slot): (r: map<Elem, Slot>)
    ensures el.None? ==> r == placed
    ensures el.Some? ==> el.value in r && r[el.value] == s
    ensures forall e :: e in placed && el != Some(e) ==> e in r && r[e] == placed[e]
  {
    match el
    case None => placed
    case Some(e) => placed[e := s]
  }

  /** `syncSlots`: each bound element gets the static configuration of its role. */
  function Synced(placed: map<Elem, Slot>, els: SlotEls, config: SlotConfig): map<Elem, Slot> {
    ApplySlot(ApplySlot(ApplySlot(placed, els.left, config.left), els.center, config.center), els.right, config.right)
  }

  /** With a permutation bound, after `syncSlots` every element sits exactly in
      the static configuration of the role it plays. */
  lemma SyncedExact(placed: map<Elem, Slot>, els: SlotEls, config: SlotConfig)
    requires els.Bound().Some? && IsPermutation(els.Bound().value)
    ensures var p := Synced(placed, els, config); var r := els.Bound().value;
      r.left in p && r.center in p && r.right in p
      && p[r.left] == config.left && p[r.center] == config.center && p[r.right] == config.right
  {
  }

  // ---------------------------------------------------------------------------
  // The component state

  /** What the timeline's callbacks captured when a transition started. */
  datatype Transition = Transition(dir: Dir, left: Elem, center: Elem, right: Elem,
                                   nextIndex: int, incomingIndex: int)
  {
    /** The element that leaves the band and re-enters on the other side. */
    function Outgoing(): Elem {
      if dir == Forward then left else right
    }

    /** The role map installed by the `onComplete` callback. */
    function Rotated(): Roles {
      match dir
      case Forward => Roles(center, right, left)
      case Backward => Roles(right, left, center)
    }
  }

  /** Idle, or a timeline in flight, with or without its 0.32 callback done. */
  datatype Phase = Idle | Running(t: Transition, reassigned: bool)

  /** The transition `handleNext` / `handlePrev` would start from `roles` and `active`. */
  function Plan(d: Dir, roles: Roles, active: int): (t: Transition)
    ensures t.left == roles.left && t.center == roles.center && t.right == roles.right && t.dir == d
  {
    match d
    case Forward => Transition(Forward, roles.left, roles.center, roles.right, (active + 1) % N, (active + 2) % N)
    case Backward => Transition(Backward, roles.left, roles.center, roles.right, (active - 1 + N) % N, (active - 2 + N) % N)
  }

  /** Running the three events of a planned transition on a coherent view
      (reassign the outgoing element, rotate the roles, step the index)
      produces exactly NextView or PrevView. */
  lemma PlanRealisesAdvance(d: Dir, v: View)
    requires Coherent(v)
    ensures var t := Plan(d, v.roles, v.active);
      View(t.Rotated(), SetElementIndex(v.indices, Some(t.Outgoing()), t.incomingIndex), t.nextIndex) == Advance(v, d)
  {
  }

  class AboutCarousel {
    var els: SlotEls              // slotElsRef
    var indices: Indices          // elementIndices
    var active: int               // activeIndex
    var animating: bool           // isAnimatingRef
    var phase: Phase              // the timeline in flight, as its closures see it
    var reducedMotion: bool       // reducedMotionRef
    var dims: CardDims            // cardDims
    var config: SlotConfig        // slotConfigRef
    var placed: map<Elem, Slot>   // the static configuration last applied to each element
    ghost var start: View         // the idle view the running transition started from

    ghost predicate Mounted() reads this {
      els.Bound().Some?
    }

    ghost function CurrentView(): View
      reads this
      requires Mounted()
    {
      View(els.Bound().value, indices, active)
    }

    ghost predicate Valid() reads this {
      && (animating <==> phase.Running?)
      && (!Mounted() ==>
            els == SlotEls(None, None, None) && indices == InitialIndices() && active == 0 && phase == Idle)
      && (Mounted() && phase.Idle? ==> Coherent(CurrentView()))
      && (phase.Running? ==>
            && Mounted()
            && Coherent(start)
            && start.roles == els.Bound().value
            && start.active == active
            && phase.t == Plan(phase.t.dir, start.roles, start.active)
            && indices == (if phase.reassigned
                           then start.indices.With(phase.t.Outgoing(), phase.t.incomingIndex)
                           else start.indices))
    }

    constructor ()
      ensures Valid() && !Mounted() && phase == Idle
      ensures indices == InitialIndices() && active == 0 && !animating
      ensures config == GetSlotConfig(640.0, 240.0, false) && dims == CardDims(240.0, 220.0)
    {
      els := SlotEls(None, None, None);
      indices := InitialIndices();
      active := 0;
      animating := false;
      phase := Idle;
      reducedMotion := false;
      dims := CardDims(240.0, 220.0);
      config := GetSlotConfig(640.0, 240.0, false);
      placed := map[];
    }

    /** `syncSlots` */
    method SyncSlots()
      modifies this`placed
      ensures placed == Synced(old(placed), els, config)
    {
      placed := ApplySlot(placed, els.left, config.left);
      placed := ApplySlot(placed, els.center, config.center);
      placed := ApplySlot(placed, els.right, config.right);
    }

    /** The mount-time layout effect: bind each role to its own ref, then sync. */
    method Mount()
      requires Valid() && !Mounted()
      modifies this
      ensures Valid() && Mounted() && phase == Idle
      ensures els == SlotEls(Some(LeftEl), Some(CenterEl), Some(RightEl))
      ensures indices == old(indices) && active == old(active) && config == old(config)
      ensures placed == Synced(old(placed), els, config)
    {
      els := SlotEls(Some(LeftEl), Some(CenterEl), Some(RightEl));
      SyncSlots();
      InitialViewCoherent();
    }

    /** The resize `compute` callback: measure, recompute, and snap to the new layout. */
    method Measure(clientHeight: nat, clientWidth: nat)
      requires Valid()
      modifies this`dims, this`config, this`placed
      ensures Valid()
      ensures dims == ComputeLayout(clientHeight, clientWidth, reducedMotion).dims
      ensures config == ComputeLayout(clientHeight, clientWidth, reducedMotion).config
      ensures placed == Synced(old(placed), els, config)
    {
      var layout := ComputeLayout(clientHeight, clientWidth, reducedMotion);
      dims := layout.dims;
      config := layout.config;
      SyncSlots();
    }

    /** `updateSlotConfig`, given the viewport width the browser reports. */
    method UpdateSlotConfig(viewportWidth: real)
      requires Valid()
      modifies this`config, this`placed
      ensures Valid()
      ensures config == GetSlotConfig(viewportWidth, dims.width, reducedMotion)
      ensures placed == Synced(old(placed), els, config)
    {
      config := GetSlotConfig(viewportWidth, dims.width, reducedMotion);
      SyncSlots();
    }

    /** The reduced-motion media listener. */
    method OnReducedMotion(matches: bool, viewportWidth: real)
      requires Valid()
      modifies this`reducedMotion, this`config, this`placed
      ensures Valid() && reducedMotion == matches
      ensures config == GetSlotConfig(viewportWidth, dims.width, matches)
      ensures placed == Synced(old(placed), els, config)
    {
      reducedMotion := matches;
      UpdateSlotConfig(viewportWidth);
    }

    /** The synchronous part of `handleNext` (d = Forward) or `handlePrev`
        (d = Backward): the guard, then the animating flag. */
    method Start(d: Dir) returns (started: bool)
      requires Valid()
      modifies this`animating, this`phase, this`start
      ensures Valid()
      ensures started <==> !old(animating) && Mounted()
      ensures !started ==> animating == old(animating) && phase == old(phase)
      ensures started ==> animating && phase == Running(Plan(d, els.Bound().value, active), false)
      ensures started ==> start == old(CurrentView())
    {
      if animating {
        return false;
      }
      var bound := els.Bound();
      if bound.None? {
        return false;
      }
      start := CurrentView();
      animating := true;
      phase := Running(Plan(d, bound.value, active), false);
      return true;
    }

    /** The callback at offset 0.32: the outgoing element receives the incoming card. */
    method Reassign()
      requires Valid() && phase.Running? && !phase.reassigned
      modifies this`indices, this`phase
      ensures Valid()
      ensures indices == SetElementIndex(old(indices), Some(old(phase).t.Outgoing()), old(phase).t.incomingIndex)
      ensures phase == Running(old(phase).t, true)
    {
      indices := SetElementIndex(indices, Some(phase.t.Outgoing()), phase.t.incomingIndex);
      phase := phase.(reassigned := true);
    }

    /** The timeline's `onComplete`: rotate the roles, step the active index,
        snap to the static layout and clear the flag. */
    method Complete()
      requires Valid() && phase.Running? && phase.reassigned
      modifies this`els, this`active, this`placed, this`animating, this`phase
      ensures Valid() && phase == Idle && !animating
      ensures Mounted() && CurrentView() == Advance(start, old(phase).t.dir)
      ensures placed == Synced(old(placed), els, config)
    {
      var t := phase.t;
      var r := t.Rotated();
      els := SlotEls(Some(r.left), Some(r.center), Some(r.right));
      active := t.nextIndex;
      SyncSlots();
      animating := false;
      phase := Idle;
      PlanRealisesAdvance(t.dir, start);
      if t.dir == Forward {
        NextKeepsCoherent(start);
      } else {
        PrevKeepsCoherent(start);
      }
    }

    /** In every reachable state each element displays a valid card index. */
    lemma IndicesInRange(e: Elem)
      requires Valid()
      ensures 0 <= indices.At(e) < N
    {
      if phase.Running? {
        CoherentIndicesInRange(start, e);
      } else if Mounted() {
        CoherentIndicesInRange(CurrentView(), e);
      }
    }

    /** `CARDS[elementIndices[key]]`: the card an element renders. */
    function CardOf(e: Elem): (c: Card)
      reads this
      requires Valid()
      ensures c in Cards
    {
      IndicesInRange(e);
      Cards[indices.At(e)]
    }
  }
}
