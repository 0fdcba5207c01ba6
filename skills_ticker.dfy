/** The skills tickers (SkillsTicker.tsx): each ticker's track of items and
    separators, the direction of its endless slide, the highlight of the
    items near its centre, and the speed of its tween under scrolling and
    hovering. Element rectangles and the scroll velocity are inputs. */
module SkillsTicker {
  import opened Common

  datatype Direction = Left | Right

  datatype TickerConfig = TickerConfig(id: string, items: seq<string>, duration: nat, direction: Direction)

  const Tickers: seq<TickerConfig> := [
    TickerConfig("strategy", ["Product Strategy", "Product Discovery", "Problem Framing", "Roadmapping",
      "MVP Definition", "Feature Prioritization", "End-to-End Ownership", "Outcome-Driven Development"], 46, Left),
    TickerConfig("execution", ["Execution", "Sprint Planning", "Backlog Management", "Release Planning",
      "QA & Validation", "Iterative Delivery", "Production Readiness", "Shipping Products"], 32, Right),
    TickerConfig("engineering", ["JavaScript", "TypeScript", "React", "Next.js", "APIs", "Database Design",
      "Scalable Systems", "Cloud Infrastructure"], 34, Left),
    TickerConfig("analytics", ["Data-Informed Decisions", "Metrics & KPIs", "Analytics Dashboards",
      "Experimentation", "A/B Testing", "Performance Analysis", "Insight-to-Action"], 38, Right)
  ]

  // ---------------------------------------------------------------------------
  // The slide

  /** The tween's `xPercent`, from and to. */
  datatype Travel = Travel(from: int, to: int)

  /** "left" slides from -50 to 0, "right" from 0 to -50: half the doubled
      track either way, so the loop restarts on an identical picture. */
  function TravelOf(d: Direction): (t: Travel)
    ensures Abs((t.to - t.from) as real) == 50.0
    ensures t.from <= 0 && t.to <= 0
    ensures d == Left ==> t.from < t.to
    ensures d == Right ==> t.from > t.to
  {
    if d == Left then Travel(-50, 0) else Travel(0, -50)
  }

  /** The two directions run the same path in opposite senses. */
  lemma DirectionsMirror()
    ensures TravelOf(Left).from == TravelOf(Right).to && TravelOf(Left).to == TravelOf(Right).from
  {
  }

  // ---------------------------------------------------------------------------
  // The track

  datatype Node = Item(text: string) | Sep

  /** The `flatMap` from position `idx` of `arr`: each item, followed by a
      separator unless it is the last of `arr`. */
  function NodesFrom(arr: seq<string>, idx: nat): seq<Node>
    requires idx <= |arr|
    decreases |arr| - idx
  {
    if idx == |arr| then []
    else [Item(arr[idx])] + (if idx < |arr| - 1 then [Sep] else []) + NodesFrom(arr, idx + 1)
  }

  /** `[...items, ...items].flatMap(...)`. */
  function Track(items: seq<string>): seq<Node> {
    NodesFrom(items + items, 0)
  }

  /** The nodes alternate item, separator, item, ..., item. */
  lemma {:induction false} NodesFromClosedForm(arr: seq<string>, idx: nat)
    requires idx < |arr|
    ensures |NodesFrom(arr, idx)| == 2 * (|arr| - idx) - 1
    ensures forall k :: 0 <= k < |NodesFrom(arr, idx)| ==>
      NodesFrom(arr, idx)[k] == if k % 2 == 0 then Item(arr[idx + k / 2]) else Sep
    decreases |arr| - idx
  {
    var ns := NodesFrom(arr, idx);
    if idx < |arr| - 1 {
      NodesFromClosedForm(arr, idx + 1);
      var rest := NodesFrom(arr, idx + 1);
      assert ns == [Item(arr[idx]), Sep] + rest;
      forall k | 2 <= k < |ns|
        ensures ns[k] == if k % 2 == 0 then Item(arr[idx + k / 2]) else Sep
      {
        assert ns[k] == rest[k - 2];
        assert (k - 2) % 2 == k % 2 && idx + 1 + (k - 2) / 2 == idx + k / 2;
      }
    } else {
      assert ns == [Item(arr[idx])];
    }
  }

  /** The node at position `k` of the track of `items`: even positions
      hold the items in turn, odd ones a separator. */
  function NodeAt(items: seq<string>, k: nat): (nd: Node)
    requires k < 4 * |items| - 1
    ensures nd == Sep <==> k % 2 == 1
  {
    if k % 2 == 0 then Item((items + items)[k / 2]) else Sep
  }

  /** The track of `n` items has `4n - 1` nodes, alternating item and
      separator, starting and ending with an item. */
  lemma TrackShape(items: seq<string>)
    requires |items| > 0
    ensures |Track(items)| == 4 * |items| - 1
    ensures forall k :: 0 <= k < |Track(items)| ==> Track(items)[k] == NodeAt(items, k)
    ensures Track(items)[0].Item? && Track(items)[4 * |items| - 2].Item?
  {
    var n := |items|;
    var arr := items + items;
    NodesFromClosedForm(arr, 0);
    var t := Track(items);
    assert (4 * n - 2) % 2 == 0;
  }

  /** The second copy repeats the first: shifting by `2n` nodes, one whole
      copy of the items with their separators, gives the same node. */
  lemma NodeAtPeriodic(items: seq<string>, k: nat)
    requires k < 2 * |items| - 1
    ensures NodeAt(items, k + 2 * |items|) == NodeAt(items, k)
  {
    var n := |items|;
    assert (k + 2 * n) % 2 == k % 2;
    if k % 2 == 0 {
      assert (k + 2 * n) / 2 == k / 2 + n;
    }
  }

  /** The texts of the item nodes, in order. */
  function ItemTexts(ns: seq<Node>): seq<string> {
    if |ns| == 0 then [] else (if ns[0].Item? then [ns[0].text] else []) + ItemTexts(ns[1..])
  }

  /** The number of separator nodes. */
  function SepCount(ns: seq<Node>): nat {
    if |ns| == 0 then 0 else (if ns[0] == Sep then 1 else 0) + SepCount(ns[1..])
  }

  lemma {:induction false} CountsAppend(a: seq<Node>, b: seq<Node>)
    ensures ItemTexts(a + b) == ItemTexts(a) + ItemTexts(b)
    ensures SepCount(a + b) == SepCount(a) + SepCount(b)
  {
    if |a| > 0 {
      assert (a + b)[1..] == a[1..] + b;
      CountsAppend(a[1..], b);
    } else {
      assert a + b == b;
    }
  }

  lemma {:induction false} NodesFromCounts(arr: seq<string>, idx: nat)
    requires idx < |arr|
    ensures ItemTexts(NodesFrom(arr, idx)) == arr[idx..]
    ensures SepCount(NodesFrom(arr, idx)) == |arr| - idx - 1
    decreases |arr| - idx
  {
    var head := [Item(arr[idx])] + (if idx < |arr| - 1 then [Sep] else []);
    var rest := NodesFrom(arr, idx + 1);
    CountsAppend(head, rest);
    assert ItemTexts(head) == [arr[idx]] by {
      assert head[1..] == (if idx < |arr| - 1 then [Sep] else []);
      if idx < |arr| - 1 {
        assert head[1..][1..] == [];
      }
    }
    assert SepCount(head) == (if idx < |arr| - 1 then 1 else 0) by {
      if idx < |arr| - 1 {
        assert head[1..][1..] == [];
      }
    }
    if idx < |arr| - 1 {
      NodesFromCounts(arr, idx + 1);
      assert arr[idx..] == [arr[idx]] + arr[idx + 1..];
    } else {
      assert arr[idx..] == [arr[idx]];
    }
  }

  /** A track shows every item twice, in order, with one separator fewer than items. */
  lemma TrackCounts(items: seq<string>)
    requires |items| > 0
    ensures ItemTexts(Track(items)) == items + items
    ensures SepCount(Track(items)) == 2 * |items| - 1
  {
    NodesFromCounts(items + items, 0);
    assert (items + items)[0..] == items + items;
  }

  // ---------------------------------------------------------------------------
  // The centre highlight

  /** `1 - Math.min(dist / maxDist, 1)` for a non-negative distance and
      radius. A zero radius divides by zero: a positive distance gives
      +Infinity and so 0, a zero distance gives NaN (here: None). */
  function Progress(dist: real, maxDist: real): (p: Option<real>)
    requires dist >= 0.0 && maxDist >= 0.0
    ensures p.None? <==> dist == 0.0 && maxDist == 0.0
    ensures p.Some? ==> 0.0 <= p.value <= 1.0
    ensures p.Some? ==> (p.value == 0.0 <==> dist >= maxDist)
    ensures maxDist > 0.0 ==> p.Some? && (p.value == 1.0 <==> dist == 0.0)
  {
    if maxDist > 0.0 then Some(1.0 - Min(dist / maxDist, 1.0))
    else if dist > 0.0 then Some(0.0)
    else None
  }

  /** The highlight threshold `progress > 0.65`. */
  predicate Highlighted(p: Option<real>) {
    p.Some? && p.value > 0.65
  }

  /** An item is highlighted exactly when it is closer to the centre than
      35% of the radius, i.e. 12.25% of the ticker's width. */
  lemma HighlightIff(dist: real, width: real)
    requires dist >= 0.0 && width > 0.0
    ensures Highlighted(Progress(dist, width * 0.35)) <==> dist < 0.35 * (width * 0.35)
  {
    var m := width * 0.35;
    if dist < m {
      assert Min(dist / m, 1.0) == dist / m;
      DivBelow(dist, m, 0.35);
    }
  }

  /** `a / m < c` exactly when `a < c * m`, for a positive `m`. */
  lemma DivBelow(a: real, m: real, c: real)
    requires m > 0.0
    ensures a / m < c <==> a < c * m
  {
    var q := a / m;
    assert a == q * m;
    if q < c {
      assert (c - q) * m > 0.0;
    } else {
      assert (q - c) * m >= 0.0;
    }
  }

  /** The values written by `gsap.set`; NaN progress gives NaN values (None). */
  datatype Look = Look(opacity: real, scale: real, letterSpacing: real)
  datatype Style = Style(highlight: bool, look: Option<Look>)

  /** The style for a progress: opacity 0.45 to 1, scale 0.92 to 1.04,
      letter spacing 0.02em to 0.08em, each rising with the progress. */
  function StyleFor(p: Option<real>): (s: Style)
    requires p.Some? ==> 0.0 <= p.value <= 1.0
    ensures s.highlight == Highlighted(p)
    ensures s.look.Some? <==> p.Some?
    ensures s.look.Some? ==>
      && 0.45 <= s.look.value.opacity <= 1.0
      && 0.92 <= s.look.value.scale <= 1.04
      && 0.02 <= s.look.value.letterSpacing <= 0.08
    ensures s.look.Some? ==> (s.look.value.opacity == 1.0 <==> p.value == 1.0)
  {
    match p
    case Some(v) => Style(v > 0.65, Some(Look(0.45 + v * 0.55, 0.92 + v * 0.12, 0.02 + v * 0.06)))
    case None => Style(false, None)
  }

  /** A closer item never looks dimmer or smaller. */
  lemma StyleMonotone(p1: real, p2: real)
    requires 0.0 <= p1 <= p2 <= 1.0
    ensures var s1, s2 := StyleFor(Some(p1)), StyleFor(Some(p2));
      && s1.look.value.opacity <= s2.look.value.opacity
      && s1.look.value.scale <= s2.look.value.scale
      && s1.look.value.letterSpacing <= s2.look.value.letterSpacing
      && (s1.highlight ==> s2.highlight)
  {
  }

  /** The item style `highlightTick` gives an item, measured against its ticker. */
  function ItemStyle(ticker: Rect, item: Rect): Style
    requires ticker.width >= 0.0
  {
    var centerX := ticker.left + ticker.width / 2.0;
    var dist := Abs(centerX - (item.left + item.width / 2.0));
    StyleFor(Progress(dist, ticker.width * 0.35))
  }

  /** The inner loop of `highlightTick` for one ticker: every item gets the
      style for its distance from the ticker's centre. */
  method HighlightTicker(ticker: Rect, items: seq<Rect>, styles: array<Style>)
    requires ticker.width >= 0.0
    requires styles.Length == |items|
    modifies styles
    ensures forall i :: 0 <= i < |items| ==> styles[i] == ItemStyle(ticker, items[i])
  {
    if |items| == 0 {
      return;
    }
    var centerX := ticker.left + ticker.width / 2.0;
    var maxDist := ticker.width * 0.35;
    for i := 0 to |items|
      invariant forall j :: 0 <= j < i ==> styles[j] == ItemStyle(ticker, items[j])
    {
      var itemCenter := items[i].left + items[i].width / 2.0;
      var dist := Abs(centerX - itemCenter);
      styles[i] := StyleFor(Progress(dist, maxDist));
    }
  }

  // ---------------------------------------------------------------------------
  // Speed

  /** `gsap.utils.clamp(0.6, 1.8)`. */
  function ClampSpeed(v: real): (r: real)
    ensures 0.6 <= r <= 1.8
    ensures 0.6 <= v <= 1.8 ==> r == v
  {
    if v < 0.6 then 0.6 else if v > 1.8 then 1.8 else v
  }

  /** The scroll-driven time scale: 0.6 at rest, rising by 1 per 1500 px/s
      of scroll velocity in either direction, capped at 1.8. */
  function TimeScale(velocity: real): (r: real)
    ensures 0.6 <= r <= 1.8
    ensures Abs(velocity) <= 1800.0 ==> r == 0.6 + Abs(velocity) / 1500.0
    ensures r == 1.8 <==> Abs(velocity) >= 1800.0
  {
    ClampSpeed(0.6 + Min(Abs(velocity) / 1500.0, 1.2))
  }

  /** A faster scroll never slows the tickers down, whichever its direction. */
  lemma TimeScaleMonotone(v1: real, v2: real)
    requires Abs(v1) <= Abs(v2)
    ensures TimeScale(v1) <= TimeScale(v2)
    ensures TimeScale(-v1) == TimeScale(v1)
  {
  }

  /** The time scale a hovered ticker slows to. */
  const HoverTimeScale: real := 0.2

  class TickerTweens {
    /** One tween per ticker; only its `timeScale` is modelled. */
    const timeScales: array<real>

    ghost predicate Valid() reads this, timeScales {
      forall i :: 0 <= i < timeScales.Length ==> HoverTimeScale <= timeScales[i] <= 1.8
    }

    /** The tweens start at the normal speed. */
    constructor (count: nat)
      ensures Valid() && fresh(timeScales) && timeScales.Length == count
      ensures forall i :: 0 <= i < count ==> timeScales[i] == 1.0
    {
      timeScales := new real[count](_ => 1.0);
    }

    /** The scroll trigger's `onUpdate`: every tween runs at the scroll-driven speed. */
    method OnScrollUpdate(velocity: real)
      requires Valid()
      modifies timeScales
      ensures Valid()
      ensures forall i :: 0 <= i < timeScales.Length ==> timeScales[i] == TimeScale(velocity)
    {
      var speed := TimeScale(velocity);
      for i := 0 to timeScales.Length
        invariant forall j :: 0 <= j < i ==> timeScales[j] == speed
      {
        timeScales[i] := speed;
      }
    }

    /** `onScrubComplete`: every tween back to the normal speed. */
    method OnScrubComplete()
      requires Valid()
      modifies timeScales
      ensures Valid()
      ensures forall i :: 0 <= i < timeScales.Length ==> timeScales[i] == 1.0
    {
      for i := 0 to timeScales.Length
        invariant forall j :: 0 <= j < i ==> timeScales[j] == 1.0
      {
        timeScales[i] := 1.0;
      }
    }

    /** `pointerenter` on ticker `i`: that tween slows down, the others keep their speed. */
    method PointerEnter(i: nat)
      requires Valid() && i < timeScales.Length
      modifies timeScales
      ensures Valid()
      ensures timeScales[i] == HoverTimeScale
      ensures forall j :: 0 <= j < timeScales.Length && j != i ==> timeScales[j] == old(timeScales[j])
    {
      timeScales[i] := HoverTimeScale;
    }

    /** `pointerleave` on ticker `i`: that tween back to the normal speed. */
    method PointerLeave(i: nat)
      requires Valid() && i < timeScales.Length
      modifies timeScales
      ensures Valid()
      ensures timeScales[i] == 1.0
      ensures forall j :: 0 <= j < timeScales.Length && j != i ==> timeScales[j] == old(timeScales[j])
    {
      timeScales[i] := 1.0;
    }
  }
}
