/** The horizontally pinned impact track (ImpactExperience.tsx): how far the
    track may slide, which panel is closest to the viewport's centre, the
    class rule that highlights it and the "01 / 04" counter. Element
    rectangles are inputs. */
module ImpactExperience {
  import opened Common

  /** The number of impact panels. */
  const PanelCount: nat := 4

  /** `getMaxTranslate`: the track's overflow past the viewport, never negative. */
  function MaxTranslate(scrollWidth: real, clientWidth: real): (r: real)
    ensures r >= 0.0 && r >= scrollWidth - clientWidth
    ensures r == 0.0 || r == scrollWidth - clientWidth
    ensures scrollWidth <= clientWidth ==> r == 0.0
  {
    Max(0.0, scrollWidth - clientWidth)
  }

  // ---------------------------------------------------------------------------
  // The closest panel

  /** The distance from a panel's centre to the viewport's centre. */
  function Dist(p: Rect, center: real): (d: real)
    ensures d >= 0.0
  {
    Abs(p.left + p.width / 2.0 - center)
  }

  /** Panel `k` is at least as close as every panel and strictly closer than
      every earlier one. */
  predicate IsClosest(panels: seq<Rect>, center: real, k: int) {
    && 0 <= k < |panels|
    && (forall j :: 0 <= j < |panels| ==> Dist(panels[k], center) <= Dist(panels[j], center))
    && (forall j :: 0 <= j < k ==> Dist(panels[k], center) < Dist(panels[j], center))
  }

  /** At most one panel is the closest in this sense. */
  lemma ClosestUnique(panels: seq<Rect>, center: real, k1: int, k2: int)
    requires IsClosest(panels, center, k1) && IsClosest(panels, center, k2)
    ensures k1 == k2
  {
    var d1, d2 := Dist(panels[k1], center), Dist(panels[k2], center);
  }

  /** `applyActive`: the viewport's centre is its left edge plus half its
      width; `min` starts at +Infinity (here: no minimum yet) and a panel
      replaces the best one only when strictly closer. */
  method ApplyActive(viewportLeft: real, clientWidth: real, panels: seq<Rect>) returns (next: nat)
    ensures |panels| == 0 ==> next == 0
    ensures |panels| > 0 ==> IsClosest(panels, viewportLeft + clientWidth / 2.0, next)
  {
    var center := viewportLeft + clientWidth / 2.0;
    next := 0;
    var haveMin := false;
    var min := 0.0;
    for idx := 0 to |panels|
      invariant haveMin <==> idx > 0
      invariant idx > 0 ==> next < idx && min == Dist(panels[next], center)
      invariant idx == 0 ==> next == 0
      invariant forall j :: 0 <= j < idx ==> min <= Dist(panels[j], center)
      invariant forall j :: 0 <= j < next ==> min < Dist(panels[j], center)
    {
      var dist := Abs(panels[idx].left + panels[idx].width / 2.0 - center);
      if !haveMin || dist < min {
        min := dist;
        next := idx;
        haveMin := true;
      }
    }
  }

  // ---------------------------------------------------------------------------
  // Rendering

  const ActiveClass: string := "opacity-100 scale-100"
  const DimmedClass: string := "opacity-60 scale-[0.98]"

  /** The panel class rule: the active panel at full opacity and scale, the others dimmed. */
  function PanelClass(activeIndex: int, index: int): (c: string)
    ensures c == ActiveClass <==> index == activeIndex
    ensures c == ActiveClass || c == DimmedClass
  {
    if activeIndex == index then ActiveClass else DimmedClass
  }

  /** Exactly one of the panels is highlighted, whichever index is active. */
  lemma ExactlyOneHighlighted(activeIndex: nat, n: nat)
    requires activeIndex < n
    ensures (set i | 0 <= i < n && PanelClass(activeIndex, i) == ActiveClass) == {activeIndex}
  {
    var s := set i | 0 <= i < n && PanelClass(activeIndex, i) == ActiveClass;
    assert activeIndex in s;
    forall i | i in s ensures i == activeIndex {
    }
  }

  /** `String(n)`: the decimal digits of `n`, with no leading zero. */
  function DecimalString(n: nat): (s: string)
    ensures |s| >= 1 && AllDigits(s)
    ensures DigitsValue(s) == n
    ensures |s| > 1 ==> s[0] != '0'
    ensures n < 10 <==> |s| == 1
    ensures 10 <= n < 100 ==> |s| == 2
    decreases n
  {
    if n < 10 then [DigitChar(n)]
    else
      var prefix := DecimalString(n / 10);
      var s := prefix + [DigitChar(n % 10)];
      assert s[..|s| - 1] == prefix;
      s
  }

  /** `s.padStart(2, "0")`. */
  function PadStart2(s: string): (r: string)
    ensures |r| == if |s| >= 2 then |s| else 2
    ensures r[|r| - |s|..] == s
    ensures forall i :: 0 <= i < |r| - |s| ==> r[i] == '0'
  {
    if |s| >= 2 then s else seq(2 - |s|, _ => '0') + s
  }

  /** Leading zeros do not change a digit string's value. */
  lemma {:induction false} LeadingZerosKeepValue(z: string, s: string)
    requires AllDigits(s) && forall i :: 0 <= i < |z| ==> z[i] == '0'
    ensures AllDigits(z + s) && DigitsValue(z + s) == DigitsValue(s)
    decreases |s|
  {
    var t := z + s;
    assert AllDigits(t) by {
      forall i | 0 <= i < |t| ensures IsDigit(t[i]) {
        if i < |z| { assert t[i] == z[i]; } else { assert t[i] == s[i - |z|]; }
      }
    }
    if |s| == 0 {
      assert t == z;
      AllZerosValue(z);
    } else {
      assert t[..|t| - 1] == z + s[..|s| - 1];
      LeadingZerosKeepValue(z, s[..|s| - 1]);
    }
  }

  lemma {:induction false} AllZerosValue(z: string)
    requires forall i :: 0 <= i < |z| ==> z[i] == '0'
    ensures AllDigits(z) && DigitsValue(z) == 0
  {
    if |z| > 0 {
      AllZerosValue(z[..|z| - 1]);
    }
  }

  /** The counter below the track: `activeIndex + 1` and the panel count,
      each padded to two digits, separated by " / ". */
  function Counter(activeIndex: nat, panelCount: nat): string {
    PadStart2(DecimalString(activeIndex + 1)) + " / " + PadStart2(DecimalString(panelCount))
  }

  /** With fewer than 100 panels the counter reads back as the one-based
      position and the panel count, two digits each. */
  lemma CounterReadsBack(activeIndex: nat, panelCount: nat)
    requires activeIndex < panelCount < 100
    ensures var c := Counter(activeIndex, panelCount);
      && |c| == 7 && c[2..5] == " / "
      && AllDigits(c[..2]) && DigitsValue(c[..2]) == activeIndex + 1
      && AllDigits(c[5..]) && DigitsValue(c[5..]) == panelCount
  {
    var a, b := DecimalString(activeIndex + 1), DecimalString(panelCount);
    PaddedValue(a);
    PaddedValue(b);
    ThreePartSlices(PadStart2(a), " / ", PadStart2(b));
  }

  lemma ThreePartSlices(x: string, y: string, z: string)
    requires |x| == 2 && |y| == 3 && |z| == 2
    ensures var c := x + y + z; |c| == 7 && c[..2] == x && c[2..5] == y && c[5..] == z
  {
  }

  /** Padding a digit string to two characters keeps its value. */
  lemma PaddedValue(s: string)
    requires AllDigits(s) && 1 <= |s| <= 2
    ensures |PadStart2(s)| == 2 && AllDigits(PadStart2(s))
    ensures DigitsValue(PadStart2(s)) == DigitsValue(s)
  {
    var r := PadStart2(s);
    var z := r[..|r| - |s|];
    assert r == z + s;
    LeadingZerosKeepValue(z, s);
  }

  /** The first of the four panels reads "01 / 04". */
  lemma FirstPanelCounter()
    ensures Counter(0, PanelCount) == "01 / 04"
  {
  }

  // ---------------------------------------------------------------------------
  // The component state

  class ImpactTrack {
    const panelCount: nat
    var activeIndex: nat

    ghost predicate Valid() reads this {
      activeIndex == 0 || activeIndex < panelCount
    }

    /** `useState(0)`. */
    constructor (n: nat)
      ensures Valid() && panelCount == n && activeIndex == 0
    {
      panelCount := n;
      activeIndex := 0;
    }

    /** The scroll callback: `setActiveIndex` with the closest panel. */
    method OnUpdate(viewportLeft: real, clientWidth: real, panels: seq<Rect>)
      requires Valid() && |panels| == panelCount
      modifies this`activeIndex
      ensures Valid()
      ensures panelCount == 0 ==> activeIndex == 0
      ensures panelCount > 0 ==> IsClosest(panels, viewportLeft + clientWidth / 2.0, activeIndex)
    {
      activeIndex := ApplyActive(viewportLeft, clientWidth, panels);
    }

    /** The panel classes the track renders. */
    function Classes(): (cs: seq<string>)
      reads this
      ensures |cs| == panelCount
      ensures forall i :: 0 <= i < panelCount ==> (cs[i] == ActiveClass <==> i == activeIndex)
    {
      var a := activeIndex;
      seq(panelCount, i => PanelClass(a, i))
    }
  }
}
