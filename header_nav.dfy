/** The responsive header navigation (HeaderNav.tsx): a greedy fit of the
    measured link widths into the available width, which splits the link
    list into visible links and an overflow menu behind a hamburger
    button, plus the active-link rule. Element measurements are inputs. */
module HeaderNav {
  import opened Common

  /** Horizontal gap between two links, in px. */
  const Gap: nat := 24
  /** Width kept free for the hamburger button while links remain hidden, in px. */
  const HamburgerSpace: nat := 44

  datatype NavItem = NavItem(title: string, href: string)

  const NavItems: seq<NavItem> := [
    NavItem("About", "#about"),
    NavItem("Impact", "#impact"),
    NavItem("Skills", "#skills"),
    NavItem("Education", "#education"),
    NavItem("Contact", "#contact")
  ]

  // ---------------------------------------------------------------------------
  // The greedy fit of `evaluate`

  /** `used === 0 ? width : used + gap + width`: no gap is added while
      nothing has been used yet. */
  function NextUsed(used: nat, width: nat): nat {
    if used == 0 then width else used + Gap + width
  }

  /** The running `used` after accepting the first `k` widths. */
  function UsedBy(ws: seq<nat>, k: nat): nat
    requires k <= |ws|
  {
    if k == 0 then 0 else NextUsed(UsedBy(ws, k - 1), ws[k - 1])
  }

  /** The reserve added to the test for item `i` of `n`: every item but the last. */
  function Reserve(i: nat, n: nat): nat {
    if i < n - 1 then HamburgerSpace else 0
  }

  /** The test `nextUsed + reserve <= available` for item `i`, after the items before it fit. */
  predicate FitsAt(ws: seq<nat>, i: nat, available: real)
    requires i < |ws|
  {
    (NextUsed(UsedBy(ws, i), ws[i]) + Reserve(i, |ws|)) as real <= available
  }

  /** `k` is what the loop computes: every item before `k` passed its test and,
      unless all fit, item `k` failed it. */
  predicate IsGreedyCount(ws: seq<nat>, available: real, k: nat) {
    && k <= |ws|
    && (forall i :: 0 <= i < k ==> FitsAt(ws, i, available))
    && (k < |ws| ==> !FitsAt(ws, k, available))
  }

  /** The greedy count is unique: the loop's result is the only count
      meeting the fit-then-stop description. */
  lemma GreedyCountUnique(ws: seq<nat>, available: real, k1: nat, k2: nat)
    requires IsGreedyCount(ws, available, k1) && IsGreedyCount(ws, available, k2)
    ensures k1 == k2
  {
  }

  /** The `for` loop of `evaluate`, over the measured widths of the items. */
  method FitCount(ws: seq<nat>, available: real) returns (count: nat)
    ensures IsGreedyCount(ws, available, count)
  {
    var used: nat := 0;
    count := 0;
    var i := 0;
    while i < |ws|
      invariant 0 <= i <= |ws| && count == i
      invariant used == UsedBy(ws, i)
      invariant forall j :: 0 <= j < i ==> FitsAt(ws, j, available)
    {
      var width := ws[i];
      var nextUsed := if used == 0 then width else used + Gap + width;
      var reserve := if i < |ws| - 1 then HamburgerSpace else 0;
      if (nextUsed + reserve) as real <= available {
        used := nextUsed;
        count := i + 1;
      } else {
        break;
      }
      i := i + 1;
    }
  }

  /** The visible links, with their gaps and, while some are hidden, the
      hamburger reserve, fit in the available width. */
  lemma VisiblePrefixFits(ws: seq<nat>, available: real, k: nat)
    requires IsGreedyCount(ws, available, k) && k > 0
    ensures (UsedBy(ws, k) + (if k < |ws| then HamburgerSpace else 0)) as real <= available
  {
    assert FitsAt(ws, k - 1, available);
  }

  /** The first `k` widths added up. */
  function SumFirst(ws: seq<nat>, k: nat): nat
    requires k <= |ws|
  {
    if k == 0 then 0 else SumFirst(ws, k - 1) + ws[k - 1]
  }

  /** For real (non-zero) widths, `used` is the widths plus one gap between
      each two consecutive links. */
  lemma {:induction false} UsedByPositive(ws: seq<nat>, k: nat)
    requires k <= |ws|
    requires forall i :: 0 <= i < k ==> ws[i] > 0
    ensures k > 0 ==> UsedBy(ws, k) == SumFirst(ws, k) + Gap * (k - 1)
    ensures k > 0 ==> UsedBy(ws, k) > 0
  {
    if k > 1 {
      UsedByPositive(ws, k - 1);
    }
  }

  /** A zero-width first item makes the second item's test omit the gap. */
  lemma ZeroWidthOmitsGap()
    ensures UsedBy([0, 10], 2) == 10
  {
  }

  // ---------------------------------------------------------------------------
  // Rendering rules

  datatype Partition = Partition(visible: seq<NavItem>, overflow: seq<NavItem>)

  /** `navItems.slice(0, visibleCount)` and `navItems.slice(visibleCount)`. */
  function Split(items: seq<NavItem>, k: nat): (p: Partition)
    requires k <= |items|
    ensures p.visible + p.overflow == items
    ensures |p.visible| == k && |p.overflow| == |items| - k
  {
    Partition(items[..k], items[k..])
  }

  /** The hamburger button is rendered while some link is hidden. */
  predicate ShowsHamburger(visibleCount: nat, items: seq<NavItem>) {
    visibleCount < |items|
  }

  /** The overflow panel is rendered while open and while some link is hidden. */
  predicate ShowsOverflowPanel(menuOpen: bool, visibleCount: nat, items: seq<NavItem>) {
    menuOpen && visibleCount < |items|
  }

  /** A hidden link is always reachable: when the panel shows, it lists
      exactly the links missing from the bar, and it is non-empty. */
  lemma OverflowPanelListsHidden(menuOpen: bool, k: nat, items: seq<NavItem>)
    requires k <= |items| && ShowsOverflowPanel(menuOpen, k, items)
    ensures ShowsHamburger(k, items)
    ensures |Split(items, k).overflow| > 0
    ensures forall it :: it in items && it !in Split(items, k).visible ==> it in Split(items, k).overflow
  {
  }

  /** `activeId && activeId !== "home" ? `#${activeId}` : ""` */
  function ActiveSection(activeId: string): (r: string)
    ensures r == "" <==> activeId == "" || activeId == "home"
    ensures r != "" ==> |r| == |activeId| + 1 && r[0] == '#' && r[1..] == activeId
  {
    if activeId != "" && activeId != "home" then "#" + activeId else ""
  }

  /** A link is marked active iff its href equals the active section. */
  predicate IsActiveLink(activeId: string, href: string) {
    ActiveSection(activeId) == href
  }

  /** For a section other than "home", the link `#id` is active exactly
      when that section is the active one. */
  lemma LinkActiveIff(activeId: string, id: string)
    requires id != "" && id != "home"
    ensures IsActiveLink(activeId, "#" + id) <==> activeId == id
  {
    if IsActiveLink(activeId, "#" + id) {
      assert ("#" + id)[1..] == id;
    }
  }

  /** The hero section highlights no link. */
  lemma HomeHighlightsNothing(item: NavItem)
    requires item in NavItems
    ensures !IsActiveLink("home", item.href) && !IsActiveLink("", item.href)
  {
  }

  // ---------------------------------------------------------------------------
  // The component state

  class Header {
    const items: seq<NavItem>
    var menuOpen: bool
    var visibleCount: nat

    ghost predicate Valid() reads this {
      visibleCount <= |items|
    }

    /** Initially every link is visible and the menu is closed. */
    constructor (navItems: seq<NavItem>)
      ensures Valid() && items == navItems
      ensures visibleCount == |navItems| && !menuOpen
    {
      items := navItems;
      visibleCount := |navItems|;
      menuOpen := false;
    }

    /** `evaluate`, given the nav width and the widths of the measured copies
        (one per item), each None while its ref is not attached. */
    method Evaluate(available: Option<real>, widths: Option<seq<nat>>)
      requires Valid()
      requires widths.Some? ==> |widths.value| == |items|
      modifies this
      ensures Valid()
      ensures available.None? || widths.None? ==>
        visibleCount == old(visibleCount) && menuOpen == old(menuOpen)
      ensures available.Some? && widths.Some? ==>
        && IsGreedyCount(widths.value, available.value, visibleCount)
        && menuOpen == (if visibleCount == |items| then false else old(menuOpen))
    {
      if available.None? || widths.None? {
        return;
      }
      var count := FitCount(widths.value, available.value);
      visibleCount := count;
      if count == |widths.value| {
        menuOpen := false;
      }
    }

    /** The hamburger's click handler. */
    method ToggleMenu()
      modifies this`menuOpen
      ensures menuOpen == !old(menuOpen)
    {
      menuOpen := !menuOpen;
    }

    /** The click handler of a link in the overflow panel. */
    method CloseMenu()
      modifies this`menuOpen
      ensures !menuOpen
    {
      menuOpen := false;
    }
  }
}
