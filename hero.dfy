/** The hero of the landing page (page.tsx): the rotating metric, its value
    parsed into digit reels and an operator, the reel targets, and the
    scroll hint. Timers and the window's measurements are inputs. */
module Hero {
  import opened Common

  datatype HeroMetric = HeroMetric(value: string, title: string)

  const HeroMetrics: seq<HeroMetric> := [
    HeroMetric("12+", "Projects built across web, mobile, and analytics"),
    HeroMetric("35+", "Features, dashboards, and workflows shipped"),
    HeroMetric("6+", "Products taken from early idea to production-ready execution"),
    HeroMetric("5+", "Technologies used in real production environments"),
    HeroMetric("4+", "Cross-functional teams collaborated with"),
    HeroMetric("20+", "Product iterations, releases, or meaningful improvements"),
    HeroMetric("15%", "Increase in performance, usability, or engagement improvements delivered"),
    HeroMetric("100%", "Ownership across product thinking and technical execution")
  ]

  // ---------------------------------------------------------------------------
  // Cycling

  /** The interval's update `(prev + 1) % heroMetrics.length`. */
  function StepMetric(prev: nat): (next: nat)
    ensures next < |HeroMetrics|
    ensures prev < |HeroMetrics| - 1 ==> next == prev + 1
    ensures prev == |HeroMetrics| - 1 ==> next == 0
  {
    (prev + 1) % |HeroMetrics|
  }

  /** The index after `k` ticks. */
  function StepTimes(i: nat, k: nat): nat {
    if k == 0 then i else StepMetric(StepTimes(i, k - 1))
  }

  /** From metric `i`, `k` ticks later metric `(i + k) mod 8` shows, so
      every metric comes round in turn. */
  lemma {:induction false} StepTimesClosedForm(i: nat, k: nat)
    requires i < |HeroMetrics|
    ensures StepTimes(i, k) == (i + k) % |HeroMetrics|
  {
    if k > 0 {
      StepTimesClosedForm(i, k - 1);
    }
  }

  /** Eight ticks bring the hero back to the metric it started from. */
  lemma FullCycle(i: nat)
    requires i < |HeroMetrics|
    ensures StepTimes(i, |HeroMetrics|) == i
  {
    StepTimesClosedForm(i, |HeroMetrics|);
  }

  // ---------------------------------------------------------------------------
  // The value pattern `^(\d+)([%+]?)$`

  predicate IsOperator(op: string) {
    op == "" || op == "%" || op == "+"
  }

  /** `value` is the digits `d` followed by the operator `op`, as the pattern requires. */
  predicate Decomposes(value: string, d: string, op: string) {
    value == d + op && |d| >= 1 && AllDigits(d) && IsOperator(op)
  }

  ghost predicate Matches(value: string) {
    exists d, op :: Decomposes(value, d, op)
  }

  datatype Parsed = Parsed(digits: seq<char>, operator: string)

  /** The only split the pattern can make: a trailing "%" or "+" is the
      operator, everything before it the digits. */
  function SplitAt(value: string): (p: Parsed)
    ensures value == p.digits + p.operator && IsOperator(p.operator)
  {
    if |value| >= 1 && (value[|value| - 1] == '%' || value[|value| - 1] == '+') then
      Parsed(value[..|value| - 1], [value[|value| - 1]])
    else
      Parsed(value, "")
  }

  /** Any split into digits and an operator is that one: an operator is never a digit. */
  lemma SplitCanonical(value: string, d: string, op: string)
    requires Decomposes(value, d, op)
    ensures SplitAt(value) == Parsed(d, op)
  {
    var c := value[|value| - 1];
    assert |op| == 0 ==> c == d[|d| - 1];
    assert |op| != 0 ==> c == '%' || c == '+';
    assert d == value[..|d|];
  }

  /** The split is unique. */
  lemma SplitUnique(value: string, d1: string, op1: string, d2: string, op2: string)
    requires Decomposes(value, d1, op1) && Decomposes(value, d2, op2)
    ensures d1 == d2 && op1 == op2
  {
    SplitCanonical(value, d1, op1);
    SplitCanonical(value, d2, op2);
  }

  /** A value matches exactly when its canonical split has digits before the operator. */
  lemma MatchesIffCanonical(value: string)
    ensures Matches(value) <==> Decomposes(value, SplitAt(value).digits, SplitAt(value).operator)
  {
    if Matches(value) {
      var d, op :| Decomposes(value, d, op);
      SplitCanonical(value, d, op);
    }
  }

  /** The split into digits and operator: digit characters as `split("")`
      gives them, and the fallback `["0"]` with no operator when the value
      does not match. */
  function ParseMetric(value: string): (p: Parsed)
    ensures Matches(value) ==> Decomposes(value, p.digits, p.operator)
    ensures !Matches(value) ==> p == Parsed(['0'], "")
  {
    var split := SplitAt(value);
    MatchesIffCanonical(value);
    if |split.digits| >= 1 && AllDigits(split.digits) then split else Parsed(['0'], "")
  }

  /** Writing the parsed parts back gives the value. */
  function Unparse(p: Parsed): string {
    p.digits + p.operator
  }

  /** Parsing and writing back are inverse on matching values and on well-formed parts. */
  lemma ParseRoundTrip(value: string, d: string, op: string)
    ensures Matches(value) ==> Unparse(ParseMetric(value)) == value
    ensures Decomposes(d + op, d, op) ==> ParseMetric(d + op) == Parsed(d, op)
  {
    if Decomposes(d + op, d, op) {
      var p := ParseMetric(d + op);
      SplitUnique(d + op, d, op, p.digits, p.operator);
    }
  }

  /** Every hero value matches the pattern, so no reel falls back to "0". */
  lemma HeroValuesMatch(i: nat)
    requires i < |HeroMetrics|
    ensures Matches(HeroMetrics[i].value)
  {
    var v := HeroMetrics[i].value;
    var op := v[|v| - 1..];
    var d := v[..|v| - 1];
    assert v == d + op;
    assert Decomposes(v, d, op);
  }

  /** "100%" reads as the reels 1, 0, 0 and the operator "%". */
  lemma LastMetricParse()
    ensures ParseMetric("100%") == Parsed(['1', '0', '0'], "%")
  {
    assert "100%" == "100" + "%";
    ParseRoundTrip("", "100", "%");
  }

  /** A value that is not digits-then-operator falls back to a single 0 reel. */
  lemma FallbackExample()
    ensures ParseMetric("N/A") == Parsed(['0'], "")
  {
    assert SplitAt("N/A") == Parsed("N/A", "");
    assert !IsDigit("N/A"[0]);
  }

  // ---------------------------------------------------------------------------
  // Reels

  /** The height of one digit on a reel, in px. */
  const DigitHeight: int := 28

  /** A reel's final offset `-digitHeight * Number(digit)`: the digit's row,
      from 0 for "0" to -252 for "9". */
  function ReelTarget(digit: char): (y: int)
    requires IsDigit(digit)
    ensures -9 * DigitHeight <= y <= 0
    ensures y % DigitHeight == 0 && -y / DigitHeight == DigitValue(digit)
  {
    -DigitHeight * DigitValue(digit)
  }

  /** The reel loop: for each digit, the reel at that position, if one is
      attached, ends at the digit's row. Reels without a digit and missing
      reels are left alone. */
  method AnimateReels(digits: seq<char>, reels: array<Option<int>>)
    requires AllDigits(digits)
    modifies reels
    ensures forall i :: 0 <= i < reels.Length ==>
      reels[i] == if i < |digits| && old(reels[i]).Some? then Some(ReelTarget(digits[i])) else old(reels[i])
  {
    var i := 0;
    while i < |digits| && i < reels.Length
      invariant 0 <= i <= reels.Length
      invariant i <= |digits|
      invariant forall j :: 0 <= j < i ==>
        reels[j] == if old(reels[j]).Some? then Some(ReelTarget(digits[j])) else old(reels[j])
      invariant forall j :: i <= j < reels.Length ==> reels[j] == old(reels[j])
    {
      if reels[i].Some? {
        reels[i] := Some(-DigitHeight * DigitValue(digits[i]));
      }
      i := i + 1;
    }
  }

  // ---------------------------------------------------------------------------
  // The scroll hint

  /** `updateHint`: shown while more than 2px of scrollable height lie below. */
  function ShowHint(scrollHeight: real, innerHeight: real, scrollY: real): (show: bool)
    ensures show && scrollY >= 0.0 ==> scrollHeight - innerHeight > 2.0 && scrollY < scrollHeight - innerHeight - 2.0
    ensures scrollHeight - innerHeight >= 0.0 && scrollY < scrollHeight - innerHeight - 2.0 ==> show
  {
    var maxScroll := Max(0.0, scrollHeight - innerHeight);
    scrollY < maxScroll - 2.0
  }

  /** A page that does not scroll never shows the hint. */
  lemma NoOverflowNoHint(scrollHeight: real, innerHeight: real, scrollY: real)
    requires scrollHeight <= innerHeight && scrollY >= 0.0
    ensures !ShowHint(scrollHeight, innerHeight, scrollY)
  {
  }

  class HeroState {
    var metricIndex: nat
    var showScrollHint: bool

    /** The index always names one of the hero metrics. */
    ghost predicate Valid()
      reads this
    {
      metricIndex < |HeroMetrics|
    }

    /** `useState(0)` and `useState(true)`. */
    constructor ()
      ensures Valid()
      ensures metricIndex == 0 && showScrollHint
    {
      metricIndex := 0;
      showScrollHint := true;
    }

    /** One tick of the 5-second interval. */
    method Tick()
      requires Valid()
      modifies this`metricIndex
      ensures Valid()
      ensures metricIndex == StepMetric(old(metricIndex))
    {
      metricIndex := (metricIndex + 1) % |HeroMetrics|;
    }

    /** The metric being shown and its reels. */
    function Current(): (p: Parsed)
      reads this
      requires Valid()
      ensures Decomposes(HeroMetrics[metricIndex].value, p.digits, p.operator)
    {
      HeroValuesMatch(metricIndex);
      ParseMetric(HeroMetrics[metricIndex].value)
    }

    /** The scroll and resize handler. */
    method UpdateHint(scrollHeight: real, innerHeight: real, scrollY: real)
      requires Valid()
      modifies this`showScrollHint
      ensures Valid()
      ensures showScrollHint == ShowHint(scrollHeight, innerHeight, scrollY)
    {
      var maxScroll := Max(0.0, scrollHeight - innerHeight);
      showScrollHint := scrollY < maxScroll - 2.0;
    }
  }
}
