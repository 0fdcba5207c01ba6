/** The scroll-driven impact rail (ImpactScrollRail.tsx): the three metrics
    derived from an item's optional fields, the measurements that size the
    pinned section, the truncations applied when rendering a card, and the
    tag line of the reduced-motion layout. Element sizes are inputs. */
module ScrollRail {
  import opened Common
  import ExperienceCard

  /** A rail item; `None` is an absent optional property. */
  datatype RailItem = RailItem(
    title: string,
    subtitle: Option<string>,
    desc: string,
    meta: Option<string>,
    highlights: Option<seq<string>>,
    tags: Option<seq<string>>)

  datatype Metric = Metric(value: string, title: string)

  // ---------------------------------------------------------------------------
  // The year token of `/\b(19|20)\d{2}\b/`

  /** The regular-expression class `\w`, which decides `\b`. */
  predicate IsWordChar(c: char) {
    ('A' <= c <= 'Z') || ('a' <= c <= 'z') || IsDigit(c) || c == '_'
  }

  /** The pattern matches at position `p`: a word boundary, "19" or "20",
      two digits and another word boundary. Since the four matched
      characters are word characters, each boundary means the neighbour
      outside the token is absent or not a word character. */
  predicate YearAt(s: string, p: nat) {
    && p + 4 <= |s|
    && (p == 0 || !IsWordChar(s[p - 1]))
    && ((s[p] == '1' && s[p + 1] == '9') || (s[p] == '2' && s[p + 1] == '0'))
    && IsDigit(s[p + 2]) && IsDigit(s[p + 3])
    && (p + 4 == |s| || !IsWordChar(s[p + 4]))
  }

  /** The leftmost match at or after `from`, as `String.prototype.match` finds it. */
  function FindYear(s: string, from: nat): (r: Option<nat>)
    ensures r.Some? ==> from <= r.value && YearAt(s, r.value)
    ensures r.Some? ==> forall q: nat :: from <= q < r.value ==> !YearAt(s, q)
    ensures r.None? ==> forall q: nat :: from <= q ==> !YearAt(s, q)
    decreases |s| - from
  {
    if from + 4 > |s| then None
    else if YearAt(s, from) then Some(from)
    else FindYear(s, from + 1)
  }

  /** The Timeline value: the matched token, else "Recent". */
  function Timeline(meta: string): (t: string)
    ensures t == "Recent" <==> forall q: nat :: !YearAt(meta, q)
    ensures t != "Recent" ==> exists p: nat :: YearAt(meta, p) && t == meta[p..p + 4]
    ensures t != "Recent" ==> |t| == 4 && AllDigits(t) && (t[..2] == "19" || t[..2] == "20")
  {
    match FindYear(meta, 0)
    case Some(p) =>
      var t := meta[p..p + 4];
      assert t[..2] == [t[0], t[1]];
      t
    case None => "Recent"
  }

  /** The token found is the leftmost one: no match starts before it. */
  lemma TimelineIsLeftmost(meta: string, p: nat)
    requires YearAt(meta, p)
    requires forall q: nat :: q < p ==> !YearAt(meta, q)
    ensures Timeline(meta) == meta[p..p + 4]
  {
    var r := FindYear(meta, 0);
    assert r.Some?;
    assert r.value == p;
  }

  /** `deriveMetrics`. */
  function DeriveMetrics(item: RailItem): (ms: seq<Metric>)
    ensures |ms| == 3
    ensures ms[0].title == "Timeline" && ms[1].title == "Focus" && ms[2].title == "Mode"
    ensures ms[0].value == Timeline(if item.meta.Some? then item.meta.value else "")
    ensures ms[1].value ==
      if item.tags.Some? && |item.tags.value| >= 1 then item.tags.value[0]
      else if item.subtitle.Some? then item.subtitle.value
      else "Impact"
    ensures ms[2].value ==
      if item.tags.Some? && |item.tags.value| >= 2 then item.tags.value[1] else "Delivery"
  {
    var meta := if item.meta.Some? then item.meta.value else "";
    var tags := if item.tags.Some? then FirstN(item.tags.value, 2) else [];
    var subtitle := if item.subtitle.Some? then item.subtitle.value else "Impact";
    [ Metric(Timeline(meta), "Timeline"),
      Metric(if |tags| >= 1 then tags[0] else subtitle, "Focus"),
      Metric(if |tags| >= 2 then tags[1] else "Delivery", "Mode") ]
  }

  /** A meta text opening with a month and a year, as the rail items' date
      ranges do, yields that year. */
  lemma MonthYearTimeline(rest: string)
    requires |rest| > 0 && !IsWordChar(rest[0])
    ensures Timeline("Aug 2025" + rest) == "2025"
  {
    var s := "Aug 2025" + rest;
    assert s[3] == ' ' && s[8] == rest[0];
    assert s[4..8] == "2025";
    assert !YearAt(s, 0) && !YearAt(s, 1) && !YearAt(s, 2) && !YearAt(s, 3);
    assert YearAt(s, 4);
    TimelineIsLeftmost(s, 4);
  }

  /** The first rail item's meta text yields "2025". */
  lemma FirstItemTimeline()
    ensures Timeline("Aug 2025" + "\U{2013}Jan 2026 \U{00B7} Product Manager (Internship)") == "2025"
  {
    MonthYearTimeline("\U{2013}Jan 2026 \U{00B7} Product Manager (Internship)");
  }

  /** Without a year token, a missing meta and missing tags fall back to the defaults. */
  lemma BareItemMetrics(title: string, desc: string)
    ensures DeriveMetrics(RailItem(title, None, desc, None, None, None))
      == [Metric("Recent", "Timeline"), Metric("Impact", "Focus"), Metric("Delivery", "Mode")]
  {
    assert forall q: nat :: !YearAt("", q);
  }

  // ---------------------------------------------------------------------------
  // Rendering

  /** What one card of the rail renders: at most three metrics, highlights and tags. */
  datatype CardView = CardView(metrics: seq<Metric>, highlights: seq<string>, tags: seq<string>)

  function RenderCard(item: RailItem): (v: CardView)
    ensures v.metrics == DeriveMetrics(item)
    ensures var hs := if item.highlights.Some? then item.highlights.value else [];
      v.highlights <= hs && |v.highlights| == if |hs| < 3 then |hs| else 3
    ensures var ts := if item.tags.Some? then item.tags.value else [];
      v.tags <= ts && |v.tags| == if |ts| < 3 then |ts| else 3
  {
    CardView(
      FirstN(DeriveMetrics(item), 3),
      FirstN(if item.highlights.Some? then item.highlights.value else [], 3),
      FirstN(if item.tags.Some? then item.tags.value else [], 3))
  }

  /** The separator of the reduced-motion tag line as written: the UTF-8
      bytes of " \U{00B7} " read as Latin-1, i.e. " \U{00C2}\U{00B7} ". */
  const MisencodedSeparator: string := " \U{00C2}\U{00B7} "

  /** The reduced-motion tag line as written; rendered only when `tags` is present. */
  function TagLineAsWritten(item: RailItem): Option<string> {
    if item.tags.Some? then Some(Join(item.tags.value, MisencodedSeparator)) else None
  }

  /** As written, two tags or more put a stray "\U{00C2}" into the line that no tag contains. */
  lemma StrayCharacterInTagLine(item: RailItem)
    requires item.tags.Some? && |item.tags.value| >= 2
    ensures TagLineAsWritten(item).Some? && '\U{00C2}' in TagLineAsWritten(item).value
  {
    SeparatorInJoin(item.tags.value, MisencodedSeparator, '\U{00C2}');
  }

  /** The two tags "React" and "UX" render as "React \U{00C2}\U{00B7} UX". */
  lemma StrayCharacterExample()
    ensures TagLineAsWritten(RailItem("Ekahal", None, "", None, None, Some(["React", "UX"])))
      == Some("React" + MisencodedSeparator + "UX")
  {
    var tags := ["React", "UX"];
    assert tags[1..] == ["UX"];
  }

  /** The tag line with the middle-dot separator the experience card uses. */
  function TagLine(item: RailItem): (r: Option<string>)
    ensures r.Some? <==> item.tags.Some?
    ensures r.Some? && (forall i :: 0 <= i < |item.tags.value| ==> '\U{00C2}' !in item.tags.value[i])
      ==> '\U{00C2}' !in r.value
    ensures r.Some? && |item.tags.value| >= 2 ==> '\U{00B7}' in r.value
    // the same line the experience card renders from its tag spans
    ensures r.Some? ==> r.value == ExperienceCard.Concat(ExperienceCard.TagSpans(item.tags.value))
  {
    if item.tags.Some? then
      MiddleDotJoin(item.tags.value);
      ExperienceCard.SpansReadAsJoin(item.tags.value);
      Some(Join(item.tags.value, ExperienceCard.TagSeparator))
    else None
  }

  lemma MiddleDotJoin(tags: seq<string>)
    ensures (forall i :: 0 <= i < |tags| ==> '\U{00C2}' !in tags[i])
      ==> '\U{00C2}' !in Join(tags, ExperienceCard.TagSeparator)
    ensures |tags| >= 2 ==> '\U{00B7}' in Join(tags, ExperienceCard.TagSeparator)
  {
    if forall i :: 0 <= i < |tags| ==> '\U{00C2}' !in tags[i] {
      JoinAvoids(tags, ExperienceCard.TagSeparator, '\U{00C2}');
    }
    if |tags| >= 2 {
      SeparatorInJoin(tags, ExperienceCard.TagSeparator, '\U{00B7}');
    }
  }

  // ---------------------------------------------------------------------------
  // Measurements

  /** The padding kept after the last card, in px. */
  const EndGutter: real := 24.0

  datatype Measures = Measures(maxTranslate: real, sectionHeight: real)

  /** `updateMeasures`: the rail's overflow past its viewport plus the end
      gutter, and the window height (`|| 0`: a missing height counts as 0)
      plus that distance. */
  function ComputeMeasures(viewportWidth: real, scrollWidth: real, innerHeight: Option<real>): (m: Measures)
    ensures m.maxTranslate >= EndGutter
    ensures m.maxTranslate - EndGutter >= scrollWidth - viewportWidth
    ensures m.maxTranslate == EndGutter || m.maxTranslate - EndGutter == scrollWidth - viewportWidth
    ensures m.sectionHeight - m.maxTranslate == if innerHeight.Some? then innerHeight.value else 0.0
  {
    var total := Max(0.0, scrollWidth - viewportWidth) + EndGutter;
    Measures(total, (if innerHeight.Some? then innerHeight.value else 0.0) + total)
  }

  class Rail {
    var maxTranslate: real
    var sectionHeight: real

    /** Both start at 0 (`useState(0)`). */
    constructor ()
      ensures maxTranslate == 0.0 && sectionHeight == 0.0
    {
      maxTranslate := 0.0;
      sectionHeight := 0.0;
    }

    /** The measurement callback, run on mount, resize and element resize. */
    method UpdateMeasures(viewportWidth: real, scrollWidth: real, innerHeight: Option<real>)
      modifies this
      ensures Measures(maxTranslate, sectionHeight) == ComputeMeasures(viewportWidth, scrollWidth, innerHeight)
      ensures maxTranslate >= EndGutter
    {
      var m := ComputeMeasures(viewportWidth, scrollWidth, innerHeight);
      maxTranslate := m.maxTranslate;
      sectionHeight := m.sectionHeight;
    }
  }
}
