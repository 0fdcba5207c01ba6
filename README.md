# Portfolio site logic, modelled and verified in Dafny

This project models the logic in a client-side portfolio site built with
React and TypeScript, and proves properties of that model. It covers eight
components. Each one is a Dafny module:

- `Carousel` (`carousel.dfy`): the three-slot "about" carousel.
  - The slot geometry and the card size computed from the viewport.
  - The rotation state machine. Three fixed card elements swap the left,
    center and right roles, while the content index of each element is
    keyed by the element, not by its role.
  - A transition is split into three discrete events: start, the content
    reassignment at offset 0.32, and completion. The idle invariant
    (left = active−1, center = active, right = active+1, modulo 5) holds
    after every completed transition. `prev` after `next` restores the
    idle state. The component only ever calls `handleNext` (from its
    auto-advance interval); `handlePrev` is defined but nothing calls it,
    so the backward transition is modelled but never reached in the source.
- `HeaderNav` (`header_nav.dfy`): the greedy fit of the nav links into
  the available width. A link gets a 24 px gap, and every link but the
  last reserves 44 px for the hamburger. The component also has the
  visible/overflow split, the active-link rule and the menu toggles.
- `ActiveSection` (`active_section.dfy`): the active-section hook. It
  merges observer ratios into a visibility map, takes the argmax over the
  section ids (the earliest id wins ties), and builds the 21 thresholds.
- `ImpactExperience` (`impact_experience.dfy`): the pinned impact track.
  It has the overflow bound, the argmin for the panel closest to the
  viewport's centre (the earliest panel wins ties), the class rule for
  the active panel, and the zero-padded "01 / 04" counter.
- `ScrollRail` (`scroll_rail.dfy`): the scroll rail's derived metrics.
  - The leftmost word-bounded year token 19xx/20xx, with its fallbacks.
  - The measurements that size the pinned section.
  - The three-item truncations and the reduced-motion tag line.
- `ExperienceCard` (`experience_card.dfy`): the card's role split at the
  first "(", with the ECMAScript `trim`, the "·"-joined tag line, the
  metric truncation and the tag-click callback.
- `Hero` (`hero.dfy`): the landing page's hero.
  - The metric index cycling modulo 8.
  - The parse of values with `^(\d+)([%+]?)$`, with a round trip in both
    directions.
  - The reel targets and the scroll-hint predicate.
- `SkillsTicker` (`skills_ticker.dfy`): the skills tickers.
  - The doubled track with separators only between items.
  - The direction → `xPercent` mapping.
  - The centre-highlight progress and styles.
  - The tween speeds under scrolling and hovering.

`Common` (`common.dfy`) holds the shared helpers: `Option`, `slice(0, k)`,
`join`, and decimal digits.

Some values come from outside the code. The model takes them as inputs:
DOM measurements (widths, rectangles, window heights), intersection
ratios, media-query results and the scroll velocity. Sizes are `real`.
`Math.round` is modelled exactly as ⌊x + ½⌋.

In the hero, `page.tsx` never attaches an element to `slotRefs`. So on the
page as written, the reel loop (`Hero.AnimateReels`) runs over an empty
reel array. The model takes any reel array.

## Model

| member | source | states |
|---|---|---|
| Common.FirstN | src/app/components/ImpactScrollRail.tsx:153-154 | `slice(0, k)`: a prefix of the list, of length min(k, length) |
| Common.DigitValue | src/app/page.tsx:218 | `Number(d)` of a decimal digit is in 0..9 |
| Common.DigitChar | src/app/components/ImpactExperience.tsx:299 | the digit character of 0..9, whose value is that number (the building block of `String(n)`) |
| Common.JoinLength | src/app/components/ExperienceCard.tsx:86-91 | a join holds each element once and one separator between each two consecutive elements |
| Common.JoinAvoids | src/app/components/ImpactScrollRail.tsx:121 | a character in no element and not in the separator is not in the join |
| Common.SeparatorInJoin | src/app/components/ImpactScrollRail.tsx:121 | with two elements or more, every separator character appears in the join |
| Carousel.Clamp | src/app/components/AboutCarousel3D.tsx:59-60 | result in [lo, hi] when lo ≤ hi; the value itself when already in range; saturates at each end |
| Carousel.Round | src/app/components/AboutCarousel3D.tsx:446-447 | `Math.round`: the integer within half a unit, halves rounding up |
| Carousel.OrElse | src/app/components/AboutCarousel3D.tsx:444-445 | `v \|\| fallback` on a measured size: 0 falls back, anything else is kept |
| Carousel.CardSize | src/app/components/AboutCarousel3D.tsx:446-447 | card height always in [200, 340], width in [200, 300]; tall viewports (≥ 436) give 300 × 340, short ones (≤ 256) give 200 × 200 |
| Carousel.CardSizeFallback | src/app/components/AboutCarousel3D.tsx:444-447 | a zero viewport height falls back to 310 and gives a 218 × 242 card |
| Carousel.Base | src/app/components/AboutCarousel3D.tsx:67-68 | the side offset is at most 1.05·cardWidth, at least min(120, 1.05·cardWidth), positive for a real card |
| Carousel.GetSlotConfig | src/app/components/AboutCarousel3D.tsx:62-127 | center at x = 0, sides at ±base, off-slots at ±2·base, ordered offLeft < left < 0 < right < offRight for cardWidth > 0; left.rotationY = −right.rotationY; the reduced-motion values (0, 0, blur(0px), 0.9, 0.98/1) and the normal ones (45, −80, blur(2px), 0.65, 0.88/1.04); off-slots invisible |
| Carousel.InitialSlotConfig | src/app/components/AboutCarousel3D.tsx:142 | the initial configuration (640, 240, no reduced motion) has base 200 and off-slots at ±400 |
| Carousel.ComputeLayout | src/app/components/AboutCarousel3D.tsx:443-449 | the resize computation: bounded card size, and slots from the measured width (640 when zero), strictly ordered |
| Carousel.SlotEls.Bound | src/app/components/AboutCarousel3D.tsx:221-222 | the role map exists exactly when all three slot elements are present |
| Carousel.Indices.With | src/app/components/AboutCarousel3D.tsx:169 | `{ ...prev, [key]: index }`: that element's index set, the others kept |
| Carousel.InitialIndices | src/app/components/AboutCarousel3D.tsx:147-152 | initial contents: left N−1, center 0, right 1 mod N, all in [0, N) |
| Carousel.SetElementIndex | src/app/components/AboutCarousel3D.tsx:154-172 | a missing element changes nothing; otherwise only that element's index (keyed by element identity) changes |
| Carousel.InitialViewCoherent | src/app/components/AboutCarousel3D.tsx:146-152 | the mounted initial state (identity roles, initial indices, active 0) satisfies the idle invariant |
| Carousel.CoherentIndicesInRange | src/app/components/AboutCarousel3D.tsx:501-503 | in an idle state every element shows a valid card index |
| Carousel.NextKeepsCoherent | src/app/components/AboutCarousel3D.tsx:225-236 | a completed `next` keeps the idle invariant: active+1 mod N, the old center's card moves to the left, the new right shows active+2 mod N |
| Carousel.PrevKeepsCoherent | src/app/components/AboutCarousel3D.tsx:335-346 | a completed `prev` keeps the idle invariant: active−1 mod N, the new left shows active−2 mod N |
| Carousel.CoherentDetermined | src/app/components/AboutCarousel3D.tsx:147-152 | in an idle state the roles and active index determine every element's content |
| Carousel.PrevUndoesNext | src/app/components/AboutCarousel3D.tsx:329-346 | `prev` after `next` restores the same idle state |
| Carousel.NextUndoesPrev | src/app/components/AboutCarousel3D.tsx:219-236 | `next` after `prev` restores the same idle state |
| Carousel.Wraps | src/app/components/AboutCarousel3D.tsx:225 | `next` from the last card goes to 0; `prev` from 0 goes to the last card |
| Carousel.ApplySlot | src/app/components/AboutCarousel3D.tsx:174-192 | a missing element is skipped; otherwise that element gets the slot and the others keep theirs |
| Carousel.SyncedExact | src/app/components/AboutCarousel3D.tsx:194-200 | after `syncSlots` each element sits exactly in the configuration of the role it plays |
| Carousel.Plan | src/app/components/AboutCarousel3D.tsx:221-226 | the captured transition records the current role map and direction |
| Carousel.PlanRealisesAdvance | src/app/components/AboutCarousel3D.tsx:219-285 | on an idle state, the three events of a transition (reassign the outgoing element at 0.32, rotate the roles, step the index) give exactly the next / previous idle state |
| Carousel.AboutCarousel.constructor | src/app/components/AboutCarousel3D.tsx:139-152 | initial state: unmounted, not animating, active 0, initial indices, config (640, 240), card 240 × 220 |
| Carousel.AboutCarousel.SyncSlots | src/app/components/AboutCarousel3D.tsx:194-200 | applies the configuration of each role to its bound element |
| Carousel.AboutCarousel.Mount | src/app/components/AboutCarousel3D.tsx:459-466 | binds each role to its own ref, then syncs; the idle invariant holds |
| Carousel.AboutCarousel.Measure | src/app/components/AboutCarousel3D.tsx:443-451 | stores the computed card size and configuration, then syncs |
| Carousel.AboutCarousel.UpdateSlotConfig | src/app/components/AboutCarousel3D.tsx:202-208 | recomputes the configuration for the viewport width and the current card width |
| Carousel.AboutCarousel.OnReducedMotion | src/app/components/AboutCarousel3D.tsx:474-477 | records the media flag and recomputes the configuration with it |
| Carousel.AboutCarousel.Start | src/app/components/AboutCarousel3D.tsx:219-228 | a no-op while animating or with a slot element missing; otherwise sets the flag and captures the transition |
| Carousel.AboutCarousel.Reassign | src/app/components/AboutCarousel3D.tsx:275-276 | the outgoing element (old left for next, old right for prev) gets the incoming card index |
| Carousel.AboutCarousel.Complete | src/app/components/AboutCarousel3D.tsx:232-236 | roles rotated, index stepped, slots synced, flag cleared; the new state is the next / previous idle state of the one the transition started from |
| Carousel.AboutCarousel.IndicesInRange | src/app/components/AboutCarousel3D.tsx:501-503 | in every reachable state, each element's index is a valid card index |
| Carousel.AboutCarousel.CardOf | src/app/components/AboutCarousel3D.tsx:501-503 | `CARDS[elementIndices[key]]` is always one of the cards |
| HeaderNav.GreedyCountUnique | src/app/components/HeaderNav.tsx:37-47 | exactly one count fits the "every earlier item fits, the next one does not" description |
| HeaderNav.FitCount | src/app/components/HeaderNav.tsx:34-47 | the loop's count: every item before it passed `nextUsed + reserve <= available`, and the item at the count failed |
| HeaderNav.VisiblePrefixFits | src/app/components/HeaderNav.tsx:39-43 | the visible links with their gaps, plus 44 px while some are hidden, fit the available width |
| HeaderNav.UsedByPositive | src/app/components/HeaderNav.tsx:39 | for positive widths, `used` is the widths plus 24 px between consecutive links |
| HeaderNav.ZeroWidthOmitsGap | src/app/components/HeaderNav.tsx:39 | a zero-width first link makes the next test omit the gap |
| HeaderNav.Split | src/app/components/HeaderNav.tsx:92-135 | `slice(0, k)` and `slice(k)` concatenate back to the nav list, with lengths k and n−k |
| HeaderNav.OverflowPanelListsHidden | src/app/components/HeaderNav.tsx:131-135 | when the overflow panel shows, the hamburger shows too, and the panel lists every hidden link (non-empty) |
| HeaderNav.ActiveSection | src/app/components/HeaderNav.tsx:66 | "" exactly for an empty id or "home"; otherwise "#" followed by the id |
| HeaderNav.LinkActiveIff | src/app/components/HeaderNav.tsx:96 | the link `#id` is marked active iff `id` is the active section |
| HeaderNav.HomeHighlightsNothing | src/app/components/HeaderNav.tsx:66 | with "home" or no active id, no nav link is active |
| HeaderNav.Header.constructor | src/app/components/HeaderNav.tsx:18-20 | menu closed, every link visible |
| HeaderNav.Header.Evaluate | src/app/components/HeaderNav.tsx:28-51 | with a ref missing nothing changes; otherwise the greedy count is stored and the menu is forced closed when all links fit, left alone otherwise |
| HeaderNav.Header.ToggleMenu | src/app/components/HeaderNav.tsx:108 | flips the menu |
| HeaderNav.Header.CloseMenu | src/app/components/HeaderNav.tsx:140 | clicking an overflow link closes the menu |
| ActiveSection.BuildThresholds | src/app/hooks/useActiveSection.ts:7-8 | 21 thresholds i/20, strictly increasing, from 0 to 1 |
| ActiveSection.InitialMap | src/app/hooks/useActiveSection.ts:12-14 | every section id, and only those, mapped to 0 |
| ActiveSection.InitialActiveId | src/app/hooks/useActiveSection.ts:15 | the first id, or "" without ids |
| ActiveSection.Merge | src/app/hooks/useActiveSection.ts:28-34 | each id holds the batch's last ratio for it, else its previous value |
| ActiveSection.MergeKeepsUnmentioned | src/app/hooks/useActiveSection.ts:29-33 | ids absent from the batch keep their previous value |
| ActiveSection.EarliestMaxUnique | src/app/hooks/useActiveSection.ts:49-55 | the earliest maximal section is unique |
| ActiveSection.PickBest | src/app/hooks/useActiveSection.ts:46-55 | the winner's ratio (missing ids count 0) is ≥ every section's; it is the earliest such section; a winner's ratio is above −1, and nothing wins ("", −1) only when no ratio exceeds −1 |
| ActiveSection.SectionTracker.constructor | src/app/hooks/useActiveSection.ts:12-15 | the initial map and the first id |
| ActiveSection.SectionTracker.OnEntries | src/app/hooks/useActiveSection.ts:27-35 | the map becomes the merge of the batch into the previous map |
| ActiveSection.SectionTracker.SelectActive | src/app/hooks/useActiveSection.ts:46-59 | when the earliest section with the largest ratio has a ratio above −1 and a non-empty id, that id becomes the active id; otherwise the active id is unchanged; without ids it is unchanged; a new id is always a section id |
| ImpactExperience.MaxTranslate | src/app/components/ImpactExperience.tsx:117 | the overflow is ≥ 0 and ≥ scrollWidth − clientWidth, and equal to one of them |
| ImpactExperience.Dist | src/app/components/ImpactExperience.tsx:139 | a panel's distance to the viewport centre is never negative |
| ImpactExperience.ClosestUnique | src/app/components/ImpactExperience.tsx:137-144 | the earliest closest panel is unique |
| ImpactExperience.ApplyActive | src/app/components/ImpactExperience.tsx:133-146 | no panels gives 0; otherwise the chosen panel is as close as every panel and strictly closer than every earlier one (first wins ties) |
| ImpactExperience.PanelClass | src/app/components/ImpactExperience.tsx:251 | the full-opacity class iff the panel is the active one, the dimmed class otherwise |
| ImpactExperience.ExactlyOneHighlighted | src/app/components/ImpactExperience.tsx:244-252 | among the panels, exactly the active one is highlighted |
| ImpactExperience.DecimalString | src/app/components/ImpactExperience.tsx:299 | `String(n)`: non-empty digits, no leading zero, denoting n |
| ImpactExperience.PadStart2 | src/app/components/ImpactExperience.tsx:299 | `padStart(2, "0")`: at least two characters, the string itself at the end, zeros before it |
| ImpactExperience.LeadingZerosKeepValue | src/app/components/ImpactExperience.tsx:299 | leading zeros do not change a digit string's value |
| ImpactExperience.PaddedValue | src/app/components/ImpactExperience.tsx:299 | a padded one- or two-digit string has two digits and the same value |
| ImpactExperience.CounterReadsBack | src/app/components/ImpactExperience.tsx:299 | with fewer than 100 panels the counter is 7 characters: two digits for the one-based position, " / ", two digits for the count |
| ImpactExperience.FirstPanelCounter | src/app/components/ImpactExperience.tsx:299 | the first of four panels reads "01 / 04" |
| ImpactExperience.ImpactTrack.constructor | src/app/components/ImpactExperience.tsx:96 | the active index starts at 0 |
| ImpactExperience.ImpactTrack.OnUpdate | src/app/components/ImpactExperience.tsx:133-146 | the active index becomes the closest panel (0 without panels) |
| ImpactExperience.ImpactTrack.Classes | src/app/components/ImpactExperience.tsx:244-252 | one class per panel; full opacity exactly at the active index |
| ScrollRail.FindYear | src/app/components/ImpactScrollRail.tsx:29 | the leftmost position where `\b(19\|20)\d{2}\b` matches, or none when it matches nowhere |
| ScrollRail.Timeline | src/app/components/ImpactScrollRail.tsx:29-30 | "Recent" iff no year token; otherwise a 4-digit token starting 19 or 20 taken from the text |
| ScrollRail.TimelineIsLeftmost | src/app/components/ImpactScrollRail.tsx:29-30 | the Timeline value is the leftmost year token |
| ScrollRail.DeriveMetrics | src/app/components/ImpactScrollRail.tsx:27-38 | three metrics Timeline, Focus, Mode in that order; Focus = first tag, else subtitle, else "Impact"; Mode = second tag, else "Delivery" |
| ScrollRail.MonthYearTimeline | src/app/components/ImpactScrollRail.tsx:29-30 | "Aug 2025" followed by a non-word character yields "2025" |
| ScrollRail.FirstItemTimeline | src/app/components/ImpactSection.tsx:11 | the first item's meta "Aug 2025–Jan 2026 · …" yields "2025" |
| ScrollRail.BareItemMetrics | src/app/components/ImpactScrollRail.tsx:28-36 | with no meta, subtitle or tags: Recent, Impact, Delivery |
| ScrollRail.RenderCard | src/app/components/ImpactScrollRail.tsx:152-154 | the derived metrics; at most three highlights and three tags, as prefixes of the originals |
| ScrollRail.StrayCharacterInTagLine | src/app/components/ImpactScrollRail.tsx:121 | as written, two or more tags put a "Â" into the reduced-motion tag line |
| ScrollRail.StrayCharacterExample | src/app/components/ImpactScrollRail.tsx:121 | as written, the tags React and UX render "React Â· UX" |
| ScrollRail.TagLine | src/app/components/ImpactScrollRail.tsx:119-122 | the line is present iff tags are; it is exactly the text of the experience card's tag spans, i.e. the tags in order with " · " between them; no stray "Â" unless a tag has one |
| ScrollRail.ComputeMeasures | src/app/components/ImpactScrollRail.tsx:58-68 | maxTranslate ≥ 24 and ≥ 24 + (scrollWidth − viewportWidth), equal to one of them; sectionHeight − maxTranslate is the window height (0 when missing) |
| ScrollRail.Rail.constructor | src/app/components/ImpactScrollRail.tsx:23-24 | both measurements start at 0 |
| ScrollRail.Rail.UpdateMeasures | src/app/components/ImpactScrollRail.tsx:60-69 | stores the computed measurements; maxTranslate ≥ 24 |
| ExperienceCard.Trim | src/app/components/ExperienceCard.tsx:20-21 | the string minus blank ends: a substring, empty iff blank, otherwise starting and ending with non-whitespace |
| ExperienceCard.TrimIdempotent | src/app/components/ExperienceCard.tsx:20-21 | trimming twice equals trimming once |
| ExperienceCard.TrimUnchanged | src/app/components/ExperienceCard.tsx:20-21 | a string without blank ends is its own trim |
| ExperienceCard.TrimPadded | src/app/components/ExperienceCard.tsx:20-21 | whitespace added around a trimmed string is removed again |
| ExperienceCard.IndexOf | src/app/components/ExperienceCard.tsx:18 | −1 iff the character is absent; otherwise its first position |
| ExperienceCard.SplitRole | src/app/components/ExperienceCard.tsx:17-23 | without "(" the role itself, untrimmed; otherwise 1–2 lines, the last the trimmed rest from the first "(", starting with "("; a single line exactly when the prefix is blank; the main line is the trimmed prefix without "(" |
| ExperienceCard.DetailKeepsParen | src/app/components/ExperienceCard.tsx:21-22 | the trimmed detail is non-empty and keeps its "(" |
| ExperienceCard.MainHasNoParen | src/app/components/ExperienceCard.tsx:20 | the trimmed main part contains no "(" |
| ExperienceCard.SplitRoleInverse | src/app/components/ExperienceCard.tsx:17-23 | splitting "main (detail)" gives back main and "(detail)" |
| ExperienceCard.SplitRoleExample | src/app/components/ExperienceCard.tsx:17-23 | "Product Manager (Internship)" splits into "Product Manager" and "(Internship)" |
| ExperienceCard.ShownMetrics | src/app/components/ExperienceCard.tsx:57 | at most three metrics, the first ones in order |
| ExperienceCard.TagSpans | src/app/components/ExperienceCard.tsx:86-91 | one span per tag; every span but the last ends with " · " |
| ExperienceCard.SpansReadAsJoin | src/app/components/ExperienceCard.tsx:86-91 | the spans read as the tags joined by " · ", with no trailing separator |
| ExperienceCard.ClickTag | src/app/components/ExperienceCard.tsx:75-77 | a click calls `onTagClick` once with exactly that tag, or not at all without a callback |
| Hero.StepMetric | src/app/page.tsx:196 | the next index is in [0, 8): one more, wrapping from 7 to 0 |
| Hero.StepTimesClosedForm | src/app/page.tsx:194-197 | k ticks from metric i show metric (i + k) mod 8 |
| Hero.FullCycle | src/app/page.tsx:194-197 | eight ticks return to the starting metric |
| Hero.SplitAt | src/app/page.tsx:208 | the value is the candidate digits followed by an operator "", "%" or "+" |
| Hero.SplitCanonical | src/app/page.tsx:208 | every digits-then-operator reading of a value is the canonical split |
| Hero.SplitUnique | src/app/page.tsx:208 | a value matches the pattern in at most one way |
| Hero.MatchesIffCanonical | src/app/page.tsx:208 | a value matches iff its canonical split has at least one digit and only digits |
| Hero.ParseMetric | src/app/page.tsx:207-210 | a matching value yields its digits and operator; any other value yields ["0"] and "" |
| Hero.ParseRoundTrip | src/app/page.tsx:208-210 | writing the parse back gives the value; parsing digits + operator gives them back |
| Hero.HeroValuesMatch | src/app/page.tsx:44-56 | every hero metric value matches the pattern |
| Hero.LastMetricParse | src/app/page.tsx:53 | "100%" gives the digits 1, 0, 0 and "%" |
| Hero.FallbackExample | src/app/page.tsx:209-210 | a value that does not match gives ["0"] and "" |
| Hero.ReelTarget | src/app/page.tsx:211-218 | −28 × digit, in [−252, 0], a multiple of 28 that reads back as the digit |
| Hero.AnimateReels | src/app/page.tsx:214-221 | each attached reel with a digit ends at that digit's row; the other reels are untouched |
| Hero.ShowHint | src/app/page.tsx:80-86 | shown when more than 2 px of scrollable height remain below; at a non-negative scroll position, shown only then |
| Hero.NoOverflowNoHint | src/app/page.tsx:81-85 | a page without overflow never shows the hint |
| Hero.HeroState.constructor | src/app/page.tsx:31-32 | metric 0, hint shown; the index names a hero metric |
| Hero.HeroState.Tick | src/app/page.tsx:195-196 | one interval tick steps the metric index, which keeps naming a hero metric |
| Hero.HeroState.Current | src/app/page.tsx:207-210 | the current metric always parses into digits and an operator that spell its value |
| Hero.HeroState.UpdateHint | src/app/page.tsx:80-86 | stores the hint predicate |
| SkillsTicker.TravelOf | src/app/components/SkillsTicker.tsx:92-94 | left: −50 → 0, right: 0 → −50; always 50 % of the track |
| SkillsTicker.DirectionsMirror | src/app/components/SkillsTicker.tsx:92-94 | the two directions run the same path in opposite senses |
| SkillsTicker.NodesFromClosedForm | src/app/components/SkillsTicker.tsx:192-215 | from any position, the nodes alternate item and separator, with one separator fewer than items |
| SkillsTicker.NodeAt | src/app/components/SkillsTicker.tsx:192-215 | a node is a separator iff its position is odd |
| SkillsTicker.TrackShape | src/app/components/SkillsTicker.tsx:192-215 | the track of n items has 4n − 1 nodes, alternating, starting and ending with an item |
| SkillsTicker.NodeAtPeriodic | src/app/components/SkillsTicker.tsx:192 | the second copy repeats the first: node k + 2n equals node k |
| SkillsTicker.NodesFromCounts | src/app/components/SkillsTicker.tsx:192-215 | the item texts from a position are the rest of the list; the separators number one fewer |
| SkillsTicker.TrackCounts | src/app/components/SkillsTicker.tsx:192-215 | the track shows items + items in order, with 2n − 1 separators |
| SkillsTicker.Progress | src/app/components/SkillsTicker.tsx:118-120 | progress in [0, 1], 1 exactly at the centre, 0 from maxDist on; NaN (0/0) only for a zero radius and zero distance |
| SkillsTicker.HighlightIff | src/app/components/SkillsTicker.tsx:119-125 | an item is highlighted iff its distance is below 0.35 · maxDist |
| SkillsTicker.StyleFor | src/app/components/SkillsTicker.tsx:121-130 | highlight iff progress > 0.65; opacity in [0.45, 1], scale in [0.92, 1.04], letter spacing in [0.02, 0.08] em |
| SkillsTicker.StyleMonotone | src/app/components/SkillsTicker.tsx:126-130 | more progress never gives lower opacity, scale, spacing or highlight |
| SkillsTicker.HighlightTicker | src/app/components/SkillsTicker.tsx:110-131 | every item of the ticker gets the style for its distance from the ticker's centre |
| SkillsTicker.ClampSpeed | src/app/components/SkillsTicker.tsx:89 | result in [0.6, 1.8], the value itself when in range |
| SkillsTicker.TimeScale | src/app/components/SkillsTicker.tsx:140-141 | in [0.6, 1.8]; 0.6 + \|v\|/1500 up to 1800 px/s, 1.8 from there on |
| SkillsTicker.TimeScaleMonotone | src/app/components/SkillsTicker.tsx:140-141 | a faster scroll never slows the tickers; the sign of the velocity does not matter |
| SkillsTicker.TickerTweens.constructor | src/app/components/SkillsTicker.tsx:91-105 | one tween per ticker at normal speed |
| SkillsTicker.TickerTweens.OnScrollUpdate | src/app/components/SkillsTicker.tsx:139-143 | every tween runs at the scroll-driven time scale |
| SkillsTicker.TickerTweens.OnScrubComplete | src/app/components/SkillsTicker.tsx:144-146 | every tween is back to 1 |
| SkillsTicker.TickerTweens.PointerEnter | src/app/components/SkillsTicker.tsx:153 | only the hovered ticker's tween slows to 0.2 |
| SkillsTicker.TickerTweens.PointerLeave | src/app/components/SkillsTicker.tsx:154 | only that ticker's tween returns to 1 |

## Left out

- Animation engines are not modelled: GSAP timelines, tweens and easing, ScrollTrigger pinning and scrubbing, framer-motion `useScroll`/`useTransform`. Each carousel transition is modelled as its start, 0.32 and completion events; the intermediate `gsap.set`/`to` positions are not.
- Timers are not modelled: the carousel auto-advance interval, the hero's 5-second interval (only one tick is modelled), and the scroll-class debounce in `page.tsx`. Their scheduling is browser timing.
- Observers and measurements are inputs: ResizeObserver, IntersectionObserver, `matchMedia` listeners, `getBoundingClientRect`, `offsetWidth`, `clientWidth`/`clientHeight`, `window.innerHeight`, scroll velocity. Listener registration and cleanup are not modelled.
- The pointer-driven glow and mesh math with `toFixed` formatting and the random reel start (`page.tsx`) are float formatting and randomness.
- React specifics are not modelled: state batching and stale closures, `useMemo`, keys, the `handleNextRef` indirection. State updates take effect immediately in the model.
- Numbers are exact reals: IEEE-754 rounding is not modelled.
- Carousel.ApplySlot: `placed` records the whole slot per element. Whether the inner content element exists (`querySelector`) is not distinguished.
- Carousel.AboutCarousel.UpdateSlotConfig: the `viewport?.clientWidth ?? window.innerWidth` choice is an input.
- ActiveSection.SectionTracker.OnEntries: the hook's early return when no section element exists is not modelled. Without elements no observer runs, so no batch ever arrives.
- ActiveSection.BuildThresholds: `Number((i / 20).toFixed(2))` is modelled as i/20. Every i/20 has at most two decimals, so the rounding leaves it unchanged.
- ImpactExperience.ApplyActive: the model takes the list of attached panels. Holes in `panelRefs`, which `forEach` skips, are not modelled. The reduced-motion static layout and the track's translate tween are not modelled.
- ScrollRail.ComputeMeasures: `window.innerHeight || 0` is modelled by an optional height; a NaN height is the missing case. The `sectionHeight || "auto"` style is not modelled.
- ExperienceCard: markup, `key` props and the `variant` default are not modelled. Only the tag line and the click rule of the two variants are modelled.
- Hero.ParseMetric: `split("")` yields one-character strings, modelled as characters. The reduced-motion early return of the reel effect, and the operator and label fade-ins, are not modelled.
- SkillsTicker.HighlightTicker: models the inner per-item loop for one ticker. The outer `forEach` over tickers, which share nothing, and its skip of tickers without items are not modelled. The letter spacing is the number of em, not the formatted string.
- SkillsTicker.TickerTweens: only `timeScale` is modelled. The tween's duration, repeat and `xPercent` interpolation are not.

## Findings

| source | as written | input that shows it | evidently intended | confidence | as-written member | corrected member |
|---|---|---|---|---|---|---|
| src/app/components/ImpactScrollRail.tsx:121 | the reduced-motion tag line joins tags with " Â· ", which is the UTF-8 bytes of " · " read as Latin-1 | tags ["React", "UX"] render "React Â· UX" | tags joined by " · ", the separator `ExperienceCard.tsx` uses | not executed; high | ScrollRail.StrayCharacterInTagLine | ScrollRail.TagLine |
