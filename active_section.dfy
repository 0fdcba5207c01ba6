/** The active-section hook (useActiveSection.ts): intersection ratios
    reported by the browser are merged into a visibility map, and the
    section with the largest ratio becomes the active one, the earliest
    section winning ties. The observer itself is not modelled; its
    batches of entries are inputs. */
module ActiveSection {
  import opened Common

  /** `buildThresholds`: 0, 0.05, ..., 1. Each i/20 has at most two decimals,
      so the `toFixed(2)` round trip leaves it unchanged. */
  function BuildThresholds(): (t: seq<real>)
    ensures |t| == 21 && t[0] == 0.0 && t[20] == 1.0
    ensures forall i :: 0 <= i < 21 ==> t[i] == i as real / 20.0
    ensures forall i, j :: 0 <= i < j < 21 ==> t[i] < t[j]
  {
    seq(21, i => i as real / 20.0)
  }

  type VisibilityMap = map<string, real>

  /** `Object.fromEntries(sectionIds.map((id) => [id, 0]))` */
  function InitialMap(ids: seq<string>): (m: VisibilityMap)
    ensures forall id :: id in m <==> id in ids
    ensures forall id :: id in m ==> m[id] == 0.0
  {
    map id | id in ids :: 0.0
  }

  /** `sectionIds[0] ?? ""` */
  function InitialActiveId(ids: seq<string>): (id: string)
    ensures |ids| > 0 ==> id == ids[0] && id in ids
    ensures |ids| == 0 ==> id == ""
  {
    if |ids| > 0 then ids[0] else ""
  }

  function Lookup(m: VisibilityMap, id: string): Option<real> {
    if id in m then Some(m[id]) else None
  }

  /** One observer entry: the target's id and its intersection ratio. */
  datatype Entry = Entry(id: string, ratio: real)

  /** The ratio of the last entry of the batch for `id`, if there is one. */
  function LastRatio(entries: seq<Entry>, id: string): Option<real> {
    if |entries| == 0 then None
    else if entries[|entries| - 1].id == id then Some(entries[|entries| - 1].ratio)
    else LastRatio(entries[..|entries| - 1], id)
  }

  /** What the merged map holds for `id`: the batch's last ratio for it,
      else the previous value. */
  function MergedAt(prev: VisibilityMap, entries: seq<Entry>, id: string): Option<real> {
    if LastRatio(entries, id).Some? then LastRatio(entries, id) else Lookup(prev, id)
  }

  /** The observer callback's update: copy the previous map and overwrite the
      ids present in the batch, later entries winning. */
  method Merge(prev: VisibilityMap, entries: seq<Entry>) returns (next: VisibilityMap)
    ensures forall id :: Lookup(next, id) == MergedAt(prev, entries, id)
  {
    next := prev;
    var i := 0;
    while i < |entries|
      invariant 0 <= i <= |entries|
      invariant forall id :: Lookup(next, id) == MergedAt(prev, entries[..i], id)
    {
      var e := entries[i];
      ghost var done := entries[..i + 1];
      assert done[..i] == entries[..i] && done[i] == e;
      ghost var before := next;
      next := next[e.id := e.ratio];
      forall id ensures Lookup(next, id) == MergedAt(prev, done, id) {
        if id == e.id {
          assert LastRatio(done, id) == Some(e.ratio);
        } else {
          assert LastRatio(done, id) == LastRatio(entries[..i], id);
          assert Lookup(next, id) == Lookup(before, id);
        }
      }
      i := i + 1;
    }
    assert entries[..|entries|] == entries;
  }

  /** Ids the batch does not mention keep their previous value. */
  lemma MergeKeepsUnmentioned(prev: VisibilityMap, entries: seq<Entry>, id: string)
    requires forall j :: 0 <= j < |entries| ==> entries[j].id != id
    ensures MergedAt(prev, entries, id) == Lookup(prev, id)
  {
    LastRatioAbsent(entries, id);
  }

  lemma {:induction false} LastRatioAbsent(entries: seq<Entry>, id: string)
    requires forall j :: 0 <= j < |entries| ==> entries[j].id != id
    ensures LastRatio(entries, id) == None
  {
    if |entries| > 0 {
      LastRatioAbsent(entries[..|entries| - 1], id);
    }
  }

  /** `visibilityMap[id] ?? 0` */
  function RatioOf(vis: VisibilityMap, id: string): real {
    if id in vis then vis[id] else 0.0
  }

  /** Section `k` has the largest ratio and no earlier section has as large a one. */
  predicate IsEarliestMax(ids: seq<string>, vis: VisibilityMap, k: int) {
    && 0 <= k < |ids|
    && (forall j :: 0 <= j < |ids| ==> RatioOf(vis, ids[j]) <= RatioOf(vis, ids[k]))
    && (forall j :: 0 <= j < k ==> RatioOf(vis, ids[j]) < RatioOf(vis, ids[k]))
  }

  /** The earliest maximum is unique. */
  lemma EarliestMaxUnique(ids: seq<string>, vis: VisibilityMap, k1: int, k2: int)
    requires IsEarliestMax(ids, vis, k1) && IsEarliestMax(ids, vis, k2)
    ensures k1 == k2
  {
    // both are maxima, so their ratios are equal; neither can then lie strictly before the other
    assert RatioOf(vis, ids[k1]) <= RatioOf(vis, ids[k2]) && RatioOf(vis, ids[k2]) <= RatioOf(vis, ids[k1]);
  }

  /** The selection effect's loop: a strict `>` against a best ratio starting at -1. */
  method PickBest(ids: seq<string>, vis: VisibilityMap) returns (bestId: string, bestRatio: real)
    ensures forall j :: 0 <= j < |ids| ==> RatioOf(vis, ids[j]) <= bestRatio
    ensures (bestId == "" && bestRatio == -1.0)
         || (exists k :: IsEarliestMax(ids, vis, k) && ids[k] == bestId && RatioOf(vis, ids[k]) == bestRatio)
    ensures (exists j :: 0 <= j < |ids| && RatioOf(vis, ids[j]) > -1.0) ==> bestId in ids
    ensures bestRatio > -1.0 || (bestId == "" && bestRatio == -1.0)
  {
    bestId := "";
    bestRatio := -1.0;
    ghost var best := -1;
    for i := 0 to |ids|
      invariant -1 <= best < i
      invariant best == -1 ==> bestId == "" && bestRatio == -1.0
      invariant best >= 0 ==> ids[best] == bestId && RatioOf(vis, ids[best]) == bestRatio && bestRatio > -1.0
      invariant best >= 0 ==> forall j :: 0 <= j < best ==> RatioOf(vis, ids[j]) < bestRatio
      invariant forall j :: 0 <= j < i ==> RatioOf(vis, ids[j]) <= bestRatio
    {
      var ratio := RatioOf(vis, ids[i]);
      if ratio > bestRatio {
        bestRatio := ratio;
        bestId := ids[i];
        best := i;
      }
    }
    if best >= 0 {
      assert IsEarliestMax(ids, vis, best);
    }
  }

  class SectionTracker {
    const sectionIds: seq<string>
    var visibilityMap: VisibilityMap
    var activeId: string

    constructor (ids: seq<string>)
      ensures sectionIds == ids
      ensures visibilityMap == InitialMap(ids) && activeId == InitialActiveId(ids)
    {
      sectionIds := ids;
      visibilityMap := InitialMap(ids);
      activeId := InitialActiveId(ids);
    }

    /** The observer callback. */
    method OnEntries(entries: seq<Entry>)
      modifies this`visibilityMap
      ensures forall id :: Lookup(visibilityMap, id) == MergedAt(old(visibilityMap), entries, id)
    {
      visibilityMap := Merge(visibilityMap, entries);
    }

    /** The selection effect: a non-empty winner becomes the active id. */
    method SelectActive()
      modifies this`activeId
      ensures activeId == old(activeId) || exists k :: IsEarliestMax(sectionIds, visibilityMap, k) && sectionIds[k] == activeId
      ensures |sectionIds| == 0 ==> activeId == old(activeId)
      ensures activeId != old(activeId) ==> activeId in sectionIds
      ensures forall k ::
        (IsEarliestMax(sectionIds, visibilityMap, k) && RatioOf(visibilityMap, sectionIds[k]) > -1.0 && sectionIds[k] != "")
        ==> activeId == sectionIds[k]
      ensures forall k ::
        (IsEarliestMax(sectionIds, visibilityMap, k) && !(RatioOf(visibilityMap, sectionIds[k]) > -1.0 && sectionIds[k] != ""))
        ==> activeId == old(activeId)
    {
      var bestId, _ := PickBest(sectionIds, visibilityMap);
      if bestId != "" {
        activeId := bestId;
      }
    }
  }
}
