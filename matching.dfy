/** Selection of the sunrise/sunset event whose azimuth best matches the
    target bearing: `np.argmin(np.abs(np.array(azimuths) - target))`. */
module Matching {

  import opened Wrappers

  /** The linear (not circular) distance between an azimuth and the target. */
  function AbsDiff(a: real, target: real): (d: real)
    ensures d >= 0.0
    ensures d == a - target || d == target - a
  {
    if a >= target then a - target else target - a
  }

  /** `k` is the first index of a minimal linear distance to `target`: no entry
      is nearer, and every entry before `k` is strictly farther. */
  ghost predicate IsFirstMin(azimuths: seq<real>, target: real, k: int)
  {
    0 <= k < |azimuths| &&
    (forall j :: 0 <= j < |azimuths| ==> AbsDiff(azimuths[k], target) <= AbsDiff(azimuths[j], target)) &&
    (forall j :: 0 <= j < k ==> AbsDiff(azimuths[j], target) > AbsDiff(azimuths[k], target))
  }

  /** `np.argmin` of the distances of a non-empty list: the first minimum. */
  function ArgMin(azimuths: seq<real>, target: real): (k: nat)
    requires |azimuths| > 0
    ensures IsFirstMin(azimuths, target, k)
  {
    if |azimuths| == 1 then 0
    else
      var last := |azimuths| - 1;
      var k := ArgMin(azimuths[..last], target);
      assert forall j :: 0 <= j < last ==> azimuths[..last][j] == azimuths[j];
      if AbsDiff(azimuths[last], target) < AbsDiff(azimuths[k], target) then last else k
  }

  /** The best match over a possibly empty list: none exactly when the list
      is empty (where `np.argmin` raises), otherwise the first minimum. */
  function BestMatch(azimuths: seq<real>, target: real): (r: Option<nat>)
    ensures r.None? <==> |azimuths| == 0
    ensures r.Some? ==> IsFirstMin(azimuths, target, r.value)
  {
    if |azimuths| == 0 then None else Some(ArgMin(azimuths, target))
  }

  /** The first minimum is unique, so the selection is fully determined. */
  lemma FirstMinUnique(azimuths: seq<real>, target: real, i: int, j: int)
    requires IsFirstMin(azimuths, target, i) && IsFirstMin(azimuths, target, j)
    ensures i == j
  {
    // both are minima, so their distances coincide; a strictly larger
    // distance before either of them then rules out i < j and j < i
    assert AbsDiff(azimuths[i], target) == AbsDiff(azimuths[j], target);
  }

  /** Any index that satisfies the first-minimum rule is the one `BestMatch`
      picks, and conversely. */
  lemma BestMatchCharacterized(azimuths: seq<real>, target: real, k: nat)
    ensures BestMatch(azimuths, target) == Some(k) <==> IsFirstMin(azimuths, target, k)
  {
  }

  /** When the event instants are chronological, the chosen event is the
      earliest of all events whose azimuth is equally close. */
  lemma BestMatchEarliest(azimuths: seq<real>, instants: seq<int>, target: real, k: nat, j: nat)
    requires |instants| == |azimuths|
    requires forall a, b :: 0 <= a < b < |instants| ==> instants[a] < instants[b]
    requires BestMatch(azimuths, target) == Some(k)
    requires j < |azimuths| && AbsDiff(azimuths[j], target) == AbsDiff(azimuths[k], target)
    ensures instants[k] <= instants[j]
  {
  }

  /** The distance is linear: with target 5 the azimuth 15 wins over 355,
      although 355 is only 10 degrees away around the circle. */
  lemma LinearNotCircular()
    ensures BestMatch([355.0, 15.0], 5.0) == Some(1)
  {
  }

  /** Events at 10, 350 and 10 degrees: target 350 picks the second event,
      target 10 picks the first of the two tied events, not the third. */
  lemma TieGoesToFirst()
    ensures BestMatch([10.0, 350.0, 10.0], 350.0) == Some(1)
    ensures BestMatch([10.0, 350.0, 10.0], 10.0) == Some(0)
  {
  }
}
