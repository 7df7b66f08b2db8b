/**
 * The final choice of `getSplatInfoAtScreenPosition`: a scan over candidate
 * splats with their screen-space (pixel) and world-space distances to the
 * picked point, and the metadata record of the chosen splat. The projections
 * that produce the distances are inputs here.
 */
module Picking {
  import opened Wrappers

  /** A candidate splat: skipped (position out of range or not projectable), or projected with its distances. */
  datatype Candidate =
    | Skipped(index: int)
    | Projected(index: int, pixelDistance: real, worldDistance: Option<real>)

  /** Which of the two distances a scan minimises. */
  datatype Channel = Pixel | World

  /** The candidate's distance on a channel, if it has one. */
  function DistanceOf(c: Candidate, ch: Channel): Option<real>
  {
    match c
    case Skipped(_) => None
    case Projected(_, p, w) => if ch == Pixel then Some(p) else w
  }

  /** Candidate i has a distance on `ch` that is at most `bound`. */
  predicate Within(cands: seq<Candidate>, i: int, ch: Channel, bound: real)
    requires 0 <= i < |cands|
  {
    DistanceOf(cands[i], ch).Some? && DistanceOf(cands[i], ch).value <= bound
  }

  /**
   * `pos` is the scan's winner on `ch`: within the bound, no farther than any
   * candidate, and strictly nearer than every later one (the `<=` test lets
   * the last of equally near candidates win).
   */
  predicate IsNearest(cands: seq<Candidate>, n: int, pos: int, ch: Channel, bound: real)
    requires 0 <= n <= |cands|
  {
    && 0 <= pos < n
    && Within(cands, pos, ch, bound)
    && (forall i :: 0 <= i < n && DistanceOf(cands[i], ch).Some? ==>
          DistanceOf(cands[pos], ch).value <= DistanceOf(cands[i], ch).value)
    && (forall i :: pos < i < n && DistanceOf(cands[i], ch).Some? ==>
          DistanceOf(cands[pos], ch).value < DistanceOf(cands[i], ch).value)
  }

  /** The running state of one channel after the first n candidates. */
  predicate ScannedUpTo(cands: seq<Candidate>, n: int, ch: Channel, bound: real, best: int, bestDistance: real)
    requires 0 <= n <= |cands|
  {
    && (best == -1 <==> forall j :: 0 <= j < n ==> !Within(cands, j, ch, bound))
    && (best != -1 ==> IsNearest(cands, n, best, ch, bound) && bestDistance == DistanceOf(cands[best], ch).value)
    && (best == -1 ==> bestDistance == bound)
  }

  /** One channel's `if (distance <= closest) { closest = distance; index = i }` step. */
  method Consider(cands: seq<Candidate>, i: int, ch: Channel, bound: real, best: int, bestDistance: real)
    returns (best': int, bestDistance': real)
    requires 0 <= i < |cands|
    requires ScannedUpTo(cands, i, ch, bound, best, bestDistance)
    ensures ScannedUpTo(cands, i + 1, ch, bound, best', bestDistance')
  {
    best', bestDistance' := best, bestDistance;
    var d := DistanceOf(cands[i], ch);
    if d.Some? && d.value <= bestDistance {
      best', bestDistance' := i, d.value;
      assert Within(cands, i, ch, bound);
      forall j | 0 <= j < i + 1 && DistanceOf(cands[j], ch).Some?
        ensures d.value <= DistanceOf(cands[j], ch).value
      {
        if j < i && best == -1 {
          assert !Within(cands, j, ch, bound);
        }
      }
    } else if best == -1 {
      assert !Within(cands, i, ch, bound);
      assert forall j :: 0 <= j < i + 1 ==> !Within(cands, j, ch, bound);
    } else {
      assert Within(cands, best, ch, bound);
      forall j | 0 <= j < i + 1 && DistanceOf(cands[j], ch).Some?
        ensures DistanceOf(cands[best], ch).value <= DistanceOf(cands[j], ch).value
      {
      }
    }
  }

  /** Result of the candidate scan, as positions in the candidate list (-1 for none). */
  datatype ScanResult = ScanResult(closest: int, closestDistance: real, closestWorld: int, closestWorldDistance: real)

  /**
   * The candidate loop: the running nearest candidate by pixel distance,
   * starting from `maxDistance`, and by world distance, starting from
   * `worldMaxDistance`.
   */
  method ScanCandidates(cands: seq<Candidate>, maxDistance: real, worldMaxDistance: real) returns (r: ScanResult)
    ensures r.closest == -1 <==> forall i :: 0 <= i < |cands| ==> !Within(cands, i, Pixel, maxDistance)
    ensures r.closest != -1 ==> IsNearest(cands, |cands|, r.closest, Pixel, maxDistance)
                                && r.closestDistance == DistanceOf(cands[r.closest], Pixel).value
    ensures r.closest == -1 ==> r.closestDistance == maxDistance
    ensures r.closestWorld == -1 <==> forall i :: 0 <= i < |cands| ==> !Within(cands, i, World, worldMaxDistance)
    ensures r.closestWorld != -1 ==> IsNearest(cands, |cands|, r.closestWorld, World, worldMaxDistance)
                                     && r.closestWorldDistance == DistanceOf(cands[r.closestWorld], World).value
    ensures r.closestWorld == -1 ==> r.closestWorldDistance == worldMaxDistance
  {
    var closest, closestDistance := -1, maxDistance;
    var closestWorld, closestWorldDistance := -1, worldMaxDistance;
    var i := 0;
    while i < |cands|
      invariant 0 <= i <= |cands|
      invariant ScannedUpTo(cands, i, Pixel, maxDistance, closest, closestDistance)
      invariant ScannedUpTo(cands, i, World, worldMaxDistance, closestWorld, closestWorldDistance)
    {
      closest, closestDistance := Consider(cands, i, Pixel, maxDistance, closest, closestDistance);
      closestWorld, closestWorldDistance := Consider(cands, i, World, worldMaxDistance, closestWorld, closestWorldDistance);
      i := i + 1;
    }
    r := ScanResult(closest, closestDistance, closestWorld, closestWorldDistance);
  }

  /** A candidate whose position lies past the end of the position buffer is skipped. */
  function WithinBuffer(c: Candidate, positionsLength: nat): (r: Candidate)
    ensures r.index == c.index
    ensures c.index * 3 + 2 >= positionsLength ==> r.Skipped?
    ensures c.index * 3 + 2 < positionsLength ==> r == c
  {
    if c.index * 3 + 2 >= positionsLength then Skipped(c.index) else c
  }

  /**
   * `finalIndex`: the splat nearest in pixels, or failing that the one
   * nearest in world space (reporting its world distance), or none.
   */
  function FinalChoice(cands: seq<Candidate>, r: ScanResult): (choice: Option<(int, real)>)
    requires -1 <= r.closest < |cands| && -1 <= r.closestWorld < |cands|
    ensures r.closest != -1 && cands[r.closest].index != -1 ==>
              choice == Some((cands[r.closest].index, r.closestDistance))
    ensures (r.closest == -1 || cands[r.closest].index == -1) && r.closestWorld != -1 && cands[r.closestWorld].index != -1 ==>
              choice == Some((cands[r.closestWorld].index, r.closestWorldDistance))
    ensures choice.Some? ==> choice.value.0 != -1
  {
    var pixelIndex := if r.closest == -1 then -1 else cands[r.closest].index;
    var worldIndex := if r.closestWorld == -1 then -1 else cands[r.closestWorld].index;
    if pixelIndex != -1 then Some((pixelIndex, r.closestDistance))
    else if worldIndex != -1 then Some((worldIndex, r.closestWorldDistance))
    else None
  }

  /** The record `getSplatInfoAtScreenPosition` returns. */
  datatype SplatInfo = SplatInfo(
    aggregateIndex: int,
    plyIndex: Option<int>,
    colorGroupId: int,
    isSelected: bool,
    isLocked: bool,
    pixelDistance: real)

  /** The metadata of the chosen splat, read from the primitive's edit state. */
  function InfoOf(index: int, distance: real, plyAggregate: Option<seq<int>>, colorGroups: map<int, int>,
                  selected: set<int>, locked: set<int>): (info: SplatInfo)
    ensures info.aggregateIndex == index && info.pixelDistance == distance
    ensures info.plyIndex.Some? <==> plyAggregate.Some? && 0 <= index < |plyAggregate.value|
    ensures info.plyIndex.Some? ==> info.plyIndex.value == plyAggregate.value[index]
    ensures info.colorGroupId == if index in colorGroups then colorGroups[index] else 0
    ensures info.isSelected <==> index in selected
    ensures info.isLocked <==> index in locked
  {
    SplatInfo(
      index,
      if plyAggregate.Some? && 0 <= index < |plyAggregate.value| then Some(plyAggregate.value[index]) else None,
      if index in colorGroups then colorGroups[index] else 0,
      index in selected,
      index in locked,
      distance)
  }
}
