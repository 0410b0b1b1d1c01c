/** Selection re-binding and position smoothing (src/object_tracker.py).
    Distances are compared squared: an integer pixel offset lies within the
    tolerance radius exactly when its squared length is at most the radius
    squared, so the square root of the original is not needed. */
module Tracker {
  import opened Common
  import opened ColorDetection

  // ---------------------------------------------------------------------
  // Distances and the nearest match
  // ---------------------------------------------------------------------

  function SquaredDistance(a: Pixel, b: Pixel): nat
  {
    (a.x - b.x) * (a.x - b.x) + (a.y - b.y) * (a.y - b.y)
  }

  /** Euclidean distance at most the radius (inclusive). */
  predicate Within(a: Pixel, centre: Pixel, radius: int)
  {
    radius >= 0 && SquaredDistance(a, centre) <= radius * radius
  }

  /** An entry of the match list: a detection and its distance to the previous selection. */
  datatype Match = Match(obj: DetectedObject, distance: nat)

  /** The match list the selector builds: the detections within the radius,
      in detection order, each with its distance. */
  function Matching(objs: seq<DetectedObject>, centre: Pixel, radius: int): (ms: seq<Match>)
    ensures |ms| <= |objs|
    ensures forall k | 0 <= k < |ms| ::
      Within(ms[k].obj.pixelPos, centre, radius) && ms[k].distance == SquaredDistance(ms[k].obj.pixelPos, centre)
  {
    if objs == [] then []
    else
      var front := Matching(objs[..|objs| - 1], centre, radius);
      var o := objs[|objs| - 1];
      if Within(o.pixelPos, centre, radius) then front + [Match(o, SquaredDistance(o.pixelPos, centre))] else front
  }

  /** The head of the match list after a stable sort by distance: the first
      entry of least distance. */
  function Closest(ms: seq<Match>): (k: nat)
    requires |ms| > 0
    ensures k < |ms|
    ensures forall j | 0 <= j < |ms| :: ms[k].distance <= ms[j].distance
    ensures forall j | 0 <= j < k :: ms[j].distance > ms[k].distance
  {
    if |ms| == 1 then 0
    else
      var k := Closest(ms[..|ms| - 1]);
      if ms[|ms| - 1].distance < ms[k].distance then |ms| - 1 else k
  }

  /** What re-resolving a selection returns: nothing without a previous
      selection or without a detection in range, otherwise the closest one. */
  function Reselect(previous: Option<DetectedObject>, objs: seq<DetectedObject>, radius: int): (r: Option<DetectedObject>)
    ensures previous.None? ==> r.None?
    ensures r.Some? ==> r.value in objs && Within(r.value.pixelPos, previous.value.pixelPos, radius)
  {
    match previous
    case None => None
    case Some(prev) =>
      var ms := Matching(objs, prev.pixelPos, radius);
      if ms == [] then None
      else
        var k := Closest(ms);
        MatchedIsDetection(objs, prev.pixelPos, radius, k);
        Some(ms[k].obj)
  }

  lemma {:induction false} MatchedIsDetection(objs: seq<DetectedObject>, centre: Pixel, radius: int, k: int)
    requires 0 <= k < |Matching(objs, centre, radius)|
    ensures Matching(objs, centre, radius)[k].obj in objs
    decreases |objs|
  {
    var front := objs[..|objs| - 1];
    if k < |Matching(front, centre, radius)| {
      MatchedIsDetection(front, centre, radius, k);
      assert Matching(objs, centre, radius)[k] == Matching(front, centre, radius)[k];
    }
  }

  /** Detection i is within the radius, no detection within the radius is
      closer, and every earlier detection within the radius is farther. */
  ghost predicate IsNearest(objs: seq<DetectedObject>, i: int, centre: Pixel, radius: int)
  {
    && 0 <= i < |objs|
    && Within(objs[i].pixelPos, centre, radius)
    && (forall j | 0 <= j < |objs| && Within(objs[j].pixelPos, centre, radius) ::
          SquaredDistance(objs[i].pixelPos, centre) <= SquaredDistance(objs[j].pixelPos, centre))
    && (forall j | 0 <= j < i && Within(objs[j].pixelPos, centre, radius) ::
          SquaredDistance(objs[j].pixelPos, centre) > SquaredDistance(objs[i].pixelPos, centre))
  }

  /** At most one detection is the nearest in that sense. */
  lemma NearestIsUnique(objs: seq<DetectedObject>, i: int, i': int, centre: Pixel, radius: int)
    requires IsNearest(objs, i, centre, radius) && IsNearest(objs, i', centre, radius)
    ensures i == i'
  {
  }

  lemma NearestSurvivesFarDetection(objs: seq<DetectedObject>, i: int, centre: Pixel, radius: int)
    requires |objs| > 0 && IsNearest(objs[..|objs| - 1], i, centre, radius)
    requires !Within(objs[|objs| - 1].pixelPos, centre, radius)
    ensures IsNearest(objs, i, centre, radius)
  {
    assert forall j | 0 <= j < |objs| - 1 :: objs[j] == objs[..|objs| - 1][j];
  }

  lemma NearestSurvivesEqualOrFartherDetection(objs: seq<DetectedObject>, i: int, centre: Pixel, radius: int)
    requires |objs| > 0 && IsNearest(objs[..|objs| - 1], i, centre, radius)
    requires SquaredDistance(objs[i].pixelPos, centre) <= SquaredDistance(objs[|objs| - 1].pixelPos, centre)
    ensures IsNearest(objs, i, centre, radius)
  {
    assert forall j | 0 <= j < |objs| - 1 :: objs[j] == objs[..|objs| - 1][j];
  }

  lemma NewestIsNearest(objs: seq<DetectedObject>, centre: Pixel, radius: int)
    requires |objs| > 0 && Within(objs[|objs| - 1].pixelPos, centre, radius)
    requires forall j | 0 <= j < |objs| - 1 && Within(objs[j].pixelPos, centre, radius) ::
      SquaredDistance(objs[j].pixelPos, centre) > SquaredDistance(objs[|objs| - 1].pixelPos, centre)
    ensures IsNearest(objs, |objs| - 1, centre, radius)
  {
  }

  /** Re-resolution finds nothing exactly when no detection is within the
      radius of the previous position; otherwise it returns the nearest
      detection, ties going to the earliest in detection order. */
  lemma {:induction false} ReselectIsNearest(prev: DetectedObject, objs: seq<DetectedObject>, radius: int)
    ensures Reselect(Some(prev), objs, radius).None? <==>
      forall j | 0 <= j < |objs| :: !Within(objs[j].pixelPos, prev.pixelPos, radius)
    ensures Reselect(Some(prev), objs, radius).Some? ==>
      exists i :: IsNearest(objs, i, prev.pixelPos, radius) && objs[i] == Reselect(Some(prev), objs, radius).value
    decreases |objs|
  {
    if objs != [] {
      var c := prev.pixelPos;
      var n := |objs|;
      var front := objs[..n - 1];
      var o := objs[n - 1];
      assert forall j | 0 <= j < n - 1 :: objs[j] == front[j];
      ReselectIsNearest(prev, front, radius);
      var ms0 := Matching(front, c, radius);
      var ms := Matching(objs, c, radius);
      if Within(o.pixelPos, c, radius) {
        assert ms == ms0 + [Match(o, SquaredDistance(o.pixelPos, c))];
        if ms0 == [] {
          NewestIsNearest(objs, c, radius);
        } else {
          assert ms[..|ms| - 1] == ms0;
          var k0 := Closest(ms0);
          var i0 :| IsNearest(front, i0, c, radius) && front[i0] == ms0[k0].obj;
          if SquaredDistance(o.pixelPos, c) < ms0[k0].distance {
            NewestIsNearest(objs, c, radius);
          } else {
            NearestSurvivesEqualOrFartherDetection(objs, i0, c, radius);
          }
        }
      } else {
        assert ms == ms0;
        if ms0 != [] {
          var i0 :| IsNearest(front, i0, c, radius) && front[i0] == Reselect(Some(prev), front, radius).value;
          NearestSurvivesFarDetection(objs, i0, c, radius);
        }
      }
    }
  }

  /** The example of a selection at (100, 100) with radius 40: of detections
      at distances 20 and 100 the nearer one is chosen; with only the far
      one the selection is not re-bound. */
  lemma SelectorExample(prev: DetectedObject, near: DetectedObject, far: DetectedObject)
    requires prev.pixelPos == Pixel(100, 100) && near.pixelPos == Pixel(120, 100) && far.pixelPos == Pixel(200, 100)
    ensures Reselect(Some(prev), [near, far], 40) == Some(near)
    ensures Reselect(Some(prev), [far], 40) == None
  {
    var c := prev.pixelPos;
    assert [near, far][..1] == [near] && [near][..0] == [];
    assert [far][..0] == [];
    assert Matching([near], c, 40) == [Match(near, 400)];
    assert Matching([near, far], c, 40) == [Match(near, 400)];
  }

  // ---------------------------------------------------------------------
  // ObjectSelector
  // ---------------------------------------------------------------------

  /** The selected detection, re-bound every frame to the closest fresh
      detection within the tolerance radius. */
  class ObjectSelector {
    var toleranceRadius: int
    var selectedObject: Option<DetectedObject>
    var selectionId: Option<string>

    /** The selection identity is that of the selected object, or both are absent. */
    ghost predicate Valid()
      reads this
    {
      selectionId == if selectedObject.Some? then Some(selectedObject.value.id) else None
    }

    constructor (toleranceRadius: int)
      ensures Valid()
      ensures this.toleranceRadius == toleranceRadius && selectedObject == None
    {
      this.toleranceRadius := toleranceRadius;
      selectedObject := None;
      selectionId := None;
    }

    method UpdateSelection(currentObjects: seq<DetectedObject>) returns (r: Option<DetectedObject>)
      requires Valid()
      modifies this
      ensures Valid() && toleranceRadius == old(toleranceRadius)
      ensures r == Reselect(old(selectedObject), currentObjects, toleranceRadius)
      ensures selectedObject == if r.Some? then r else old(selectedObject)
    {
      if selectedObject.None? {
        return None;
      }
      var selected := selectedObject.value.pixelPos;
      var matching: seq<Match> := [];
      var i := 0;
      while i < |currentObjects|
        invariant 0 <= i <= |currentObjects|
        invariant matching == Matching(currentObjects[..i], selected, toleranceRadius)
      {
        var obj := currentObjects[i];
        var distance := SquaredDistance(obj.pixelPos, selected);
        if toleranceRadius >= 0 && distance <= toleranceRadius * toleranceRadius {
          matching := matching + [Match(obj, distance)];
        }
        assert currentObjects[..i + 1][..i] == currentObjects[..i];
        i := i + 1;
      }
      assert currentObjects[..i] == currentObjects;
      if matching != [] {
        var closest := matching[Closest(matching)].obj;
        selectedObject := Some(closest);
        selectionId := Some(closest.id);
        return Some(closest);
      }
      return None;
    }

    method SelectObject(obj: DetectedObject) returns (r: DetectedObject)
      modifies this
      ensures Valid() && toleranceRadius == old(toleranceRadius)
      ensures selectedObject == Some(obj) && selectionId == Some(obj.id) && r == obj
    {
      selectedObject := Some(obj);
      selectionId := Some(obj.id);
      r := obj;
    }

    method ClearSelection()
      modifies this
      ensures Valid() && toleranceRadius == old(toleranceRadius)
      ensures selectedObject == None && selectionId == None
    {
      selectedObject := None;
      selectionId := None;
    }

    /** Whether something is selected; under the invariant also whether a selection identity is held. */
    function IsObjectSelected(): (r: bool)
      reads this
      requires Valid()
      ensures r <==> selectionId.Some?
    {
      selectedObject.Some?
    }
  }

  // ---------------------------------------------------------------------
  // Coordinate-wise median
  // ---------------------------------------------------------------------

  predicate IsSorted(s: seq<int>)
  {
    forall i, j | 0 <= i < j < |s| :: s[i] <= s[j]
  }

  function Insert(x: int, s: seq<int>): (r: seq<int>)
    requires IsSorted(s)
    ensures IsSorted(r) && multiset(r) == multiset(s) + multiset{x} && |r| == |s| + 1
  {
    if s == [] then [x]
    else if x <= s[0] then [x] + s
    else
      var t := Insert(x, s[1..]);
      assert s == [s[0]] + s[1..];
      InsertAbove(s[0], x, s[1..], t);
      [s[0]] + t
  }

  lemma InsertAbove(lo: int, x: int, s: seq<int>, t: seq<int>)
    requires lo <= x && forall i | 0 <= i < |s| :: lo <= s[i]
    requires multiset(t) == multiset(s) + multiset{x}
    ensures forall k | 0 <= k < |t| :: lo <= t[k]
  {
    forall k | 0 <= k < |t|
      ensures lo <= t[k]
    {
      assert t[k] in multiset(t);
      if t[k] != x {
        assert t[k] in multiset(s);
        var i :| 0 <= i < |s| && s[i] == t[k];
      }
    }
  }

  /** The values in ascending order. */
  function Sort(s: seq<int>): (r: seq<int>)
    ensures IsSorted(r) && multiset(r) == multiset(s) && |r| == |s|
  {
    if s == [] then []
    else
      assert s == [s[0]] + s[1..];
      Insert(s[0], Sort(s[1..]))
  }

  /** The median of an odd number of values: the middle of the sorted values,
      which is one of the values. */
  function Median(xs: seq<int>): (r: int)
    requires |xs| % 2 == 1
    ensures r in xs
  {
    var s := Sort(xs);
    assert s[|xs| / 2] in multiset(s);
    s[|xs| / 2]
  }

  lemma {:induction false} CountAtMostLength(t: seq<int>, v: int)
    ensures multiset(t)[v] <= |t|
  {
    if t != [] {
      assert t == t[..|t| - 1] + [t[|t| - 1]];
      CountAtMostLength(t[..|t| - 1], v);
    }
  }

  /** A value absent from positions lo..hi occurs at most |s| - (hi - lo) times. */
  lemma CountOutside(s: seq<int>, lo: int, hi: int, v: int)
    requires 0 <= lo <= hi <= |s|
    requires forall i | lo <= i < hi :: s[i] != v
    ensures multiset(s)[v] <= |s| - (hi - lo)
  {
    assert s == s[..lo] + s[lo..hi] + s[hi..];
    assert v !in s[lo..hi];
    CountAtMostLength(s[..lo], v);
    CountAtMostLength(s[hi..], v);
  }

  /** In sorted values, a value held by more than half of them sits in the middle. */
  lemma SortedMajorityMiddle(s: seq<int>, v: int)
    requires IsSorted(s) && |s| % 2 == 1
    requires multiset(s)[v] > |s| / 2
    ensures s[|s| / 2] == v
  {
    var m := |s| / 2;
    if s[m] < v {
      forall i | 0 <= i < m + 1
        ensures s[i] != v
      {
        assert s[i] <= s[m];
      }
      CountOutside(s, 0, m + 1, v);
    } else if s[m] > v {
      forall i | m <= i < |s|
        ensures s[i] != v
      {
        assert s[m] <= s[i];
      }
      CountOutside(s, m, |s|, v);
    }
  }

  /** A value held by more than half of an odd number of values is their
      median: one outlier among equal values does not move it. */
  lemma MedianOfMajority(xs: seq<int>, v: int)
    requires |xs| % 2 == 1
    requires multiset(xs)[v] > |xs| / 2
    ensures Median(xs) == v
  {
    SortedMajorityMiddle(Sort(xs), v);
  }

  function Xs(ps: seq<Pixel>): (r: seq<int>)
    ensures |r| == |ps| && forall k | 0 <= k < |ps| :: r[k] == ps[k].x
  {
    if ps == [] then [] else [ps[0].x] + Xs(ps[1..])
  }

  function Ys(ps: seq<Pixel>): (r: seq<int>)
    ensures |r| == |ps| && forall k | 0 <= k < |ps| :: r[k] == ps[k].y
  {
    if ps == [] then [] else [ps[0].y] + Ys(ps[1..])
  }

  /** The coordinate-wise median of an odd number of positions. */
  function MedianPixel(ps: seq<Pixel>): (r: Pixel)
    requires |ps| % 2 == 1
    ensures r.x in Xs(ps) && r.y in Ys(ps)
  {
    Pixel(Median(Xs(ps)), Median(Ys(ps)))
  }

  lemma {:induction false} CoordinateCounts(ps: seq<Pixel>, p: Pixel)
    ensures multiset(ps)[p] <= multiset(Xs(ps))[p.x]
    ensures multiset(ps)[p] <= multiset(Ys(ps))[p.y]
  {
    if ps != [] {
      assert ps == [ps[0]] + ps[1..];
      assert Xs(ps) == [ps[0].x] + Xs(ps[1..]);
      assert Ys(ps) == [ps[0].y] + Ys(ps[1..]);
      CoordinateCounts(ps[1..], p);
    }
  }

  /** A position held by more than half of the buffer is its coordinate-wise median. */
  lemma MedianPixelOfMajority(ps: seq<Pixel>, p: Pixel)
    requires |ps| % 2 == 1
    requires multiset(ps)[p] > |ps| / 2
    ensures MedianPixel(ps) == p
  {
    CoordinateCounts(ps, p);
    MedianOfMajority(Xs(ps), p.x);
    MedianOfMajority(Ys(ps), p.y);
  }

  // ---------------------------------------------------------------------
  // PositionStabilizer
  // ---------------------------------------------------------------------

  /** The default history length. */
  const DefaultBufferSize: nat := 5

  lemma DefaultBufferSizeOdd()
    ensures DefaultBufferSize % 2 == 1
  {
  }

  /** Appending to a bounded history: once it holds `capacity` positions the
      oldest is dropped. */
  function Pushed(buffer: seq<Pixel>, p: Pixel, capacity: nat): (r: seq<Pixel>)
    requires 1 <= capacity && |buffer| <= capacity
    ensures |r| == if |buffer| < capacity then |buffer| + 1 else capacity
    ensures r == (buffer + [p])[|buffer| + 1 - |r|..]
  {
    if |buffer| == capacity then buffer[1..] + [p] else buffer + [p]
  }

  /** The history of an identity, empty when none is held. */
  function BufferOf(buffers: map<string, seq<Pixel>>, id: string): seq<Pixel>
  {
    if id in buffers then buffers[id] else []
  }

  /** What an update reports: the raw position until the history is full,
      the coordinate-wise median of the history once it is. */
  function Smoothed(buffer: seq<Pixel>, p: Pixel, capacity: nat): (r: Pixel)
    requires capacity % 2 == 1
    ensures |buffer| != capacity ==> r == p
    ensures |buffer| == capacity ==>
      (exists i | 0 <= i < |buffer| :: buffer[i].x == r.x) && (exists j | 0 <= j < |buffer| :: buffer[j].y == r.y)
  {
    if |buffer| == capacity then MedianPixel(buffer) else p
  }

  ghost predicate BuffersBounded(buffers: map<string, seq<Pixel>>, capacity: nat)
  {
    forall id | id in buffers :: 1 <= |buffers[id]| <= capacity
  }

  /** Storing a history of one to capacity positions keeps every history bounded. */
  lemma StoreBounded(buffers: map<string, seq<Pixel>>, id: string, buf: seq<Pixel>, capacity: nat)
    requires BuffersBounded(buffers, capacity)
    requires 1 <= |buf| <= capacity
    ensures BuffersBounded(buffers[id := buf], capacity)
  {
  }

  /** An identity observed for the first time (or again after it was
      dropped) starts a history of one and gets its raw position back. */
  lemma FirstObservationIsRaw(buffers: map<string, seq<Pixel>>, id: string, p: Pixel, capacity: nat)
    requires capacity % 2 == 1
    requires id !in buffers
    ensures Pushed(BufferOf(buffers, id), p, capacity) == [p]
    ensures Smoothed([p], p, capacity) == p
  {
    if capacity == 1 {
      assert Xs([p]) == [p.x] && Ys([p]) == [p.y];
      assert Sort([p.x]) == [p.x] && Sort([p.y]) == [p.y];
    }
  }

  /** Once the history is full and more than half of it is one position,
      that position is reported, whatever the newest observation was. */
  lemma FullBufferIgnoresOutlier(buffer: seq<Pixel>, p: Pixel, q: Pixel, capacity: nat)
    requires capacity % 2 == 1
    requires |buffer| == capacity
    requires multiset(buffer)[p] > capacity / 2
    ensures Smoothed(buffer, q, capacity) == p
  {
    MedianPixelOfMajority(buffer, p);
  }

  /** With the default size of five: five equal positions give that
      position, and so do four equal positions and one outlier. */
  lemma FiveSampleExamples(p: Pixel, q: Pixel)
    ensures Smoothed([p, p, p, p, p], q, DefaultBufferSize) == p
    ensures Smoothed([p, p, q, p, p], p, DefaultBufferSize) == p
  {
    assert multiset([p, p, p, p, p])[p] == 5;
    FullBufferIgnoresOutlier([p, p, p, p, p], p, q, DefaultBufferSize);
    assert multiset([p, p, q, p, p])[p] >= 4;
    FullBufferIgnoresOutlier([p, p, q, p, p], p, p, DefaultBufferSize);
  }

  /** Per-identity bounded position histories. */
  class PositionStabilizer {
    const bufferSize: nat
    var positionBuffers: map<string, seq<Pixel>>

    /** The size is odd, so a full history has a middle element, and every
        history holds between one and bufferSize positions. */
    ghost predicate Valid()
      reads this
    {
      bufferSize % 2 == 1 && BuffersBounded(positionBuffers, bufferSize)
    }

    constructor (bufferSize: nat)
      requires bufferSize % 2 == 1
      ensures Valid() && this.bufferSize == bufferSize && positionBuffers == map[]
    {
      this.bufferSize := bufferSize;
      positionBuffers := map[];
    }

    method Update(objId: string, position: Pixel) returns (r: Pixel)
      requires Valid()
      modifies this
      ensures Valid()
      ensures positionBuffers == old(positionBuffers)[objId := Pushed(BufferOf(old(positionBuffers), objId), position, bufferSize)]
      ensures r == Smoothed(positionBuffers[objId], position, bufferSize)
    {
      var buffer: seq<Pixel> := [];
      if objId in positionBuffers {
        buffer := positionBuffers[objId];
      }
      if |buffer| == bufferSize {
        buffer := buffer[1..];
      }
      buffer := buffer + [position];
      assert buffer == Pushed(BufferOf(positionBuffers, objId), position, bufferSize);
      StoreBounded(positionBuffers, objId, buffer, bufferSize);
      positionBuffers := positionBuffers[objId := buffer];
      if |buffer| == bufferSize {
        r := MedianPixel(buffer);
      } else {
        r := position;
      }
    }

    method Cleanup(currentIds: seq<string>)
      requires Valid()
      modifies this
      ensures Valid()
      ensures positionBuffers == map k | k in old(positionBuffers) && k in currentIds :: old(positionBuffers)[k]
    {
      positionBuffers := map k | k in positionBuffers && k in currentIds :: positionBuffers[k];
    }
  }
}
