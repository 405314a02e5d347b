/** The earlier single-page tracker of script.js: a path seeded with an
    averaged start point, the same movement filter as the recorder, no
    pause, and an overall-average speed. The widget's point-to-point
    distance and the clock are inputs. */
module Prototype {
  import opened Types
  import opened SessionMath

  /** Every accepted distance reached the movement threshold. */
  predicate AllMoved(distances: seq<real>)
  {
    distances != [] ==>
      AllMoved(distances[..|distances| - 1]) && distances[|distances| - 1] >= MoveThreshold
  }

  lemma AllMovedSnoc(distances: seq<real>, d: real)
    requires AllMoved(distances) && d >= MoveThreshold
    ensures AllMoved(distances + [d])
  {
    assert (distances + [d])[..|distances|] == distances;
  }

  /** The running total is at least the threshold times the number of
      accepted fixes. */
  lemma {:induction false} MovedTotal(distances: seq<real>)
    requires AllMoved(distances)
    ensures Sum(distances) >= |distances| as real * MoveThreshold
    decreases |distances|
  {
    if distances != [] {
      MovedTotal(distances[..|distances| - 1]);
    }
  }

  /** What the globals say about the fixes taken so far: the path ends at
      the last point (and both are empty together), a non-empty path holds
      more points than there are accepted distances (a seeding point carries
      no distance), and the total is the sum of the accepted distances. */
  ghost predicate History(path: seq<MapPoint>, lastPoint: Option<MapPoint>, distances: seq<real>,
    totalDistance: real)
  {
    && (path == [] ==> lastPoint.None? && distances == [])
    && (path != [] ==> lastPoint == Some(path[|path| - 1]) && |distances| < |path|)
    && AllMoved(distances)
    && totalDistance == Sum(distances)
  }

  /** The displayed time and speed: seconds since the start and the total
      over them, 0 when no time has passed; nothing before a start. */
  datatype Reading = Reading(elapsedSeconds: real, speed: real)

  /** updateTime's computation: (now - startTime) / 1000, then the total
      over it when it is positive. */
  function ReadingAt(startTime: Option<int>, totalDistance: real, now: int): (r: Option<Reading>)
    ensures r.None? <==> startTime.None?
    ensures r.Some? ==> r.value.elapsedSeconds * 1000.0 == (now - startTime.value) as real
    ensures r.Some? && r.value.elapsedSeconds > 0.0 ==> r.value.speed * r.value.elapsedSeconds == totalDistance
    ensures r.Some? && r.value.elapsedSeconds <= 0.0 ==> r.value.speed == 0.0
  {
    match startTime
    case None => None
    case Some(t) =>
      var elapsed := (now - t) as real / 1000.0;
      Some(Reading(elapsed, if elapsed > 0.0 then totalDistance / elapsed else 0.0))
  }

  /** With a non-negative total the speed shown is never negative, and it
      never exceeds the total's rate when measured over a longer time. */
  lemma ReadingSpeedBounds(startTime: int, totalDistance: real, now: int, later: int)
    requires totalDistance >= 0.0 && startTime < now <= later
    ensures ReadingAt(Some(startTime), totalDistance, now).value.speed >= 0.0
    ensures ReadingAt(Some(startTime), totalDistance, later).value.speed
         <= ReadingAt(Some(startTime), totalDistance, now).value.speed
  {
    var a := ReadingAt(Some(startTime), totalDistance, now).value;
    var b := ReadingAt(Some(startTime), totalDistance, later).value;
    assert 0.0 < a.elapsedSeconds <= b.elapsedSeconds;
    NonNegativeFactor(a.speed, a.elapsedSeconds, totalDistance);
    MulMonotone(a.speed, a.elapsedSeconds, b.elapsedSeconds);
    assert b.speed * b.elapsedSeconds == totalDistance == a.speed * a.elapsedSeconds;
    CancelPositive(b.speed, a.speed, b.elapsedSeconds);
  }

  lemma NonNegativeFactor(p: real, y: real, q: real)
    requires y > 0.0 && q >= 0.0 && p * y == q
    ensures p >= 0.0
  {
    assert p == q / y;
  }

  lemma MulMonotone(c: real, x: real, y: real)
    requires c >= 0.0 && x <= y
    ensures c * x <= c * y
  {
    assert c * y - c * x == c * (y - x);
  }

  lemma CancelPositive(p: real, q: real, y: real)
    requires y > 0.0 && p * y <= q * y
    ensures p <= q
  {
    assert (q - p) * y == q * y - p * y;
  }

  class PrototypeTracker {
    var path: seq<MapPoint>
    var totalDistance: real
    var startTime: Option<int>
    var lastPoint: Option<MapPoint>
    /** The distances of the accepted fixes, in order. */
    ghost var distances: seq<real>

    ghost predicate Valid()
      reads this`path, this`lastPoint, this`distances, this`totalDistance
    {
      History(path, lastPoint, distances, totalDistance)
    }

    /** The globals as the page loads them. */
    constructor ()
      ensures Valid()
      ensures path == [] && totalDistance == 0.0 && startTime == None && lastPoint == None
    {
      path, totalDistance, startTime, lastPoint, distances := [], 0.0, None, None, [];
    }

    /** initMapAndTracking: the averaged start point is pushed onto the
        path and becomes the last point; the clock starts at `now`. The
        total is not touched. */
    method InitMapAndTracking(lat: real, lng: real, now: int)
      requires Valid()
      modifies this`path, this`lastPoint, this`startTime
      ensures Valid()
      ensures path == old(path) + [MapPoint(lat, lng)]
      ensures lastPoint == Some(MapPoint(lat, lng)) && startTime == Some(now)
      ensures totalDistance == old(totalDistance) && distances == old(distances)
    {
      var start := MapPoint(lat, lng);
      path, lastPoint, startTime := path + [start], Some(start), Some(now);
    }

    /** updatePosition for one fix, `measured` being the widget's distance
        from the last point: a fix below the threshold, and every fix while
        there is no last point, changes nothing; an accepted one is appended,
        its distance added, and it becomes the last point. */
    method UpdatePosition(point: MapPoint, measured: real)
      requires Valid()
      modifies this`path, this`lastPoint, this`totalDistance, this`distances
      ensures Valid()
      ensures !FixAccepted(old(lastPoint), measured) ==>
        path == old(path) && totalDistance == old(totalDistance) && lastPoint == old(lastPoint)
      ensures FixAccepted(old(lastPoint), measured) ==>
        && path == old(path) + [point]
        && totalDistance == old(totalDistance) + measured
        && lastPoint == Some(point)
        && distances == old(distances) + [measured]
    {
      var dist := FixDistance(lastPoint, measured);
      if dist < MoveThreshold {
        return;
      }
      SumSnoc(distances, dist);
      AllMovedSnoc(distances, dist);
      path, totalDistance, lastPoint, distances := path + [point], totalDistance + dist, Some(point), distances + [dist];
    }

    /** updateTime: the reading shown at time `now`. */
    function UpdateTime(now: int): (r: Option<Reading>)
      reads this`startTime, this`totalDistance
      ensures r.None? <==> startTime.None?
      ensures r.Some? ==> r.value.elapsedSeconds * 1000.0 == (now - startTime.value) as real
      ensures r.Some? && r.value.elapsedSeconds > 0.0 ==> r.value.speed * r.value.elapsedSeconds == totalDistance
      ensures r.Some? && r.value.elapsedSeconds <= 0.0 ==> r.value.speed == 0.0
    {
      ReadingAt(startTime, totalDistance, now)
    }

    /** The reset button: empty path, zero total, clock restarted at `now`,
        no last point; from here on every fix is rejected. */
    method Reset(now: int)
      requires Valid()
      modifies this`path, this`lastPoint, this`totalDistance, this`startTime, this`distances
      ensures Valid()
      ensures path == [] && totalDistance == 0.0 && startTime == Some(now) && lastPoint == None
      ensures forall d: real :: !FixAccepted(lastPoint, d)
    {
      path, totalDistance, startTime, lastPoint, distances := [], 0.0, Some(now), None, [];
    }
  }
}
