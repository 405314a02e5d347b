/** The pure arithmetic of the recording engine (src/main.ts): the
    pause-aware clock, the movement filter, the smoothed-speed window, the
    derived display values, the announcement throttles, the saved record and
    the history statistics. The stateful engine in recorder.dfy is specified
    in terms of these functions. Times are integer milliseconds, distances
    metres (as reals). */
module SessionMath {
  import opened Types

  /** Fixes closer than this many metres to the last point are dropped. */
  const MoveThreshold: real := 5.0
  /** The sampling period in milliseconds. */
  const UpdateInterval: int := 1000
  /** Capacity of the recent-speed window. */
  const SmoothingWindow: nat := 5

  // ---------------------------------------------------------------------
  // The session clock (getElapsedTime)
  // ---------------------------------------------------------------------

  /** Active milliseconds at wall-clock `now`: zero before any start;
      otherwise now - start - paused, minus the open pause while paused. */
  function ElapsedMs(startTime: Option<int>, pausedTime: int, lastPauseTime: Option<int>,
                     state: RecordingState, now: int): (e: int)
    ensures startTime.None? ==> e == 0
    ensures startTime.Some? && state == Paused && lastPauseTime.Some? ==>
      e == lastPauseTime.value - startTime.value - pausedTime
    ensures startTime.Some? && !(state == Paused && lastPauseTime.Some?) ==>
      e == now - startTime.value - pausedTime
  {
    if startTime.None? then 0
    else
      var elapsed := now - startTime.value - pausedTime;
      if state == Paused && lastPauseTime.Some? then elapsed - (now - lastPauseTime.value)
      else elapsed
  }

  /** Outside an open pause the clock advances exactly with the wall clock. */
  lemma ElapsedAdvancesWithClock(startTime: int, pausedTime: int, lastPauseTime: Option<int>,
                                 state: RecordingState, now1: int, now2: int)
    requires !(state == Paused && lastPauseTime.Some?)
    ensures ElapsedMs(Some(startTime), pausedTime, lastPauseTime, state, now2)
          - ElapsedMs(Some(startTime), pausedTime, lastPauseTime, state, now1) == now2 - now1
  {
  }

  /** Opening a pause at `now` does not change the reading at `now`. */
  lemma PauseKeepsElapsed(startTime: int, pausedTime: int, now: int)
    ensures ElapsedMs(Some(startTime), pausedTime, Some(now), Paused, now)
         == ElapsedMs(Some(startTime), pausedTime, None, Recording, now)
  {
  }

  /** Folding the open pause into pausedTime on resume keeps the frozen reading. */
  lemma ResumeKeepsElapsed(startTime: int, pausedTime: int, pauseStart: int, now: int)
    ensures ElapsedMs(Some(startTime), pausedTime + (now - pauseStart), None, Recording, now)
         == ElapsedMs(Some(startTime), pausedTime, Some(pauseStart), Paused, now)
  {
  }

  /** Stopping from paused does not fold the open pause in: the stopped clock
      counts the paused interval and keeps growing with `now`. */
  lemma StopFromPausedCountsPause(startTime: int, pausedTime: int, pauseStart: int, now: int)
    ensures ElapsedMs(Some(startTime), pausedTime, Some(pauseStart), Stopped, now)
         == ElapsedMs(Some(startTime), pausedTime, Some(pauseStart), Paused, now) + (now - pauseStart)
  {
  }

  // ---------------------------------------------------------------------
  // The movement filter and the per-fix speed (updatePosition)
  // ---------------------------------------------------------------------

  /** The distance the handler uses: the widget's distance to the last
      point, or 0 when there is no last point. */
  function FixDistance(lastPoint: Option<MapPoint>, widgetDistance: real): real
  {
    if lastPoint.Some? then widgetDistance else 0.0
  }

  /** A fix is kept unless its distance is below the movement threshold. */
  predicate FixAccepted(lastPoint: Option<MapPoint>, widgetDistance: real)
    ensures FixAccepted(lastPoint, widgetDistance) <==> lastPoint.Some? && widgetDistance >= MoveThreshold
  {
    !(FixDistance(lastPoint, widgetDistance) < MoveThreshold)
  }

  /** The speed pushed for a kept fix: its distance over one sampling
      period, or 0 while the clock has not advanced. */
  function FixSpeed(dist: real, elapsedMs: int): (v: real)
    ensures elapsedMs > 0 ==> v == dist
    ensures elapsedMs <= 0 ==> v == 0.0
  {
    if elapsedMs > 0 then dist / (UpdateInterval as real / 1000.0) else 0.0
  }

  // ---------------------------------------------------------------------
  // The recent-speed window
  // ---------------------------------------------------------------------

  /** The last `n` elements of `s` (all of `s` when it is shorter). */
  function LastN(s: seq<real>, n: nat): (r: seq<real>)
    ensures |r| == if |s| <= n then |s| else n
    ensures r == s[|s| - |r|..]
  {
    if |s| <= n then s else s[|s| - n..]
  }

  /** push followed by shift-when-over-capacity. */
  function Push(window: seq<real>, speed: real): (w: seq<real>)
    ensures |window| <= SmoothingWindow ==> |w| <= SmoothingWindow
    ensures 0 < |w| <= |window| + 1 && w[|w| - 1] == speed
    ensures w == (window + [speed])[|window| + 1 - |w|..]
  {
    var pushed := window + [speed];
    if |pushed| > SmoothingWindow then pushed[1..] else pushed
  }

  /** FIFO eviction: a window that holds the last five speeds of a history
      holds the last five of the history extended by one speed after a push. */
  lemma PushKeepsLastFive(history: seq<real>, speed: real)
    ensures Push(LastN(history, SmoothingWindow), speed) == LastN(history + [speed], SmoothingWindow)
  {
    var h := history + [speed];
    if |history| >= SmoothingWindow {
      assert LastN(history, SmoothingWindow) + [speed] == h[|h| - SmoothingWindow - 1..];
    }
  }

  /** The per-fix history of a session: equally many distances and speeds,
      every distance at least the movement threshold, and every speed either
      that fix's distance over one sampling period or 0. */
  predicate KeptFixes(distances: seq<real>, speeds: seq<real>)
  {
    && |distances| == |speeds|
    && (distances != [] ==>
      var d, v := distances[|distances| - 1], speeds[|speeds| - 1];
      && KeptFixes(distances[..|distances| - 1], speeds[..|speeds| - 1])
      && d >= MoveThreshold && (v == d || v == 0.0))
  }

  lemma KeptFixesSnoc(distances: seq<real>, speeds: seq<real>, d: real, v: real)
    requires KeptFixes(distances, speeds)
    requires d >= MoveThreshold && (v == d || v == 0.0)
    ensures KeptFixes(distances + [d], speeds + [v])
  {
    assert (distances + [d])[..|distances|] == distances;
    assert (speeds + [v])[..|speeds|] == speeds;
  }

  /** The element-wise reading of the history invariant. */
  lemma {:induction false} KeptFixesElements(distances: seq<real>, speeds: seq<real>, i: int)
    requires KeptFixes(distances, speeds) && 0 <= i < |distances|
    ensures distances[i] >= MoveThreshold && (speeds[i] == distances[i] || speeds[i] == 0.0)
    decreases |distances|
  {
    if i < |distances| - 1 {
      KeptFixesElements(distances[..|distances| - 1], speeds[..|speeds| - 1], i);
    }
  }

  /** Since every kept fix moved at least the threshold, the session
      distance is at least the threshold times the number of kept fixes. */
  lemma {:induction false} KeptFixesDistance(distances: seq<real>, speeds: seq<real>)
    requires KeptFixes(distances, speeds)
    ensures Sum(distances) >= |distances| as real * MoveThreshold
    decreases |distances|
  {
    if distances != [] {
      KeptFixesDistance(distances[..|distances| - 1], speeds[..|speeds| - 1]);
    }
  }

  function Sum(s: seq<real>): real
  {
    if s == [] then 0.0 else Sum(s[..|s| - 1]) + s[|s| - 1]
  }

  lemma SumSnoc(s: seq<real>, x: real)
    ensures Sum(s + [x]) == Sum(s) + x
  {
    assert (s + [x])[..|s|] == s;
  }

  /** The displayed speed in m/s: the window mean, or 0 for an empty window. */
  function WindowMean(s: seq<real>): (m: real)
    ensures |s| == 0 ==> m == 0.0
    ensures |s| > 0 ==> m * |s| as real == Sum(s)
  {
    if |s| > 0 then Sum(s) / |s| as real else 0.0
  }

  lemma {:induction false} SumBounds(s: seq<real>, lo: real, hi: real)
    requires forall i :: 0 <= i < |s| ==> lo <= s[i] <= hi
    ensures |s| as real * lo <= Sum(s) <= |s| as real * hi
    decreases |s|
  {
    if s != [] {
      SumBounds(s[..|s| - 1], lo, hi);
    }
  }

  /** The mean lies between any lower and upper bound of the window. */
  lemma MeanWithinBounds(s: seq<real>, lo: real, hi: real)
    requires |s| > 0
    requires forall i :: 0 <= i < |s| ==> lo <= s[i] <= hi
    ensures lo <= WindowMean(s) <= hi
  {
    SumBounds(s, lo, hi);
    var n := |s| as real;
    assert Sum(s) / n >= lo by {
      assert Sum(s) >= n * lo;
    }
    assert Sum(s) / n <= hi by {
      assert Sum(s) <= n * hi;
    }
  }

  /** A window holding one speed throughout shows that speed. */
  lemma MeanOfConstant(s: seq<real>, v: real)
    requires |s| > 0
    requires forall i :: 0 <= i < |s| ==> s[i] == v
    ensures WindowMean(s) == v
  {
    MeanWithinBounds(s, v, v);
  }

  // ---------------------------------------------------------------------
  // Display arithmetic (updateStats)
  // ---------------------------------------------------------------------

  /** JavaScript's `%`: the remainder takes the sign of the dividend. */
  function JsRem(a: int, b: int): (r: int)
    requires b > 0
    ensures a >= 0 ==> r == a % b
    ensures a < 0 ==> -b < r <= 0
  {
    if a >= 0 then a % b else -((-a) % b)
  }

  datatype Hms = Hms(hours: int, minutes: int, seconds: int)

  /** The HH:MM:SS fields shown for an elapsed time in milliseconds:
      floor(e / 3600), floor((e % 3600) / 60) and floor(e % 60) for
      e = ms / 1000 seconds, with JavaScript's `%`. */
  function SplitHms(elapsedMs: int): (t: Hms)
    ensures elapsedMs >= 0 ==> t.hours >= 0 && 0 <= t.minutes < 60 && 0 <= t.seconds < 60
    ensures elapsedMs < 0 ==> t.hours < 0 && -60 <= t.minutes <= 0 && -60 <= t.seconds <= 0
  {
    Hms(elapsedMs / 3600000, JsRem(elapsedMs, 3600000) / 60000, JsRem(elapsedMs, 60000) / 1000)
  }

  /** For a non-negative clock the three fields recompose the whole seconds. */
  lemma SplitHmsRecomposes(elapsedMs: int)
    requires elapsedMs >= 0
    ensures var t := SplitHms(elapsedMs);
      && t.hours >= 0 && 0 <= t.minutes < 60 && 0 <= t.seconds < 60
      && t.hours * 3600 + t.minutes * 60 + t.seconds == elapsedMs / 1000
  {
    var h := elapsedMs / 3600000;
    var r := elapsedMs % 3600000;
    assert elapsedMs == 3600000 * h + r;
    var m := r / 60000;
    var r2 := r % 60000;
    assert r == 60000 * m + r2;
    assert elapsedMs == 60000 * (60 * h + m) + r2;
    assert elapsedMs % 60000 == r2;
    var s := r2 / 1000;
    assert r2 == 1000 * s + r2 % 1000;
    assert elapsedMs == 1000 * (3600 * h + 60 * m + s) + r2 % 1000;
    assert elapsedMs / 1000 == 3600 * h + 60 * m + s;
  }

  /** The displayed speed in km/h. */
  function SpeedKmh(speedMps: real): real
  {
    speedMps * 3.6
  }

  /** Minutes per kilometre, or 0 when not moving. */
  function PaceMinPerKm(speedKmh: real): real
  {
    if speedKmh > 0.0 then 60.0 / speedKmh else 0.0
  }

  datatype Pace = NoPace | Pace(minutes: int, seconds: int)

  /** The pace field: M:SS when 0 < pace < 99, the dash otherwise. */
  function PaceDisplay(speedKmh: real): (p: Pace)
    ensures p.Pace? <==> 0.0 < PaceMinPerKm(speedKmh) < 99.0
    ensures p.Pace? ==> p.minutes as real <= PaceMinPerKm(speedKmh) < p.minutes as real + 1.0
    ensures p.Pace? ==> p.seconds as real <= (PaceMinPerKm(speedKmh) - p.minutes as real) * 60.0
                                            < p.seconds as real + 1.0
  {
    var pace := PaceMinPerKm(speedKmh);
    if 0.0 < pace < 99.0 then
      var m := pace.Floor;
      Pace(m, ((pace - m as real) * 60.0).Floor)
    else NoPace
  }

  /** A pace is shown exactly when the speed exceeds 60/99 km/h. */
  lemma PaceShownIff(speedKmh: real)
    ensures PaceDisplay(speedKmh).Pace? <==> speedKmh * 99.0 > 60.0
  {
    if speedKmh > 0.0 {
      var pace := 60.0 / speedKmh;
      assert pace * speedKmh == 60.0;
      if pace < 99.0 {
        assert speedKmh * 99.0 > pace * speedKmh;
      }
      if speedKmh * 99.0 > 60.0 {
        assert pace * speedKmh < 99.0 * speedKmh;
      }
    }
  }

  /** A shown pace has fewer than 99 whole minutes and 0..59 seconds. */
  lemma PaceFieldsInRange(speedKmh: real)
    requires PaceDisplay(speedKmh).Pace?
    ensures 0 <= PaceDisplay(speedKmh).minutes < 99
    ensures 0 <= PaceDisplay(speedKmh).seconds < 60
  {
    var pace := PaceMinPerKm(speedKmh);
    var m := pace.Floor;
    var frac := pace - m as real;
    assert 0.0 <= frac < 1.0;
    assert 0.0 <= frac * 60.0 < 60.0;
  }

  /** Everything updateStats writes to the panel. */
  datatype SessionSnapshot = SessionSnapshot(distanceKm: real, time: Hms, speedKmh: real, pace: Pace)

  function Snapshot(totalDistance: real, elapsedMs: int, window: seq<real>): SessionSnapshot
  {
    var kmh := SpeedKmh(WindowMean(window));
    SessionSnapshot(totalDistance / 1000.0, SplitHms(elapsedMs), kmh, PaceDisplay(kmh))
  }

  // ---------------------------------------------------------------------
  // Announcement throttles
  // ---------------------------------------------------------------------

  /** The whole-kilometre throttle: announce when the floor of the distance
      in km exceeds the last announced value; the new value is returned. */
  function KmAnnouncement(totalDistance: real, lastAnnounced: int): (r: Option<int>)
    ensures r.Some? ==> r.value > lastAnnounced
    ensures r.Some? ==> r.value as real * 1000.0 <= totalDistance < (r.value + 1) as real * 1000.0
    ensures r.None? <==> totalDistance < (lastAnnounced + 1) as real * 1000.0
  {
    var km := (totalDistance / 1000.0).Floor;
    if km > lastAnnounced then Some(km) else None
  }

  /** The ten-minute throttle: announce at a positive multiple of ten whole
      minutes that has not been announced yet. */
  function MinuteAnnouncement(elapsedMs: int, lastAnnounced: int): (r: Option<int>)
    ensures r.Some? ==> r.value > 0 && r.value % 10 == 0 && r.value > lastAnnounced
    ensures r.Some? ==> r.value * 60000 <= elapsedMs < (r.value + 1) * 60000
    ensures r.Some? <==>
      elapsedMs / 60000 > 0 && (elapsedMs / 60000) % 10 == 0 && elapsedMs / 60000 > lastAnnounced
    ensures r.Some? ==> r.value == elapsedMs / 60000
  {
    var minutes := elapsedMs / 60000;
    if minutes > 0 && minutes % 10 == 0 && minutes > lastAnnounced then Some(minutes) else None
  }

  /** Once a kilometre has been announced, it is not announced again until
      the next whole kilometre is reached. */
  lemma KmAnnouncedOnce(d1: real, d2: real, lastAnnounced: int)
    requires KmAnnouncement(d1, lastAnnounced).Some?
    requires d2 < (KmAnnouncement(d1, lastAnnounced).value + 1) as real * 1000.0
    ensures KmAnnouncement(d2, KmAnnouncement(d1, lastAnnounced).value).None?
  {
  }

  // ---------------------------------------------------------------------
  // The saved record (saveTrack)
  // ---------------------------------------------------------------------

  /** The track row saveTrack inserts (user, name and weather omitted). */
  datatype TrackData = TrackData(
    totalDistance: real,
    totalTime: int,
    avgSpeed: real,
    maxSpeed: real,
    startTime: int,
    endTime: int)

  /** avg_speed: distance over whole seconds, 0 when no whole second passed. */
  function AverageSpeed(totalDistance: real, totalTime: int): (v: real)
    ensures totalTime > 0 ==> v * totalTime as real == totalDistance
    ensures totalTime <= 0 ==> v == 0.0
  {
    if totalTime > 0 then totalDistance / totalTime as real else 0.0
  }

  /** max_speed: the largest speed in the window, 0 for an empty window. */
  function MaxSpeed(window: seq<real>): (m: real)
    ensures |window| == 0 ==> m == 0.0
    ensures |window| > 0 ==> m in window
    ensures forall i :: 0 <= i < |window| ==> window[i] <= m
  {
    if |window| == 0 then 0.0
    else if |window| == 1 then window[0]
    else
      var rest := MaxSpeed(window[..|window| - 1]);
      if window[|window| - 1] > rest then window[|window| - 1] else rest
  }

  /** The row built at stop: total_time is the clock floored to whole seconds. */
  function TrackDataOf(totalDistance: real, startTime: int, elapsedMs: int, window: seq<real>, endTime: int): (t: TrackData)
    ensures t.totalTime * 1000 <= elapsedMs < (t.totalTime + 1) * 1000
    ensures t.totalTime > 0 ==> t.avgSpeed * t.totalTime as real == totalDistance
    ensures t.totalTime <= 0 ==> t.avgSpeed == 0.0
    ensures |window| == 0 ==> t.maxSpeed == 0.0
    ensures |window| > 0 ==> t.maxSpeed in window
    ensures forall i :: 0 <= i < |window| ==> window[i] <= t.maxSpeed
    ensures t.totalDistance == totalDistance && t.startTime == startTime && t.endTime == endTime
  {
    var totalTime := elapsedMs / 1000;
    TrackData(totalDistance, totalTime, AverageSpeed(totalDistance, totalTime), MaxSpeed(window), startTime, endTime)
  }

  /** The point rows: the i-th path point gets sequence i and the time stamp
      startTime + i sampling periods. */
  function PointRecords(trackId: string, path: seq<MapPoint>, startTime: int): (pts: seq<TrackPoint>)
    ensures |pts| == |path|
    ensures forall i :: 0 <= i < |path| ==>
      && pts[i].sequence == i
      && pts[i].timestamp == startTime + i * UpdateInterval
      && pts[i].latitude == path[i].lat && pts[i].longitude == path[i].lng
      && pts[i].trackId == Some(trackId)
  {
    seq(|path|, i requires 0 <= i < |path| =>
      TrackPoint(Some(trackId), path[i].lat, path[i].lng, startTime + i * UpdateInterval, i))
  }

  /** Sequence numbers are gapless and time stamps strictly increasing. */
  lemma PointRecordsOrdered(trackId: string, path: seq<MapPoint>, startTime: int, i: int, j: int)
    requires 0 <= i < j < |path|
    ensures PointRecords(trackId, path, startTime)[j].sequence - PointRecords(trackId, path, startTime)[i].sequence == j - i
    ensures PointRecords(trackId, path, startTime)[i].timestamp < PointRecords(trackId, path, startTime)[j].timestamp
  {
  }

  // ---------------------------------------------------------------------
  // History statistics (loadStats)
  // ---------------------------------------------------------------------

  datatype Stats = Stats(totalDistanceKm: real, totalTimeHours: real, totalCount: nat, avgSpeedKmh: real)

  /** The statistics panel: nothing without a user; otherwise the summed
      distance in km, summed time in hours, the count and their ratio. */
  function LoadStats(loggedIn: bool, tracks: seq<HikingTrack>): (r: Option<Stats>)
    ensures r.None? <==> !loggedIn
    ensures r.Some? ==> r.value.totalCount == |tracks|
    ensures r.Some? ==> r.value.totalDistanceKm * 1000.0 == SumDistance(tracks)
    ensures r.Some? ==> r.value.totalTimeHours * 3600.0 == SumTime(tracks) as real
    ensures r.Some? && r.value.totalTimeHours > 0.0 ==>
      r.value.avgSpeedKmh * r.value.totalTimeHours == r.value.totalDistanceKm
    ensures r.Some? && r.value.totalTimeHours <= 0.0 ==> r.value.avgSpeedKmh == 0.0
  {
    if !loggedIn then None
    else
      var km := SumDistance(tracks) / 1000.0;
      var hours := SumTime(tracks) as real / 3600.0;
      Some(Stats(km, hours, |tracks|, if hours > 0.0 then km / hours else 0.0))
  }

  /** Adding a track to the front of the history adds its distance and time
      to the totals and one to the count. */
  lemma StatsAfterAddTrack(t: HikingTrack, tracks: seq<HikingTrack>)
    ensures LoadStats(true, [t] + tracks).value.totalCount == LoadStats(true, tracks).value.totalCount + 1
    ensures LoadStats(true, [t] + tracks).value.totalDistanceKm
         == LoadStats(true, tracks).value.totalDistanceKm + t.totalDistance / 1000.0
    ensures SumTime([t] + tracks) == t.totalTime + SumTime(tracks)
  {
    SumDistancePrepend(t, tracks);
    SumTimeAppend([t], tracks);
    assert [t][..0] == [];
  }
}
