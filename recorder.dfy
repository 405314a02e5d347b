/** The recording engine of src/main.ts: the module-level session variables
    as the fields of one object, the command handlers (start, pause, resume,
    stop, reset) and the per-fix handler as methods, and the GPX export as a
    loop. Wall-clock time `now` (integer milliseconds) and the map widget's
    distance from the last point to a new fix are inputs. */
module Recorder {
  import opened Types
  import opened SessionMath
  import Gpx

  /** What saveTrack builds: the track row and its point rows. */
  datatype SavedTrack = SavedTrack(track: TrackData, points: seq<TrackPoint>)

  /** What stopTracking does besides changing state: the save it attempts
      (when a user is signed in and the path is not empty) and the distance
      in km and whole minutes it announces. */
  datatype StopReport =
    | AlreadyStopped
    | Finished(saved: Option<SavedTrack>, announcedKm: real, announcedMinutes: int)

  /** What the session variables hold about the fixes kept since the last
      start or reset: one path point, distance and speed per fix, the point
      counter and the total agreeing with them, and the window holding the
      last five speeds. */
  ghost predicate SessionHistory(path: seq<MapPoint>, pointSequence: int, distances: seq<real>,
    speeds: seq<real>, totalDistance: real, recentSpeeds: seq<real>)
  {
    && pointSequence == |path|
    && |distances| == |path|
    && KeptFixes(distances, speeds)
    && totalDistance == Sum(distances)
    && recentSpeeds == LastN(speeds, SmoothingWindow)
  }

  /** A session with no kept fix satisfies the history invariant. */
  lemma HistoryEmpty()
    ensures SessionHistory([], 0, [], [], 0.0, [])
  {
  }

  /** Keeping one more fix preserves the history invariant. */
  lemma HistoryKeep(path: seq<MapPoint>, pointSequence: int, distances: seq<real>, speeds: seq<real>,
    totalDistance: real, recentSpeeds: seq<real>, point: MapPoint, dist: real, speed: real)
    requires SessionHistory(path, pointSequence, distances, speeds, totalDistance, recentSpeeds)
    requires dist >= MoveThreshold && (speed == dist || speed == 0.0)
    ensures SessionHistory(path + [point], pointSequence + 1, distances + [dist], speeds + [speed],
      totalDistance + dist, Push(recentSpeeds, speed))
  {
    SumSnoc(distances, dist);
    KeptFixesSnoc(distances, speeds, dist, speed);
    PushKeepsLastFive(speeds, speed);
  }

  class RecordingEngine {
    var path: seq<MapPoint>
    var totalDistance: real
    var startTime: Option<int>
    var pausedTime: int
    var lastPauseTime: Option<int>
    var lastPoint: Option<MapPoint>
    var recordingState: RecordingState
    var pointSequence: int
    var lastDistanceAnnounced: int
    var lastTimeAnnounced: int
    var recentSpeeds: seq<real>

    /** The distance and the speed of every fix kept since the last start
        or reset, in order. */
    ghost var distances: seq<real>
    ghost var speeds: seq<real>

    ghost predicate Valid()
      reads this`recordingState, this`startTime, this`lastPauseTime, this`pointSequence,
        this`path, this`distances, this`speeds, this`totalDistance, this`recentSpeeds
      ensures Valid() ==> |recentSpeeds| <= SmoothingWindow
    {
      && (recordingState != Stopped ==> startTime.Some?)
      && (recordingState == Paused ==> lastPauseTime.Some?)
      && (recordingState == Recording ==> lastPauseTime.None?)
      && SessionHistory(path, pointSequence, distances, speeds, totalDistance, recentSpeeds)
    }

    /** The initial values of the module-level variables. */
    constructor ()
      ensures Valid()
      ensures path == [] && totalDistance == 0.0 && startTime == None && pausedTime == 0
      ensures lastPauseTime == None && lastPoint == None && recordingState == Stopped
      ensures pointSequence == 0 && lastDistanceAnnounced == 0 && lastTimeAnnounced == 0
      ensures recentSpeeds == []
    {
      path, totalDistance, startTime, pausedTime := [], 0.0, None, 0;
      lastPauseTime, lastPoint, recordingState := None, None, Stopped;
      pointSequence, lastDistanceAnnounced, lastTimeAnnounced := 0, 0, 0;
      recentSpeeds := [];
      distances, speeds := [], [];
    }

    /** initMapView: the averaged initial position becomes the last point. */
    method InitMapView(start: MapPoint)
      requires Valid()
      modifies this`lastPoint
      ensures Valid() && lastPoint == Some(start)
    {
      lastPoint := Some(start);
    }

    /** getElapsedTime at wall-clock `now`. */
    function ElapsedTime(now: int): int
      reads this`startTime, this`pausedTime, this`lastPauseTime, this`recordingState
    {
      ElapsedMs(startTime, pausedTime, lastPauseTime, recordingState, now)
    }

    /** In a paused session the clock shows the same value at any two times. */
    lemma ClockFrozenWhilePaused(now1: int, now2: int)
      requires Valid() && recordingState == Paused
      ensures ElapsedTime(now1) == ElapsedTime(now2)
    {
    }

    /** In a recording session the clock advances exactly with the wall clock. */
    lemma ClockRunsWhileRecording(now1: int, now2: int)
      requires Valid() && recordingState == Recording
      ensures ElapsedTime(now2) - ElapsedTime(now1) == now2 - now1
    {
    }

    /** The values updateStats writes to the panel at `now`. */
    function UpdateStats(now: int): (s: SessionSnapshot)
      reads this
      ensures s.distanceKm * 1000.0 == totalDistance
      ensures s.time == SplitHms(ElapsedTime(now))
      ensures s.speedKmh == SpeedKmh(WindowMean(recentSpeeds)) && s.pace == PaceDisplay(s.speedKmh)
      ensures recentSpeeds == [] ==> s.speedKmh == 0.0 && s.pace == NoPace
      ensures s.pace.Pace? <==> s.speedKmh * 99.0 > 60.0
    {
      PaceShownIff(SpeedKmh(WindowMean(recentSpeeds)));
      Snapshot(totalDistance, ElapsedTime(now), recentSpeeds)
    }

    /** Once five or more fixes have been kept, the window is exactly the
        last five per-fix speeds, and the shown speed is their mean. */
    lemma WindowIsLastFive(now: int)
      requires Valid() && |speeds| >= SmoothingWindow
      ensures recentSpeeds == speeds[|speeds| - SmoothingWindow..]
      ensures UpdateStats(now).speedKmh == SpeedKmh(WindowMean(speeds[|speeds| - SmoothingWindow..]))
    {
    }

    /** startTracking: only from stopped; resets the session and starts the
        clock, but keeps the last point. */
    method StartTracking(now: int)
      requires Valid()
      modifies this`recordingState, this`path, this`totalDistance, this`pausedTime,
        this`lastPauseTime, this`pointSequence, this`recentSpeeds, this`lastDistanceAnnounced,
        this`lastTimeAnnounced, this`startTime, this`distances, this`speeds
      ensures Valid()
      ensures old(recordingState) != Stopped ==> unchanged(this)
      ensures old(recordingState) == Stopped ==>
        && recordingState == Recording && startTime == Some(now)
        && path == [] && totalDistance == 0.0 && pausedTime == 0 && lastPauseTime == None
        && pointSequence == 0 && recentSpeeds == [] && lastDistanceAnnounced == 0
        && lastTimeAnnounced == 0 && distances == [] && speeds == []
      ensures lastPoint == old(lastPoint)
    {
      if recordingState == Stopped {
        HistoryEmpty();
        recordingState, path, totalDistance, pausedTime, lastPauseTime, pointSequence, recentSpeeds,
          lastDistanceAnnounced, lastTimeAnnounced, startTime, distances, speeds :=
          Recording, [], 0.0, 0, None, 0, [], 0, 0, Some(now), [], [];
      }
    }

    /** pauseTracking: only from recording; opens a pause at `now`. The
        clock reading at `now` is unchanged and stays frozen afterwards. */
    method PauseTracking(now: int)
      requires Valid()
      modifies this`recordingState, this`lastPauseTime
      ensures Valid()
      ensures old(recordingState) != Recording ==> unchanged(this)
      ensures old(recordingState) == Recording ==>
        recordingState == Paused && lastPauseTime == Some(now)
      ensures ElapsedMs(startTime, pausedTime, lastPauseTime, recordingState, now)
        == ElapsedMs(old(startTime), old(pausedTime), old(lastPauseTime), old(recordingState), now)
    {
      if recordingState != Recording {
        return;
      }
      recordingState := Paused;
      lastPauseTime := Some(now);
    }

    /** resumeTracking: only from paused; folds the closed pause into
        pausedTime, so the clock resumes from its frozen reading. */
    method ResumeTracking(now: int)
      requires Valid()
      modifies this`recordingState, this`pausedTime, this`lastPauseTime
      ensures Valid()
      ensures old(recordingState) != Paused ==> unchanged(this)
      ensures old(recordingState) == Paused ==>
        && recordingState == Recording && lastPauseTime == None
        && pausedTime == old(pausedTime) + (now - old(lastPauseTime).value)
      ensures ElapsedMs(startTime, pausedTime, lastPauseTime, recordingState, now)
        == ElapsedMs(old(startTime), old(pausedTime), old(lastPauseTime), old(recordingState), now)
    {
      if recordingState != Paused {
        return;
      }
      recordingState := Recording;
      if lastPauseTime.Some? {
        pausedTime := pausedTime + (now - lastPauseTime.value);
        lastPauseTime := None;
      }
    }

    /** updatePosition with its fix callback: outside recording, or for a
        fix closer than the threshold (which every fix is while there is no
        last point), nothing changes. A kept fix is appended, its distance
        added, its speed pushed into the window, and the whole-km and
        ten-minute throttles run. */
    method UpdatePosition(point: MapPoint, widgetDistance: real, now: int)
      returns (announcedKm: Option<real>, announcedMinutes: Option<int>)
      requires Valid()
      modifies this`path, this`totalDistance, this`recentSpeeds, this`lastDistanceAnnounced,
        this`lastTimeAnnounced, this`lastPoint, this`pointSequence, this`distances, this`speeds
      ensures Valid()
      ensures !(old(recordingState) == Recording && FixAccepted(old(lastPoint), widgetDistance)) ==>
        unchanged(this) && announcedKm == None && announcedMinutes == None
      ensures old(recordingState) == Recording && FixAccepted(old(lastPoint), widgetDistance) ==>
        var elapsed := ElapsedMs(startTime, pausedTime, lastPauseTime, recordingState, now);
        var speed := FixSpeed(widgetDistance, elapsed);
        var km := KmAnnouncement(totalDistance, old(lastDistanceAnnounced));
        var minutes := MinuteAnnouncement(elapsed, old(lastTimeAnnounced));
        && path == old(path) + [point]
        && totalDistance == old(totalDistance) + widgetDistance
        && lastPoint == Some(point)
        && pointSequence == old(pointSequence) + 1
        && recentSpeeds == Push(old(recentSpeeds), speed)
        && distances == old(distances) + [widgetDistance]
        && speeds == old(speeds) + [speed]
        && lastDistanceAnnounced == (if km.Some? then km.value else old(lastDistanceAnnounced))
        && announcedKm == (if km.Some? then Some(totalDistance / 1000.0) else None)
        && lastTimeAnnounced == (if minutes.Some? then minutes.value else old(lastTimeAnnounced))
        && announcedMinutes == minutes
    {
      announcedKm, announcedMinutes := None, None;
      if recordingState != Recording {
        return;
      }
      var dist := FixDistance(lastPoint, widgetDistance);
      if dist < MoveThreshold {
        return;
      }
      var elapsed := ElapsedTime(now);
      KeepFix(point, dist, FixSpeed(dist, elapsed));

      var km := KmAnnouncement(totalDistance, lastDistanceAnnounced);
      if km.Some? {
        lastDistanceAnnounced := km.value;
        announcedKm := Some(totalDistance / 1000.0);
      }
      announcedMinutes := MinuteAnnouncement(elapsed, lastTimeAnnounced);
      if announcedMinutes.Some? {
        lastTimeAnnounced := announcedMinutes.value;
      }
    }

    /** The bookkeeping for a kept fix: the point is appended and becomes the
        last point, its distance is added and its speed is pushed into the
        window. */
    method KeepFix(point: MapPoint, dist: real, speed: real)
      requires Valid() && dist >= MoveThreshold && (speed == dist || speed == 0.0)
      modifies this`path, this`totalDistance, this`recentSpeeds, this`lastPoint,
        this`pointSequence, this`distances, this`speeds
      ensures Valid()
      ensures path == old(path) + [point] && lastPoint == Some(point)
      ensures totalDistance == old(totalDistance) + dist && distances == old(distances) + [dist]
      ensures recentSpeeds == Push(old(recentSpeeds), speed) && speeds == old(speeds) + [speed]
      ensures pointSequence == old(pointSequence) + 1
    {
      HistoryKeep(path, pointSequence, distances, speeds, totalDistance, recentSpeeds, point, dist, speed);
      path, totalDistance, distances, recentSpeeds, speeds, lastPoint, pointSequence :=
        path + [point], totalDistance + dist, distances + [dist], Push(recentSpeeds, speed),
        speeds + [speed], Some(point), pointSequence + 1;
    }

    /** resetTracking: clears the session, the clock and the last point and
        returns to stopped; the announcement counters are not reset. */
    method ResetTracking()
      requires Valid()
      modifies this`path, this`totalDistance, this`startTime, this`pausedTime,
        this`lastPauseTime, this`lastPoint, this`pointSequence, this`recentSpeeds,
        this`recordingState, this`distances, this`speeds
      ensures Valid()
      ensures path == [] && totalDistance == 0.0 && startTime == None && pausedTime == 0
      ensures lastPauseTime == None && lastPoint == None && pointSequence == 0
      ensures recentSpeeds == [] && recordingState == Stopped
    {
      HistoryEmpty();
      path, totalDistance, startTime, pausedTime, lastPauseTime, lastPoint := [], 0.0, None, 0, None, None;
      pointSequence, recentSpeeds, recordingState, distances, speeds := 0, [], Stopped, [], [];
    }

    /** saveTrack's records, built from the current state at `now`: none
        when there is no start time (the source's non-null assertion fails). */
    function SaveTrack(now: int, trackId: string): (r: Option<SavedTrack>)
      reads this
      ensures r.None? <==> startTime.None?
      ensures r.Some? ==>
        && r.value.track.totalDistance == totalDistance
        && r.value.track.totalTime * 1000 <= ElapsedTime(now) < (r.value.track.totalTime + 1) * 1000
        && r.value.track.startTime == startTime.value && r.value.track.endTime == now
        && (r.value.track.totalTime > 0 ==>
              r.value.track.avgSpeed * r.value.track.totalTime as real == totalDistance)
        && (r.value.track.totalTime <= 0 ==> r.value.track.avgSpeed == 0.0)
        && (|recentSpeeds| == 0 ==> r.value.track.maxSpeed == 0.0)
        && (|recentSpeeds| > 0 ==> r.value.track.maxSpeed in recentSpeeds)
        && (forall i :: 0 <= i < |recentSpeeds| ==> recentSpeeds[i] <= r.value.track.maxSpeed)
        && |r.value.points| == |path|
        && (forall i :: 0 <= i < |path| ==>
              r.value.points[i].sequence == i
              && r.value.points[i].timestamp == startTime.value + i * UpdateInterval
              && r.value.points[i].latitude == path[i].lat && r.value.points[i].longitude == path[i].lng
              && r.value.points[i].trackId == Some(trackId))
    {
      if startTime.None? then None
      else Some(SavedTrack(
        TrackDataOf(totalDistance, startTime.value, ElapsedTime(now), recentSpeeds, now),
        PointRecords(trackId, path, startTime.value)))
    }

    /** stopTracking: nothing when already stopped. Otherwise the state
        becomes stopped (an open pause is not folded in, so the saved time
        counts it), the track is saved when a user is signed in and the path
        is not empty, the stop is announced, and the session is reset when
        the user confirms. */
    method StopTracking(now: int, signedIn: bool, confirmReset: bool, trackId: string)
      returns (report: StopReport)
      requires Valid()
      modifies this`path, this`totalDistance, this`startTime, this`pausedTime,
        this`lastPauseTime, this`lastPoint, this`pointSequence, this`recentSpeeds,
        this`recordingState, this`distances, this`speeds
      ensures Valid() && recordingState == Stopped
      ensures old(recordingState) == Stopped ==> unchanged(this) && report == AlreadyStopped
      ensures old(recordingState) != Stopped ==>
        var elapsed := ElapsedMs(old(startTime), old(pausedTime), old(lastPauseTime), Stopped, now);
        report == Finished(
          if signedIn && |old(path)| > 0
          then Some(SavedTrack(
            TrackDataOf(old(totalDistance), old(startTime).value, elapsed, old(recentSpeeds), now),
            PointRecords(trackId, old(path), old(startTime).value)))
          else None,
          old(totalDistance) / 1000.0,
          elapsed / 60000)
      ensures old(recordingState) != Stopped && confirmReset ==>
        && path == [] && totalDistance == 0.0 && startTime == None && pausedTime == 0
        && lastPauseTime == None && lastPoint == None && pointSequence == 0 && recentSpeeds == []
      ensures old(recordingState) != Stopped && !confirmReset ==>
        && path == old(path) && totalDistance == old(totalDistance) && startTime == old(startTime)
        && pausedTime == old(pausedTime) && lastPauseTime == old(lastPauseTime)
        && lastPoint == old(lastPoint) && pointSequence == old(pointSequence)
        && recentSpeeds == old(recentSpeeds) && distances == old(distances) && speeds == old(speeds)
    {
      if recordingState == Stopped {
        return AlreadyStopped;
      }
      ghost var elapsed := ElapsedMs(startTime, pausedTime, lastPauseTime, Stopped, now);
      recordingState := Stopped;
      assert ElapsedTime(now) == elapsed;
      var saved := None;
      if signedIn && |path| > 0 {
        saved := SaveTrack(now, trackId);
        assert saved == Some(SavedTrack(
          TrackDataOf(totalDistance, startTime.value, elapsed, recentSpeeds, now),
          PointRecords(trackId, path, startTime.value)));
      }
      report := Finished(saved, totalDistance / 1000.0, ElapsedTime(now) / 60000);
      if confirmReset {
        ResetTracking();
      }
    }

    /** generateGPX: nothing to export for an empty path; otherwise the
        document with one track point per path point, in path order. */
    method GenerateGpx(now: string, dateLabel: string, show: real -> string)
      returns (gpx: Option<string>)
      ensures |path| == 0 ==> gpx == None
      ensures |path| > 0 ==> gpx == Some(Gpx.Document(path, now, dateLabel, show))
    {
      if |path| == 0 {
        return None;
      }
      var header := Gpx.Header(now, dateLabel);
      var content := header;
      var i := 0;
      while i < |path|
        invariant 0 <= i <= |path|
        invariant content == header + Gpx.Trkpts(path[..i], now, show)
      {
        Gpx.TrkptsStep(header, path, i, now, show);
        content := content + Gpx.Trkpt(path[i], now, show);
        i := i + 1;
      }
      assert path[..i] == path;
      content := content + Gpx.Footer;
      gpx := Some(content);
    }
  }
}
