/** Short sessions driven through the objects, each with the outcome the
    contracts of the handlers determine. */
module Scenarios {
  import opened Types
  import opened SessionMath
  import Recorder
  import Prototype
  import Store

  /** Before the initial position is known there is no last point, so a
      fix is dropped even while recording. */
  method FixBeforeSeed() returns (points: int, total: real)
    ensures points == 0 && total == 0.0
  {
    var r := new Recorder.RecordingEngine();
    r.StartTracking(0);
    var km, minutes := r.UpdatePosition(MapPoint(30.0001, 120.0), 10.0, 1000);
    points, total := |r.path|, r.totalDistance;
  }

  /** A pause from 5 s to 15 s: the clock shows 5 s throughout the pause
      and 10 s at 20 s. */
  method PauseAndResume() returns (during: int, after: int)
    ensures during == 5000 && after == 10000
  {
    var r := new Recorder.RecordingEngine();
    r.StartTracking(0);
    assert r.recordingState == Recording && r.startTime == Some(0) && r.pausedTime == 0;
    r.PauseTracking(5000);
    assert r.recordingState == Paused && r.lastPauseTime == Some(5000);
    assert r.startTime == Some(0) && r.pausedTime == 0;
    during := r.ElapsedTime(12000);
    assert during == 5000;
    r.ResumeTracking(15000);
    assert r.recordingState == Recording && r.startTime == Some(0) && r.pausedTime == 10000;
    after := r.ElapsedTime(20000);
  }

  /** The prototype: seeded, one 12 m fix kept, then reset; a 100 m fix
      after the reset is dropped and the clock restarts. */
  method PrototypeSession() returns (before: real, after: int, reading: Option<Prototype.Reading>)
    ensures before == 12.0 && after == 0
    ensures reading == Some(Prototype.Reading(2.0, 0.0))
  {
    var p := new Prototype.PrototypeTracker();
    p.InitMapAndTracking(30.0, 120.0, 0);
    p.UpdatePosition(MapPoint(30.0001, 120.0), 12.0);
    before := p.totalDistance;
    p.Reset(10000);
    p.UpdatePosition(MapPoint(30.0002, 120.0), 100.0);
    after := |p.path|;
    reading := p.UpdateTime(12000);
  }

  /** The store: each update calls every current listener once, in
      subscription order; toggling a dialog twice leaves it closed. */
  method StoreNotifies() returns (calls: seq<Store.Listener>, open: bool)
    ensures calls == [1, 2, 2] && !open
  {
    var s := new Store.AppStore();
    s.Subscribe(1);
    s.Subscribe(2);
    s.ToggleModal(Store.History);
    s.Unsubscribe(1);
    s.ToggleModal(Store.History);
    calls, open := s.calls, s.state[Store.ShowHistory].flag;
  }
}
