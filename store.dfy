/** The application store of src/stores/appStore.ts: a record-shaped state
    that every update replaces by a key-wise merge (object spread), and a
    set of listeners called after each update. The record is a map from the
    store's field names to values; each listener is an opaque identifier and
    calling it is modelled by appending it to a call log. */
module Store {
  import Types

  /** The keys of the store's state record. */
  datatype Field =
    | CurrentUser | RecordingState | CurrentTrack | Tracks | Path
    | TotalDistance | StartTime | PausedTime | Weather | Goals | Achievements
    | ShowHistory | ShowGoals | ShowAchievements | ShowStats

  /** The values those keys hold. The signed-in user is reduced to its id;
      a start time is a millisecond time stamp. */
  datatype Value =
    | UserValue(user: Types.Option<string>)
    | StateValue(state: Types.RecordingState)
    | TrackValue(track: Types.Option<Types.HikingTrack>)
    | TracksValue(tracks: seq<Types.HikingTrack>)
    | PathValue(points: seq<Types.TrackPoint>)
    | NumberValue(number: real)
    | DateValue(date: Types.Option<int>)
    | WeatherValue(weather: Types.Option<Types.WeatherData>)
    | GoalsValue(goals: seq<Types.Goal>)
    | AchievementsValue(achievements: seq<Types.Achievement>)
    | FlagValue(flag: bool)

  /** The declared type of each key. */
  predicate HasType(f: Field, v: Value)
  {
    match f
    case CurrentUser => v.UserValue?
    case RecordingState => v.StateValue?
    case CurrentTrack => v.TrackValue?
    case Tracks => v.TracksValue?
    case Path => v.PathValue?
    case TotalDistance => v.NumberValue?
    case StartTime => v.DateValue?
    case PausedTime => v.NumberValue?
    case Weather => v.WeatherValue?
    case Goals => v.GoalsValue?
    case Achievements => v.AchievementsValue?
    case ShowHistory => v.FlagValue?
    case ShowGoals => v.FlagValue?
    case ShowAchievements => v.FlagValue?
    case ShowStats => v.FlagValue?
  }

  type Record = map<Field, Value>

  /** A partial record (`Partial<typeof state>`): every key it has holds a
      value of that key's type. */
  predicate WellTyped(u: Record)
  {
    forall f :: f in u ==> HasType(f, u[f])
  }

  /** A full state record: every key present, with its declared type. */
  predicate Complete(s: Record)
  {
    WellTyped(s) && forall f: Field :: f in s
  }

  /** A record holding each of the fifteen keys holds every key. */
  lemma EveryField(s: Record)
    requires CurrentUser in s && RecordingState in s && CurrentTrack in s && Tracks in s
    requires Path in s && TotalDistance in s && StartTime in s && PausedTime in s
    requires Weather in s && Goals in s && Achievements in s && ShowHistory in s
    requires ShowGoals in s && ShowAchievements in s && ShowStats in s
    ensures forall f: Field :: f in s
  {
    forall f: Field
      ensures f in s
    {
      match f
      case CurrentUser =>
      case RecordingState =>
      case CurrentTrack =>
      case Tracks =>
      case Path =>
      case TotalDistance =>
      case StartTime =>
      case PausedTime =>
      case Weather =>
      case Goals =>
      case Achievements =>
      case ShowHistory =>
      case ShowGoals =>
      case ShowAchievements =>
      case ShowStats =>
    }
  }

  /** The state the store starts with: no key is missing (the types of
      its values are checked by InitialComplete). */
  function InitialState(): (s: Record)
    ensures forall f: Field :: f in s
  {
    var s := map[
      CurrentUser := UserValue(Types.None),
      RecordingState := StateValue(Types.Stopped),
      CurrentTrack := TrackValue(Types.None),
      Tracks := TracksValue([]),
      Path := PathValue([]),
      TotalDistance := NumberValue(0.0),
      StartTime := DateValue(Types.None),
      PausedTime := NumberValue(0.0),
      Weather := WeatherValue(Types.None),
      Goals := GoalsValue([]),
      Achievements := AchievementsValue([]),
      ShowHistory := FlagValue(false),
      ShowGoals := FlagValue(false),
      ShowAchievements := FlagValue(false),
      ShowStats := FlagValue(false)];
    EveryField(s);
    s
  }

  /** The initial state is a full record: stopped, with no track, no
      path, no distance and every dialog closed. */
  lemma InitialComplete()
    ensures Complete(InitialState())
    ensures var s := InitialState();
      && s[RecordingState] == StateValue(Types.Stopped)
      && s[Tracks] == TracksValue([]) && s[Path] == PathValue([])
      && s[TotalDistance] == NumberValue(0.0) && s[PausedTime] == NumberValue(0.0)
      && s[ShowHistory] == s[ShowGoals] == s[ShowAchievements] == s[ShowStats] == FlagValue(false)
  {
    var s := InitialState();
    forall f: Field
      ensures f in s && HasType(f, s[f])
    {
      match f
      case CurrentUser =>
      case RecordingState =>
      case CurrentTrack =>
      case Tracks =>
      case Path =>
      case TotalDistance =>
      case StartTime =>
      case PausedTime =>
      case Weather =>
      case Goals =>
      case Achievements =>
      case ShowHistory =>
      case ShowGoals =>
      case ShowAchievements =>
      case ShowStats =>
    }
  }

  /** `{ ...state, ...updates }`: the keys of both, each key of the updates
      with its new value and every other key with its old one. */
  function Merge(s: Record, u: Record): (r: Record)
    ensures r.Keys == s.Keys + u.Keys
    ensures forall f :: f in u ==> r[f] == u[f]
    ensures forall f :: f in s && f !in u ==> r[f] == s[f]
  {
    s + u
  }

  /** Merging well-typed updates into a full state gives a full state. */
  lemma MergeComplete(s: Record, u: Record)
    requires Complete(s) && WellTyped(u)
    ensures Complete(Merge(s, u))
  {
    var r := Merge(s, u);
    forall f | f in r
      ensures HasType(f, r[f])
    {
      if f in u {
        assert HasType(f, u[f]);
      } else {
        assert HasType(f, s[f]);
      }
    }
  }

  /** An empty update changes nothing. */
  lemma MergeEmpty(s: Record)
    ensures Merge(s, map[]) == s
  {
  }

  /** Two successive updates are one update with the later values winning. */
  lemma MergeSequence(s: Record, u: Record, v: Record)
    ensures Merge(Merge(s, u), v) == Merge(s, Merge(u, v))
  {
    var left := Merge(Merge(s, u), v);
    var right := Merge(s, Merge(u, v));
    assert left.Keys == right.Keys;
    forall f | f in left
      ensures left[f] == right[f]
    {
    }
  }

  /** Repeating an update changes nothing more. */
  lemma MergeIdempotent(s: Record, u: Record)
    ensures Merge(Merge(s, u), u) == Merge(s, u)
  {
    MergeSequence(s, u, u);
    assert Merge(u, u) == u;
  }

  // ---------------------------------------------------------------------
  // The helpers' updates
  // ---------------------------------------------------------------------

  /** The update of addTrack: the new track in front of the old list. */
  function AddTrackUpdate(s: Record, track: Types.HikingTrack): Record
    requires Complete(s)
  {
    map[Tracks := TracksValue([track] + s[Tracks].tracks)]
  }

  /** The update of startTracking at time `now`. */
  function StartUpdate(now: int): Record
  {
    map[RecordingState := StateValue(Types.Recording), StartTime := DateValue(Types.Some(now)),
        TotalDistance := NumberValue(0.0), Path := PathValue([]), PausedTime := NumberValue(0.0)]
  }

  /** The update of stopTracking. */
  function StopUpdate(): Record
  {
    map[RecordingState := StateValue(Types.Stopped)]
  }

  /** The four dialog flags toggleModal accepts. */
  datatype Modal = History | GoalsModal | AchievementsModal | Stats

  function ModalField(m: Modal): (f: Field)
    ensures f.ShowHistory? || f.ShowGoals? || f.ShowAchievements? || f.ShowStats?
  {
    match m
    case History => ShowHistory
    case GoalsModal => ShowGoals
    case AchievementsModal => ShowAchievements
    case Stats => ShowStats
  }

  /** The update of toggleModal: the named flag negated. */
  function ToggleUpdate(s: Record, m: Modal): Record
    requires Complete(s)
  {
    map[ModalField(m) := FlagValue(!s[ModalField(m)].flag)]
  }

  /** addTrack prepends: the new list is the track followed by the old
      list, one longer, and nothing else changes. */
  lemma AddTrackPrepends(s: Record, track: Types.HikingTrack)
    requires Complete(s)
    ensures var r := Merge(s, AddTrackUpdate(s, track));
      && Complete(r)
      && r[Tracks].tracks == [track] + s[Tracks].tracks
      && |r[Tracks].tracks| == |s[Tracks].tracks| + 1
      && r[Tracks].tracks[0] == track && r[Tracks].tracks[1..] == s[Tracks].tracks
      && forall f :: f != Tracks ==> r[f] == s[f]
  {
    MergeComplete(s, AddTrackUpdate(s, track));
  }

  /** startTracking resets the session keys and leaves the user, the track
      list, the weather and every other key as they were. */
  lemma StartResetsSession(s: Record, now: int)
    requires Complete(s)
    ensures var r := Merge(s, StartUpdate(now));
      && Complete(r)
      && r[RecordingState] == StateValue(Types.Recording)
      && r[StartTime] == DateValue(Types.Some(now))
      && r[TotalDistance] == NumberValue(0.0) && r[PausedTime] == NumberValue(0.0)
      && r[Path] == PathValue([])
      && forall f :: f !in {RecordingState, StartTime, TotalDistance, Path, PausedTime} ==> r[f] == s[f]
  {
    MergeComplete(s, StartUpdate(now));
  }

  /** stopTracking changes only the recording state, to stopped. */
  lemma StopChangesOnlyState(s: Record)
    requires Complete(s)
    ensures var r := Merge(s, StopUpdate());
      && Complete(r)
      && r[RecordingState] == StateValue(Types.Stopped)
      && forall f :: f != RecordingState ==> r[f] == s[f]
  {
    MergeComplete(s, StopUpdate());
  }

  /** toggleModal flips exactly the named flag. */
  lemma ToggleFlipsOne(s: Record, m: Modal)
    requires Complete(s)
    ensures var r := Merge(s, ToggleUpdate(s, m));
      && Complete(r)
      && r[ModalField(m)].flag == !s[ModalField(m)].flag
      && forall f :: f != ModalField(m) ==> r[f] == s[f]
  {
    MergeComplete(s, ToggleUpdate(s, m));
  }

  /** Toggling the same flag twice restores the state. */
  lemma ToggleTwice(s: Record, m: Modal)
    requires Complete(s)
    ensures var r := Merge(s, ToggleUpdate(s, m));
      Merge(r, ToggleUpdate(r, m)) == s
  {
    ToggleFlipsOne(s, m);
    var r := Merge(s, ToggleUpdate(s, m));
    var t := Merge(r, ToggleUpdate(r, m));
    assert t.Keys == s.Keys;
    assert HasType(ModalField(m), s[ModalField(m)]);
  }

  // ---------------------------------------------------------------------
  // Listeners
  // ---------------------------------------------------------------------

  /** A subscribed callback, known by an identifier. */
  type Listener = nat

  /** A JavaScript Set iterates in insertion order and holds no duplicate. */
  predicate Distinct(ls: seq<Listener>)
  {
    forall i, j :: 0 <= i < j < |ls| ==> ls[i] != ls[j]
  }

  /** Set.add: appended unless already present. */
  function Add(ls: seq<Listener>, l: Listener): (r: seq<Listener>)
    ensures l in r
    ensures forall x :: x in r <==> x in ls || x == l
    ensures l !in ls ==> r == ls + [l]
    ensures l in ls ==> r == ls
  {
    if l in ls then ls else ls + [l]
  }

  /** Set.delete: exactly the given listener removed, the rest in order. */
  function Remove(ls: seq<Listener>, l: Listener): (r: seq<Listener>)
    ensures l !in r
    ensures forall x :: x in r <==> x in ls && x != l
    ensures |r| <= |ls|
  {
    if ls == [] then []
    else (if ls[0] == l then [] else [ls[0]]) + Remove(ls[1..], l)
  }

  /** Adding keeps a listener list free of duplicates. */
  lemma AddDistinct(ls: seq<Listener>, l: Listener)
    requires Distinct(ls)
    ensures Distinct(Add(ls, l))
  {
  }

  /** Removing keeps a listener list free of duplicates. */
  lemma {:induction false} RemoveDistinct(ls: seq<Listener>, l: Listener)
    requires Distinct(ls)
    ensures Distinct(Remove(ls, l))
    decreases |ls|
  {
    if ls != [] {
      assert Distinct(ls[1..]) by {
        forall i, j | 0 <= i < j < |ls[1..]|
          ensures ls[1..][i] != ls[1..][j]
        {
          assert ls[1..][i] == ls[i + 1] && ls[1..][j] == ls[j + 1];
        }
      }
      RemoveDistinct(ls[1..], l);
      assert ls[0] !in ls[1..];
      assert ls[0] !in Remove(ls[1..], l);
    }
  }

  /** Removing a listener that is not there changes nothing. */
  lemma {:induction false} RemoveAbsent(ls: seq<Listener>, l: Listener)
    requires l !in ls
    ensures Remove(ls, l) == ls
    decreases |ls|
  {
    if ls != [] {
      assert ls[1..] + [] == ls[1..];
      RemoveAbsent(ls[1..], l);
      assert [ls[0]] + ls[1..] == ls;
    }
  }

  /** Unsubscribing right after subscribing a new listener restores the
      list. */
  lemma {:induction false} UnsubscribeUndoesSubscribe(ls: seq<Listener>, l: Listener)
    requires l !in ls
    ensures Remove(Add(ls, l), l) == ls
    decreases |ls|
  {
    if ls == [] {
      assert Add(ls, l) == [l];
      assert Remove([l], l) == [] + Remove([], l);
    } else {
      var a := Add(ls, l);
      assert a[0] == ls[0] && a[1..] == Add(ls[1..], l);
      UnsubscribeUndoesSubscribe(ls[1..], l);
      assert [ls[0]] + ls[1..] == ls;
    }
  }

  class AppStore {
    var state: Record
    var listeners: seq<Listener>
    /** Every listener called so far, in call order. */
    var calls: seq<Listener>

    ghost predicate Valid()
      reads this`state, this`listeners
    {
      Complete(state) && Distinct(listeners)
    }

    /** The exported singleton: the initial state and no listener. */
    constructor ()
      ensures Valid() && state == InitialState() && listeners == [] && calls == []
    {
      InitialComplete();
      state := InitialState();
      listeners := [];
      calls := [];
    }

    /** subscribe: adds the listener; the returned closure is Unsubscribe. */
    method Subscribe(l: Listener)
      requires Valid()
      modifies this`listeners
      ensures Valid() && listeners == Add(old(listeners), l)
    {
      AddDistinct(listeners, l);
      listeners := Add(listeners, l);
    }

    /** The closure subscribe returns: deletes the listener. */
    method Unsubscribe(l: Listener)
      requires Valid()
      modifies this`listeners
      ensures Valid() && listeners == Remove(old(listeners), l)
    {
      RemoveDistinct(listeners, l);
      listeners := Remove(listeners, l);
    }

    /** notify: each current listener called once, in insertion order. */
    method Notify()
      modifies this`calls
      ensures calls == old(calls) + listeners
    {
      var i := 0;
      while i < |listeners|
        invariant 0 <= i <= |listeners|
        invariant calls == old(calls) + listeners[..i]
      {
        calls := calls + [listeners[i]];
        i := i + 1;
      }
      assert listeners[..i] == listeners;
    }

    /** setState: the merge, then one call of every listener. */
    method SetState(updates: Record)
      requires Valid() && WellTyped(updates)
      modifies this`state, this`calls
      ensures Valid()
      ensures state == Merge(old(state), updates)
      ensures calls == old(calls) + listeners
    {
      MergeComplete(state, updates);
      state := Merge(state, updates);
      Notify();
    }

    method SetRecordingState(s: Types.RecordingState)
      requires Valid()
      modifies this`state, this`calls
      ensures Valid() && state == old(state)[RecordingState := StateValue(s)]
      ensures calls == old(calls) + listeners
    {
      SetState(map[RecordingState := StateValue(s)]);
    }

    method SetCurrentUser(user: Types.Option<string>)
      requires Valid()
      modifies this`state, this`calls
      ensures Valid() && state == old(state)[CurrentUser := UserValue(user)]
      ensures calls == old(calls) + listeners
    {
      SetState(map[CurrentUser := UserValue(user)]);
    }

    method SetTracks(tracks: seq<Types.HikingTrack>)
      requires Valid()
      modifies this`state, this`calls
      ensures Valid() && state == old(state)[Tracks := TracksValue(tracks)]
      ensures calls == old(calls) + listeners
    {
      SetState(map[Tracks := TracksValue(tracks)]);
    }

    method SetWeather(weather: Types.WeatherData)
      requires Valid()
      modifies this`state, this`calls
      ensures Valid() && state == old(state)[Weather := WeatherValue(Types.Some(weather))]
      ensures calls == old(calls) + listeners
    {
      SetState(map[Weather := WeatherValue(Types.Some(weather))]);
    }

    method SetGoals(goals: seq<Types.Goal>)
      requires Valid()
      modifies this`state, this`calls
      ensures Valid() && state == old(state)[Goals := GoalsValue(goals)]
      ensures calls == old(calls) + listeners
    {
      SetState(map[Goals := GoalsValue(goals)]);
    }

    method SetAchievements(achievements: seq<Types.Achievement>)
      requires Valid()
      modifies this`state, this`calls
      ensures Valid() && state == old(state)[Achievements := AchievementsValue(achievements)]
      ensures calls == old(calls) + listeners
    {
      SetState(map[Achievements := AchievementsValue(achievements)]);
    }

    /** addTrack: the new track in front of the stored list. */
    method AddTrack(track: Types.HikingTrack)
      requires Valid()
      modifies this`state, this`calls
      ensures Valid() && state == Merge(old(state), AddTrackUpdate(old(state), track))
      ensures state[Tracks].tracks == [track] + old(state)[Tracks].tracks
      ensures calls == old(calls) + listeners
    {
      SetState(AddTrackUpdate(state, track));
    }

    method UpdateDistance(distance: real)
      requires Valid()
      modifies this`state, this`calls
      ensures Valid() && state == old(state)[TotalDistance := NumberValue(distance)]
      ensures calls == old(calls) + listeners
    {
      SetState(map[TotalDistance := NumberValue(distance)]);
    }

    /** startTracking; `now` is the clock reading `new Date()` takes. */
    method StartTracking(now: int)
      requires Valid()
      modifies this`state, this`calls
      ensures Valid() && state == Merge(old(state), StartUpdate(now))
      ensures calls == old(calls) + listeners
    {
      SetState(StartUpdate(now));
    }

    method StopTracking()
      requires Valid()
      modifies this`state, this`calls
      ensures Valid() && state == Merge(old(state), StopUpdate())
      ensures calls == old(calls) + listeners
    {
      SetState(StopUpdate());
    }

    method ToggleModal(m: Modal)
      requires Valid()
      modifies this`state, this`calls
      ensures Valid() && state == Merge(old(state), ToggleUpdate(old(state), m))
      ensures state[ModalField(m)].flag == !old(state)[ModalField(m)].flag
      ensures calls == old(calls) + listeners
    {
      assert HasType(ModalField(m), state[ModalField(m)]);
      SetState(ToggleUpdate(state, m));
    }
  }
}
