/** Record shapes shared by the recorder, the store and the achievement
    evaluator: the declarations of src/types/index.ts, with time stamps as
    integer milliseconds and distances as reals. */
module Types {

  datatype Option<+T> = None | Some(value: T)

  /** The three states of the recording command machine. */
  datatype RecordingState = Stopped | Recording | Paused

  /** A map-widget point as the recorder keeps it in its path. */
  datatype MapPoint = MapPoint(lat: real, lng: real)

  /** A stored track point; `timestamp` is in milliseconds since the epoch. */
  datatype TrackPoint = TrackPoint(
    trackId: Option<string>,
    latitude: real,
    longitude: real,
    timestamp: int,
    sequence: int)

  datatype WeatherData = WeatherData(
    temperature: int,
    condition: string,
    humidity: int,
    windSpeed: int)

  /** A completed session as stored by the backend: distance in metres,
      time in whole seconds. */
  datatype HikingTrack = HikingTrack(
    id: string,
    userId: string,
    name: string,
    totalDistance: real,
    totalTime: int,
    avgSpeed: real,
    maxSpeed: real,
    startTime: string,
    endTime: Option<string>,
    createdAt: string,
    updatedAt: string,
    weather: Option<WeatherData>)

  datatype GoalType = DistanceGoal | TimeGoal | FrequencyGoal
  datatype GoalPeriod = Daily | Weekly | Monthly

  datatype Goal = Goal(
    id: string,
    userId: string,
    kind: GoalType,
    target: real,
    current: real,
    period: GoalPeriod,
    createdAt: string)

  datatype Achievement = Achievement(
    id: string,
    name: string,
    description: string,
    icon: string,
    unlocked: bool,
    unlockedAt: Option<string>)

  /** The sum of `total_distance` over a list of tracks (the reduction both
      the statistics panel and the achievement evaluator perform). */
  function SumDistance(tracks: seq<HikingTrack>): real
  {
    if tracks == [] then 0.0
    else SumDistance(tracks[..|tracks| - 1]) + tracks[|tracks| - 1].totalDistance
  }

  /** The sum of `total_time` over a list of tracks. */
  function SumTime(tracks: seq<HikingTrack>): (t: int)
    ensures (forall i :: 0 <= i < |tracks| ==> tracks[i].totalTime >= 0) ==> t >= 0
  {
    if tracks == [] then 0
    else SumTime(tracks[..|tracks| - 1]) + tracks[|tracks| - 1].totalTime
  }

  /** Summing distances distributes over concatenation of track lists. */
  lemma {:induction false} SumDistanceAppend(a: seq<HikingTrack>, b: seq<HikingTrack>)
    ensures SumDistance(a + b) == SumDistance(a) + SumDistance(b)
    decreases |b|
  {
    if b == [] {
      assert a + b == a;
    } else {
      assert (a + b)[..|a + b| - 1] == a + b[..|b| - 1];
      SumDistanceAppend(a, b[..|b| - 1]);
    }
  }

  /** Summing times distributes over concatenation of track lists. */
  lemma {:induction false} SumTimeAppend(a: seq<HikingTrack>, b: seq<HikingTrack>)
    ensures SumTime(a + b) == SumTime(a) + SumTime(b)
    decreases |b|
  {
    if b == [] {
      assert a + b == a;
    } else {
      assert (a + b)[..|a + b| - 1] == a + b[..|b| - 1];
      SumTimeAppend(a, b[..|b| - 1]);
    }
  }

  /** Prepending a track adds its distance to the total. */
  lemma SumDistancePrepend(t: HikingTrack, rest: seq<HikingTrack>)
    ensures SumDistance([t] + rest) == t.totalDistance + SumDistance(rest)
  {
    SumDistanceAppend([t], rest);
    assert [t][..0] == [];
  }

  /** Distances that are all non-negative sum to a non-negative total. */
  lemma {:induction false} SumDistanceNonNegative(tracks: seq<HikingTrack>)
    requires forall i :: 0 <= i < |tracks| ==> tracks[i].totalDistance >= 0.0
    ensures SumDistance(tracks) >= 0.0
    decreases |tracks|
  {
    if tracks != [] {
      SumDistanceNonNegative(tracks[..|tracks| - 1]);
    }
  }
}
