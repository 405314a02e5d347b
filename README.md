# iHiker tracking core in Dafny

iHiker is a browser hiking tracker. This project models its five pieces of
sequential logic:

- **Recording engine** (`src/main.ts`). The session variables are the fields of
  the class `Recorder.RecordingEngine`, and each command handler is a method:
  start, pause, resume, stop, reset and the per-fix `updatePosition`.
  `getElapsedTime`, the `updateStats` arithmetic, the `saveTrack` records and
  the `loadStats` aggregates are functions in `SessionMath`. `generateGPX` is
  a loop proved against the document defined in `Gpx`.
- **Achievement evaluator** (`src/services/achievementService.ts`). The
  twelve-entry catalog is a field of `Achievements.AchievementService`.
  `checkAchievements` applies its ten `if`s to that field one after the
  other. It is proved equal to the rule run `Achievements.Run`, and the
  guarantees a caller relies on are lemmas about the run.
- **App store** (`src/stores/appStore.ts`). `Store.AppStore` holds the state
  record as a map from field name to value, since a JavaScript spread is a map
  override. It also holds the listener set as a duplicate-free sequence in
  insertion order, plus a log of listener calls. `notify` is a loop over the
  listeners.
- **Prototype tracker** (`script.js`). `Prototype.PrototypeTracker` is the
  single-page predecessor: it seeds the path with the start point, uses the
  same 5 m movement filter, has no pause, and shows an overall-average speed.
- **Weather classifier** (`src/services/weatherService.ts`). Weather condition
  codes map to nine conditions: eight bands plus "unknown". The emoji lookup
  has a default.

Wall-clock time is an input `now` in integer milliseconds. The map widget's
distance from the last point to a new fix is also an input: a real number,
taken as given.

Three behaviours of the code shape the model:

- With no last point the handler takes the distance of a fix as 0. The first
  fix of a session is therefore rejected, and so is every later one until a
  last point exists (`SessionMath.FixAccepted`, `Scenarios.FixBeforeSeed`).
- `checkAchievements` unlocks catalog entries in place. It re-reports
  `first_step` whenever the list holds exactly one track
  (`Achievements.CheckTwice`).
- `stopTracking` sets `stopped` before it reads the clock. After a stop from
  `paused` the open pause therefore counts as elapsed time
  (`SessionMath.StopFromPausedCountsPause`, used by
  `Recorder.RecordingEngine.StopTracking`).

## Model

| member | source | states |
|---|---|---|
| Types.SumDistanceAppend | src/services/achievementService.ts:139 | the summed distance of two track lists joined is the sum of their sums |
| Types.SumDistanceNonNegative | src/main.ts:777 | total distance over tracks of non-negative distance is non-negative |
| Types.SumTime | src/main.ts:778 | total time over tracks of non-negative time is non-negative |
| Weather.GetWeatherCondition | src/services/weatherService.ts:40-50 | code 0 is clear, every negative code is in the cloudy band, every code above 99 is unknown |
| Weather.ConditionMatchesBands | src/services/weatherService.ts:41-49 | the classifier returns a condition exactly when the code lies in that condition's band (strictly above the previous band's inclusive bound, at most its own) |
| Weather.ConditionMonotone | src/services/weatherService.ts:41-49 | for non-negative codes a larger code never yields an earlier band |
| Weather.GetWeatherEmoji | src/services/weatherService.ts:52-64 | a label in the table gets its entry, and the default is returned exactly for strings not in the table |
| Weather.EmojiForConditions | src/services/weatherService.ts:52-64 | each of the eight band labels is in the table and gets a non-default emoji; the unknown label gets the default |
| Weather.EmojiDefaultForOtherStrings | src/services/weatherService.ts:63 | any string that is not a band label gets the default emoji |
| Weather.ConditionTextInjective | src/services/weatherService.ts:41-49 | distinct conditions have distinct labels, so the table lookup is unambiguous |
| SessionMath.ElapsedMs | src/main.ts:256-264 | 0 with no start time; while paused with a pause open, pause start minus start minus paused time, whatever `now` is; otherwise `now` minus start minus paused time |
| SessionMath.ElapsedAdvancesWithClock | src/main.ts:259-263 | outside an open pause, elapsed grows exactly as fast as the clock |
| SessionMath.PauseKeepsElapsed | src/main.ts:131-134 | pausing at `now` leaves elapsed at `now` unchanged |
| SessionMath.ResumeKeepsElapsed | src/main.ts:146-149 | resuming a pause folds it into the paused time, so elapsed just after resume equals the frozen value |
| SessionMath.StopFromPausedCountsPause | src/main.ts:157-162 | after a stop from paused, elapsed exceeds the frozen paused value by the length of the open pause |
| SessionMath.FixAccepted | src/main.ts:213-214 | a fix is kept exactly when there is a last point and its distance from it is at least 5 m |
| SessionMath.FixSpeed | src/main.ts:224-225 | the per-fix speed is the distance over one second when elapsed is positive, else 0 |
| SessionMath.Push | src/main.ts:227-230 | pushing then shifting keeps at most five speeds, ends with the new speed, and is a suffix of the old window plus the new speed |
| SessionMath.PushKeepsLastFive | src/main.ts:227-230 | pushing onto the last five speeds of a history gives the last five speeds of the longer history |
| SessionMath.KeptFixesElements | src/main.ts:213-225 | every kept fix moved at least 5 m, and its speed is its distance or 0 |
| SessionMath.KeptFixesDistance | src/main.ts:214-222 | the total of kept distances is at least 5 m times the number of kept fixes |
| SessionMath.WindowMean | src/main.ts:282-284 | 0 for an empty window; otherwise the mean times the window length is the window's sum |
| SessionMath.MeanWithinBounds | src/main.ts:282-284 | the window mean lies between any lower and upper bound on the window's speeds |
| SessionMath.MeanOfConstant | src/main.ts:282-284 | the mean of a window of equal speeds is that speed |
| SessionMath.JsRem | src/main.ts:277-278 | JavaScript's truncating remainder: Euclidean for non-negative dividends, in (-b, 0] for negative ones |
| SessionMath.SplitHms | src/main.ts:276-278 | for a non-negative clock, hours at least 0 and minutes and seconds in [0, 60); for a negative one, hours below 0 and minutes and seconds in [-60, 0], as JavaScript's `%` gives |
| SessionMath.SplitHmsRecomposes | src/main.ts:276-278 | for non-negative elapsed time, hours·3600 + minutes·60 + seconds is the whole seconds elapsed, with minutes and seconds below 60 |
| SessionMath.PaceDisplay | src/main.ts:288-294 | a pace is shown exactly when 0 < 60 / km/h < 99; its minutes are the floor of that pace and its seconds the floor of the fractional minutes times 60 |
| SessionMath.PaceShownIff | src/main.ts:288-294 | a pace is shown exactly when 60 / km/h lies strictly between 0 and 99 |
| SessionMath.PaceFieldsInRange | src/main.ts:289-294 | a shown pace has minutes in [0, 99) and seconds in [0, 60) |
| SessionMath.KmAnnouncement | src/main.ts:234-238 | a km announcement happens exactly when the total reaches the next whole km above the last announced one, and announces the whole km reached |
| SessionMath.MinuteAnnouncement | src/main.ts:240-244 | an announcement happens exactly when the whole minutes elapsed are a positive multiple of ten above the last announced value, and it announces those minutes |
| SessionMath.KmAnnouncedOnce | src/main.ts:235-236 | after announcing km k, no further announcement happens until the total reaches k + 1 km |
| SessionMath.AverageSpeed | src/main.ts:335 | the average speed times the total seconds is the total distance, and 0 when no second has passed |
| SessionMath.MaxSpeed | src/main.ts:336 | the maximum is a window element at least as large as every element, and 0 for an empty window |
| SessionMath.TrackDataOf | src/main.ts:333-349 | the track row holds whole elapsed seconds, the average and maximum speeds as above, and the session's distance, start and end |
| SessionMath.PointRecords | src/main.ts:365-371 | one record per path point, the i-th with the point's coordinates, sequence i and timestamp start + i·1000 |
| SessionMath.PointRecordsOrdered | src/main.ts:369-370 | record sequence numbers differ by position, and timestamps strictly increase along the path |
| SessionMath.LoadStats | src/main.ts:765-780 | nothing for a signed-out user; otherwise the count, total km, total hours and km/h of the track list, the km/h being 0 when the total hours are not positive |
| SessionMath.StatsAfterAddTrack | src/main.ts:777-779 | prepending a track adds one to the count and its km to the total |
| Gpx.TrkptsAppend | src/main.ts:550-555 | the track points of two paths joined are the points of each, in order |
| Gpx.TrkptsAt | src/main.ts:550-555 | the export holds point i's `trkpt`, stamped with the metadata time, between the elements of the points before and after it |
| Recorder.HistoryKeep | src/main.ts:219-247 | keeping a fix keeps the session invariant: sequence equals path length, total equals the sum of kept distances, window equals the last five speeds |
| Recorder.RecordingEngine.constructor | src/main.ts:11-30 | the module variables start empty, zero, null and `stopped` |
| Recorder.RecordingEngine.InitMapView | src/main.ts:69-77 | the initial position becomes the last point and nothing else changes |
| Recorder.RecordingEngine.ClockFrozenWhilePaused | src/main.ts:256-264 | in a paused session `getElapsedTime` reads the same at any two times |
| Recorder.RecordingEngine.ClockRunsWhileRecording | src/main.ts:256-264 | in a recording session `getElapsedTime` advances exactly with the wall clock |
| Recorder.RecordingEngine.UpdateStats | src/main.ts:270-295 | the distance shown is the total in km and the time the HH:MM:SS split of the clock; the speed is the window mean times 3.6 and the pace is derived from it (so `WindowMean` and `PaceDisplay` give their values for any window); an empty window shows 0 km/h and no pace; a pace is shown exactly when km/h times 99 exceeds 60 |
| Recorder.RecordingEngine.WindowIsLastFive | src/main.ts:282-285 | after five or more kept fixes the window is exactly the last five per-fix speeds, and the shown speed is their mean in km/h |
| Recorder.RecordingEngine.StartTracking | src/main.ts:95-126 | from stopped only: resets path, total, pause data, sequence, window and both announce counters, starts the clock at `now`, keeps the last point; otherwise nothing changes |
| Recorder.RecordingEngine.PauseTracking | src/main.ts:128-138 | from recording only: records the pause start and moves to paused; elapsed at `now` is unchanged |
| Recorder.RecordingEngine.ResumeTracking | src/main.ts:140-154 | from paused only: adds the pause length to the paused time, clears the pause start, moves to recording; elapsed at `now` is unchanged |
| Recorder.RecordingEngine.UpdatePosition | src/main.ts:204-254 | a fix outside recording, or below 5 m, or with no last point, changes nothing; an accepted one appends the point, adds its distance, advances the sequence, pushes its speed and runs both announce throttles |
| Recorder.RecordingEngine.KeepFix | src/main.ts:219-230 | keeping a fix appends it to the path, adds its distance, pushes its speed and keeps the session invariant |
| Recorder.RecordingEngine.ResetTracking | src/main.ts:297-324 | clears the path, total, clock, pause data, last point, sequence and window, and moves to stopped |
| Recorder.RecordingEngine.SaveTrack | src/main.ts:326-371 | nothing without a start time; otherwise the row carries whole elapsed seconds, the total, start and end, the average speed (total over seconds, 0 when no whole second passed) and the window maximum (0 for an empty window), plus one point record per path point with the track id, the point's coordinates, sequence from 0 and 1000 ms time steps |
| Recorder.RecordingEngine.StopTracking | src/main.ts:156-179 | a stop when stopped changes nothing; otherwise it moves to stopped, reports the save attempted (signed in and non-empty path), the km and minutes announced, and clears the session exactly when the user confirms |
| Recorder.RecordingEngine.GenerateGpx | src/main.ts:532-562 | nothing for an empty path; otherwise the loop builds exactly the header, one `trkpt` per point in path order, and the footer |
| Achievements.Catalog | src/services/achievementService.ts:6-91 | twelve entries, the i-th being the entry of the i-th key |
| Achievements.CatalogFits | src/services/achievementService.ts:6-91 | the initial catalog has each key's id, name, description and icon at its position, and nothing unlocked |
| Achievements.IdTextInjective | src/services/achievementService.ts:6-91 | the twelve ids are pairwise distinct |
| Achievements.FindId | src/services/achievementService.ts:156 | `find` returns the first position holding the id, or nothing when no entry has it |
| Achievements.FindInCatalog | src/services/achievementService.ts:156 | on a catalog-shaped list, looking up a key's id finds the key's position |
| Achievements.IsUnlockedByKey | src/services/achievementService.ts:164-166 | on a catalog-shaped list, a catalog id reads that entry's flag and any other id reads false |
| Achievements.IsUnlockedIn | src/services/achievementService.ts:164-166 | true exactly when an entry with the id exists and the first one is unlocked |
| Achievements.Unlock | src/services/achievementService.ts:158-159 | the entry becomes unlocked at the given time and keeps its id, name, description and icon |
| Achievements.MarkUnlocked | src/services/achievementService.ts:155-160 | only the first entry with the id is unlocked; all others are unchanged; an unknown id changes nothing |
| Achievements.UnlockResult | src/services/achievementService.ts:155-162 | the returned entry is the updated first match, and nothing when the id is unknown |
| Achievements.Rules | src/services/achievementService.ts:108-150 | ten rules in source order, the first being first_step's and the only unguarded one |
| Achievements.Run | src/services/achievementService.ts:106-153 | applying the rules in order keeps the list's length and returns at most one entry per rule |
| Achievements.StepByLookup | src/services/achievementService.ts:115-116 | each `if` evaluates the rule's guard through the id lookup, and its unlock is the update at the key's position |
| Achievements.RunFires | src/services/achievementService.ts:106-153 | the check unlocks exactly the rules that fire against the list as it was, returns their entries in rule order, and leaves exactly those entries unlocked |
| Achievements.RunState | src/services/achievementService.ts:106-153 | after a run, an entry is updated exactly when its key fired |
| Achievements.RunOutput | src/services/achievementService.ts:106-153 | a run returns the entries of the fired keys, in rule order |
| Achievements.RulesDistinct | src/services/achievementService.ts:111-150 | no two of the ten rules name the same entry |
| Achievements.RuleMatchesCriterion | src/services/achievementService.ts:108-150 | each rule's km and hour test is the catalog threshold, inclusive, in metres and seconds; only first_step is unguarded |
| Achievements.RuleKeys | src/services/achievementService.ts:106-153 | exactly the ten non-streak entries have a rule |
| Achievements.CheckUnlocksIff | src/services/achievementService.ts:106-153 | an entry is returned exactly when it is not a streak, its threshold is met, and it was locked (first_step needs only one track in the list) |
| Achievements.CheckOrdered | src/services/achievementService.ts:106-152 | the returned entries appear in strictly increasing catalog order, so each id at most once |
| Achievements.CheckTwice | src/services/achievementService.ts:155-166 | a second check with the same inputs can return only first_step |
| Achievements.CheckMonotone | src/services/achievementService.ts:155-166 | a check never locks an entry and never touches the two streak entries |
| Achievements.AchievementService.constructor | src/services/achievementService.ts:6-91 | the service starts with the catalog |
| Achievements.AchievementService.GetAllAchievements | src/services/achievementService.ts:102-104 | returns the twelve entries with the catalog's ids, in catalog order |
| Achievements.AchievementService.IsUnlocked | src/services/achievementService.ts:164-166 | on the service's list, a catalog id reads that entry's flag and any other id reads false |
| Achievements.AchievementService.UnlockAchievement | src/services/achievementService.ts:155-162 | the catalog field becomes the list with the first match unlocked, and the updated entry is returned |
| Achievements.AchievementService.ApplyRule | src/services/achievementService.ts:115-116 | one `if`: the entry list and the collected result advance by one rule step |
| Achievements.AchievementService.CheckAchievements | src/services/achievementService.ts:106-153 | the returned list and the new catalog are exactly the outcome of running the ten rules on the old catalog |
| Store.InitialState | src/stores/appStore.ts:6-22 | the initial record holds every one of the fifteen keys |
| Store.InitialComplete | src/stores/appStore.ts:6-22 | the initial state has every field with a value of its type: stopped, no tracks, empty path, zero distance and pause, every dialog closed |
| Store.Merge | src/stores/appStore.ts:34 | the merged record has every key of both; updated keys take the new value and all others keep the old |
| Store.MergeComplete | src/stores/appStore.ts:33-35 | merging well-typed updates keeps every field present with a value of its type |
| Store.MergeEmpty | src/stores/appStore.ts:34 | an empty update changes nothing |
| Store.MergeSequence | src/stores/appStore.ts:34 | two updates in a row equal one update with their merge |
| Store.MergeIdempotent | src/stores/appStore.ts:34 | applying the same update twice equals applying it once |
| Store.AddTrackPrepends | src/stores/appStore.ts:62-64 | the track list becomes the new track followed by the old list, and no other field changes |
| Store.StartResetsSession | src/stores/appStore.ts:70-78 | recording, start time `now`, zero distance and pause, empty path; every other field, the user, tracks and weather among them, untouched |
| Store.StopChangesOnlyState | src/stores/appStore.ts:80-84 | only the recording state changes, to stopped |
| Store.ToggleFlipsOne | src/stores/appStore.ts:86-88 | exactly the named flag is negated |
| Store.ToggleTwice | src/stores/appStore.ts:86-88 | toggling the same dialog twice restores the state |
| Store.Add | src/stores/appStore.ts:25 | after adding, the set holds exactly the old listeners plus the new one: a new listener is appended at the end, an existing one leaves the sequence unchanged |
| Store.Remove | src/stores/appStore.ts:26 | after deleting, the set holds exactly the old listeners except the removed one |
| Store.AddDistinct | src/stores/appStore.ts:25 | adding keeps the listeners duplicate-free |
| Store.RemoveDistinct | src/stores/appStore.ts:26 | deleting keeps the listeners duplicate-free |
| Store.RemoveAbsent | src/stores/appStore.ts:26 | deleting a listener that is not subscribed changes nothing |
| Store.UnsubscribeUndoesSubscribe | src/stores/appStore.ts:24-27 | subscribing a new listener, then calling its unsubscribe, restores the exact listener sequence |
| Store.AppStore.constructor | src/stores/appStore.ts:3-22 | the store starts with the initial state, no listeners and no calls |
| Store.AppStore.Subscribe | src/stores/appStore.ts:24-25 | the listener is added to the set |
| Store.AppStore.Unsubscribe | src/stores/appStore.ts:26 | exactly that listener is removed |
| Store.AppStore.Notify | src/stores/appStore.ts:29-31 | every current listener is called once, in insertion order |
| Store.AppStore.SetState | src/stores/appStore.ts:33-36 | the state becomes the merge of old state and updates, then every listener is called once |
| Store.AppStore.SetRecordingState | src/stores/appStore.ts:38-40 | only the recording state changes; listeners are notified |
| Store.AppStore.SetCurrentUser | src/stores/appStore.ts:42-44 | only the current user changes; listeners are notified |
| Store.AppStore.SetTracks | src/stores/appStore.ts:46-48 | only the track list changes; listeners are notified |
| Store.AppStore.SetWeather | src/stores/appStore.ts:50-52 | only the weather changes; listeners are notified |
| Store.AppStore.SetGoals | src/stores/appStore.ts:54-56 | only the goals change; listeners are notified |
| Store.AppStore.SetAchievements | src/stores/appStore.ts:58-60 | only the achievements change; listeners are notified |
| Store.AppStore.AddTrack | src/stores/appStore.ts:62-64 | the new track is prepended to the list; listeners are notified |
| Store.AppStore.UpdateDistance | src/stores/appStore.ts:66-68 | only the total distance changes; listeners are notified |
| Store.AppStore.StartTracking | src/stores/appStore.ts:70-78 | the session fields are reset and recording starts at `now`; listeners are notified |
| Store.AppStore.StopTracking | src/stores/appStore.ts:80-84 | the state becomes stopped; listeners are notified |
| Store.AppStore.ToggleModal | src/stores/appStore.ts:86-88 | the named dialog flag is negated; listeners are notified |
| Prototype.MovedTotal | script.js:77-91 | the total is at least 5 m times the number of accepted fixes |
| Prototype.ReadingAt | script.js:100-106 | nothing before a start; otherwise seconds since the start, and speed times seconds equals the total when seconds are positive, else speed 0 |
| Prototype.ReadingSpeedBounds | script.js:102-104 | with a non-negative total the shown speed is non-negative and never grows as time passes without a fix |
| Prototype.PrototypeTracker.constructor | script.js:6-12 | empty path, zero total, no start time, no last point |
| Prototype.PrototypeTracker.InitMapAndTracking | script.js:43-68 | the start point is appended and becomes the last point, the clock starts at `now`, the total is unchanged |
| Prototype.PrototypeTracker.UpdatePosition | script.js:70-98 | a fix below 5 m, or with no last point, changes nothing; an accepted one appends the point, adds its distance and becomes the last point |
| Prototype.PrototypeTracker.UpdateTime | script.js:100-106 | nothing before a start; otherwise the seconds since the start, with speed times seconds equal to the total when seconds are positive, else speed 0 |
| Prototype.PrototypeTracker.Reset | script.js:109-113 | empty path, zero total, clock restarted at `now`, no last point, and from then on every fix is rejected |
| Scenarios.FixBeforeSeed | src/main.ts:213-214 | a fix after start but before any initial position leaves path and total empty |
| Scenarios.PauseAndResume | src/main.ts:128-154 | pausing at 5 s and resuming at 15 s shows 5 s during the pause and 10 s at 20 s |
| Scenarios.PrototypeSession | script.js:70-113 | a seeded 12 m fix is counted; after reset a 100 m fix is dropped and the clock restarts |
| Scenarios.StoreNotifies | src/stores/appStore.ts:24-36 | listeners see each update once in subscription order; an unsubscribed one sees no more; two toggles leave the dialog closed |

## Left out

- The map widget's great-circle `getDistance`, markers, polylines and panning. The distance from the last point is an input, and a point is a pair of reals.
- Geolocation callbacks and timers. `updatePosition`'s state guard and its callback body are one synchronous method, while in the source the callback runs later and does not re-check the state. The second position timer at src/main.ts:123 is never stored or cleared, and that is not modelled.
- `getInitialPosition` (src/main.ts:44-67, script.js:22-41): the averaging of asynchronous fixes, three of them in src/main.ts (line 38) and five in script.js (line 17). Its result is the input of `InitMapView` and `InitMapAndTracking`.
- Supabase calls: the inserts in `saveTrack` (the model returns the rows it would insert), loading and authentication, and `loadAchievements`. The achievement check `saveTrack` makes after the insert is a separate operation here, `CheckAchievements`.
- `saveTrack`'s `appStore.addTrack` of the inserted row (src/main.ts:392) is not modelled as part of the save. The store operation itself is `Store.AppStore.AddTrack`.
- `loadTrackDetails` (src/main.ts:497-510) is a Supabase load and is not modelled. It replaces the engine's `path` with a saved track's points without touching `pointSequence`, so after it the invariant `pointSequence == |path|` of `Recorder.RecordingEngine.Valid` no longer holds.
- SessionMath.TrackDataOf: the row's `user_id`, its locale-formatted `name` and the optional `weather` (src/main.ts:338-354) are left out. They are the signed-in user, date formatting and the store's weather, none of which the model holds.
- Recorder.RecordingEngine.StopTracking: the handler is one atomic step. In the source it awaits `saveTrack` and its inserts, and a start during that wait is wiped by the confirmed reset while the state stays `recording`; that interleaving is not modelled. The clock is read once, at `now`, while the source reads it for `end_time` and `total_time` before reading it again for the minutes announced.
- DOM writes, modals, `updateControlButtons`, the history list, the trend chart, sharing and the GPX download.
- Number and date formatting (`toFixed`, `toLocaleDateString`, `toISOString`). GPX coordinates and times are rendered by a caller-supplied function and strings.
- JavaScript numbers are reals or integers, not IEEE doubles. Elapsed time is integer milliseconds, and the clock split works on whole seconds. The pace seconds at src/main.ts:290 use the exact fraction.
- `voiceService`. The km and minute announcements of `updatePosition` and `stopTracking` are the values those handlers return. The start, pause and resume announcements (src/main.ts:125, 137 and 153) are not modelled, since `StartTracking`, `PauseTracking` and `ResumeTracking` return nothing.
- `getWeather`: a network fetch.
- Weather.ConditionText, Weather.EmojiTable and Weather.DefaultEmoji hold the decoded text of the labels and emoji. The literals in src/services/weatherService.ts are mis-encoded (UTF-8 bytes read in another code page). Labels and table keys share that encoding in the source, so the lookups agree either way.
- Weather.EmojiDefaultForOtherStrings: the table is modelled without the keys a JavaScript object inherits (`toString`, `constructor` and the like). For those strings `emojiMap[condition]` is a function, not the default. The only caller passes classifier labels.
- The `getInstance` singleton: the service is an object the caller constructs.
- Achievement objects are values. The source mutates the shared catalog object in place and returns that same object, so later mutations alias the returned entries. That aliasing is not modelled.
- Achievements.AchievementService.CheckAchievements: every unlock of one call gets the same `at` timestamp, while the source reads the clock at each unlock.
- Achievements.UnlockResult: for an unknown id the source pushes `undefined` into the result list; the model returns no entry. `checkAchievements` only uses catalog ids, so this path is never reached from it.
- `loadStats`'s reload of an empty track list is a Supabase call and is left out. As in the source, the aggregates are computed over the list held before the reload.
- Store.AppStore: the current user is reduced to an optional id string. `subscribe`'s returned closure is modelled as the method `Unsubscribe`. A listener that subscribes or unsubscribes while being notified is not modelled.
- `vite.config.ts` is build configuration and is not part of this model.
