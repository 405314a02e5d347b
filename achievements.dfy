/** The achievement evaluator of src/services/achievementService.ts: a
    singleton holding the twelve-entry catalog, which checkAchievements
    updates in place after a saved session, one threshold rule at a time.
    The time stamp written into a newly unlocked entry is an input `at`. */
module Achievements {
  import opened Types

  /** The twelve catalog entries, in catalog order. */
  datatype Key =
    | FirstStep | Distance5k | Distance10k | HalfMarathon | Marathon
    | Time1Hour | Time2Hours | Streak7Days | Streak30Days
    | Total100k | Total500k | Count10

  const Keys: seq<Key> := [FirstStep, Distance5k, Distance10k, HalfMarathon, Marathon,
    Time1Hour, Time2Hours, Streak7Days, Streak30Days, Total100k, Total500k, Count10]

  /** Position of an entry in the catalog. */
  function Index(k: Key): (i: nat)
    ensures i < |Keys| && Keys[i] == k
  {
    match k
    case FirstStep => 0
    case Distance5k => 1
    case Distance10k => 2
    case HalfMarathon => 3
    case Marathon => 4
    case Time1Hour => 5
    case Time2Hours => 6
    case Streak7Days => 7
    case Streak30Days => 8
    case Total100k => 9
    case Total500k => 10
    case Count10 => 11
  }

  /** The `id` string of each entry. */
  function IdText(k: Key): string
  {
    match k
    case FirstStep => "first_step"
    case Distance5k => "distance_5k"
    case Distance10k => "distance_10k"
    case HalfMarathon => "distance_half_marathon"
    case Marathon => "distance_marathon"
    case Time1Hour => "time_1hour"
    case Time2Hours => "time_2hours"
    case Streak7Days => "streak_7days"
    case Streak30Days => "streak_30days"
    case Total100k => "total_100k"
    case Total500k => "total_500k"
    case Count10 => "count_10"
  }

  function Name(k: Key): string
  {
    match k
    case FirstStep => "第一步"
    case Distance5k => "5公里达人"
    case Distance10k => "10公里挑战"
    case HalfMarathon => "半程马拉松"
    case Marathon => "全程马拉松"
    case Time1Hour => "一小时挑战"
    case Time2Hours => "耐力达人"
    case Streak7Days => "一周坚持"
    case Streak30Days => "月度坚持"
    case Total100k => "百公里俱乐部"
    case Total500k => "长征者"
    case Count10 => "十全十美"
  }

  function Description(k: Key): string
  {
    match k
    case FirstStep => "完成第一次徒步记录"
    case Distance5k => "单次徒步达到5公里"
    case Distance10k => "单次徒步达到10公里"
    case HalfMarathon => "单次徒步达到21公里"
    case Marathon => "单次徒步达到42公里"
    case Time1Hour => "单次徒步超过1小时"
    case Time2Hours => "单次徒步超过2小时"
    case Streak7Days => "连续7天徒步"
    case Streak30Days => "连续30天徒步"
    case Total100k => "累计徒步100公里"
    case Total500k => "累计徒步500公里"
    case Count10 => "完成10次徒步"
  }

  function Icon(k: Key): string
  {
    match k
    case FirstStep => "\U{1F463}"
    case Distance5k => "\U{1F3AF}"
    case Distance10k => "\U{1F3C3}"
    case HalfMarathon => "\U{1F3C5}"
    case Marathon => "\U{1F3C6}"
    case Time1Hour => "\U{23F0}"
    case Time2Hours => "\U{1F4AA}"
    case Streak7Days => "\U{1F525}"
    case Streak30Days => "\U{2B50}"
    case Total100k => "\U{1F31F}"
    case Total500k => "\U{1F680}"
    case Count10 => "\U{1F38A}"
  }

  /** Distinct entries have distinct ids, so a lookup by id finds one entry. */
  lemma IdTextInjective(k: Key, l: Key)
    requires IdText(k) == IdText(l)
    ensures k == l
  {
  }

  /** An entry as the catalog declares it: locked, with no unlock time. */
  function Entry(k: Key): Achievement
  {
    Achievement(IdText(k), Name(k), Description(k), Icon(k), false, None)
  }

  /** The initial value of the `achievements` field. */
  function Catalog(): (c: seq<Achievement>)
    ensures |c| == |Keys|
    ensures forall i :: 0 <= i < |c| ==> c[i] == Entry(Keys[i])
  {
    seq(|Keys|, i requires 0 <= i < |Keys| => Entry(Keys[i]))
  }

  /** An entry that has kept the catalog's id, name, description and icon,
      and carries an unlock time exactly when it is unlocked. */
  predicate Matches(a: Achievement, k: Key)
  {
    && a.id == IdText(k) && a.name == Name(k) && a.description == Description(k)
    && a.icon == Icon(k) && (a.unlocked <==> a.unlockedAt.Some?)
  }

  /** A list of entries that is the catalog, up to unlocking. */
  predicate Fits(s: seq<Achievement>)
  {
    |s| == |Keys| && forall i :: 0 <= i < |s| ==> Matches(s[i], Keys[i])
  }

  lemma CatalogFits()
    ensures Fits(Catalog())
    ensures forall i :: 0 <= i < |Catalog()| ==> !Catalog()[i].unlocked
  {
  }

  // ---------------------------------------------------------------------
  // Lookup by id (Array.prototype.find)
  // ---------------------------------------------------------------------

  /** The index of the first entry with the given id, if any. */
  function FindId(s: seq<Achievement>, id: string): (r: Option<nat>)
    ensures r.Some? ==> r.value < |s| && s[r.value].id == id
    ensures r.Some? ==> forall j :: 0 <= j < r.value ==> s[j].id != id
    ensures r.None? ==> forall j :: 0 <= j < |s| ==> s[j].id != id
  {
    if s == [] then None
    else if s[0].id == id then Some(0)
    else match FindId(s[1..], id)
      case None => None
      case Some(j) => Some(j + 1)
  }

  /** In a list that fits the catalog, the id of an entry is found at that
      entry's catalog position. */
  lemma FindInCatalog(s: seq<Achievement>, k: Key)
    requires Fits(s)
    ensures FindId(s, IdText(k)) == Some(Index(k))
  {
    var r := FindId(s, IdText(k));
    assert s[Index(k)].id == IdText(k);
    IdTextInjective(Keys[r.value], k);
    KeysDistinct(r.value, Index(k));
  }

  /** Each key appears once in the catalog order. */
  lemma KeysDistinct(i: int, j: int)
    requires 0 <= i < |Keys| && 0 <= j < |Keys| && Keys[i] == Keys[j]
    ensures i == j
  {
  }

  /** isUnlocked: the `unlocked` flag of the first entry with the id, and
      false when no entry has it. */
  function IsUnlockedIn(s: seq<Achievement>, id: string): (b: bool)
    ensures b <==> FindId(s, id).Some? && s[FindId(s, id).value].unlocked
  {
    match FindId(s, id)
    case None => false
    case Some(i) => s[i].unlocked
  }

  /** On a list that fits the catalog, isUnlocked of a catalog id reads
      that entry's flag, and any other id reads false. */
  lemma IsUnlockedByKey(s: seq<Achievement>, id: string)
    ensures Fits(s) ==> forall k :: IdText(k) == id ==> (IsUnlockedIn(s, id) <==> s[Index(k)].unlocked)
    ensures Fits(s) && (forall k :: IdText(k) != id) ==> !IsUnlockedIn(s, id)
  {
    if Fits(s) {
      forall k | IdText(k) == id
        ensures IsUnlockedIn(s, id) <==> s[Index(k)].unlocked
      {
        FindInCatalog(s, k);
      }
      match FindId(s, id)
      case None =>
      case Some(j) => assert Matches(s[j], Keys[j]);
    }
  }

  /** What unlockAchievement does to one entry. */
  function Unlock(a: Achievement, at: string): (b: Achievement)
    ensures b.unlocked && b.unlockedAt == Some(at)
    ensures b.id == a.id && b.name == a.name && b.description == a.description && b.icon == a.icon
  {
    a.(unlocked := true, unlockedAt := Some(at))
  }

  /** unlockAchievement on the list: the first entry with the id is
      unlocked at `at`; nothing changes when no entry has the id. */
  function MarkUnlocked(s: seq<Achievement>, id: string, at: string): (t: seq<Achievement>)
    ensures |t| == |s|
    ensures forall j :: 0 <= j < |s| ==>
      t[j] == if FindId(s, id) == Some(j) then Unlock(s[j], at) else s[j]
  {
    match FindId(s, id)
    case None => s
    case Some(i) => s[i := Unlock(s[i], at)]
  }

  /** unlockAchievement's result: the unlocked entry, or nothing for an
      id no entry has. */
  function UnlockResult(s: seq<Achievement>, id: string, at: string): (r: Option<Achievement>)
    ensures r.None? <==> FindId(s, id).None?
    ensures r.Some? ==> r.value == MarkUnlocked(s, id, at)[FindId(s, id).value]
  {
    match FindId(s, id)
    case None => None
    case Some(i) => Some(Unlock(s[i], at))
  }

  /** Unlocking keeps a list fitting the catalog. */
  lemma MarkUnlockedFits(s: seq<Achievement>, id: string, at: string)
    requires Fits(s)
    ensures Fits(MarkUnlocked(s, id, at))
  {
    var t := MarkUnlocked(s, id, at);
    forall i | 0 <= i < |t|
      ensures Matches(t[i], Keys[i])
    {
      assert Matches(s[i], Keys[i]);
    }
  }

  // ---------------------------------------------------------------------
  // The rules of checkAchievements
  // ---------------------------------------------------------------------

  /** One `if` of checkAchievements: the entry it unlocks, whether its
      threshold holds, and whether it is skipped once the entry is unlocked
      (every rule except first_step's). */
  datatype Rule = Rule(key: Key, met: bool, guarded: bool)

  /** The ten rules in the order the source tests them. Distances are
      compared in km and times in hours, as the source does. */
  function Rules(track: HikingTrack, tracks: seq<HikingTrack>): (rs: seq<Rule>)
    ensures |rs| == 10 && rs[0].key == FirstStep && !rs[0].guarded
    ensures forall i :: 1 <= i < |rs| ==> rs[i].guarded
  {
    var distanceKm := track.totalDistance / 1000.0;
    var timeHours := track.totalTime as real / 3600.0;
    var totalKm := SumDistance(tracks) / 1000.0;
    [ Rule(FirstStep, |tracks| == 1, false),
      Rule(Distance5k, distanceKm >= 5.0, true),
      Rule(Distance10k, distanceKm >= 10.0, true),
      Rule(HalfMarathon, distanceKm >= 21.0, true),
      Rule(Marathon, distanceKm >= 42.0, true),
      Rule(Time1Hour, timeHours >= 1.0, true),
      Rule(Time2Hours, timeHours >= 2.0, true),
      Rule(Total100k, totalKm >= 100.0, true),
      Rule(Total500k, totalKm >= 500.0, true),
      Rule(Count10, |tracks| >= 10, true) ]
  }

  /** The entries a check returns and the list it leaves behind. */
  datatype Outcome = Outcome(unlocked: seq<Achievement>, state: seq<Achievement>)

  /** Whether a rule unlocks its entry on a catalog-sized list: its
      threshold holds and, unless it is unguarded, its entry is locked. */
  predicate Fires(r: Rule, s: seq<Achievement>)
    requires |s| == |Keys|
  {
    r.met && (!r.guarded || !s[Index(r.key)].unlocked)
  }

  /** What a rule's entry becomes when it fires. */
  function Unlocked(s: seq<Achievement>, k: Key, at: string): Achievement
    requires |s| == |Keys|
  {
    Unlock(s[Index(k)], at)
  }

  /** One rule applied to the list: a firing rule unlocks its entry and
      returns it. */
  function Step(r: Rule, s: seq<Achievement>, at: string): (o: Outcome)
    requires |s| == |Keys|
    ensures |o.state| == |s|
  {
    if Fires(r, s) then Outcome([Unlocked(s, r.key, at)], s[Index(r.key) := Unlocked(s, r.key, at)])
    else Outcome([], s)
  }

  /** The rules applied one after the other, collecting what they unlock. */
  function Run(rules: seq<Rule>, s: seq<Achievement>, at: string): (o: Outcome)
    requires |s| == |Keys|
    ensures |o.state| == |s|
    ensures |o.unlocked| <= |rules|
  {
    if rules == [] then Outcome([], s)
    else
      var first := Step(rules[0], s, at);
      var rest := Run(rules[1..], first.state, at);
      Outcome(first.unlocked + rest.unlocked, rest.state)
  }

  /** Taking the i-th step of a run: an outcome made of what has been
      collected so far and the rest of the run is also made of what has been
      collected, this step's entries, and the run after the step. */
  lemma RunAdvance(target: Outcome, rules: seq<Rule>, i: nat, unlocked: seq<Achievement>,
    s: seq<Achievement>, at: string)
    requires |s| == |Keys| && i < |rules|
    requires target == Join(unlocked, Run(rules[i..], s, at))
    ensures target == Join(unlocked + Step(rules[i], s, at).unlocked,
      Run(rules[i + 1..], Step(rules[i], s, at).state, at))
  {
    assert rules[i..][0] == rules[i] && rules[i..][1..] == rules[i + 1..];
  }

  /** Looking an entry up by its id, as isUnlocked and unlockAchievement do,
      reaches the entry at the rule's catalog position: the guard the source
      evaluates is Fires's, and unlockAchievement performs Step. */
  lemma StepByLookup(r: Rule, s: seq<Achievement>, at: string)
    requires Fits(s)
    ensures Fires(r, s) <==> r.met && (!r.guarded || !IsUnlockedIn(s, IdText(r.key)))
    ensures UnlockResult(s, IdText(r.key), at) == Some(Unlocked(s, r.key, at))
    ensures MarkUnlocked(s, IdText(r.key), at) == s[Index(r.key) := Unlocked(s, r.key, at)]
    ensures Fits(Step(r, s, at).state)
  {
    FindInCatalog(s, r.key);
    MarkUnlockedFits(s, IdText(r.key), at);
  }

  /** The keys of the rules that fire on `s`, in rule order. */
  function FiredKeys(rules: seq<Rule>, s: seq<Achievement>): seq<Key>
    requires |s| == |Keys|
  {
    if rules == [] then []
    else (if Fires(rules[0], s) then [rules[0].key] else []) + FiredKeys(rules[1..], s)
  }

  /** No two rules unlock the same entry. */
  predicate DistinctKeys(rules: seq<Rule>)
  {
    forall i, j :: 0 <= i < j < |rules| ==> rules[i].key != rules[j].key
  }

  /** The list after unlocking the entries of the given keys at `at`. */
  predicate UnlockedExactly(s: seq<Achievement>, t: seq<Achievement>, ks: seq<Key>, at: string)
  {
    |t| == |s| &&
    forall i :: 0 <= i < |s| && i < |Keys| ==> t[i] == if Keys[i] in ks then Unlock(s[i], at) else s[i]
  }

  /** The entries the given keys unlock on `s`, in the keys' order. */
  function Entries(s: seq<Achievement>, ks: seq<Key>, at: string): (es: seq<Achievement>)
    requires |s| == |Keys|
    ensures |es| == |ks| && forall i :: 0 <= i < |ks| ==> es[i] == Unlocked(s, ks[i], at)
  {
    seq(|ks|, i requires 0 <= i < |ks| => Unlocked(s, ks[i], at))
  }

  /** After the first rule of a list with distinct keys, every later rule
      has the guard it had before, so the keys it fires are the same. */
  lemma GuardsAfterFirst(rules: seq<Rule>, s: seq<Achievement>, at: string)
    requires |s| == |Keys| && DistinctKeys(rules) && rules != []
    ensures FiredKeys(rules[1..], Step(rules[0], s, at).state) == FiredKeys(rules[1..], s)
    ensures rules[0].key !in FiredKeys(rules[1..], s)
  {
    var r := rules[0];
    var t := Step(r, s, at).state;
    forall q | q in rules[1..]
      ensures Fires(q, t) == Fires(q, s) && q.key != r.key
    {
      var m :| 0 <= m < |rules[1..]| && rules[1..][m] == q;
      assert rules[m + 1] == q;
    }
    FiredKeysSameGuards(rules[1..], t, s);
    FiredKeysFromRules(rules[1..], s);
  }

  /** The list a run leaves behind has exactly the entries of the fired
      keys unlocked. */
  lemma {:induction false} RunState(rules: seq<Rule>, s: seq<Achievement>, at: string)
    requires |s| == |Keys| && DistinctKeys(rules)
    ensures UnlockedExactly(s, Run(rules, s, at).state, FiredKeys(rules, s), at)
    decreases |rules|
  {
    if rules != [] {
      var r := rules[0];
      var t := Step(r, s, at).state;
      GuardsAfterFirst(rules, s, at);
      assert DistinctKeys(rules[1..]);
      RunState(rules[1..], t, at);
      var u := Run(rules, s, at).state;
      var tail := FiredKeys(rules[1..], s);
      var fk := FiredKeys(rules, s);
      assert fk == (if Fires(r, s) then [r.key] else []) + tail;
      forall i | 0 <= i < |s|
        ensures u[i] == if Keys[i] in fk then Unlock(s[i], at) else s[i]
      {
        assert u[i] == if Keys[i] in tail then Unlock(t[i], at) else t[i];
        if Keys[i] == r.key {
          KeysDistinct(i, Index(r.key));
          assert Keys[i] !in tail;
        } else {
          assert i != Index(r.key);
          assert t[i] == s[i];
          assert Keys[i] in fk <==> Keys[i] in tail;
        }
      }
    }
  }

  /** A run returns the entries of the fired keys, in rule order. */
  lemma {:induction false} RunOutput(rules: seq<Rule>, s: seq<Achievement>, at: string)
    requires |s| == |Keys| && DistinctKeys(rules)
    ensures Run(rules, s, at).unlocked == Entries(s, FiredKeys(rules, s), at)
    decreases |rules|
  {
    if rules != [] {
      var r := rules[0];
      var t := Step(r, s, at).state;
      GuardsAfterFirst(rules, s, at);
      assert DistinctKeys(rules[1..]);
      RunOutput(rules[1..], t, at);
      var tail := FiredKeys(rules[1..], s);
      EntriesAfterStep(r, s, tail, at);
      if Fires(r, s) {
        assert FiredKeys(rules, s) == [r.key] + tail;
        EntriesCons(s, r.key, tail, at);
      } else {
        assert FiredKeys(rules, s) == tail;
      }
    }
  }

  /** A step changes only its own entry, so the entries of other keys are
      looked up alike before and after it. */
  lemma EntriesAfterStep(r: Rule, s: seq<Achievement>, ks: seq<Key>, at: string)
    requires |s| == |Keys| && r.key !in ks
    ensures Entries(Step(r, s, at).state, ks, at) == Entries(s, ks, at)
  {
    var t := Step(r, s, at).state;
    forall i | 0 <= i < |ks|
      ensures Unlocked(t, ks[i], at) == Unlocked(s, ks[i], at)
    {
      assert ks[i] in ks;
      assert Index(ks[i]) != Index(r.key);
    }
  }

  lemma EntriesCons(s: seq<Achievement>, k: Key, ks: seq<Key>, at: string)
    requires |s| == |Keys|
    ensures Entries(s, [k] + ks, at) == [Unlocked(s, k, at)] + Entries(s, ks, at)
  {
  }

  /** Runs keep a list fitting the catalog. */
  lemma {:induction false} RunFits(rules: seq<Rule>, s: seq<Achievement>, at: string)
    requires Fits(s)
    ensures Fits(Run(rules, s, at).state)
    decreases |rules|
  {
    if rules != [] {
      StepByLookup(rules[0], s, at);
      RunFits(rules[1..], Step(rules[0], s, at).state, at);
    }
  }

  /** Running rules with distinct keys: the firing rules are exactly the
      ones that fire on the list as it was before the run (an unlock never
      changes another rule's guard), the run returns their entries in rule
      order, and the new list has exactly those entries unlocked. */
  lemma RunFires(rules: seq<Rule>, s: seq<Achievement>, at: string)
    requires Fits(s) && DistinctKeys(rules)
    ensures var o := Run(rules, s, at);
      && Fits(o.state)
      && o.unlocked == Entries(s, FiredKeys(rules, s), at)
      && UnlockedExactly(s, o.state, FiredKeys(rules, s), at)
  {
    RunFits(rules, s, at);
    RunState(rules, s, at);
    RunOutput(rules, s, at);
  }

  /** FiredKeys depends on the list only through the rules' guards. */
  lemma {:induction false} FiredKeysSameGuards(rules: seq<Rule>, s: seq<Achievement>, t: seq<Achievement>)
    requires |s| == |Keys| && |t| == |Keys|
    requires forall q | q in rules :: Fires(q, s) == Fires(q, t)
    ensures FiredKeys(rules, s) == FiredKeys(rules, t)
    decreases |rules|
  {
    if rules != [] {
      assert rules[0] in rules;
      assert forall q | q in rules[1..] :: q in rules;
      FiredKeysSameGuards(rules[1..], s, t);
    }
  }

  /** Every fired key is the key of a firing rule. */
  lemma {:induction false} FiredKeysFromRules(rules: seq<Rule>, s: seq<Achievement>)
    requires |s| == |Keys|
    ensures forall k :: k in FiredKeys(rules, s) <==> exists r :: r in rules && r.key == k && Fires(r, s)
    decreases |rules|
  {
    if rules != [] {
      FiredKeysFromRules(rules[1..], s);
      assert forall r :: r in rules <==> r == rules[0] || r in rules[1..];
    }
  }

  lemma RulesDistinct(track: HikingTrack, tracks: seq<HikingTrack>)
    ensures DistinctKeys(Rules(track, tracks))
  {
  }

  // ---------------------------------------------------------------------
  // What a check promises
  // ---------------------------------------------------------------------

  /** The threshold each catalog entry describes (streaks have no rule). */
  datatype Criterion =
    | FirstTrack
    | SingleDistance(metres: real)
    | SingleTime(seconds: int)
    | TotalDistance(metres: real)
    | TrackCount(count: nat)
    | Streak(days: nat)

  function CriterionOf(k: Key): Criterion
  {
    match k
    case FirstStep => FirstTrack
    case Distance5k => SingleDistance(5000.0)
    case Distance10k => SingleDistance(10000.0)
    case HalfMarathon => SingleDistance(21000.0)
    case Marathon => SingleDistance(42000.0)
    case Time1Hour => SingleTime(3600)
    case Time2Hours => SingleTime(7200)
    case Streak7Days => Streak(7)
    case Streak30Days => Streak(30)
    case Total100k => TotalDistance(100000.0)
    case Total500k => TotalDistance(500000.0)
    case Count10 => TrackCount(10)
  }

  /** Whether a finished track and the user's track list meet a threshold
      stated in metres, seconds and track counts. */
  predicate Meets(c: Criterion, track: HikingTrack, tracks: seq<HikingTrack>)
    requires !c.Streak?
  {
    match c
    case FirstTrack => |tracks| == 1
    case SingleDistance(m) => track.totalDistance >= m
    case SingleTime(t) => track.totalTime >= t
    case TotalDistance(m) => SumDistance(tracks) >= m
    case TrackCount(n) => |tracks| >= n
  }

  /** The source's km and hour comparisons are the catalog's thresholds, and
      only first_step ignores the unlocked flag. */
  lemma RuleMatchesCriterion(track: HikingTrack, tracks: seq<HikingTrack>, r: Rule)
    requires r in Rules(track, tracks)
    ensures !CriterionOf(r.key).Streak?
    ensures r.met <==> Meets(CriterionOf(r.key), track, tracks)
    ensures r.guarded <==> r.key != FirstStep
  {
  }

  /** Exactly the non-streak entries have a rule. */
  lemma RuleKeys(track: HikingTrack, tracks: seq<HikingTrack>, k: Key)
    ensures (exists r :: r in Rules(track, tracks) && r.key == k) <==> !CriterionOf(k).Streak?
  {
    var rs := Rules(track, tracks);
    forall r | r in rs
      ensures !CriterionOf(r.key).Streak?
    {
      RuleMatchesCriterion(track, tracks, r);
    }
    if !CriterionOf(k).Streak? {
      var i := RulePosition(k);
      assert rs[i] in rs;
    }
  }

  function RulePosition(k: Key): (i: nat)
    requires !CriterionOf(k).Streak?
    ensures i < 10 && forall track, tracks :: Rules(track, tracks)[i].key == k
  {
    match k
    case FirstStep => 0
    case Distance5k => 1
    case Distance10k => 2
    case HalfMarathon => 3
    case Marathon => 4
    case Time1Hour => 5
    case Time2Hours => 6
    case Total100k => 7
    case Total500k => 8
    case Count10 => 9
  }

  /** An entry is returned by a check exactly when it has a rule, its
      threshold is met, and (except for first_step) it was still locked. */
  lemma CheckUnlocksIff(track: HikingTrack, tracks: seq<HikingTrack>, s: seq<Achievement>, at: string, k: Key)
    requires Fits(s)
    ensures var ks := FiredKeys(Rules(track, tracks), s);
      k in ks <==>
        && !CriterionOf(k).Streak?
        && Meets(CriterionOf(k), track, tracks)
        && (k == FirstStep || !s[Index(k)].unlocked)
  {
    var rs := Rules(track, tracks);
    FiredKeysFromRules(rs, s);
    FindInCatalog(s, k);
    RuleKeys(track, tracks, k);
    if k in FiredKeys(rs, s) {
      var r :| r in rs && r.key == k && Fires(r, s);
      RuleMatchesCriterion(track, tracks, r);
    }
    if !CriterionOf(k).Streak? && Meets(CriterionOf(k), track, tracks) && (k == FirstStep || !s[Index(k)].unlocked) {
      var r :| r in rs && r.key == k;
      RuleMatchesCriterion(track, tracks, r);
      assert Fires(r, s);
    }
  }

  /** Keys listed in strictly increasing catalog position. */
  predicate InCatalogOrder(ks: seq<Key>)
  {
    forall i, j :: 0 <= i < j < |ks| ==> Index(ks[i]) < Index(ks[j])
  }

  /** Fired keys come from the rules, so a lower bound on the rules'
      catalog positions bounds theirs. */
  lemma {:induction false} FiredKeysAbove(rules: seq<Rule>, s: seq<Achievement>, b: int)
    requires |s| == |Keys|
    requires forall i :: 0 <= i < |rules| ==> b < Index(rules[i].key)
    ensures forall j :: 0 <= j < |FiredKeys(rules, s)| ==> b < Index(FiredKeys(rules, s)[j])
    decreases |rules|
  {
    if rules != [] {
      assert forall i :: 0 <= i < |rules[1..]| ==> rules[1..][i] == rules[i + 1];
      FiredKeysAbove(rules[1..], s, b);
    }
  }

  /** The returned keys follow catalog order, so none repeats. */
  lemma {:induction false} FiredKeysOrdered(rules: seq<Rule>, s: seq<Achievement>)
    requires |s| == |Keys|
    requires forall i, j :: 0 <= i < j < |rules| ==> Index(rules[i].key) < Index(rules[j].key)
    ensures InCatalogOrder(FiredKeys(rules, s))
    decreases |rules|
  {
    if rules != [] {
      assert forall i, j :: 0 <= i < j < |rules[1..]| ==> Index(rules[1..][i].key) < Index(rules[1..][j].key) by {
        forall i, j | 0 <= i < j < |rules[1..]|
          ensures Index(rules[1..][i].key) < Index(rules[1..][j].key)
        {
          assert rules[1..][i] == rules[i + 1] && rules[1..][j] == rules[j + 1];
        }
      }
      FiredKeysOrdered(rules[1..], s);
      FiredKeysAbove(rules[1..], s, Index(rules[0].key));
      var tail := FiredKeys(rules[1..], s);
      var ks := FiredKeys(rules, s);
      if Fires(rules[0], s) {
        assert ks == [rules[0].key] + tail;
        forall i, j | 0 <= i < j < |ks|
          ensures Index(ks[i]) < Index(ks[j])
        {
          assert ks[j] == tail[j - 1];
          if i > 0 {
            assert ks[i] == tail[i - 1];
          }
        }
      } else {
        assert ks == tail;
      }
    }
  }

  lemma CheckOrdered(track: HikingTrack, tracks: seq<HikingTrack>, s: seq<Achievement>)
    requires |s| == |Keys|
    ensures InCatalogOrder(FiredKeys(Rules(track, tracks), s))
  {
    var rs := Rules(track, tracks);
    var positions := [0, 1, 2, 3, 4, 5, 6, 9, 10, 11];
    assert forall i :: 0 <= i < |rs| ==> Index(rs[i].key) == positions[i];
    FiredKeysOrdered(rs, s);
  }

  /** A second check with the same track and list returns at most the
      first_step entry: every other entry it could return is now unlocked. */
  lemma CheckTwice(track: HikingTrack, tracks: seq<HikingTrack>, s: seq<Achievement>, at: string, at2: string, k: Key)
    requires Fits(s)
    ensures var t := Run(Rules(track, tracks), s, at).state;
      Fits(t) && (k in FiredKeys(Rules(track, tracks), t) ==> k == FirstStep)
  {
    var rs := Rules(track, tracks);
    RulesDistinct(track, tracks);
    RunFires(rs, s, at);
    var t := Run(rs, s, at).state;
    if k != FirstStep {
      CheckUnlocksIff(track, tracks, s, at, k);
      CheckUnlocksIff(track, tracks, t, at2, k);
      if !CriterionOf(k).Streak? && Meets(CriterionOf(k), track, tracks) {
        assert Keys[Index(k)] == k;
        assert t[Index(k)].unlocked;
      }
    }
  }

  /** Checking never locks an entry and never touches a streak entry. */
  lemma CheckMonotone(track: HikingTrack, tracks: seq<HikingTrack>, s: seq<Achievement>, at: string)
    requires Fits(s)
    ensures var t := Run(Rules(track, tracks), s, at).state;
      && |t| == |s|
      && (forall i :: 0 <= i < |s| ==> s[i].unlocked ==> t[i].unlocked)
      && t[Index(Streak7Days)] == s[Index(Streak7Days)]
      && t[Index(Streak30Days)] == s[Index(Streak30Days)]
  {
    var rs := Rules(track, tracks);
    RulesDistinct(track, tracks);
    RunFires(rs, s, at);
    CheckUnlocksIff(track, tracks, s, at, Streak7Days);
    CheckUnlocksIff(track, tracks, s, at, Streak30Days);
  }

  // ---------------------------------------------------------------------
  // The service object
  // ---------------------------------------------------------------------

  class AchievementService {
    var achievements: seq<Achievement>

    ghost predicate Valid()
      reads this
    {
      Fits(achievements)
    }

    /** The singleton's initial catalog: every entry locked. */
    constructor ()
      ensures Valid() && achievements == Catalog()
    {
      achievements := Catalog();
      CatalogFits();
    }

    /** getAllAchievements: a copy of the list, in catalog order. */
    function GetAllAchievements(): (r: seq<Achievement>)
      reads this
      ensures Valid() ==> |r| == |Keys| && forall i :: 0 <= i < |r| ==> r[i].id == IdText(Keys[i])
    {
      achievements
    }

    /** isUnlocked on the current list. */
    function IsUnlocked(id: string): (b: bool)
      reads this
      ensures Valid() ==> forall k :: IdText(k) == id ==> (b <==> achievements[Index(k)].unlocked)
      ensures Valid() && (forall k :: IdText(k) != id) ==> !b
    {
      IsUnlockedByKey(achievements, id);
      IsUnlockedIn(achievements, id)
    }

    /** unlockAchievement: marks the first entry with the id unlocked at
        `at` and returns it; nothing for an unknown id. */
    method UnlockAchievement(id: string, at: string) returns (a: Option<Achievement>)
      requires Valid()
      modifies this
      ensures Valid()
      ensures achievements == MarkUnlocked(old(achievements), id, at)
      ensures a == UnlockResult(old(achievements), id, at)
    {
      MarkUnlockedFits(achievements, id, at);
      a := UnlockResult(achievements, id, at);
      achievements := MarkUnlocked(achievements, id, at);
    }

    /** One `if` of checkAchievements: when the rule fires on the current
        list, its entry is unlocked and pushed onto the result. The ghost
        parameters place the rule as the i-th of a run whose outcome is
        `target`: taking the step leaves that outcome unchanged. */
    method ApplyRule(r: Rule, at: string, unlocked: seq<Achievement>,
      ghost target: Outcome, ghost rules: seq<Rule>, ghost i: nat)
      returns (result: seq<Achievement>)
      requires Valid()
      requires i < |rules| && rules[i] == r
      requires target == Join(unlocked, Run(rules[i..], achievements, at))
      modifies this
      ensures Valid()
      ensures result == unlocked + Step(r, old(achievements), at).unlocked
      ensures achievements == Step(r, old(achievements), at).state
      ensures target == Join(result, Run(rules[i + 1..], achievements, at))
    {
      RunAdvance(target, rules, i, unlocked, achievements, at);
      StepByLookup(r, achievements, at);
      result := unlocked;
      if r.met && (!r.guarded || !IsUnlocked(IdText(r.key))) {
        var a := UnlockAchievement(IdText(r.key), at);
        match a
        case None =>
        case Some(x) => result := result + [x];
      }
    }

    /** checkAchievements: the ten rules of Rules, tested in source order
        against the live list. The result and the new list are those of Run
        over Rules. */
    method CheckAchievements(track: HikingTrack, tracks: seq<HikingTrack>, at: string)
      returns (unlocked: seq<Achievement>)
      requires Valid()
      modifies this
      ensures Valid()
      ensures Outcome(unlocked, achievements) == Run(Rules(track, tracks), old(achievements), at)
    {
      unlocked := ApplyTen(Rules(track, tracks), at);
    }

    /** The body of checkAchievements: ten `if`s, one per rule, each seeing
        the list the previous ones left behind; source lines 111-129 hold the
        first five, lines 131-150 the other five. */
    method ApplyTen(rules: seq<Rule>, at: string) returns (unlocked: seq<Achievement>)
      requires Valid() && |rules| == 10
      modifies this
      ensures Valid()
      ensures Outcome(unlocked, achievements) == Run(rules, old(achievements), at)
    {
      ghost var target := Run(rules, achievements, at);
      assert rules[0..] == rules;
      unlocked := ApplyFive(rules, 0, [], at, target);
      unlocked := ApplyFive(rules, 5, unlocked, at, target);
      assert rules[10..] == [];
    }

    /** Five consecutive `if`s of checkAchievements, from the i-th rule on,
        as steps of the run whose outcome is `target`. */
    method ApplyFive(rules: seq<Rule>, i: nat, unlocked: seq<Achievement>, at: string, ghost target: Outcome)
      returns (result: seq<Achievement>)
      requires Valid() && i + 5 <= |rules|
      requires target == Join(unlocked, Run(rules[i..], achievements, at))
      modifies this
      ensures Valid()
      ensures target == Join(result, Run(rules[i + 5..], achievements, at))
    {
      result := unlocked;
      result := ApplyRule(rules[i + 0], at, result, target, rules, i + 0);
      result := ApplyRule(rules[i + 1], at, result, target, rules, i + 1);
      result := ApplyRule(rules[i + 2], at, result, target, rules, i + 2);
      result := ApplyRule(rules[i + 3], at, result, target, rules, i + 3);
      result := ApplyRule(rules[i + 4], at, result, target, rules, i + 4);
    }
  }

  /** An outcome with entries already collected in front. */
  function Join(front: seq<Achievement>, o: Outcome): Outcome
  {
    Outcome(front + o.unlocked, o.state)
  }
}
