/**
 * The streak / coin eligibility engine: day milestones earned from a number
 * of sober days, and calendar-month coins earned from habit start dates and
 * the current instant. Catalogs are passed in as sequences; `now` is an
 * explicit instant (milliseconds, see module Calendar).
 */
module CoinMilestones {
  import opened Wrappers
  import opened Seqs
  import opened Calendar

  /** A day-count milestone of the catalog. */
  datatype Milestone = Milestone(id: string, days: int, name: string, description: string,
                                 color: string, glbUrl: string)

  /** A calendar-month coin of the catalog; `month` is 1-based. */
  datatype MonthlyCoin = MonthlyCoin(id: string, year: int, month: int, name: string,
                                     color: string, glbUrl: string)

  /** A habit's stored `start_date`: missing, cleared to "" in a date input,
      or a day, given as the instant of its midnight. */
  datatype DateField = Absent | Cleared | On(instant: int)

  /** The instant `new Date(start_date)` stands for; a missing or cleared date
      is an Invalid Date, which no comparison accepts. A present date is also
      the only truthy one. */
  function Instant(f: DateField): (t: Option<int>)
    ensures t.Some? <==> f.On?
    ensures f.On? ==> t.value == f.instant
  {
    if f.On? then Some(f.instant) else None
  }

  /** A tracked habit. */
  datatype Habit = Habit(id: string, name: string, startDate: DateField, color: string)

  /** Catalog order by ascending day threshold. */
  predicate SortedByDays(c: seq<Milestone>) {
    forall i, j :: 0 <= i < j < |c| ==> c[i].days <= c[j].days
  }

  /** Days sober for a start date: 0 without one, otherwise whole days elapsed
      (not clamped: a future start gives a negative count). */
  function DaysSober(startDate: Option<int>, now: int): (d: int)
    ensures startDate.None? ==> d == 0
    ensures startDate.Some? ==> d * MsPerDay <= now - startDate.value < (d + 1) * MsPerDay
  {
    if startDate.None? then 0 else ElapsedDays(startDate.value, now)
  }

  // ---------------------------------------------------------------- day milestones

  /** `getEarnedMilestones`: the milestones whose threshold has been reached. */
  function EarnedMilestones(milestones: seq<Milestone>, daysSober: int): (r: seq<Milestone>)
    ensures |r| <= |milestones|
    ensures forall m :: m in r ==> m in milestones && m.days <= daysSober
    ensures forall m :: m in milestones && m.days <= daysSober ==> m in r
  {
    Filter(milestones, (m: Milestone) => daysSober >= m.days)
  }

  /** More days never lose a milestone: the earned list for d is the earned
      list for any d' >= d filtered again, hence a subsequence of it. */
  lemma EarnedMonotone(c: seq<Milestone>, d: int, d': int)
    requires d <= d'
    ensures EarnedMilestones(EarnedMilestones(c, d'), d) == EarnedMilestones(c, d)
    ensures forall m :: m in EarnedMilestones(c, d) ==> m in EarnedMilestones(c, d')
  {
    FilterOfFilter(c, (m: Milestone) => d >= m.days, (m: Milestone) => d' >= m.days);
  }

  /** On a catalog sorted by days, the earned milestones are a prefix of it. */
  lemma EarnedIsPrefix(c: seq<Milestone>, d: int)
    requires SortedByDays(c)
    ensures EarnedMilestones(c, d) == c[..|EarnedMilestones(c, d)|]
    ensures forall i :: |EarnedMilestones(c, d)| <= i < |c| ==> d < c[i].days
  {
    var reached := (m: Milestone) => d >= m.days;
    assert EarnedMilestones(c, d) == Filter(c, reached);
    forall i | 0 < i < |c| && reached(c[i]) ensures reached(c[i - 1]) {
      assert c[i - 1].days <= c[i].days;
    }
    FilterPrefix(c, reached);
  }

  /** `getLatestMilestone`: the last earned milestone, or null when none is earned. */
  function LatestMilestone(milestones: seq<Milestone>, daysSober: int): (r: Option<Milestone>)
    ensures r.None? <==> forall m :: m in milestones ==> daysSober < m.days
    ensures r.Some? ==> r.value in milestones && r.value.days <= daysSober
    ensures r.Some? ==> exists k :: 0 <= k < |milestones| && milestones[k] == r.value &&
                          r.value.days <= daysSober &&
                          forall j :: k < j < |milestones| ==> daysSober < milestones[j].days
  {
    var earned := EarnedMilestones(milestones, daysSober);
    if |earned| > 0 then
      var reached := (m: Milestone) => daysSober >= m.days;
      assert earned == Filter(milestones, reached);
      FilterLast(milestones, reached);
      Some(earned[|earned| - 1])
    else None
  }

  /** `getNextMilestone`: the first milestone not yet reached, or null. */
  function NextMilestone(milestones: seq<Milestone>, daysSober: int): (r: Option<Milestone>)
    ensures r.None? <==> forall m :: m in milestones ==> m.days <= daysSober
    ensures r.Some? ==> exists k :: 0 <= k < |milestones| && milestones[k] == r.value &&
                          daysSober < r.value.days &&
                          forall j :: 0 <= j < k ==> milestones[j].days <= daysSober
  {
    Find(milestones, (m: Milestone) => daysSober < m.days)
  }

  /** Whenever both exist, the latest milestone is reached and the next is not. */
  lemma LatestNextBracket(c: seq<Milestone>, d: int)
    requires LatestMilestone(c, d).Some? && NextMilestone(c, d).Some?
    ensures LatestMilestone(c, d).value.days <= d < NextMilestone(c, d).value.days
  {
  }

  /** On a sorted catalog the latest milestone has the largest earned threshold,
      and the next milestone is the catalog entry right after the earned prefix. */
  lemma SortedLatestAndNext(c: seq<Milestone>, d: int)
    requires SortedByDays(c)
    ensures var e := EarnedMilestones(c, d);
      (e == [] <==> LatestMilestone(c, d).None?) &&
      (e != [] ==> LatestMilestone(c, d) == Some(c[|e| - 1])) &&
      (e != [] ==> forall m :: m in e ==> m.days <= LatestMilestone(c, d).value.days) &&
      (|e| == |c| <==> NextMilestone(c, d).None?) &&
      (|e| < |c| ==> NextMilestone(c, d) == Some(c[|e|]))
  {
    SortedLatest(c, d);
    SortedNext(c, d);
  }

  /** On a sorted catalog the latest milestone has the largest earned threshold. */
  lemma SortedLatest(c: seq<Milestone>, d: int)
    requires SortedByDays(c)
    ensures var e := EarnedMilestones(c, d);
      (e == [] <==> LatestMilestone(c, d).None?) &&
      (e != [] ==> LatestMilestone(c, d) == Some(c[|e| - 1])) &&
      (e != [] ==> forall m :: m in e ==> m.days <= LatestMilestone(c, d).value.days)
  {
    var e := EarnedMilestones(c, d);
    EarnedIsPrefix(c, d);
    if e != [] {
      assert LatestMilestone(c, d).value == e[|e| - 1] == c[|e| - 1];
      PrefixLastIsLargest(c, |e|);
    }
  }

  /** In a sorted catalog no entry of a non-empty prefix exceeds the prefix's last entry. */
  lemma PrefixLastIsLargest(c: seq<Milestone>, n: nat)
    requires SortedByDays(c) && 0 < n <= |c|
    ensures forall m :: m in c[..n] ==> m.days <= c[n - 1].days
  {
    forall m | m in c[..n] ensures m.days <= c[n - 1].days {
      var i :| 0 <= i < n && c[..n][i] == m;
      assert c[i] == m;
    }
  }

  /** On a sorted catalog the next milestone is the entry right after the earned prefix. */
  lemma SortedNext(c: seq<Milestone>, d: int)
    requires SortedByDays(c)
    ensures var e := EarnedMilestones(c, d);
      (|e| == |c| <==> NextMilestone(c, d).None?) &&
      (|e| < |c| ==> NextMilestone(c, d) == Some(c[|e|]))
  {
    var e := EarnedMilestones(c, d);
    EarnedIsPrefix(c, d);
    if |e| < |c| {
      var n := NextMilestone(c, d);
      assert c[|e|].days > d;
      var k :| 0 <= k < |c| && c[k] == n.value && d < n.value.days &&
               forall j :: 0 <= j < k ==> c[j].days <= d;
      assert k == |e|;
    } else {
      assert forall m :: m in c ==> m in e;
    }
  }

  /** `getMilestoneById`: the first milestone with that id, or undefined. */
  function MilestoneById(milestones: seq<Milestone>, id: string): (r: Option<Milestone>)
    ensures r.None? <==> forall m :: m in milestones ==> m.id != id
    ensures r.Some? ==> r.value in milestones && r.value.id == id
    ensures r.Some? ==> exists k :: 0 <= k < |milestones| && milestones[k] == r.value &&
                                    forall j :: 0 <= j < k ==> milestones[j].id != id
  {
    Find(milestones, (m: Milestone) => m.id == id)
  }

  // ---------------------------------------------------------------- monthly coins

  function CoinStart(coin: MonthlyCoin): int { MonthStart(coin.year, coin.month) }
  function CoinEnd(coin: MonthlyCoin): int { MonthEnd(coin.year, coin.month) }

  /** The habit has a start date strictly before the instant. */
  predicate StartedBefore(h: Habit, instant: int) {
    h.startDate.On? && h.startDate.instant < instant
  }

  /** The habit has a start date at or before the instant. */
  predicate StartedBy(h: Habit, instant: int) {
    h.startDate.On? && h.startDate.instant <= instant
  }

  /** `hasEarnedMonthlyCoin`: single start date; sober since the first of the
      month (inclusive) and the month is over. It agrees with the multi-habit
      rule on that one date except for a start on the month's first instant. */
  function HasEarnedMonthlyCoin(startDate: Option<int>, coin: MonthlyCoin, now: int): (b: bool)
    ensures startDate.None? ==> !b
    ensures startDate.Some? ==>
      var h := Habit("", "", On(startDate.value), "");
      (b <==> HasEarnedMonthlyCoinWithHabits([h], coin, now) ||
              (startDate.value == CoinStart(coin) && now >= CoinEnd(coin)))
  {
    if startDate.None? then false
    else startDate.value <= CoinStart(coin) && now >= CoinEnd(coin)
  }

  /** The habits the multi-habit rule looks at: started strictly before the month. */
  function RelevantHabits(habits: seq<Habit>, coin: MonthlyCoin): (r: seq<Habit>)
    ensures forall h :: h in r ==> h in habits && StartedBefore(h, CoinStart(coin))
    ensures forall h :: h in habits && StartedBefore(h, CoinStart(coin)) ==> h in r
  {
    Filter(habits, (h: Habit) => StartedBefore(h, CoinStart(coin)))
  }

  /** `hasEarnedMonthlyCoinWithHabits`, branch by branch. It amounts to: the
      month is over and some habit started strictly before its first instant;
      habits starting later are ignored. */
  function HasEarnedMonthlyCoinWithHabits(habits: seq<Habit>, coin: MonthlyCoin, now: int): (b: bool)
    ensures b <==> now >= CoinEnd(coin) && exists h :: h in habits && StartedBefore(h, CoinStart(coin))
  {
    RelevantNonEmpty(habits, coin);
    if habits == [] then false
    else if now < CoinEnd(coin) then false
    else
      var relevant := RelevantHabits(habits, coin);
      if relevant == [] then false
      else forall h :: h in relevant ==> StartedBy(h, CoinStart(coin))
  }

  /** The final `every` can never fail: each relevant habit started before the month. */
  lemma EveryCheckVacuous(habits: seq<Habit>, coin: MonthlyCoin)
    ensures forall h :: h in RelevantHabits(habits, coin) ==> StartedBy(h, CoinStart(coin))
  {
  }

  /** Some habit counts for the multi-habit rule exactly when one started before the month. */
  lemma RelevantNonEmpty(habits: seq<Habit>, coin: MonthlyCoin)
    ensures RelevantHabits(habits, coin) != [] <==> exists h :: h in habits && StartedBefore(h, CoinStart(coin))
  {
    var relevant := RelevantHabits(habits, coin);
    if relevant != [] {
      assert relevant[0] in relevant;
    }
  }

  /** A habit that starts inside (or after) the month neither earns nor
      disqualifies: adding it leaves the verdict unchanged. */
  lemma LateHabitIgnored(habits: seq<Habit>, h: Habit, coin: MonthlyCoin, now: int)
    requires !StartedBefore(h, CoinStart(coin))
    ensures HasEarnedMonthlyCoinWithHabits(habits + [h], coin, now) ==
            HasEarnedMonthlyCoinWithHabits(habits, coin, now)
  {
    if exists g :: g in habits + [h] && StartedBefore(g, CoinStart(coin)) {
      var g :| g in habits + [h] && StartedBefore(g, CoinStart(coin));
      assert g in habits;
    }
  }

  /** A habit starting exactly on the first instant of the month earns the coin
      under the single-date rule but not under the multi-habit rule. */
  lemma FirstOfMonthBoundary(h: Habit, coin: MonthlyCoin, now: int)
    requires h.startDate == On(CoinStart(coin)) && now >= CoinEnd(coin)
    ensures HasEarnedMonthlyCoin(Instant(h.startDate), coin, now)
    ensures !HasEarnedMonthlyCoinWithHabits([h], coin, now)
  {
  }

  /** A month that has not ended yet is never earned, whatever the habits. */
  lemma UnfinishedMonthNeverEarned(habits: seq<Habit>, startDate: Option<int>, coin: MonthlyCoin, now: int)
    requires now < CoinEnd(coin)
    ensures !HasEarnedMonthlyCoinWithHabits(habits, coin, now)
    ensures !HasEarnedMonthlyCoin(startDate, coin, now)
  {
  }

  /** `getEarnedMonthlyCoins`: the catalog coins earned from one start date. */
  function EarnedMonthlyCoins(coins: seq<MonthlyCoin>, startDate: Option<int>, now: int): (r: seq<MonthlyCoin>)
    ensures startDate.None? ==> r == []
    ensures forall c :: c in r ==> c in coins && HasEarnedMonthlyCoin(startDate, c, now)
    ensures forall c :: c in coins && HasEarnedMonthlyCoin(startDate, c, now) ==> c in r
  {
    if startDate.None? then []
    else Filter(coins, (c: MonthlyCoin) => HasEarnedMonthlyCoin(startDate, c, now))
  }

  /** `getEarnedMonthlyCoinsWithHabits`: the catalog coins earned by the habits. */
  function EarnedMonthlyCoinsWithHabits(coins: seq<MonthlyCoin>, habits: seq<Habit>, now: int): (r: seq<MonthlyCoin>)
    ensures habits == [] ==> r == []
    ensures forall c :: c in r ==> c in coins && HasEarnedMonthlyCoinWithHabits(habits, c, now)
    ensures forall c :: c in coins && HasEarnedMonthlyCoinWithHabits(habits, c, now) ==> c in r
  {
    if habits == [] then []
    else Filter(coins, (c: MonthlyCoin) => HasEarnedMonthlyCoinWithHabits(habits, c, now))
  }

  /** The test `getNextMonthlyCoin` applies to each coin. */
  predicate IsUpcoming(startDate: int, coin: MonthlyCoin, now: int) {
    startDate <= CoinStart(coin) && now < CoinEnd(coin)
  }

  /** `getNextMonthlyCoin`: the first coin the start date covers whose month is not over. */
  function NextMonthlyCoin(coins: seq<MonthlyCoin>, startDate: Option<int>, now: int): (r: Option<MonthlyCoin>)
    ensures startDate.None? ==> r.None?
    ensures r.Some? ==> startDate.Some? && r.value in coins && IsUpcoming(startDate.value, r.value, now)
    ensures r.Some? && startDate.Some? ==>
      exists k :: (0 <= k < |coins| && coins[k] == r.value && IsUpcoming(startDate.value, r.value, now) &&
                   forall j :: 0 <= j < k ==> !IsUpcoming(startDate.value, coins[j], now))
    ensures r.Some? ==> r.value !in EarnedMonthlyCoins(coins, startDate, now)
    ensures startDate.Some? && r.None? ==> forall c :: c in coins ==> !IsUpcoming(startDate.value, c, now)
  {
    if startDate.None? then None
    else Find(coins, (c: MonthlyCoin) => IsUpcoming(startDate.value, c, now))
  }

  /** The test `getNextMonthlyCoinWithHabits` applies to each coin. */
  predicate IsUpcomingWithHabits(habits: seq<Habit>, coin: MonthlyCoin, now: int) {
    if now >= CoinEnd(coin) then false
    else
      var relevant := RelevantHabits(habits, coin);
      if relevant == [] then false
      else forall h :: h in relevant ==> StartedBy(h, CoinStart(coin))
  }

  /** `getNextMonthlyCoinWithHabits`: the first coin still to come that some habit predates. */
  function NextMonthlyCoinWithHabits(coins: seq<MonthlyCoin>, habits: seq<Habit>, now: int): (r: Option<MonthlyCoin>)
    ensures habits == [] ==> r.None?
    ensures r.Some? ==> exists k :: 0 <= k < |coins| && coins[k] == r.value &&
                          IsUpcomingWithHabits(habits, r.value, now) &&
                          forall j :: 0 <= j < k ==> !IsUpcomingWithHabits(habits, coins[j], now)
    ensures habits != [] && r.None? ==> forall c :: c in coins ==> !IsUpcomingWithHabits(habits, c, now)
  {
    if habits == [] then None
    else Find(coins, (c: MonthlyCoin) => IsUpcomingWithHabits(habits, c, now))
  }

  /** The upcoming coin is one whose month is not over and that some habit
      started strictly before; it is never among the coins already earned. */
  lemma NextMonthlyCoinWithHabitsNotEarned(coins: seq<MonthlyCoin>, habits: seq<Habit>, now: int)
    requires NextMonthlyCoinWithHabits(coins, habits, now).Some?
    ensures var c := NextMonthlyCoinWithHabits(coins, habits, now).value;
      now < CoinEnd(c) &&
      (exists h :: h in habits && StartedBefore(h, CoinStart(c))) &&
      c !in EarnedMonthlyCoinsWithHabits(coins, habits, now)
  {
    var c := NextMonthlyCoinWithHabits(coins, habits, now).value;
    var relevant := RelevantHabits(habits, c);
    assert relevant != [];
    assert relevant[0] in relevant;
  }

  const MonthNames: seq<string> :=
    ["January", "February", "March", "April", "May", "June",
     "July", "August", "September", "October", "November", "December"]

  /** `getMonthName`: the English name of month 1..12, "" for any other value. */
  function MonthName(month: int): (r: string)
    ensures r != "" <==> 1 <= month <= 12
    ensures 1 <= month <= 12 ==> r == MonthNames[month - 1]
  {
    if 1 <= month <= 12 then MonthNames[month - 1] else ""
  }

  /** Distinct months have distinct names. */
  lemma MonthNamesDistinct(a: int, b: int)
    requires 1 <= a <= 12 && 1 <= b <= 12 && a != b
    ensures MonthName(a) != MonthName(b)
  {
  }
}
