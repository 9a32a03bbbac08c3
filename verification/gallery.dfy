/**
 * The coin gallery: habits and their day counts, the highest count driving
 * the global milestone view, the union of the persisted monthly-coin ledger
 * with the coins earned now, removal from the ledger, and the cyclic
 * category strip.
 */
module Gallery {
  import opened Wrappers
  import opened Seqs
  import opened Text
  import opened CoinMilestones
  import opened UserProgress

  /** The habits shown: none without a progress record, else the migrated list or none. */
  function GalleryHabits(progress: Option<Progress>): (hs: seq<Habit>)
    ensures progress.None? ==> hs == []
    ensures progress.Some? ==> hs == MigratedHabits(progress.value).GetOr([])
  {
    if progress.None? then [] else MigratedHabits(progress.value).GetOr([])
  }

  /** A habit with its day count. */
  datatype HabitStat = HabitStat(habit: Habit, daysSober: int)

  /** Each habit paired with its days sober (0 without a start date). */
  function HabitStats(habits: seq<Habit>, now: int): (stats: seq<HabitStat>)
    ensures |stats| == |habits|
    ensures forall i :: 0 <= i < |habits| ==>
      stats[i].habit == habits[i] && stats[i].daysSober == DaysSober(Instant(habits[i].startDate), now)
  {
    if habits == [] then []
    else [HabitStat(habits[0], DaysSober(Instant(habits[0].startDate), now))] + HabitStats(habits[1..], now)
  }

  /** `Math.max` over the day counts, 0 when there are no habits. */
  function HighestDays(stats: seq<HabitStat>): (m: int)
    ensures stats == [] ==> m == 0
    ensures forall i :: 0 <= i < |stats| ==> stats[i].daysSober <= m
    ensures stats != [] ==> exists i :: 0 <= i < |stats| && stats[i].daysSober == m
  {
    if stats == [] then 0
    else if |stats| == 1 then stats[0].daysSober
    else
      var rest := HighestDays(stats[1..]);
      if stats[0].daysSober >= rest then stats[0].daysSober else rest
  }

  /** Every habit's earned milestones are among the global ones, which use the highest count. */
  lemma HabitEarnedWithinGlobal(milestones: seq<Milestone>, stats: seq<HabitStat>, i: int)
    requires 0 <= i < |stats|
    ensures forall m :: m in EarnedMilestones(milestones, stats[i].daysSober) ==>
      m in EarnedMilestones(milestones, HighestDays(stats))
  {
    EarnedMonotone(milestones, stats[i].daysSober, HighestDays(stats));
  }

  /** The ids of a coin list. */
  function CoinIds(coins: seq<MonthlyCoin>): (ids: set<string>)
    ensures forall c :: c in coins ==> c.id in ids
    ensures forall id :: id in ids ==> exists c :: c in coins && c.id == id
  {
    set c | c in coins :: c.id
  }

  /** The monthly coins shown as earned: none for an empty catalog, otherwise
      the catalog coins whose id is persisted or newly earned, in catalog order. */
  function MergedMonthly(catalog: seq<MonthlyCoin>, persisted: seq<string>, newly: seq<MonthlyCoin>): (r: seq<MonthlyCoin>)
    ensures catalog == [] ==> r == []
    ensures forall c :: c in r <==> c in catalog && (c.id in persisted || c.id in CoinIds(newly))
    ensures |r| <= |catalog|
  {
    if catalog == [] then []
    else
      var ids := CoinIds(newly);
      Filter(catalog, (c: MonthlyCoin) => c.id in persisted || c.id in ids)
  }

  /** A coin in the ledger stays earned whatever the habits now say. */
  lemma LedgerMonotone(catalog: seq<MonthlyCoin>, persisted: seq<string>, newly: seq<MonthlyCoin>, c: MonthlyCoin)
    requires c in catalog && c.id in persisted
    ensures c in MergedMonthly(catalog, persisted, newly)
  {
  }

  /** Every coin earned now is shown, as long as it comes from the catalog. */
  lemma NewlyEarnedShown(catalog: seq<MonthlyCoin>, habits: seq<Habit>, persisted: seq<string>, now: int, c: MonthlyCoin)
    requires c in EarnedMonthlyCoinsWithHabits(catalog, habits, now)
    ensures c in MergedMonthly(catalog, persisted, EarnedMonthlyCoinsWithHabits(catalog, habits, now))
  {
  }

  /** The earned monthly coins of the page, from the record, the catalog and now. */
  function EarnedMonthlyView(progress: Option<Progress>, catalog: seq<MonthlyCoin>, now: int): (r: seq<MonthlyCoin>)
    ensures forall c :: c in r <==>
      (c in catalog && (c.id in PersistedLedger(progress) ||
                        c.id in CoinIds(EarnedMonthlyCoinsWithHabits(catalog, GalleryHabits(progress), now))))
  {
    MergedMonthly(catalog, PersistedLedger(progress),
                  EarnedMonthlyCoinsWithHabits(catalog, GalleryHabits(progress), now))
  }

  /** `ids.filter(id => id !== coinId)`. */
  function WithoutCoin(ids: seq<string>, coinId: string): (r: seq<string>)
    ensures forall id :: id in r <==> id in ids && id != coinId
    ensures |r| <= |ids|
    ensures coinId !in ids ==> r == ids
  {
    Filter(ids, (id: string) => id != coinId)
  }

  /** Removing a coin twice is removing it once; removals of two coins commute. */
  lemma WithoutCoinLaws(ids: seq<string>, a: string, b: string)
    ensures WithoutCoin(WithoutCoin(ids, a), a) == WithoutCoin(ids, a)
    ensures WithoutCoin(WithoutCoin(ids, a), b) == WithoutCoin(WithoutCoin(ids, b), a)
  {
    var pa := (id: string) => id != a;
    FilterOfFilter(ids, pa, pa);
    WithoutCoinCommutes(ids, a, b);
  }

  /** Removing a then b keeps exactly the ids that are neither, whichever goes first. */
  lemma WithoutCoinCommutes(ids: seq<string>, a: string, b: string)
    ensures WithoutCoin(WithoutCoin(ids, a), b) == WithoutCoin(WithoutCoin(ids, b), a)
  {
    var pa := (id: string) => id != a;
    var pb := (id: string) => id != b;
    var pab := (id: string) => id != a && id != b;
    WithoutThenWithout(ids, pa, pb, pab);
    WithoutThenWithout(ids, pb, pa, pab);
  }

  /** Filtering by p then q is filtering by their conjunction. */
  lemma WithoutThenWithout(ids: seq<string>, p: string -> bool, q: string -> bool, pq: string -> bool)
    requires forall id :: pq(id) == (p(id) && q(id))
    ensures Filter(Filter(ids, p), q) == Filter(ids, pq)
  {
    FilterOfFilter(ids, pq, p);
    FilterOfFilter(Filter(ids, p), pq, q);
    assert Filter(Filter(ids, p), q) == Filter(Filter(ids, p), pq);
  }


  /** What the remove mutation writes: nothing without a record, else the
      record's ledger with every occurrence of the coin dropped. */
  function RemovalWrite(progress: Option<Progress>, coinId: string): (w: Option<(string, seq<string>)>)
    ensures progress.None? <==> w.None?
    ensures w.Some? ==> w.value.0 == progress.value.id &&
                        w.value.1 == WithoutCoin(progress.value.earnedMonthlyCoins.GetOr([]), coinId)
  {
    if progress.None? then None
    else Some((progress.value.id, WithoutCoin(progress.value.earnedMonthlyCoins.GetOr([]), coinId)))
  }

  /** After removal, the coin is shown only if the habits earn it again now. */
  lemma RemovedCoinHidden(catalog: seq<MonthlyCoin>, persisted: seq<string>, newly: seq<MonthlyCoin>, c: MonthlyCoin)
    requires c.id !in CoinIds(newly)
    ensures c !in MergedMonthly(catalog, WithoutCoin(persisted, c.id), newly)
  {
  }

  // ---------------------------------------------------------------- categories

  /** The category ids: the milestone view, the monthly view, or the habit at an index. */
  datatype CategoryId = Milestones | Monthly | HabitAt(index: nat)

  datatype Category = Category(id: CategoryId, name: string, color: string, count: nat, total: nat,
                               daysSober: Option<int>)

  /** One category per habit, in habit order, starting at habit index `from`. */
  function HabitCategories(stats: seq<HabitStat>, milestones: seq<Milestone>, from: nat): (cs: seq<Category>)
    ensures |cs| == |stats|
    ensures forall i :: 0 <= i < |cs| ==> cs[i].id == HabitAt(from + i)
  {
    if stats == [] then []
    else
      [Category(HabitAt(from), stats[0].habit.name, stats[0].habit.color,
                |EarnedMilestones(milestones, stats[0].daysSober)|, |milestones|, Some(stats[0].daysSober))]
      + HabitCategories(stats[1..], milestones, from + 1)
  }

  /** Each habit's category carries its name, colour, days and earned count. */
  lemma {:induction false} HabitCategoryFields(stats: seq<HabitStat>, milestones: seq<Milestone>, from: nat, i: nat)
    requires i < |stats|
    ensures var c := HabitCategories(stats, milestones, from)[i];
      && c.id == HabitAt(from + i) && c.name == stats[i].habit.name
      && c.color == stats[i].habit.color
      && c.count == |EarnedMilestones(milestones, stats[i].daysSober)|
      && c.total == |milestones| && c.count <= c.total
      && c.daysSober == Some(stats[i].daysSober)
    decreases i
  {
    if i > 0 {
      HabitCategoryFields(stats[1..], milestones, from + 1, i - 1);
      assert HabitCategories(stats, milestones, from)[i] == HabitCategories(stats[1..], milestones, from + 1)[i - 1];
    }
  }

  /** The category strip: milestones first, monthly when any monthly coin is
      earned and the edition enables them, then one category per habit. */
  function ViewCategories(milestones: seq<Milestone>, earned: seq<Milestone>, earnedMonthly: seq<MonthlyCoin>,
                          stats: seq<HabitStat>, monthlyEnabled: bool): (cs: seq<Category>)
    ensures var showMonthly := |earnedMonthly| > 0 && monthlyEnabled;
      var off := if showMonthly then 2 else 1;
      && |cs| == off + |stats|
      && cs[0] == Category(Milestones, "Milestones", "#ffd700", |earned|, |milestones|, None)
      && (showMonthly ==> cs[1] == Category(Monthly, "Monthly", "#4a90d9", |earnedMonthly|, |earnedMonthly|, None))
      && cs[off..] == HabitCategories(stats, milestones, 0)
    ensures (exists i :: 0 <= i < |cs| && cs[i].id == Monthly) <==> |earnedMonthly| > 0 && monthlyEnabled
  {
    var head := [Category(Milestones, "Milestones", "#ffd700", |earned|, |milestones|, None)];
    var monthly := if |earnedMonthly| > 0 && monthlyEnabled
                   then [Category(Monthly, "Monthly", "#4a90d9", |earnedMonthly|, |earnedMonthly|, None)]
                   else [];
    var cs := head + monthly + HabitCategories(stats, milestones, 0);
    assert cs[|head + monthly|..] == HabitCategories(stats, milestones, 0);
    cs
  }

  /** Every category id occurs once, so the strip is a well-defined cycle. */
  lemma CategoryIdsDistinct(milestones: seq<Milestone>, earned: seq<Milestone>, earnedMonthly: seq<MonthlyCoin>,
                            stats: seq<HabitStat>, monthlyEnabled: bool)
    ensures var cs := ViewCategories(milestones, earned, earnedMonthly, stats, monthlyEnabled);
      forall i, j :: 0 <= i < j < |cs| ==> cs[i].id != cs[j].id
  {
    var cs := ViewCategories(milestones, earned, earnedMonthly, stats, monthlyEnabled);
    var off := if |earnedMonthly| > 0 && monthlyEnabled then 2 else 1;
    ViewCategoryIds(milestones, earned, earnedMonthly, stats, monthlyEnabled);
    StripIdsDistinct(cs, off);
  }

  /** A strip laid out as milestones, maybe monthly, then habits by position has no repeated id. */
  lemma StripIdsDistinct(cs: seq<Category>, off: nat)
    requires off == 1 || off == 2
    requires |cs| >= off && cs[0].id == Milestones && (off == 2 ==> cs[1].id == Monthly)
    requires forall k :: off <= k < |cs| ==> cs[k].id == HabitAt(k - off)
    ensures forall i, j :: 0 <= i < j < |cs| ==> cs[i].id != cs[j].id
  {
    forall i, j | 0 <= i < j < |cs| ensures cs[i].id != cs[j].id {
      if i >= off {
        assert cs[i].id == HabitAt(i - off) && cs[j].id == HabitAt(j - off);
      } else if j >= off {
        assert cs[j].id.HabitAt? && !cs[i].id.HabitAt?;
      } else {
        assert i == 0 && j == 1;
      }
    }
  }

  /** The id at each position of the strip. */
  lemma ViewCategoryIds(milestones: seq<Milestone>, earned: seq<Milestone>, earnedMonthly: seq<MonthlyCoin>,
                        stats: seq<HabitStat>, monthlyEnabled: bool)
    ensures var cs := ViewCategories(milestones, earned, earnedMonthly, stats, monthlyEnabled);
      var off := if |earnedMonthly| > 0 && monthlyEnabled then 2 else 1;
      && |cs| >= off
      && cs[0].id == Milestones
      && (off == 2 ==> cs[1].id == Monthly)
      && forall k :: off <= k < |cs| ==> cs[k].id == HabitAt(k - off)
  {
    var cs := ViewCategories(milestones, earned, earnedMonthly, stats, monthlyEnabled);
    var off := if |earnedMonthly| > 0 && monthlyEnabled then 2 else 1;
    var hc := HabitCategories(stats, milestones, 0);
    var tail := cs[off..];
    assert tail == hc;
    forall k | off <= k < |cs| ensures cs[k].id == HabitAt(k - off) {
      assert cs[k] == tail[k - off];
      assert hc[k - off].id == HabitAt(k - off);
    }
  }

  /** `categories.findIndex(c => c.id === viewCategory)`. */
  function CurrentIndex(categories: seq<Category>, selected: CategoryId): (k: int)
    ensures -1 <= k < |categories|
    ensures 0 <= k ==> categories[k].id == selected
    ensures k < 0 ==> forall c :: c in categories ==> c.id != selected
  {
    FindIndex(categories, (c: Category) => c.id == selected)
  }

  /** The index the previous-arrow moves to: one back, wrapping from the first
      (or an unknown current) to the last. */
  function PrevIndex(current: int, n: nat): (k: int)
    requires n > 0 && -1 <= current < n
    ensures 0 <= k < n
    ensures current > 0 ==> k == current - 1
    ensures current <= 0 ==> k == n - 1
  {
    if current > 0 then current - 1 else n - 1
  }

  /** The index the next-arrow moves to: one on, wrapping from the last to the
      first; an unknown current goes to the first. */
  function NextIndex(current: int, n: nat): (k: int)
    requires n > 0 && -1 <= current < n
    ensures 0 <= k < n
    ensures current < n - 1 ==> k == current + 1
    ensures current == n - 1 ==> k == 0
  {
    if current < n - 1 then current + 1 else 0
  }

  /** From any known category, next undoes prev and prev undoes next. */
  lemma NavigationInverse(current: int, n: nat)
    requires n > 0 && 0 <= current < n
    ensures NextIndex(PrevIndex(current, n), n) == current
    ensures PrevIndex(NextIndex(current, n), n) == current
  {
  }

  /** n presses of the next-arrow return to the start. */
  lemma {:induction false} NextCycles(current: int, n: nat, steps: nat)
    requires n > 0 && 0 <= current < n
    ensures IterateNext(current, n, steps) == (current + steps) % n
  {
    if steps > 0 {
      NextCycles(current, n, steps - 1);
      var a: nat := current + steps - 1;
      var k := IterateNext(current, n, steps - 1);
      assert k == a % n;
      ModStep(a, n);
      assert IterateNext(current, n, steps) == NextIndex(k, n);
      if k < n - 1 {
        assert NextIndex(k, n) == k + 1 == (a + 1) % n;
      } else {
        assert NextIndex(k, n) == 0 == (a + 1) % n;
      }
      assert a + 1 == current + steps;
    }
  }

  lemma ModStep(a: nat, n: nat)
    requires n > 0
    ensures (a % n < n - 1 ==> (a + 1) % n == a % n + 1)
    ensures (a % n == n - 1 ==> (a + 1) % n == 0)
  {
    var q, r := a / n, a % n;
    if r < n - 1 {
      ModUnique(a + 1, q, r + 1, n);
    } else {
      assert a + 1 == (q + 1) * n + 0;
      ModUnique(a + 1, q + 1, 0, n);
    }
  }

  /** The remainder is the unique r in [0, n) with a == q * n + r. */
  lemma ModUnique(a: int, q: int, r: int, n: int)
    requires n > 0 && 0 <= r < n && a == q * n + r
    ensures a % n == r
  {
    var q', r' := a / n, a % n;
    MulSub(q, q', n);
    if q > q' {
      MulAtLeast(q - q', n);
    } else if q < q' {
      MulSub(q', q, n);
      MulAtLeast(q' - q, n);
    }
  }

  lemma MulSub(x: int, y: int, n: int)
    ensures (x - y) * n == x * n - y * n
  {
  }

  lemma {:induction false} MulAtLeast(k: int, n: int)
    requires k >= 1 && n > 0
    ensures k * n >= n
    decreases k
  {
    if k > 1 {
      MulAtLeast(k - 1, n);
      MulSub(k, 1, n);
    }
  }

  function IterateNext(current: int, n: nat, steps: nat): (k: int)
    requires n > 0 && 0 <= current < n
    ensures 0 <= k < n
  {
    if steps == 0 then current else NextIndex(IterateNext(current, n, steps - 1), n)
  }

  /** `viewCategories[currentIndex] || viewCategories[0]`. */
  function CurrentCategory(categories: seq<Category>, selected: CategoryId): (c: Category)
    requires categories != []
    ensures CurrentIndex(categories, selected) >= 0 ==> c.id == selected
    ensures CurrentIndex(categories, selected) < 0 ==> c == categories[0]
  {
    var k := CurrentIndex(categories, selected);
    if k >= 0 then categories[k] else categories[0]
  }

  /** The selected category of the gallery. */
  class GalleryView {
    var viewCategory: CategoryId

    constructor ()
      ensures viewCategory == Milestones
    {
      viewCategory := Milestones;
    }

    /** A click on a category in the strip. */
    method Select(id: CategoryId)
      modifies this
      ensures viewCategory == id
    {
      viewCategory := id;
    }

    method GoToPrevCategory(categories: seq<Category>)
      requires categories != []
      modifies this
      ensures viewCategory ==
        categories[PrevIndex(CurrentIndex(categories, old(viewCategory)), |categories|)].id
    {
      var current := CurrentIndex(categories, viewCategory);
      viewCategory := categories[PrevIndex(current, |categories|)].id;
    }

    method GoToNextCategory(categories: seq<Category>)
      requires categories != []
      modifies this
      ensures viewCategory ==
        categories[NextIndex(CurrentIndex(categories, old(viewCategory)), |categories|)].id
    {
      var current := CurrentIndex(categories, viewCategory);
      viewCategory := categories[NextIndex(current, |categories|)].id;
    }
  }

  /** With distinct ids, the index found for a category's own id is its position. */
  lemma IndexOfOwnId(categories: seq<Category>, i: int)
    requires 0 <= i < |categories|
    requires forall a, b :: 0 <= a < b < |categories| ==> categories[a].id != categories[b].id
    ensures CurrentIndex(categories, categories[i].id) == i
  {
  }

  // ---------------------------------------------------------------- grid

  /** What the grid shows for the current category. */
  datatype Display =
    | MilestoneGrid(coins: seq<Milestone>, earnedIds: set<string>, title: string, subtitle: string)
    | MonthlyGrid(monthly: seq<MonthlyCoin>, monthlyIds: set<string>, title: string, subtitle: string)
    | NoCoins

  function MilestoneIds(ms: seq<Milestone>): (ids: set<string>)
    ensures forall m :: m in ms ==> m.id in ids
    ensures forall id :: id in ids ==> exists m :: m in ms && m.id == id
  {
    set m | m in ms :: m.id
  }

  /** The ids a grid marks: those of the milestones whose threshold the day count reaches. */
  lemma EarnedIdsSpec(milestones: seq<Milestone>, days: int)
    ensures forall id :: id in MilestoneIds(EarnedMilestones(milestones, days)) <==>
                         exists m :: m in milestones && m.id == id && m.days <= days
  {
  }

  /** The grid: all milestones with the globally earned ones marked, the
      earned monthly coins, or all milestones with one habit's earned ones
      marked; nothing for a habit index out of range. */
  function DisplayCoins(current: CategoryId, milestones: seq<Milestone>, highestDays: int,
                        earnedMonthly: seq<MonthlyCoin>, stats: seq<HabitStat>): (d: Display)
    ensures current == Milestones ==>
      && d.MilestoneGrid? && d.coins == milestones
      && (forall id :: id in d.earnedIds <==> exists m :: m in milestones && m.id == id && m.days <= highestDays)
      && d.title == "Milestone Coins" && d.subtitle == "Earned by reaching day milestones"
    ensures current == Monthly ==>
      && d.MonthlyGrid? && d.monthly == earnedMonthly && d.monthlyIds == CoinIds(earnedMonthly)
      && d.title == "Monthly Coins" && d.subtitle == "Earned by keeping all habits clean for entire months"
    ensures current.HabitAt? && current.index >= |stats| ==> d == NoCoins
    ensures current.HabitAt? && current.index < |stats| ==>
      var h := stats[current.index];
      && d.MilestoneGrid? && d.coins == milestones
      && (forall id :: id in d.earnedIds <==> exists m :: m in milestones && m.id == id && m.days <= h.daysSober)
      && d.title == h.habit.name + " Coins"
      && d.subtitle == IntToString(h.daysSober) + " days • " + NatToString(|d.earnedIds|) + " coins earned"
  {
    EarnedIdsSpec(milestones, highestDays);
    match current
    case Milestones =>
      MilestoneGrid(milestones, MilestoneIds(EarnedMilestones(milestones, highestDays)),
                    "Milestone Coins", "Earned by reaching day milestones")
    case Monthly =>
      MonthlyGrid(earnedMonthly, CoinIds(earnedMonthly), "Monthly Coins",
                  "Earned by keeping all habits clean for entire months")
    case HabitAt(i) =>
      if i >= |stats| then NoCoins
      else
        var h := stats[i];
        EarnedIdsSpec(milestones, h.daysSober);
        var ids := MilestoneIds(EarnedMilestones(milestones, h.daysSober));
        MilestoneGrid(milestones, ids, h.habit.name + " Coins",
                      IntToString(h.daysSober) + " days • " + NatToString(|ids|) + " coins earned")
  }

  /** A habit's grid marks no coin the global grid leaves unmarked. */
  lemma HabitGridWithinGlobal(milestones: seq<Milestone>, earnedMonthly: seq<MonthlyCoin>,
                              stats: seq<HabitStat>, i: nat)
    requires i < |stats|
    ensures DisplayCoins(HabitAt(i), milestones, HighestDays(stats), earnedMonthly, stats).earnedIds <=
            DisplayCoins(Milestones, milestones, HighestDays(stats), earnedMonthly, stats).earnedIds
  {
    HabitEarnedWithinGlobal(milestones, stats, i);
  }

  /** `totalEarned`: earned milestones plus earned monthly coins. The page
      computes it but never displays it. */
  function TotalEarned(earned: seq<Milestone>, earnedMonthly: seq<MonthlyCoin>): (n: nat)
    ensures n >= |earned| && n >= |earnedMonthly|
    ensures n == |earned| + |earnedMonthly|
  {
    |earned| + |earnedMonthly|
  }

  /** With distinct ids, the computed (undisplayed) total is the number of
      coins the Milestones grid marks plus the number the Monthly grid shows. */
  lemma TotalCountsGrids(milestones: seq<Milestone>, highestDays: int,
                         earnedMonthly: seq<MonthlyCoin>, stats: seq<HabitStat>)
    requires DistinctBy(milestones, (m: Milestone) => m.id)
    requires DistinctBy(earnedMonthly, (c: MonthlyCoin) => c.id)
    ensures TotalEarned(EarnedMilestones(milestones, highestDays), earnedMonthly) ==
            |DisplayCoins(Milestones, milestones, highestDays, earnedMonthly, stats).earnedIds| +
            |DisplayCoins(Monthly, milestones, highestDays, earnedMonthly, stats).monthlyIds|
  {
    EarnedIdsCount(milestones, highestDays);
    CoinIdsCount(earnedMonthly);
  }

  /** Distinct milestone ids: one marked id per earned milestone. */
  lemma EarnedIdsCount(milestones: seq<Milestone>, days: int)
    requires DistinctBy(milestones, (m: Milestone) => m.id)
    ensures |MilestoneIds(EarnedMilestones(milestones, days))| == |EarnedMilestones(milestones, days)|
  {
    var mid := (m: Milestone) => m.id;
    var earned := EarnedMilestones(milestones, days);
    FilterDistinctBy(milestones, (m: Milestone) => days >= m.days, mid);
    assert DistinctBy(earned, mid);
    KeySetSize(earned, mid);
    assert MilestoneIds(earned) == Keys(earned, mid);
  }

  /** Distinct coin ids: one id per coin. */
  lemma CoinIdsCount(coins: seq<MonthlyCoin>)
    requires DistinctBy(coins, (c: MonthlyCoin) => c.id)
    ensures |CoinIds(coins)| == |coins|
  {
    var cid := (c: MonthlyCoin) => c.id;
    KeySetSize(coins, cid);
    assert CoinIds(coins) == Keys(coins, cid);
  }
}
