/**
 * The day-milestone dashboard of the earlier app: the caller's progress
 * record, days sober, the latest and next milestone, days to go and the
 * progress bar towards the next milestone.
 */
module HomeDashboard {
  import opened Wrappers
  import opened Seqs
  import opened Records
  import opened CoinMilestones

  /** `results[0] || null` on the progress records filtered by owner. */
  function FirstProgress(results: seq<Record>): (r: Option<Record>)
    ensures r.None? <==> results == []
    ensures r.Some? ==> r.value == results[0]
  {
    if results == [] then None else Some(results[0])
  }

  datatype Summary = Summary(
    daysSober: int,
    latest: Option<Milestone>,
    next: Option<Milestone>,
    earned: seq<Milestone>,
    daysToNext: Option<int>,
    progressToNext: real)

  /** What the page shows: a welcome prompt without a progress record, else the dashboard. */
  datatype View = Welcome | Dashboard(summary: Summary)

  /** Days still to go, or null when every milestone is reached. */
  function DaysToNext(next: Option<Milestone>, daysSober: int): (r: Option<int>)
    ensures r.None? <==> next.None?
    ensures r.Some? ==> r.value == next.value.days - daysSober
  {
    if next.Some? then Some(next.value.days - daysSober) else None
  }

  /** The progress bar, in percent: from the latest threshold to the next, from
      zero to the next when nothing is earned, and full when nothing is left. */
  function ProgressToNext(latest: Option<Milestone>, next: Option<Milestone>, daysSober: int): (p: real)
    requires next.Some? ==> next.value.days >= 1
    requires latest.Some? && next.Some? ==> latest.value.days < next.value.days
    ensures next.None? ==> p == 100.0
    ensures next.Some? && 0 <= daysSober < next.value.days && (latest.Some? ==> latest.value.days <= daysSober) ==>
              0.0 <= p < 100.0
    ensures next.Some? && daysSober == (if latest.Some? then latest.value.days else 0) ==> p == 0.0
  {
    var lo := if latest.Some? then latest.value.days else 0;
    ShareBelowHundred((daysSober - lo) as real, (if next.Some? then next.value.days - lo else 1) as real);
    if next.Some? && latest.Some? then
      (daysSober - latest.value.days) as real / (next.value.days - latest.value.days) as real * 100.0
    else if next.Some? then
      daysSober as real / next.value.days as real * 100.0
    else 100.0
  }

  /** The dashboard for a start date (None when the record has none) and the
      catalog with assets (None while it is loading, shown as empty). */
  function Summarize(startDate: Option<int>, milestonesWithAssets: Option<seq<Milestone>>, now: int): (s: Summary)
    requires forall m :: m in milestonesWithAssets.GetOr([]) ==> m.days >= 1
    ensures s.daysSober == DaysSober(startDate, now)
    ensures s.latest == LatestMilestone(milestonesWithAssets.GetOr([]), s.daysSober)
    ensures s.next == NextMilestone(milestonesWithAssets.GetOr([]), s.daysSober)
    ensures s.earned == EarnedMilestones(milestonesWithAssets.GetOr([]), s.daysSober)
    ensures s.daysToNext.None? <==> s.next.None?
    ensures s.daysToNext.Some? ==> s.daysToNext.value >= 1
    ensures s.next.None? ==> s.progressToNext == 100.0
    ensures s.next.Some? && s.daysSober >= 0 ==> 0.0 <= s.progressToNext < 100.0
  {
    var milestones := milestonesWithAssets.GetOr([]);
    var d := DaysSober(startDate, now);
    var latest := LatestMilestone(milestones, d);
    var next := NextMilestone(milestones, d);
    Bracket(milestones, d);
    Summary(d, latest, next, EarnedMilestones(milestones, d), DaysToNext(next, d),
            ProgressToNext(latest, next, d))
  }

  lemma Bracket(c: seq<Milestone>, d: int)
    ensures LatestMilestone(c, d).Some? && NextMilestone(c, d).Some? ==>
      LatestMilestone(c, d).value.days <= d < NextMilestone(c, d).value.days
  {
    if LatestMilestone(c, d).Some? && NextMilestone(c, d).Some? {
      LatestNextBracket(c, d);
    }
  }

  /** A share of a positive whole, in percent, lies in [0, 100). */
  lemma ShareBelowHundred(num: real, den: real)
    ensures 0.0 <= num < den ==> 0.0 <= num / den * 100.0 < 100.0
  {
    if 0.0 <= num < den {
      FractionBelowOne(num, den);
    }
  }

  lemma FractionBelowOne(num: real, den: real)
    requires 0.0 <= num < den
    ensures 0.0 <= num / den * 100.0 < 100.0
  {
    assert num / den < 1.0;
  }

  /** The page: the welcome prompt until a progress record exists. */
  function PageView(progress: Option<Record>, startDate: Option<int>,
                    milestonesWithAssets: Option<seq<Milestone>>, now: int): (v: View)
    requires forall m :: m in milestonesWithAssets.GetOr([]) ==> m.days >= 1
    ensures v.Welcome? <==> progress.None?
  {
    if progress.None? then Welcome else Dashboard(Summarize(startDate, milestonesWithAssets, now))
  }
}
