/**
 * The user's progress record as the coin pages read it, and the migration of
 * the old single-start-date format into the habit list.
 */
module UserProgress {
  import opened Wrappers
  import opened CoinMilestones

  /** The fields of a progress record the pages use. `startDate` is None for an
      absent start date; `habits` and `earnedMonthlyCoins` are None when the
      record has no such array. */
  datatype Progress = Progress(
    id: string,
    startDate: Option<int>,
    habits: Option<seq<Habit>>,
    earnedMonthlyCoins: Option<seq<string>>)

  const MainHabitId: string := "main"
  const MainHabitName: string := "Sobriety"
  const MainHabitColor: string := "#ffd700"

  /** The habit list a record stands for: its own non-empty habit list, else
      one "Sobriety" habit from an old-format start date, else nothing (None). */
  function MigratedHabits(p: Progress): (r: Option<seq<Habit>>)
    ensures p.habits.Some? && p.habits.value != [] ==> r == p.habits
    ensures (p.habits.None? || p.habits.value == []) && p.startDate.Some? ==>
      r == Some([Habit(MainHabitId, MainHabitName, On(p.startDate.value), MainHabitColor)])
    ensures r.None? <==> (p.habits.None? || p.habits.value == []) && p.startDate.None?
    ensures r.Some? ==> r.value != []
  {
    if p.habits.Some? && |p.habits.value| > 0 then p.habits
    else if p.startDate.Some? then Some([Habit(MainHabitId, MainHabitName, On(p.startDate.value), MainHabitColor)])
    else None
  }

  /** A migrated old-format record keeps its streak: the single habit starts
      on the record's start date. */
  lemma MigrationKeepsStartDate(p: Progress)
    requires p.habits.None? || p.habits.value == []
    requires p.startDate.Some?
    ensures var hs := MigratedHabits(p).value;
      |hs| == 1 && hs[0].startDate == On(p.startDate.value) && hs[0].id == MainHabitId
  {
  }

  /** `progress?.earnedMonthlyCoins || []`: the persisted ledger of monthly coin ids. */
  function PersistedLedger(progress: Option<Progress>): (ids: seq<string>)
    ensures progress.None? ==> ids == []
    ensures progress.Some? && progress.value.earnedMonthlyCoins.Some? ==>
      ids == progress.value.earnedMonthlyCoins.value
  {
    if progress.Some? then progress.value.earnedMonthlyCoins.GetOr([]) else []
  }
}
