/**
 * The habit registry on the settings page: the editable habit list with its
 * add / remove / reset / re-date / rename handlers, the unsaved-changes flag,
 * the earliest start date written back for older readers, and what a save
 * sends to the entity store. Today's date and fresh ids are parameters.
 */
module Settings {
  import opened Wrappers
  import opened Seqs
  import opened Text
  import opened Records
  import opened CoinMilestones
  import opened UserProgress
  import opened AppVersion
  import opened Calendar

  const HabitColors: seq<string> :=
    ["#ffd700", "#4a90d9", "#50c878", "#ff6b6b", "#9b59b6", "#e67e22", "#1abc9c", "#e91e63"]

  /** The colour a new habit gets: the palette, cycling with the list length. */
  function ColorFor(count: nat): (c: string)
    ensures c == HabitColors[count % |HabitColors|]
    ensures c in HabitColors
  {
    HabitColors[count % 8]
  }

  // ---------------------------------------------------------------- list operations

  /** The list after removing a habit: every habit with that id goes, the rest keep their order. */
  function RemoveHabit(habits: seq<Habit>, id: string): (r: seq<Habit>)
    ensures forall h :: h in r <==> h in habits && h.id != id
    ensures |r| <= |habits|
  {
    Filter(habits, (h: Habit) => h.id != id)
  }

  /** The list with the start date of every habit with that id replaced. */
  function SetStartDate(habits: seq<Habit>, id: string, date: DateField): (r: seq<Habit>)
    ensures |r| == |habits|
    ensures forall i :: 0 <= i < |habits| && habits[i].id == id ==> r[i] == habits[i].(startDate := date)
    ensures forall i :: 0 <= i < |habits| && habits[i].id != id ==> r[i] == habits[i]
  {
    if habits == [] then []
    else [if habits[0].id == id then habits[0].(startDate := date) else habits[0]]
         + SetStartDate(habits[1..], id, date)
  }

  /** The list with the name of the habit being edited replaced; no habit
      matches when no habit is being edited. */
  function Rename(habits: seq<Habit>, editing: Option<string>, name: string): (r: seq<Habit>)
    ensures |r| == |habits|
    ensures forall i :: 0 <= i < |habits| && Some(habits[i].id) == editing ==> r[i] == habits[i].(name := name)
    ensures forall i :: 0 <= i < |habits| && Some(habits[i].id) != editing ==> r[i] == habits[i]
  {
    if habits == [] then []
    else [if Some(habits[0].id) == editing then habits[0].(name := name) else habits[0]]
         + Rename(habits[1..], editing, name)
  }

  function Ids(habits: seq<Habit>): (ids: seq<string>)
    ensures |ids| == |habits| && forall i :: 0 <= i < |habits| ==> ids[i] == habits[i].id
  {
    if habits == [] then [] else [habits[0].id] + Ids(habits[1..])
  }

  /** Re-dating and renaming keep every id in its place, and each habit's colour. */
  lemma EditsKeepIdentity(habits: seq<Habit>, id: string, date: DateField, editing: Option<string>, name: string)
    ensures Ids(SetStartDate(habits, id, date)) == Ids(habits)
    ensures Ids(Rename(habits, editing, name)) == Ids(habits)
    ensures forall i :: 0 <= i < |habits| ==>
      SetStartDate(habits, id, date)[i].color == habits[i].color &&
      Rename(habits, editing, name)[i].color == habits[i].color
  {
    var dated := SetStartDate(habits, id, date);
    var renamed := Rename(habits, editing, name);
    forall i | 0 <= i < |habits|
      ensures dated[i].id == habits[i].id && dated[i].color == habits[i].color
      ensures renamed[i].id == habits[i].id && renamed[i].color == habits[i].color
    {
    }
    assert Ids(dated) == Ids(habits);
    assert Ids(renamed) == Ids(habits);
  }

  /** Removing an id leaves no habit with that id and keeps every other habit's relative order. */
  lemma RemoveHabitKeepsOthers(habits: seq<Habit>, id: string, other: string)
    requires other != id
    ensures Filter(RemoveHabit(habits, id), (h: Habit) => h.id == other) == Filter(habits, (h: Habit) => h.id == other)
  {
    FilterOfFilter(habits, (h: Habit) => h.id == other, (h: Habit) => h.id != id);
  }

  // ---------------------------------------------------------------- earliest date

  /** `a < b` between two stored date fields, which JavaScript compares as
      strings: false when either is missing, "" before every day, and days in
      calendar order. */
  predicate EarlierThan(a: DateField, b: DateField) {
    (a.Cleared? && b.On?) || (a.On? && b.On? && a.instant < b.instant)
  }

  /** The reduce step: the habit's date when it is earlier, else the accumulator. */
  function EarliestFrom(acc: DateField, habits: seq<Habit>): DateField
    decreases |habits|
  {
    if habits == [] then acc
    else EarliestFrom(if EarlierThan(habits[0].startDate, acc) then habits[0].startDate else acc, habits[1..])
  }

  /** `earliestDate`, the start date written to the record: null for an empty
      list; missing when the first habit has no date; otherwise "" as soon as
      any date was cleared, else the earliest listed day. */
  function EarliestDate(habits: seq<Habit>): (v: DateField)
    ensures habits == [] ==> v == Absent
    ensures habits != [] && habits[0].startDate.Absent? ==> v == Absent
    ensures habits != [] && !habits[0].startDate.Absent? ==>
      && (v == Cleared <==> AnyCleared(habits))
      && (!AnyCleared(habits) ==>
            && v.On?
            && (exists h :: h in habits && h.startDate == v)
            && (forall h :: h in habits && h.startDate.On? ==> v.instant <= h.startDate.instant))
  {
    if habits == [] then Absent
    else
      var first := habits[0].startDate;
      assert habits[0] in habits;
      if first.Absent? then EarliestFromAbsent(habits); EarliestFrom(first, habits)
      else if first.Cleared? then EarliestFromCleared(habits); EarliestFrom(first, habits)
      else EarliestFromPresent(first.instant, habits); EarliestFrom(first, habits)
  }

  /** Some habit's date was cleared. */
  predicate AnyCleared(habits: seq<Habit>) {
    exists h :: h in habits && h.startDate.Cleared?
  }

  /** From a day, the reduce yields "" when some later date was cleared, and
      otherwise a day no later than it and than every listed day, which is the
      accumulator or one of those days. */
  lemma {:induction false} EarliestFromPresent(a: int, habits: seq<Habit>)
    ensures var v := EarliestFrom(On(a), habits);
      && (v.Cleared? <==> AnyCleared(habits))
      && (!AnyCleared(habits) ==>
            && v.On? && v.instant <= a
            && (forall h :: h in habits && h.startDate.On? ==> v.instant <= h.startDate.instant)
            && (v.instant == a || exists h :: h in habits && h.startDate == v))
    decreases |habits|
  {
    if habits != [] {
      var h0 := habits[0];
      var rest := habits[1..];
      assert forall h :: h in habits <==> h == h0 || h in rest;
      if h0.startDate.Cleared? {
        EarliestFromCleared(rest);
        assert AnyCleared(habits);
      } else {
        var next := if EarlierThan(h0.startDate, On(a)) then h0.startDate.instant else a;
        assert EarliestFrom(On(a), habits) == EarliestFrom(On(next), rest);
        EarliestFromPresent(next, rest);
        assert AnyCleared(habits) <==> AnyCleared(rest);
      }
    }
  }

  /** Once the accumulator is "", nothing compares below it. */
  lemma {:induction false} EarliestFromCleared(habits: seq<Habit>)
    ensures EarliestFrom(Cleared, habits) == Cleared
    decreases |habits|
  {
    if habits != [] {
      EarliestFromCleared(habits[1..]);
    }
  }

  /** From a missing date the reduce stays missing, as `x < undefined` is always false. */
  lemma {:induction false} EarliestFromAbsent(habits: seq<Habit>)
    ensures EarliestFrom(Absent, habits) == Absent
    decreases |habits|
  {
    if habits != [] {
      EarliestFromAbsent(habits[1..]);
    }
  }

  // ---------------------------------------------------------------- guards

  /** The add form gives way to the premium offer when the edition is free and the limit is reached. */
  function ShowUpsell(config: Config, habitCount: nat): (b: bool)
    ensures b <==> !IsPremium(config) && MaxHabits(config).AtMost? && habitCount >= MaxHabits(config).n
  {
    !IsPremium(config) && !MaxHabits(config).Allows(habitCount)
  }

  /** The delete button is offered only while more than one habit exists. */
  predicate CanDelete(habitCount: nat) {
    habitCount > 1
  }

  /** While the button shows, deleting a habit from a list with distinct ids
      leaves at least one habit. */
  lemma DeleteKeepsAHabit(habits: seq<Habit>, id: string)
    requires CanDelete(|habits|)
    requires forall i, j :: 0 <= i < j < |habits| ==> habits[i].id != habits[j].id
    ensures RemoveHabit(habits, id) != []
  {
    var h := if habits[0].id != id then habits[0] else habits[1];
    assert habits[0].id != habits[1].id;
    assert h in habits && h.id != id;
  }

  /** With the shipped limits the offer never shows in the premium edition and,
      in the free edition, shows exactly once one habit exists. */
  lemma UpsellByEdition(isPremium: bool, habitCount: nat)
    ensures isPremium ==> !ShowUpsell(Shipped.(isPremium := isPremium), habitCount)
    ensures !isPremium ==> (ShowUpsell(Shipped.(isPremium := isPremium), habitCount) <==> habitCount >= 1)
  {
  }

  /** `getDaysForHabit`: 0 without a start date, else whole days elapsed. */
  function DaysForHabit(h: Habit, now: int): (d: int)
    ensures !h.startDate.On? ==> d == 0
    ensures h.startDate.On? ==> d * MsPerDay <= now - h.startDate.instant < (d + 1) * MsPerDay
  {
    DaysSober(Instant(h.startDate), now)
  }

  // ---------------------------------------------------------------- save

  const SavedKeys: set<string> := {"start_date", "habits", "collected_coins"}

  /** The fields a save writes; the earliest date and the habit list arrive already encoded. */
  function SavePatch(earliest: Value, habits: Value, collected: Value): (patch: Record)
    ensures patch.Keys == SavedKeys
  {
    map["start_date" := earliest, "habits" := habits, "collected_coins" := collected]
  }

  /** `progress.collected_coins || []`, and [] for a new record. */
  function CollectedForSave(progress: Option<Record>): (v: Value)
    ensures progress.None? ==> v == List([])
    ensures progress.Some? && Truthy(Get(progress.value, "collected_coins")) ==>
      v == Get(progress.value, "collected_coins")
    ensures Truthy(v) || v == List([])
  {
    if progress.Some? && Truthy(Get(progress.value, "collected_coins"))
    then Get(progress.value, "collected_coins")
    else List([])
  }

  /** The store call a save makes. */
  datatype SaveCall = UpdateProgress(id: Value, patch: Record) | CreateProgress(data: Record)

  function SaveRequest(progress: Option<Record>, earliest: Value, habits: Value): (call: SaveCall)
    ensures progress.Some? ==> call == UpdateProgress(Get(progress.value, "id"),
                                                      SavePatch(earliest, habits, CollectedForSave(progress)))
    ensures progress.None? ==> call == CreateProgress(SavePatch(earliest, habits, List([])))
  {
    if progress.Some? then UpdateProgress(Get(progress.value, "id"), SavePatch(earliest, habits, CollectedForSave(progress)))
    else CreateProgress(SavePatch(earliest, habits, List([])))
  }

  /** An update merges, so a save leaves every other stored field as it was,
      in particular the ledger of earned monthly coins. */
  lemma SaveKeepsOtherFields(stored: Record, earliest: Value, habits: Value, collected: Value, key: string)
    requires key !in SavedKeys
    ensures Get(Spread(stored, SavePatch(earliest, habits, collected)), key) == Get(stored, key)
  {
  }

  lemma SaveKeepsLedger(stored: Record, earliest: Value, habits: Value, collected: Value)
    ensures Get(Spread(stored, SavePatch(earliest, habits, collected)), "earnedMonthlyCoins") ==
            Get(stored, "earnedMonthlyCoins")
  {
    SaveKeepsOtherFields(stored, earliest, habits, collected, "earnedMonthlyCoins");
  }

  // ---------------------------------------------------------------- page state

  /** The page's state and its handlers. */
  class SettingsPage {
    var habits: seq<Habit>
    var newHabitName: string
    var newHabitDate: DateField
    var editingHabitId: Option<string>
    var editingName: string
    var hasChanges: bool

    constructor (today: int)
      ensures habits == [] && newHabitName == "" && newHabitDate == On(today)
      ensures editingHabitId == None && editingName == "" && !hasChanges
    {
      habits := [];
      newHabitName := "";
      newHabitDate := On(today);
      editingHabitId := None;
      editingName := "";
      hasChanges := false;
    }

    /** The effect run when the progress record arrives: the migrated habits,
        or the current list when the record yields none. */
    method LoadProgress(progress: Option<Progress>)
      modifies this
      ensures progress.Some? && MigratedHabits(progress.value).Some? ==>
        habits == MigratedHabits(progress.value).value
      ensures progress.None? || MigratedHabits(progress.value).None? ==> habits == old(habits)
      ensures newHabitName == old(newHabitName) && newHabitDate == old(newHabitDate)
      ensures editingHabitId == old(editingHabitId) && editingName == old(editingName)
      ensures hasChanges == old(hasChanges)
    {
      if progress.Some? {
        var migrated := MigratedHabits(progress.value);
        if migrated.Some? {
          habits := migrated.value;
        }
      }
    }

    method SetNewHabitName(name: string)
      modifies this
      ensures newHabitName == name
      ensures habits == old(habits) && newHabitDate == old(newHabitDate)
      ensures editingHabitId == old(editingHabitId) && editingName == old(editingName)
      ensures hasChanges == old(hasChanges)
    {
      newHabitName := name;
    }

    /** The start-date input of the add form: a day, or "" once cleared. */
    method SetNewHabitDate(date: DateField)
      modifies this
      ensures newHabitDate == date
      ensures habits == old(habits) && newHabitName == old(newHabitName)
      ensures editingHabitId == old(editingHabitId) && editingName == old(editingName)
      ensures hasChanges == old(hasChanges)
    {
      newHabitDate := date;
    }

    /** `handleAddHabit`: ignored for a blank name; otherwise appends one habit
        with the trimmed name, the chosen date and the next palette colour,
        resets the form to today and marks the page changed. */
    method AddHabit(freshId: string, today: int)
      modifies this
      ensures Trim(old(newHabitName)) == "" ==>
        habits == old(habits) && newHabitName == old(newHabitName) &&
        newHabitDate == old(newHabitDate) && hasChanges == old(hasChanges)
      ensures Trim(old(newHabitName)) != "" ==>
        && habits == old(habits) + [Habit(freshId, Trim(old(newHabitName)), old(newHabitDate), ColorFor(|old(habits)|))]
        && newHabitName == "" && newHabitDate == On(today) && hasChanges
      ensures editingHabitId == old(editingHabitId) && editingName == old(editingName)
    {
      var name := Trim(newHabitName);
      if name == "" {
        return;
      }
      habits := habits + [Habit(freshId, name, newHabitDate, ColorFor(|habits|))];
      newHabitName := "";
      newHabitDate := On(today);
      hasChanges := true;
    }

    method RemoveHabitById(id: string)
      modifies this
      ensures habits == RemoveHabit(old(habits), id) && hasChanges
      ensures newHabitName == old(newHabitName) && newHabitDate == old(newHabitDate)
      ensures editingHabitId == old(editingHabitId) && editingName == old(editingName)
    {
      habits := RemoveHabit(habits, id);
      hasChanges := true;
    }

    /** `handleResetHabit`: the habit restarts today. */
    method ResetHabit(id: string, today: int)
      modifies this
      ensures habits == SetStartDate(old(habits), id, On(today)) && hasChanges
      ensures newHabitName == old(newHabitName) && newHabitDate == old(newHabitDate)
      ensures editingHabitId == old(editingHabitId) && editingName == old(editingName)
    {
      habits := SetStartDate(habits, id, On(today));
      hasChanges := true;
    }

    method UpdateHabitDate(id: string, newDate: DateField)
      modifies this
      ensures habits == SetStartDate(old(habits), id, newDate) && hasChanges
      ensures newHabitName == old(newHabitName) && newHabitDate == old(newHabitDate)
      ensures editingHabitId == old(editingHabitId) && editingName == old(editingName)
    {
      habits := SetStartDate(habits, id, newDate);
      hasChanges := true;
    }

    method StartEditing(habit: Habit)
      modifies this
      ensures editingHabitId == Some(habit.id) && editingName == habit.name
      ensures habits == old(habits) && hasChanges == old(hasChanges)
      ensures newHabitName == old(newHabitName) && newHabitDate == old(newHabitDate)
    {
      editingHabitId := Some(habit.id);
      editingName := habit.name;
    }

    method SetEditingName(name: string)
      modifies this
      ensures editingName == name
      ensures habits == old(habits) && hasChanges == old(hasChanges) && editingHabitId == old(editingHabitId)
      ensures newHabitName == old(newHabitName) && newHabitDate == old(newHabitDate)
    {
      editingName := name;
    }

    /** `handleSaveEdit`: ignored for a blank name; otherwise renames the habit
        being edited to the trimmed name and leaves editing. */
    method SaveEdit()
      modifies this
      ensures Trim(old(editingName)) == "" ==>
        habits == old(habits) && editingHabitId == old(editingHabitId) &&
        editingName == old(editingName) && hasChanges == old(hasChanges)
      ensures Trim(old(editingName)) != "" ==>
        && habits == Rename(old(habits), old(editingHabitId), Trim(old(editingName)))
        && editingHabitId == None && editingName == "" && hasChanges
      ensures newHabitName == old(newHabitName) && newHabitDate == old(newHabitDate)
    {
      var name := Trim(editingName);
      if name == "" {
        return;
      }
      habits := Rename(habits, editingHabitId, name);
      editingHabitId := None;
      editingName := "";
      hasChanges := true;
    }

    /** `handleCancelEdit`: leaves editing without touching the list or the changed flag. */
    method CancelEdit()
      modifies this
      ensures editingHabitId == None && editingName == ""
      ensures habits == old(habits) && hasChanges == old(hasChanges)
      ensures newHabitName == old(newHabitName) && newHabitDate == old(newHabitDate)
    {
      editingHabitId := None;
      editingName := "";
    }

    /** The save mutation's success callback. */
    method SaveSucceeded()
      modifies this
      ensures !hasChanges
      ensures habits == old(habits) && editingHabitId == old(editingHabitId) && editingName == old(editingName)
      ensures newHabitName == old(newHabitName) && newHabitDate == old(newHabitDate)
    {
      hasChanges := false;
    }
  }
}
