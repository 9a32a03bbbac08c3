# CleanCoin and the PDF audiobook reader, modelled in Dafny

This project models the logic of two small browser applications that share one
repository.

- **CleanCoin**, a sobriety tracker. It awards day-milestone coins (1 day to 10
  years) and calendar-month coins for staying clean. It tracks several habits,
  each with its own start date, and keeps a ledger of earned monthly coins. A
  gallery shows the coins by category, a settings page edits the habits, and an
  admin page attaches uploaded 3D models to milestones. Records live in browser
  storage behind a small local stand-in for the hosted backend.
- **The PDF audiobook reader.** It imports a PDF's text through a configurable
  clean-up pipeline, stores books in browser storage, lets the user edit the
  text, and reads it aloud in chunks with skip, jump and speed controls.

The eligibility engine, the migration and aggregation logic of the pages, the
two record stores and the reader's text arithmetic are modelled as functions
and lemmas. The pages' handlers that update state are modelled as classes whose
methods state the whole new state. Instants are integers counting milliseconds.
The calendar arithmetic behind `new Date(year, month, 1)` is written out in
`Calendar`. Browser storage is a map from keys to arrays of JSON-like records.

Modules, one per file: `Wrappers`, `Seqs` and `Text` (the JavaScript array and
string operations used), `Records` (JSON values and record operations),
`Calendar`, `CoinMilestones`, `LegacyMilestones`, `AppVersion`, `PageUtils`,
`UserProgress`, `EntityStore`, `BookStore`, `HomeDashboard`, `Gallery`,
`Settings`, `CoinPreview`, `CoinCard`, `CoinUpload`, `Player`, `ImportPage`,
`EditorPage` and `LibraryPage`.

Where the app's design notes and its code disagree, the model follows the
code:

- The Gallery never writes newly earned monthly coins into the
  `earnedMonthlyCoins` ledger. It only reads the ledger and merges it with what
  the habits earn now. Only coin removal writes the ledger. `Gallery.MergedMonthly`
  and `Gallery.RemovalWrite` model exactly that.
- The multi-habit rule counts only habits that started strictly before the
  month. Its final `every` check can therefore never fail. A habit that starts
  exactly at the first instant of the month earns that month's coin under the
  single-date rule but not under the multi-habit rule
  (`CoinMilestones.EveryCheckVacuous`, `CoinMilestones.FirstOfMonthBoundary`).
- Blank-line collapsing runs before whitespace normalisation. A line holding
  only a space can therefore leave three newlines in a row in an imported text
  (`ImportPage.SpaceLineSurvivesCollapse`).

## Model

| member | source | states |
|---|---|---|
| CoinMilestones.DaysSober | pages/Home.js:36-38 | 0 without a start date; otherwise d whole days with d·day ≤ now − start < (d+1)·day |
| CoinMilestones.EarnedMilestones | src/components/coins/CoinMilestones.js:84-86 | exactly the milestones with days ≤ daysSober, both directions, never more than the catalog |
| CoinMilestones.EarnedMonotone | src/components/coins/CoinMilestones.js:84-86 | the earned list for d is the earned list for any d' ≥ d filtered again, so more days never lose a milestone |
| CoinMilestones.EarnedIsPrefix | src/components/coins/CoinMilestones.js:84-86 | on a catalog sorted by days the earned list is a prefix, and every later entry is still pending |
| CoinMilestones.LatestMilestone | src/components/coins/CoinMilestones.js:91-94 | null iff nothing is earned; otherwise the last earned entry in catalog order: an entry whose threshold is reached while no later entry's is |
| CoinMilestones.NextMilestone | src/components/coins/CoinMilestones.js:99-101 | null iff everything is earned; otherwise the first catalog entry not yet reached |
| CoinMilestones.LatestNextBracket | src/components/coins/CoinMilestones.js:91-101 | when both exist, latest.days ≤ daysSober < next.days |
| CoinMilestones.SortedLatestAndNext | src/components/coins/CoinMilestones.js:91-101 | on a sorted catalog the earned entries are a prefix, the latest is that prefix's last entry and the next is the entry right after it |
| CoinMilestones.SortedLatest | src/components/coins/CoinMilestones.js:91-94 | on a sorted catalog the latest is the last entry of the earned prefix, and no earned milestone has a larger threshold |
| CoinMilestones.SortedNext | src/components/coins/CoinMilestones.js:99-101 | on a sorted catalog the next milestone is the entry right after the earned prefix, and absent exactly when all are earned |
| CoinMilestones.MilestoneById | src/components/coins/CoinMilestones.js:106-108 | undefined iff no milestone has the id; otherwise the first catalog entry with that id, as `find` returns |
| CoinMilestones.RelevantHabits | src/components/coins/CoinMilestones.js:158-161 | exactly the habits that started strictly before the month |
| CoinMilestones.EveryCheckVacuous | src/components/coins/CoinMilestones.js:168-171 | every relevant habit passes the final check, so the check never rejects |
| CoinMilestones.HasEarnedMonthlyCoin | src/components/coins/CoinMilestones.js:119-133 | never without a start date; otherwise the multi-habit verdict for that one date, plus a start exactly on the month's first instant once the month is over |
| CoinMilestones.HasEarnedMonthlyCoinWithHabits | src/components/coins/CoinMilestones.js:144-172 | a month is earned with habits iff it has ended and some habit started strictly before it |
| CoinMilestones.LateHabitIgnored | src/components/coins/CoinMilestones.js:158-161 | adding a habit that starts in or after the month never changes that month's verdict |
| CoinMilestones.FirstOfMonthBoundary | src/components/coins/CoinMilestones.js:119-172 | a start exactly at the month's first instant earns under the single-date rule and not under the multi-habit rule |
| CoinMilestones.UnfinishedMonthNeverEarned | src/components/coins/CoinMilestones.js:119-172 | before the month ends neither rule awards its coin |
| CoinMilestones.EarnedMonthlyCoins | src/components/coins/CoinMilestones.js:181-184 | exactly the catalog coins the single-date rule awards; none without a start date |
| CoinMilestones.EarnedMonthlyCoinsWithHabits | src/components/coins/CoinMilestones.js:193-196 | exactly the catalog coins the multi-habit rule awards; none without habits |
| CoinMilestones.NextMonthlyCoin | src/components/coins/CoinMilestones.js:205-218 | the first coin in catalog order that the start date covers and whose month has not ended, never an earned one; none iff no coin qualifies |
| CoinMilestones.NextMonthlyCoinWithHabits | src/components/coins/CoinMilestones.js:228-257 | the first coin still to come that some habit predates; none iff there is none or there are no habits |
| CoinMilestones.NextMonthlyCoinWithHabitsNotEarned | src/components/coins/CoinMilestones.js:228-257 | the upcoming coin is not yet earned under the multi-habit rule |
| CoinMilestones.MonthName | src/components/coins/CoinMilestones.js:262-268 | a non-empty English name exactly for months 1 to 12, "" otherwise |
| CoinMilestones.MonthNamesDistinct | src/components/coins/CoinMilestones.js:262-268 | distinct months have distinct names |
| Calendar.MonthLength | src/components/coins/CoinMilestones.js:125-128 | the month's end lies 28 to 31 days after its start |
| Calendar.MonthDays | src/components/coins/CoinMilestones.js:125-128 | consecutive firsts of months are a month length apart, with month overflow carried into the year |
| Calendar.ElapsedDays | pages/Home.js:36-38 | the floor of the elapsed time in days: d·day ≤ now − start < (d+1)·day; non-negative iff start ≤ now |
| Calendar.ElapsedDaysBetweenDates | src/pages/Settings.jsx:169-173 | between two midnights the elapsed days are their day difference |
| Calendar.MonthStartIsFirstDay | src/components/coins/CoinMilestones.js:125 | the month's start is midnight of its first day |
| LegacyMilestones.CatalogWellFormed | components/coins/CoinMilestones.js:2-67 | eight entries, thresholds strictly increasing from 1 to 3650 days, ids unique |
| LegacyMilestones.Earned | components/coins/CoinMilestones.js:69-71 | a prefix of the catalog with exactly the reached entries; empty iff below one day; the whole catalog iff 3650 days or more |
| LegacyMilestones.Latest | components/coins/CoinMilestones.js:73-76 | null iff below one day; otherwise the reached entry with the largest threshold |
| LegacyMilestones.Next | components/coins/CoinMilestones.js:78-80 | null iff 3650 days or more; otherwise the pending entry with the smallest threshold |
| LegacyMilestones.NextIsSmallestPending | components/coins/CoinMilestones.js:78-80 | on any sorted catalog the next milestone has the smallest pending threshold |
| LegacyMilestones.ById | components/coins/CoinMilestones.js:82-84 | found iff the id is one of the eight catalog ids, and then it is that entry |
| LegacyMilestones.AssetFor | pages/CoinUpload.js:81-83 | none iff no asset names the milestone; otherwise the first asset in list order whose milestone_id is the id (the same `find` is the lookup at components/coins/CoinMilestones.js:91 and pages/CoinUpload.js:36) |
| LegacyMilestones.UploadedUrl | components/coins/CoinMilestones.js:94 | a URL only from a non-empty glb_url string, and always from one |
| LegacyMilestones.MergeAssets | components/coins/CoinMilestones.js:90-96 | same entries in the same order; only glbUrl changes, and exactly where an asset carries a URL |
| LegacyMilestones.WithAssets | components/coins/CoinMilestones.js:87-100 | the plain catalog when listing fails, the merged catalog otherwise |
| LegacyMilestones.NoAssetsNoChange | components/coins/CoinMilestones.js:90-96 | with no uploads the merged catalog is the catalog |
| LegacyMilestones.MergeKeepsEarned | components/coins/CoinMilestones.js:87-96 | merging URLs never changes which milestones are earned |
| AppVersion.ActiveFeatures | src/config/appVersion.js:14-35 | the premium features in a premium build, the free limits otherwise |
| AppVersion.MaxHabits | src/config/appVersion.js:42-46 | the active edition's habit limit |
| AppVersion.MonthlyCoinsEnabled | src/config/appVersion.js:48-52 | the active edition's monthly-coin switch |
| AppVersion.EditionsDiffer | src/config/appVersion.js:24-34 | with the shipped limits, monthly coins are on iff premium, and the limit is 1 in free and unbounded in premium |
| AppVersion.ShippedIsPremium | src/config/appVersion.js:16 | the shipped build is premium, with monthly coins and no habit limit |
| PageUtils.CreatePageUrl | src/utils/index.js:6-8 | "/" followed by the lower-cased name, with no upper-case letter left |
| PageUtils.PageUrlCaseInsensitive | src/utils/index.js:6-8 | names differing only in ASCII case give the same route |
| PageUtils.PadStart | src/utils/index.js:18 | a string already wide enough is unchanged; otherwise fill characters are added in front up to the width |
| PageUtils.FormatDuration | src/utils/index.js:15-19 | reading the "m:ss" text back gives the seconds, so the seconds field always has two digits and nothing is lost; the minutes carry no leading zero |
| PageUtils.ParseDurationUnique | src/utils/index.js:15-19 | the formatted clock is the only text that reads back as its seconds, so the round trip fixes the displayed text |
| PageUtils.TruncateText | src/utils/index.js:27-30 | the text itself when it fits; otherwise a trimmed prefix plus "...", at most maxLength + 3 long |
| PageUtils.TruncatedIsExcerpt | src/utils/index.js:29 | the truncated body is a stretch of the first maxLength characters with only blanks cut from its ends |
| PageUtils.TrimmedPrefixBounds | src/utils/index.js:29 | trimming the first n characters leaves the stretch between two positions no later than n |
| UserProgress.MigratedHabits | src/pages/Settings.jsx:55-70 | a non-empty habit list is used as is; otherwise one "Sobriety" habit from start_date; none without either |
| UserProgress.MigrationKeepsStartDate | src/pages/Gallery.jsx:58-72 | a migrated old record yields one habit "main" with the record's start date |
| UserProgress.PersistedLedger | src/pages/Gallery.jsx:95-97 | the stored ledger, or [] when there is no record or no ledger |
| Records.Spread | src/api/base44Client.js:78-81 | every field of the patch, and the old fields the patch does not set |
| Records.IndexOfId | src/api/base44Client.js:76 | the first index whose id matches, or −1 when none does |
| Records.FindById | src/api/base44Client.js:55-58 | none iff no record has the id; otherwise the record at the first matching index |
| Records.WithoutId | src/api/base44Client.js:89-94 | exactly the records whose id differs |
| Records.WithoutIdIdempotent | src/api/base44Client.js:91 | deleting an id twice is deleting it once |
| Records.WithoutAbsentId | src/api/base44Client.js:91 | deleting an id no record has leaves the records as they are |
| Records.EmptyCriteriaMatchAll | src/api/base44Client.js:50-52 | every record matches empty criteria, so an empty filter lists everything |
| Records.MergeFirst | src/api/base44Client.js:76-81 | the first matching record merged with the patch, every other record untouched |
| EntityStore.StorageKeyInjective | src/api/base44Client.js:41 | different entity names never share a storage key |
| EntityStore.StorageKey | src/api/base44Client.js:41 | the entity name behind the "cleancoin_" prefix |
| EntityStore.LocalStorage.constructor | src/api/base44Client.js:7-15 | storage starts with no key |
| EntityStore.LocalStorage.Read | src/api/base44Client.js:7-15 | a missing key reads as [] |
| EntityStore.EntityMethods.constructor | src/api/base44Client.js:40-41 | the methods bound to one entity name and the shared storage |
| EntityStore.Client.constructor | src/api/base44Client.js:106-109 | UserProgress and CoinAsset method sets over the same storage |
| EntityStore.NewItem | src/api/base44Client.js:60-72 | the caller's fields plus a fresh id, the owner's email and both timestamps set to now, which override the caller's |
| EntityStore.EntityMethods.List | src/api/base44Client.js:44-46 | the stored records of the entity, [] when there are none |
| EntityStore.EntityMethods.Filter | src/api/base44Client.js:48-53 | exactly the records matching every criterion, in stored order |
| EntityStore.EntityMethods.Get | src/api/base44Client.js:55-58 | the first record with the id, none iff there is none |
| EntityStore.EntityMethods.Create | src/api/base44Client.js:60-72 | appends exactly the new item and touches no other key |
| EntityStore.EntityMethods.Update | src/api/base44Client.js:74-87 | missing id: the not-found error and nothing written; else the first match merged with the data and a new timestamp |
| EntityStore.EntityMethods.Delete | src/api/base44Client.js:89-94 | every record with the id removed, the rest in order, and success |
| EntityStore.EntitiesIsolated | src/api/base44Client.js:106-109 | writing one entity's records never changes the other entity's |
| BookStore.NewBook | src/api/storageClient.js:63-75 | the caller's fields kept (its id included) over a fresh id, both timestamps set to now and position 0, which override the caller's |
| BookStore.TextOf | src/pages/Player.jsx:151 | the book's text when it is a string, otherwise empty |
| BookStore.UpdatedBooks | src/api/storageClient.js:77-89 | unchanged when no book has the id; otherwise the first match merged with the updates and a new timestamp |
| BookStore.BookStorage.List | src/api/storageClient.js:54-56 | the stored books |
| BookStore.BookStorage.Get | src/api/storageClient.js:58-61 | the first book with the id; none iff there is none |
| BookStore.BookStorage.Create | src/api/storageClient.js:63-75 | appends exactly the new book |
| BookStore.BookStorage.Update | src/api/storageClient.js:77-89 | null and nothing written for a missing id; otherwise the merged book, written back |
| BookStore.BookStorage.Delete | src/api/storageClient.js:91-96 | every book with the id removed |
| BookStore.BookStorage.constructor | src/api/storageClient.js:54-56 | no book stored |
| BookStore.UpdateThenGet | src/api/storageClient.js:58-89 | after an update, reading the id returns the merged book |
| BookStore.DeleteThenGet | src/api/storageClient.js:58-96 | after a delete, reading the id finds nothing |
| HomeDashboard.FirstProgress | pages/Home.js:21-28 | the first of the owner's progress records, none iff there are none |
| HomeDashboard.DaysToNext | pages/Home.js:44 | null iff there is no next milestone; otherwise its threshold minus the days sober |
| HomeDashboard.Summarize | pages/Home.js:36-51 | the days, latest, next and earned values of the engine; at least one day still to go; 100% with no next; within [0, 100) otherwise |
| HomeDashboard.ProgressToNext | pages/Home.js:47-51 | 100 with no next milestone; 0 at the latest threshold (or at day 0 with none earned); within [0, 100) while the next one is ahead |
| HomeDashboard.PageView | pages/Home.js:53 | the welcome prompt iff there is no progress record |
| Gallery.GalleryHabits | src/pages/Gallery.jsx:58-72 | no habits without a record; otherwise the migrated list |
| Gallery.HabitStats | src/pages/Gallery.jsx:75-82 | one entry per habit, in order, with its days sober |
| Gallery.HighestDays | src/pages/Gallery.jsx:85-88 | at least every habit's count, attained by one of them; 0 without habits |
| Gallery.HabitEarnedWithinGlobal | src/pages/Gallery.jsx:91 | every habit's earned milestones are among the globally earned ones |
| Gallery.MergedMonthly | src/pages/Gallery.jsx:105-116 | [] for an empty catalog; otherwise exactly the catalog coins in the ledger or earned now |
| Gallery.LedgerMonotone | src/pages/Gallery.jsx:105-116 | a catalog coin in the ledger is shown whatever the habits say |
| Gallery.NewlyEarnedShown | src/pages/Gallery.jsx:100-116 | every coin the habits earn now is shown |
| Gallery.EarnedMonthlyView | src/pages/Gallery.jsx:95-116 | the page's monthly coins are the merge of the record's ledger and the coins earned now |
| Gallery.WithoutCoin | src/pages/Gallery.jsx:125 | exactly the ids other than the removed one |
| Gallery.WithoutCoinLaws | src/pages/Gallery.jsx:125 | removing twice equals removing once; removals commute |
| Gallery.WithoutCoinCommutes | src/pages/Gallery.jsx:125 | removing a then b keeps the same ids, in the same order, as removing b then a |
| Gallery.RemovalWrite | src/pages/Gallery.jsx:121-128 | nothing without a record; otherwise the record id and its ledger without the coin |
| Gallery.RemovedCoinHidden | src/pages/Gallery.jsx:121-128 | after removal a coin is shown only if the habits earn it again |
| Gallery.HabitCategories | src/pages/Gallery.jsx:160-177 | one category per habit, in habit order, each identified by its position |
| Gallery.HabitCategoryFields | src/pages/Gallery.jsx:160-177 | each habit's category carries its name, colour, days and earned count, never more than the catalog |
| Gallery.ViewCategories | src/pages/Gallery.jsx:140-180 | milestones first, monthly exactly when monthly coins are enabled and some are earned, then the habits |
| Gallery.CategoryIdsDistinct | src/pages/Gallery.jsx:140-180 | no category id occurs twice |
| Gallery.CurrentIndex | src/pages/Gallery.jsx:183 | the position of the selected id, −1 iff absent |
| Gallery.PrevIndex | src/pages/Gallery.jsx:187-190 | one back, wrapping from the first (or an unknown selection) to the last |
| Gallery.NextIndex | src/pages/Gallery.jsx:192-195 | one on, wrapping from the last to the first |
| Gallery.NavigationInverse | src/pages/Gallery.jsx:187-195 | next undoes prev and prev undoes next |
| Gallery.NextCycles | src/pages/Gallery.jsx:192-195 | k presses of next move to (current + k) mod n, so n presses return to the start |
| Gallery.CurrentCategory | src/pages/Gallery.jsx:184 | the selected category, or the first when the selection is unknown |
| Gallery.IndexOfOwnId | src/pages/Gallery.jsx:183 | with distinct ids a category's own id is found at its own position |
| Gallery.GalleryView.GoToPrevCategory | src/pages/Gallery.jsx:187-190 | selects the category at the previous index |
| Gallery.GalleryView.GoToNextCategory | src/pages/Gallery.jsx:192-195 | selects the category at the next index |
| Gallery.GalleryView.constructor | src/pages/Gallery.jsx:20 | the milestone category is selected first |
| Gallery.GalleryView.Select | src/pages/Gallery.jsx:263 | a click selects that category |
| Gallery.DisplayCoins | src/pages/Gallery.jsx:198-236 | the milestone view marks the ids of the milestones the highest day count reaches; the monthly view lists the earned monthly coins; a habit's view marks those its own count reaches, titled with its name and subtitled with its days and the number of marked ids; each view's title and subtitle; nothing for a vanished habit |
| Gallery.HabitGridWithinGlobal | src/pages/Gallery.jsx:219-224 | a habit's grid marks no coin the global grid leaves unmarked |
| Gallery.TotalEarned | src/pages/Gallery.jsx:238 | exactly the earned milestones plus the earned monthly coins; the page computes this total but never displays it |
| Gallery.TotalCountsGrids | src/pages/Gallery.jsx:198-238 | with distinct ids, the computed total equals the coins the Milestones grid marks plus the coins the Monthly grid shows (the total itself is not displayed) |
| Settings.ColorFor | src/pages/Settings.jsx:109 | a palette colour chosen cyclically by the number of habits |
| Settings.RemoveHabit | src/pages/Settings.jsx:119-123 | exactly the habits with another id |
| Settings.SetStartDate | src/pages/Settings.jsx:125-141 | the habits with that id re-dated, all others untouched, same length |
| Settings.Rename | src/pages/Settings.jsx:148-157 | the habit being edited renamed, all others untouched, same length |
| Settings.EditsKeepIdentity | src/pages/Settings.jsx:125-157 | re-dating and renaming keep every id in place and every colour |
| Settings.RemoveHabitKeepsOthers | src/pages/Settings.jsx:119-123 | removal keeps every other id's habits, in order |
| Settings.EarliestFromPresent | src/pages/Settings.jsx:75-80 | from a day the reduce yields "" iff some listed date was cleared; otherwise a day no later than the start and than every listed day, and equal to one of them |
| Settings.EarliestFromCleared | src/pages/Settings.jsx:75-80 | once the accumulator is a cleared date "", it stays "" |
| Settings.EarliestFromAbsent | src/pages/Settings.jsx:75-80 | from a missing date the reduce stays missing |
| Settings.EarliestDate | src/pages/Settings.jsx:75-80 | null without habits; missing when the first habit has no date; otherwise "" iff some date was cleared, and else the earliest listed day |
| Settings.UpsellByEdition | src/pages/Settings.jsx:193 | never in premium; in the free edition exactly from one habit on |
| Settings.ShowUpsell | src/pages/Settings.jsx:193 | the offer shows exactly in the free edition once the habit count reaches its limit |
| Settings.DeleteKeepsAHabit | src/pages/Settings.jsx:421 | while the delete button shows, deleting a habit from a list with distinct ids leaves at least one |
| Settings.DaysForHabit | src/pages/Settings.jsx:169-173 | 0 without a start date; otherwise the engine's days sober |
| Settings.SavePatch | src/pages/Settings.jsx:82-94 | writes exactly start_date, habits and collected_coins |
| Settings.CollectedForSave | src/pages/Settings.jsx:86 | the record's truthy collected_coins, else [] |
| Settings.SaveRequest | src/pages/Settings.jsx:82-94 | an update of the existing record by its id, else a create with an empty coin list |
| Settings.SaveKeepsOtherFields | src/pages/Settings.jsx:82-87 | a save leaves every other stored field as it was |
| Settings.SaveKeepsLedger | src/pages/Settings.jsx:82-87 | in particular the monthly ledger survives a save |
| Settings.SettingsPage.LoadProgress | src/pages/Settings.jsx:55-70 | the migrated habits replace the list when there are any; nothing else changes |
| Settings.SettingsPage.AddHabit | src/pages/Settings.jsx:102-117 | a blank name is ignored; otherwise one habit with the trimmed name, date and next colour is appended and the form resets |
| Settings.SettingsPage.RemoveHabitById | src/pages/Settings.jsx:119-123 | the list without the id, marked changed |
| Settings.SettingsPage.ResetHabit | src/pages/Settings.jsx:125-133 | the habit restarts today, marked changed |
| Settings.SettingsPage.UpdateHabitDate | src/pages/Settings.jsx:135-141 | the habit gets the new date, marked changed |
| Settings.SettingsPage.StartEditing | src/pages/Settings.jsx:143-146 | editing that habit with its current name |
| Settings.SettingsPage.SaveEdit | src/pages/Settings.jsx:148-157 | a blank name is ignored; otherwise the habit is renamed to the trimmed name and editing ends |
| Settings.SettingsPage.CancelEdit | src/pages/Settings.jsx:159-162 | editing ends and the list is untouched |
| Settings.SettingsPage.SaveSucceeded | src/pages/Settings.jsx:96-99 | the changed flag clears |
| Settings.SettingsPage.constructor | src/pages/Settings.jsx:32-37 | no habits, an empty name, today's date, no editing, no changes |
| Settings.SettingsPage.SetNewHabitName | src/pages/Settings.jsx:264 | the new-habit field holds the typed name, nothing else changes |
| Settings.SettingsPage.SetNewHabitDate | src/pages/Settings.jsx:277 | the new-habit date holds the chosen day or the cleared "", nothing else changes |
| Settings.SettingsPage.SetEditingName | src/pages/Settings.jsx:336 | the rename field holds the typed name, nothing else changes |
| CoinPreview.ContextManager.Register | src/components/coins/CoinPreview3D.jsx:33-39 | succeeds iff fewer than six contexts are live, and then adds the id; never more than six |
| CoinPreview.ContextManager.Unregister | src/components/coins/CoinPreview3D.jsx:41-43 | the id is no longer live |
| CoinPreview.ContextManager.Reset | src/components/coins/CoinPreview3D.jsx:45-47 | no context is live |
| CoinPreview.ContextManager.constructor | src/components/coins/CoinPreview3D.jsx:29-31 | no context is live |
| CoinPreview.ScreenshotQueue.ProcessNext | src/components/coins/CoinPreview3D.jsx:70-77 | when the slot is free and an entry waits, the head takes the slot and its callback runs; otherwise nothing changes |
| CoinPreview.ScreenshotQueue.Enqueue | src/components/coins/CoinPreview3D.jsx:56-59 | appends the entry and starts the head when the slot was free; the slot is then taken |
| CoinPreview.ScreenshotQueue.Dequeue | src/components/coins/CoinPreview3D.jsx:61-68 | no entry for the id remains; a held slot is released and the next entry starts |
| CoinPreview.ScreenshotQueue.Complete | src/components/coins/CoinPreview3D.jsx:79-86 | frees the slot only for its holder; the next start is deferred |
| CoinPreview.ScreenshotQueue.CanRender | src/components/coins/CoinPreview3D.jsx:88-90 | true exactly for the slot holder |
| CoinPreview.ScreenshotQueue.constructor | src/components/coins/CoinPreview3D.jsx:51-55 | an empty queue and a free slot |
| CoinPreview.OneRendererAtATime | src/components/coins/CoinPreview3D.jsx:51-91 | two previews that may both render are the same preview, and it is the one whose callback the queue ran last |
| CoinPreview.Preview.Mount | src/components/coins/CoinPreview3D.jsx:239-256 | static without a file; animated with a context when one is free; otherwise queued or screenshot, appended to the queue, with the head taking the free slot, and screenshot exactly when that head is this preview; when the slot is busy the holder and the start log stay as they were |
| CoinPreview.Preview.Unmount | src/components/coins/CoinPreview3D.jsx:258-263 | returns a held context and leaves the queue; the queue loses every entry of this preview, and if it held the slot the next waiting entry takes it and is logged as started, else the holder and log stay |
| CoinPreview.Preview.HandleScreenshot | src/components/coins/CoinPreview3D.jsx:265-271 | releases the slot only if this preview holds it, another holder keeping it; queue and start log unchanged; keeps a non-empty image and turns static |
| CoinPreview.Preview.constructor | src/components/coins/CoinPreview3D.jsx:222-226 | a new preview is still checking, holds no context and has no image |
| CoinPreview.Preview.QueueStarted | src/components/coins/CoinPreview3D.jsx:251-253 | when the queue reaches the preview it switches to screenshot mode |
| CoinCard.DisplayText | src/components/coins/CoinCard.jsx:7-21 | the month face iff month and year are set; "?" iff neither they nor days are |
| CoinCard.Subtitle | src/components/coins/CoinCard.jsx:24-34 | empty only when neither month and year nor days are set |
| CoinCard.MonthlyTakesPrecedence | src/components/coins/CoinCard.jsx:9-28 | with month and year set, both texts follow them whatever the days |
| CoinCard.DayLabelReadsBack | src/components/coins/CoinCard.jsx:14-16 | below a year the label is the digits of the day count |
| CoinCard.YearLabelCountsWholeYears | src/components/coins/CoinCard.jsx:17-18 | from a year on the label is k followed by "Y", with 365k ≤ days < 365(k+1) |
| CoinCard.DaySubtitleNumber | src/components/coins/CoinCard.jsx:30-32 | "1 day" for one day, "N days" otherwise |
| CoinCard.UnknownCoin | src/components/coins/CoinCard.jsx:20-33 | "?" over an empty subtitle |
| CoinCard.CatalogCards | src/components/coins/CoinCard.jsx:9-19 | catalog milestones show their days and catalog months show month and year |
| CoinCard.ClickHandler | src/components/coins/CoinCard.jsx:42 | the handler is attached iff the coin is earned |
| CoinUpload.MockUserIsAdmin | pages/CoinUpload.js:23 | the demo user passes the admin gate |
| CoinUpload.GlbNameCaseInsensitive | pages/CoinUpload.js:67 | the ".glb" check ignores letter case |
| CoinUpload.UpsertFor | pages/CoinUpload.js:36-50 | an update of the first matching asset's URL and name iff one exists; otherwise one new asset |
| CoinUpload.CreatedAssetIsShown | pages/CoinUpload.js:46-50 | after a create the new asset is the one shown for the milestone, with the new URL |
| CoinUpload.UploadPage.HandleFileSelect | pages/CoinUpload.js:63-79 | no file does nothing; a non-.glb name is refused with the marker unchanged; a model file marks the milestone busy |
| CoinUpload.UploadPage.Upload | pages/CoinUpload.js:30-60 | update of the first cached match or one create; the busy marker clears on success and on error |
| CoinUpload.UploadPage.constructor | pages/CoinUpload.js:13 | no upload is in progress |
| Player.SentenceStart | src/pages/Player.jsx:160-170 | just after the last terminator before the position, with no terminator between it and the position |
| Player.SentenceEnd | src/pages/Player.jsx:171-181 | just after the first terminator at or after the position, or past the end when there is none |
| Player.ChunkEnd | src/pages/Player.jsx:185 | at most 4000 characters on and never past the text |
| Player.Chunk | src/pages/Player.jsx:185-186 | the slice up to the chunk end, never longer than 4000 characters |
| Player.ChunksTile | src/pages/Player.jsx:218-225 | the chunk followed by the rest from its end is the rest of the text |
| Player.Forward | src/pages/Player.jsx:253 | a forward move stops at the last character |
| Player.Backward | src/pages/Player.jsx:267 | a backward move stops at 0 |
| Player.JumpChars | src/pages/Player.jsx:252 | the floor of 225 times the rate, between 168 and 450 characters |
| Player.MovesStayInside | src/pages/Player.jsx:250-302 | inside a non-empty text every skip and jump lands inside the text |
| Player.TextSegments | src/pages/Player.jsx:350-362 | empty without text; three trimmed pieces, the outer ones at most 800 characters |
| Player.VoiceDisplayName | src/pages/Player.jsx:367-374 | "Default" without a name; short names in full; long names as 12 characters plus "..." |
| Player.StoredPosition | src/pages/Player.jsx:146-151 | the stored numeric position, else 0 |
| Player.PlayerPage.UpdateDisplayedText | src/pages/Player.jsx:160-181 | the sentence bounds around the position |
| Player.PlayerPage.LoadBook | src/pages/Player.jsx:142-158 | found iff the book exists; then its text and stored position, with the sentence around it |
| Player.PlayerPage.StartChunk | src/pages/Player.jsx:183-196 | a blank chunk stops playback; otherwise playback starts at the chunk |
| Player.PlayerPage.ChunkSpoken | src/pages/Player.jsx:217-228 | moves to the chunk end, stores it, and continues iff text remains and playback was not stopped |
| Player.PlayerPage.TogglePlayPause | src/pages/Player.jsx:237-247 | nothing before load; pause stores the position and keeps the shown sentence; play speaks from it, showing the sentence there when the chunk is not blank |
| Player.PlayerPage.MoveTo | src/pages/Player.jsx:253-261 | moves and stores the position, shows the sentence around it in both branches, stays paused when paused, and keeps playing iff the new chunk is not blank |
| Player.PlayerPage.SkipForward | src/pages/Player.jsx:278-289 | nothing before load; else 500 characters on, clamped to the last character, with the store write, the sentence shown and the playing rule of MoveTo |
| Player.PlayerPage.SkipBackward | src/pages/Player.jsx:291-302 | nothing before load; else 500 characters back, clamped to 0, with the store write, the sentence shown and the playing rule of MoveTo |
| Player.PlayerPage.Jump15SecondsForward | src/pages/Player.jsx:250-262 | nothing before load; else fifteen seconds of speech on, clamped to the last character, with the store write, the sentence shown and the playing rule of MoveTo |
| Player.PlayerPage.Jump15SecondsBackward | src/pages/Player.jsx:264-276 | nothing before load; else fifteen seconds of speech back, clamped to 0, with the store write, the sentence shown and the playing rule of MoveTo |
| Player.PlayerPage.SpeedChange | src/pages/Player.jsx:321-331 | sets the rate and restarts speech from the current position when playing, showing the sentence there when the chunk is not blank; otherwise the shown sentence stays |
| Player.PlayerPage.constructor | src/pages/Player.jsx:42-48 | no text, not playing, position 0 and rate 1 |
| Player.PlayerPage.SpeechFailed | src/pages/Player.jsx:229-234 | playback stops and the position stays |
| ImportPage.RemoveHeaders | src/pages/Import.jsx:65-72 | the lines left are exactly the lines whose trimmed length is over 50 or 0, in order; "" when no line is kept |
| ImportPage.RemoveHeadersKeepsBody | src/pages/Import.jsx:65-72 | a text of only long or blank lines passes unchanged |
| ImportPage.CollapseNewlines | src/pages/Import.jsx:74-77 | never lengthens the text |
| ImportPage.CollapseNewlinesSpec | src/pages/Import.jsx:74-77 | no three newlines in a row remain, and a first non-newline character stays first |
| ImportPage.CollapseNewlinesKeepsShortRuns | src/pages/Import.jsx:74-77 | a text without three newlines in a row passes unchanged |
| ImportPage.SqueezeBlanks | src/pages/Import.jsx:81 | never lengthens the text |
| ImportPage.SqueezeBlanksSpec | src/pages/Import.jsx:81 | no tab and no two spaces in a row remain |
| ImportPage.SqueezeFixesSqueezed | src/pages/Import.jsx:81 | text with no tab and no double space is left as it is |
| ImportPage.SqueezeIdempotent | src/pages/Import.jsx:81 | squeezing twice gives the same text as squeezing once |
| ImportPage.StripLineStarts | src/pages/Import.jsx:82 | never lengthens the text |
| ImportPage.StripLineStartsSpec | src/pages/Import.jsx:82 | no line starts with a space, and tabs and double spaces do not come back |
| ImportPage.StripLineEnds | src/pages/Import.jsx:83 | never lengthens the text |
| ImportPage.StripLineEndsSpec | src/pages/Import.jsx:83 | no line ends with a space, and the earlier guarantees survive |
| ImportPage.NormalizeWhitespace | src/pages/Import.jsx:79-84 | after whitespace normalisation: no tab, no double space, no line beginning or ending with a space |
| ImportPage.ToggleSetting | src/pages/Import.jsx:121-126 | flips the named flag and no other |
| ImportPage.ToggleTwice | src/pages/Import.jsx:121-126 | toggling one flag twice restores the settings |
| ImportPage.SettingsValue | src/pages/Import.jsx:109 | the settings stored with the book carry exactly the five flags |
| ImportPage.ApplyImportSettings | src/pages/Import.jsx:55-87 | the result is always trimmed |
| ImportPage.AllOffOnlyTrims | src/pages/Import.jsx:55-87 | with every pass off the result is the trimmed input |
| ImportPage.ImportResultStable | src/pages/Import.jsx:86 | re-importing a result with every pass off changes nothing |
| ImportPage.FootersIgnored | src/pages/Import.jsx:55-87 | the removeFooters flag never changes the result |
| ImportPage.ImportNormalizedClean | src/pages/Import.jsx:79-86 | with normalisation on the imported text has no tab, no double space, no line beginning or ending with a space |
| ImportPage.ImportCollapsedBlankLines | src/pages/Import.jsx:74-86 | with blank-line collapsing on and normalisation off no three newlines in a row remain |
| ImportPage.SpaceLineSurvivesCollapse | src/pages/Import.jsx:74-84 | with both on, "a\n\n \nb" imports as "a\n\n\nb" because the collapse runs first |
| ImportPage.Title | src/pages/Import.jsx:103 | the name with one ".pdf" removed, or unchanged |
| ImportPage.TitleDropsExtension | src/pages/Import.jsx:103 | a name whose only ".pdf" is its extension loses exactly the extension |
| ImportPage.TitleKeepsLaterPdf | src/pages/Import.jsx:103 | only the first ".pdf" goes: "a.pdf.pdf" gives "a.pdf" |
| ImportPage.BookData | src/pages/Import.jsx:104-110 | title, file name, cleaned text, raw text and settings, and no other field |
| ImportPage.ImportScreen.HandleFileSelect | src/pages/Import.jsx:27-35 | a PDF becomes the selection and clears the error; another file sets the error and keeps the selection; no file changes nothing |
| ImportPage.ImportScreen.Toggle | src/pages/Import.jsx:121-126 | the settings with that flag flipped |
| ImportPage.ImportScreen.HandleImport | src/pages/Import.jsx:89-119 | nothing without a selection; a failed extraction sets the error; otherwise exactly one book with the cleaned text is appended |
| ImportPage.ImportScreen.constructor | src/pages/Import.jsx:16-25 | no file, no error and the default settings (page numbers on, the rest off) |
| EditorPage.OriginalText | src/pages/Editor.jsx:63 | present exactly when the book has a non-empty original text |
| EditorPage.Editor.LoadBook | src/pages/Editor.jsx:23-38 | found iff the book exists; then the book and its text |
| EditorPage.Editor.HandleTextChange | src/pages/Editor.jsx:40-44 | the new text, marked unsaved, notice hidden |
| EditorPage.Editor.HandleSave | src/pages/Editor.jsx:46-60 | nothing without changes; a successful write stores the text, clears the flag and shows the notice; a failed one keeps the flag |
| EditorPage.Editor.SavedNoticeExpired | src/pages/Editor.jsx:53 | the notice hides |
| EditorPage.Editor.HandleReset | src/pages/Editor.jsx:62-68 | nothing without an original text; otherwise restores it, marks it unsaved and closes the dialog |
| EditorPage.Editor.HandleBack | src/pages/Editor.jsx:70-77 | saves first exactly when there are unsaved changes, the saved notice showing exactly after a successful write; the reset dialog stays as it was |
| EditorPage.Editor.constructor | src/pages/Editor.jsx:11-17 | no book, empty text, nothing unsaved, no notice, no dialog |
| EditorPage.Editor.AskReset | src/pages/Editor.jsx:100 | the reset dialog opens |
| EditorPage.Editor.CancelReset | src/pages/Editor.jsx:161 | the reset dialog closes and the text stays |
| LibraryPage.Library.LoadBooks | src/pages/Home.jsx:17-26 | the stored books on success; the list as it was (empty at first) on failure; loading ends either way |
| LibraryPage.Library.HandleDeleteBook | src/pages/Home.jsx:28-34 | every book with the id is gone from storage and list, the rest stay, and the menu closes |
| LibraryPage.DeleteKeepsOrder | src/pages/Home.jsx:32 | the remaining books keep their relative order |
| LibraryPage.Library.ToggleMenu | src/pages/Home.jsx:36-40 | closes the menu if it is that book's, else opens that book's; one menu at most |
| LibraryPage.Library.CloseMenu | src/pages/Home.jsx:128-132 | no menu is open |
| LibraryPage.Library.constructor | src/pages/Home.jsx:8-10 | no books, loading, no menu open |

## Left out

- Catalog loading and caching (`loadMilestones`, `loadMonthlyCoins` and the module caches) is network I/O. The day-milestone and monthly catalogs are parameters.
- Browser storage is a map held by one object. JSON encoding, parse failures and storage quota errors are left out; a failing write or read is a boolean input where a page handles it.
- Ids (`generateId`), ISO timestamps and "now" are parameters. Date strings are abstracted to instants. A habit's `start_date` has three states (`CoinMilestones.DateField`): missing (null or absent), cleared (the empty string an emptied date input writes) and a day; the progress record's single `start_date` is `Option<int>`. An unparsable non-empty date string is treated like a missing one.
- CoinMilestones.HasEarnedMonthlyCoinWithHabits: in JavaScript `new Date(null)` is the epoch, so a habit whose `start_date` is null passes `habitStart < monthStart` (src/components/coins/CoinMilestones.js:158-161) and counts as started before every month after 1970. The model reads null as a missing date, which never counts; only a cleared "" (an invalid date in JavaScript) behaves the same in both.
- Strings are sequences of Unicode scalar values, while JavaScript indexes UTF-16 code units. Text with characters outside the Basic Multilingual Plane therefore gets other lengths and positions than in the browser: the Player's positions, 4000-character chunks, 500-character skips and 800-character display window (src/pages/Player.jsx:35-37, 280-293), the 12-character cut of the voice name, `PageUtils.TruncateText`, and the `trim().length > 50` test of `ImportPage.RemoveHeaders` (src/pages/Import.jsx:70).
- JSON numbers are integers in the model (`Records.Value.Num`); JavaScript numbers are doubles, so fractional, negative-zero and non-finite numbers are left out.
- Real JavaScript `Date` semantics are left out: ISO dates parse as UTC midnight while `new Date(y, m, 1)` is local midnight. The model uses one time line with days of 86,400,000 ms. `new Date(y, m, 1)` reads a year 0..99 as 1900 + y; `Calendar.FirstOfMonth` does not, which only matters for coins dated before the year 100.
- HomeDashboard.ProgressToNext: uses exact real division instead of floating point.
- Settings.SavePatch: takes the start date and the habit list already encoded as JSON values; the yyyy-MM-dd formatting is not modelled.
- Settings.EarliestFromPresent: dates are compared as instants, while the code compares "yyyy-MM-dd" strings; the two orders agree for four-digit years.
- LegacyMilestones.UploadedUrl: a truthy `glb_url` that is not a string is treated as absent.
- Player.StoredPosition: a truthy stored position that is not a number reads as 0.
- BookStore.TextOf: a book text that is not a string reads as "".
- EditorPage.OriginalText: a truthy original text that is not a string counts as absent.
- CoinUpload.UploadPage.Upload: an existing asset whose id is not a string is reported as an error rather than updated; every asset the store creates has a string id.
- The three page-number substitutions of the import (regular expressions with word boundaries and multiline anchors) are one opaque `string -> string` parameter.
- Text extraction with PDF.js, text-to-speech, voice loading and voice changes, the seek bar, and the Player's progress percentage are platform or floating-point work and are left out.
- The asynchronous recursion of `speakChunk` is split into `StartChunk` and `ChunkSpoken`; interleavings of concurrent handlers are not modelled.
- WebGL rendering, screenshot capture and the 100 ms `setTimeout` in `ScreenshotQueue.complete` are left out; the deferred start is the separate step `ProcessNext`.
- Locale-dependent month abbreviations in the coin card are kept symbolic (`CoinCard.ShortMonthName`).
- The `importing`, `saving` and `loading` spinners of the reader pages, navigation, routing, and React Query caching and invalidation are left out.
- `toLowerCase` is modelled on ASCII letters only.
- components/coins/CoinViewer.js, components/coins/DayCounter.js, the coin modals, src/components/PremiumPrompt.jsx, the layouts, pages/Gallery.js and pages/Settings.js are not part of this model; they hold rendering or duplicate logic modelled elsewhere.
