# Attendance logging ("émargement") — a Dafny model of its rules

The app lets a professor record a teaching session: name, subject, track
(filière), campus site, start time and end time. Each session becomes an
attendance record with an id, a creation timestamp and a duration in hours.
The records live in one list in the browser's local storage. The app shows
them in a searchable history and in per-site weekly and all-time totals.

This project models the pure rules under the React markup:

- `Types` (`types.dfy`): the form data, the record, the per-site statistics
  and the three sites.
- `Duration` (`duration.dfy`): `calculateDuration`, from two `"HH:MM"`
  strings to exact fractional hours. The source has four copies of this
  function that compute the same thing: `src/utiles/emargementService.tsx:4-16`,
  `src/app/page.tsx:48-60`, `src/app/pages/index.tsx:33-45` and
  `src/components/EmargementForm.tsx:27-39`. The form's copy takes no
  arguments and reads the form's own state instead. The model defines it once and
  every caller (record creation, both page save handlers, the form's submit
  check) uses that one definition.
- `Service` (`service.dfy`): storage read with a default, storage write,
  record assembly, and the per-site aggregation loop. It also holds the
  reference sums `Total` and `Weekly` that the aggregation is proved against.
- `SiteStatsView` (`site_stats.dfy`): the statistics view's own aggregation,
  each site's share of the grand total, and the capped weekly progress bar.
- `History` (`history.dfy`): the case-insensitive search, the exact site
  filter and the newest-first sort.
- `Form` (`form.dfy`): the initial form, the change handler and the submit
  handler (validation, hand-off to the save callback, reset).
- `AppPage` (`app_page.dfy`) and `PagesIndex` (`pages_index.dfy`): the two
  page components, each with a load-on-mount effect and a save handler. The
  second page repeats the first one's logic.

Inputs that are not pure become parameters:

- `Date.now()` and `new Date()` become integer milliseconds (`id`, `timestamp`, `now`).
- Local storage is a `map<string, string>`.
- `JSON.stringify` / `JSON.parse` are a `Codec`: a serializer and a parser that may fail.
- `typeof window` is a boolean `hasWindow`.

Time fields are strings that are either empty or in the browser time input's
`"HH:MM"` format.

Unlike `getFromLocalStorage`, the pages'
mount effects (`src/app/page.tsx:14-18`, `src/app/pages/index.tsx:12-18`)
call `JSON.parse` without a `try`, so a corrupt stored list throws there. The
model follows the code: `AppPage.LoadOnMount` returns `ParseThrew`. Only the
service's `getFromLocalStorage` falls back to its default on a parse failure,
and `Service.GetFromLocalStorage` models that.

## Model

| member | source | states |
|---|---|---|
| Types.SiteOfLabel | src/components/EmargementForm.tsx:147-149 | a site read back from selector text has exactly that text as its label |
| Types.LabelRoundTrip | src/components/EmargementForm.tsx:147-149 | the three option labels are distinct, so each label reads back as its own site |
| Types.WithExtras | src/types/index.ts:12-16 | a record built from form data carries all six form fields unchanged plus the given id, timestamp and duree |
| Types.RecordIsFormPlusExtras | src/types/index.ts:3-16 | every record is exactly its six form fields plus its three extra fields |
| Types.ZeroPerSite | src/utiles/emargementService.tsx:56-63 | the seed map has an entry for every site, and every entry is 0 |
| Duration.Hour | src/utiles/emargementService.tsx:7-8 | the two digits before the colon read as a decimal number, below 100 |
| Duration.Minute | src/utiles/emargementService.tsx:7-8 | the two digits after the colon read as a decimal number, below 100 |
| Duration.MinutesOf | src/utiles/emargementService.tsx:10-11 | minutes since midnight; for a minute field below 60 it splits back into exactly the hour and the minute |
| Duration.ClockText | src/utiles/emargementService.tsx:7-8 | writing an hour and a minute gives a well-formed time whose parsed hour and minute are those numbers |
| Duration.ClockTextRoundTrip | src/utiles/emargementService.tsx:7-8 | parsing a well-formed time and writing it back gives the same text |
| Duration.CalculateDuration | src/utiles/emargementService.tsx:4-16 | the result is never negative; it is 0 when either time is empty; it is positive iff both are set and end minutes > start minutes; then it times 60 is the minute difference |
| Duration.DurationOfClockTexts | src/utiles/emargementService.tsx:10-15 | for times written from numbers: 0 when end ≤ start (equality included), else (end − start minutes) / 60 exactly |
| Duration.DurationExamples | src/utiles/emargementService.tsx:4-16 | 08:00–09:30 gives 1.5; 10:00–09:00 gives 0; an empty start gives 0 |
| Duration.DurationAdditive | src/utiles/emargementService.tsx:10-15 | for ordered times a ≤ b ≤ c, duration(a, c) = duration(a, b) + duration(b, c) |
| Service.WeekStart | src/utiles/emargementService.tsx:66-68 | the week start lies exactly seven days of milliseconds before now |
| Service.GetFromLocalStorage | src/utiles/emargementService.tsx:26-42 | the default when there is no window, the key is missing or empty, or parsing fails; otherwise the parsed value |
| Service.SaveToLocalStorage | src/utiles/emargementService.tsx:19-23 | with a window the key holds the serialized data and other keys are untouched; without one storage is unchanged |
| Service.SaveThenGet | src/utiles/emargementService.tsx:19-42 | with a round-tripping codec, reading a key right after saving to it returns the saved value |
| Service.SaveLeavesOtherKeys | src/utiles/emargementService.tsx:19-23 | saving under one key never changes what is read under another key |
| Service.CreateEmargement | src/utiles/emargementService.tsx:45-52 | the record's form part equals the input; id and timestamp are the clock readings; duree is the computed duration and is ≥ 0 |
| Service.CalculateSiteStats | src/utiles/emargementService.tsx:55-87 | both result maps cover all three sites; each site's total is the duree sum over its records; its weekly value sums only records stamped at or after now − 7 days |
| SiteStatsView.AddRecord | src/components/SiteStats.tsx:32-43 | one `forEach` step adds the record's duree to its own site's total, and to its site's weekly value iff it is stamped at or after the week start; every other entry is unchanged |
| SiteStatsView.AccumulateStats | src/components/SiteStats.tsx:18-43 | seeding both maps at 0 and adding the records in order gives, per site, the independent sums `Total` (all its durations) and `Weekly` (its durations since the week start) |
| SiteStatsView.CalculerStats | src/components/SiteStats.tsx:16-50 | both maps have exactly the three sites as keys; per site, total = sum of its durations, weekly = sum of its durations since seven days before now |
| SiteStatsView.StatsOfJoinedHistories | src/components/SiteStats.tsx:32-43 | aggregating two histories joined end to end gives, per site, the sum of their totals and the sum of their weekly values |
| SiteStatsView.EmptyStatsAreSeededZero | src/components/SiteStats.tsx:18-25 | with no records, both maps are the all-zero map over the three sites, never empty |
| SiteStatsView.WeeklyAtMostTotal | src/components/SiteStats.tsx:32-43 | when durations are non-negative, each site's weekly hours are at most its total hours |
| SiteStatsView.WeeklyDecays | src/components/SiteStats.tsx:28-42 | a later `now` never raises any site's weekly hours and leaves its total unchanged |
| SiteStatsView.StatsAfterAppend | src/components/SiteStats.tsx:32-43 | appending a record adds its duree to its own site's total, and to that site's weekly value iff it is inside the week; other sites are unchanged |
| SiteStatsView.TenDayOldRecordLeavesWeek | src/components/SiteStats.tsx:27-43 | a 2 h session today plus a 3 h session ten days ago at Avédji give a total of 5 h and a weekly value of 2 h |
| SiteStatsView.GrandTotal | src/components/SiteStats.tsx:102 | with non-negative hours, every site's hours lie between 0 and the grand total |
| SiteStatsView.Percentage | src/components/SiteStats.tsx:102-103 | 0 when the grand total is not positive; otherwise share × grand total = site hours × 100 |
| SiteStatsView.PercentagesPartitionHundred | src/components/SiteStats.tsx:100-103 | with non-negative hours and a positive total, every share lies in [0, 100] and the three shares sum to exactly 100 |
| SiteStatsView.GoalPercentage | src/components/SiteStats.tsx:74 | the label percentage times the 40-hour goal equals hours × 100; it is not capped |
| SiteStatsView.BarWidth | src/components/SiteStats.tsx:70 | the width is never above 100; it is 100 iff hours ≥ 40; below that it equals the goal percentage; it is ≥ 0 for non-negative hours |
| History.ToLower | src/components/EmargementHistory.tsx:14-17 | same length; each character is lower-cased one by one |
| History.ToLowerIdempotent | src/components/EmargementHistory.tsx:14-17 | lower-casing an already lower-cased string changes nothing |
| History.Includes | src/components/EmargementHistory.tsx:14-17 | true iff the needle occurs at some position of the text |
| History.MatchesSearch | src/components/EmargementHistory.tsx:14-17 | true iff the search is empty or occurs, ignoring case, in the professor, subject or track |
| History.MatchesSite | src/components/EmargementHistory.tsx:19 | true iff the site filter is empty or reads back as exactly the record's site |
| History.FilterEmargements | src/components/EmargementHistory.tsx:13-22 | a record is in the result iff it is in the input and passes both criteria; each passing record occurs as often as in the input and each failing one not at all; the result is no longer than the input |
| History.FilterIsSubsequence | src/components/EmargementHistory.tsx:13-22 | the filtered list is a subsequence of the input, in the same relative order |
| History.NoCriteriaKeepsAll | src/components/EmargementHistory.tsx:13-22 | with an empty search and an empty site filter, the filter returns the input unchanged |
| History.SiteFilterIsExact | src/components/EmargementHistory.tsx:19 | with a non-empty site filter, every kept record's site label equals the filter |
| History.Insert | src/components/EmargementHistory.tsx:25-27 | inserting into a newest-first list keeps it newest first and adds exactly that one record |
| History.SortNewestFirst | src/components/EmargementHistory.tsx:25-27 | the sorted list is a permutation (same multiset) of its input, and timestamps never increase along it |
| History.SortKeepsSorted | src/components/EmargementHistory.tsx:25-27 | a list already newest first is returned unchanged, ties included |
| History.SortIdempotent | src/components/EmargementHistory.tsx:25-27 | sorting twice gives the same list as sorting once |
| History.Displayed | src/components/EmargementHistory.tsx:13-27 | the shown table is newest first, a permutation of the filtered list, and holds every passing record as often as the input does and no other |
| Form.InitialForm | src/components/EmargementForm.tsx:9-16 | the five text fields are empty and the site selector shows Avédji; the form is well formed and does not pass the required-fields check |
| Form.HandleChange | src/components/EmargementForm.tsx:19-25 | the named field shows the new value; every other field keeps its value; well-formed time fields stay well-formed |
| Form.FieldsDetermineForm | src/components/EmargementForm.tsx:19-25 | two forms whose six fields show the same values are equal |
| Form.HandleChangeSameValue | src/components/EmargementForm.tsx:19-25 | writing a field's current value back leaves the form unchanged |
| Form.HandleSubmit | src/components/EmargementForm.tsx:41-76 | data reaches `onSave` iff the five fields are filled and end minutes > start minutes; then it is the form as is, its duration is > 0, and the form resets to its initial state with a success message; otherwise the form stays and the message is the missing-fields or bad-range error |
| Form.ResetFormIsRejected | src/components/EmargementForm.tsx:61-68 | the form after a successful save equals the initial form, and submitting it again is rejected as missing fields |
| AppPage.LoadOnMount | src/app/page.tsx:14-18 | with no stored text (missing or empty) the state stays as it was; otherwise it loads iff the text parses, and the list becomes the parsed list |
| AppPage.SaveEmargement | src/app/page.tsx:35-46 | the list grows by one at the end with earlier records unchanged; the new record is the form plus id, timestamp and its computed duration; storage is replaced by the whole new list |
| AppPage.Mounted | src/app/page.tsx:10 | before the mount effect the page holds the empty list and the storage as found |
| AppPage.MountWithoutStoredList | src/app/page.tsx:10-18 | mounting on storage with nothing (or empty text) under the key leaves the list empty |
| AppPage.SaveThenReload | src/app/page.tsx:14-46 | when the serializer writes the saved list as non-empty text that parses back to it, mounting a fresh page on the storage left by the save restores exactly that list |
| AppPage.SubmittedRecordHasPositiveDuration | src/components/EmargementForm.tsx:45-58 | every record that gets past the form's checks and is saved has duree > 0 |
| PagesIndex.LoadStored | src/app/pages/index.tsx:12-18 | with no stored text the initial state stays; otherwise it loads iff the text parses, and the list becomes the parsed list |
| PagesIndex.Save | src/app/pages/index.tsx:20-31 | appends exactly one record at the end, keeps the prefix, sets its duree to the computed duration, and writes the complete new list under the key with other keys untouched |
| PagesIndex.AgreesWithAppPage | src/app/pages/index.tsx:12-45 | this page's load and save give the same results as the app-router page for every input |
| PagesIndex.TwoSavesAppendInOrder | src/app/pages/index.tsx:20-31 | two saves in a row append their two records in submission order, and storage holds the final list |

## Left out

- React rendering: tabs, sidebar, the resize handler and the markup. They hold no stateable logic.
- The three-second `setTimeout` that clears the form's message. It is a timer with a cosmetic effect only.
- JSON text itself. The serializer and parser are parameters. `Service.SaveThenGet` assumes the codec round-trips every value through non-empty text. `AppPage.SaveThenReload` assumes only that the saved list itself round-trips.
- Storage write failures such as a full quota. The source does not handle them either.
- The real clock and ISO-8601 text. Ids, timestamps and `now` are integer milliseconds. The model does not claim that ids are unique, because the code does not make them so.
- Duration.DurationAdditive: durations are exact rationals in the model. The source computes them as IEEE doubles, where additivity holds only up to rounding: 00:00–00:51 gives 0.85, but 00:00–00:01 plus 00:01–00:51 gives 0.8500000000000001.
- SiteStatsView.PercentagesPartitionHundred: shares are exact rationals in the model, so they sum to exactly 100. In the source's doubles they sum to 100 only up to rounding: hours 1, 1 and 1 give 99.99999999999999.
- Durations, per-site sums and shares in general: the model uses exact `real` arithmetic where the source uses JavaScript numbers (IEEE doubles). Every equation about them holds in the source up to double rounding only.
- Service.WeekStart: the week start is `now` minus exactly 7 × 24 hours. The source uses `setDate(getDate() - 7)` in local time, which differs by an hour across a daylight-saving change.
- Duration.CalculateDuration: requires both fields to be empty or well-formed `"HH:MM"`. Malformed text yields NaN through `split(':').map(Number)` in the source, and the model does not cover that path. The browser's time input only produces that format.
- Form.HandleChange: requires a site value to be one of the three labels, because the selector offers only those. An unknown `name` would add a stray property in the source; the model's field names are the six real inputs.
- Records whose site is not one of the three. `+=` on an unseeded key would give NaN; the site is a three-valued datatype instead.
- History.ToLower: lower-cases the ASCII letters A–Z only. JavaScript's `toLowerCase` also folds accented capitals such as `É`.
- SiteStatsView.Percentage: requires the map to have all three sites. Before its first effect the view holds empty maps, renders no entries and so never computes a share.
- Display formatting (`toFixed`, `toLocaleDateString`, `toLocaleTimeString`) and the colour choice per site.
- History.SortNewestFirst: the contract states order and permutation. It does not separately state stability (ties keep their filter order), although the insertion it uses is stable.
