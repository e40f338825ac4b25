# Gestão escolar — a verified model of its form, store and report logic

The application records the extra-class duty hours ("Módulo II") of the teachers of a state
school. Teachers log in with their MASP (a staff number with a check digit). A teacher keeps
one report per month, made of weeks. Each week has a date range and description slots, each slot
naming an activity type. A supervisor manages the roster. Each teacher's weekly duty schedule
must add up to 15 minutes per class period of base workload (`chRegimeBasico * 15`). The root
component holds the session user, the roster, the activity types and the reports.

This Dafny project models the logic of that application:

- `seqs.dfy` (`Seqs`): `filter` and `find` on arrays, with the laws the rest relies on.
- `text.dfy` (`Text`): the string built-ins used:
  - the digit filter `replace(/\D/g, '')`;
  - decimal `toString()` and `Number()`;
  - `padStart(2, '0')`;
  - `trim()` with ECMAScript whitespace;
  - `toUpperCase()`.
- `records.dfy` (`Records`): users, weeks, reports and activity types; the month names; the seed
  data; the roster lookup and the month lookup.
- `profile_form.dfy` (`ProfileForm`): the teacher form that both dashboards carry in identical
  copies:
  - clock strings to minutes and each day's minutes;
  - the weekly total and the quota;
  - the HH:MM rendering;
  - the five-way validity gate;
  - the `"start às end"` serialisation and the regular expression that reads it back;
  - the MASP formatter;
  - the field edits;
  - the record a valid save builds.
- `app.dfy` (`App`): the root state container (`AppState`), its handlers, and the rule that picks
  where the initial data comes from.
- `supervisor.dfy` (`SupervisorDashboard`): the supervisor's view state (`SupervisorView`) and the
  add-or-update decision of a teacher save.
- `teacher.dfy` (`TeacherDashboard`): the teacher's view state (`TeacherView`):
  - the weekly-entry editor and its two-step delete;
  - the month load;
  - the report save and the profile save.
- `login.dfy` (`LoginForm`): the login decision.
- `grid.dfy` (`ReportGrid`): the read-only and editable projection of a report.

The handlers that change state are methods of classes (`AppState`, `SupervisorView`,
`TeacherView`). Each method is proved equal to a pure function of the old state, and the
properties are proved about those functions. The two `DAYS.forEach` loops and the
`currentTotalMinutes` reduce are methods with loop invariants.

Observations the proofs make explicit:

- **The month lookup ignores the year.** Both dashboards use it (`OtherYearShadowsSave`). After a
  teacher saves a month in a new year, the teacher's dashboard still loads the report of the same
  month name from an earlier year, if one is stored.
- **An end-only day counts but is not saved.** A day whose start is empty counts from 00:00
  toward the quota, yet it is saved as `""` and opens empty again (`EndOnlyDayIsNotStored`).
- **An all-blank month draws nothing in read-only mode.** If every week of the month has only
  blank slots, neither the placeholder nor any week is drawn (`AllBlankWeeksDrawNothing`).

## Model

| member | source | states |
|---|---|---|
| Text.DigitsOnly | components/LoginForm.tsx:22 | `normalize` yields only ASCII digits, contains exactly the digit characters of its input, and never lengthens it |
| Text.DigitsOnlyIdempotent | components/LoginForm.tsx:22 | normalising twice is the same as normalising once |
| Text.DecimalString | components/SupervisorDashboard.tsx:177 | `n.toString()` is a digit string that reads back as `n`, with one digit exactly below 10 and two for 10–99, and starts with "0" only for 0 |
| Text.PadTwo | components/SupervisorDashboard.tsx:177 | `padStart(2, '0')` has length max(2, \|s\|), ends with `s`, is padded with zeros, and keeps the numeric value |
| Text.LeadingZero | components/SupervisorDashboard.tsx:177 | a leading zero does not change the value `Number` reads |
| Text.Trim | components/SupervisorDashboard.tsx:182 | `trim()` is empty exactly when the string is all whitespace, and otherwise starts and ends with non-whitespace |
| Text.ToUpper | components/SupervisorDashboard.tsx:203 | `toUpperCase()` keeps the length, maps each character, and keeps blankness |
| Text.ToUpperIdempotent | components/SupervisorDashboard.tsx:203 | upper-casing twice is the same as once |
| Records.FindTeacher | components/SupervisorDashboard.tsx:51 | the roster lookup returns nothing exactly when no member has the id, and otherwise the first member, in roster order, that has it |
| Records.FindForMonth | components/SupervisorDashboard.tsx:52 | the report lookup returns nothing exactly when no report matches teacher and month name; otherwise the first match, whatever its year |
| ProfileForm.HHMMMinutes | components/SupervisorDashboard.tsx:153-158 | a two-digit "HH:MM" reads as HH*60+MM |
| ProfileForm.TimeToMinutes | components/SupervisorDashboard.tsx:153-158 | an empty time reads as 0; a clock string with minutes below 60 reads as a number whose hours and remainder are its hour and minute digits |
| ProfileForm.DayMinutes | components/SupervisorDashboard.tsx:160-164 | a day's minutes are 0 exactly when end ≤ start, and end − start otherwise |
| ProfileForm.EndOnlyCountsFromMidnight | components/SupervisorDashboard.tsx:154-164 | an empty start reads as 00:00, so an end-only day counts the end's full minutes |
| ProfileForm.TotalIsSumOfDays | components/SupervisorDashboard.tsx:168-172 | the weekly total is the sum of the five days' results |
| ProfileForm.EmptyScheduleTotalsZero | components/SupervisorDashboard.tsx:168-172 | a schedule with every slot empty totals 0 |
| ProfileForm.CurrentTotalMinutes | components/SupervisorDashboard.tsx:168-172 | the reduce over the five days computes the weekly total |
| ProfileForm.RequiredMinutes | components/SupervisorDashboard.tsx:166 | the quota is a multiple of 15 minutes, 15 per class period of base workload |
| ProfileForm.Padded | components/SupervisorDashboard.tsx:177 | a padded numeral has at least two digits, reads back as `n`, has exactly two digits when `n` < 100, and has no leading zero when longer |
| ProfileForm.ClockReadsBack | components/SupervisorDashboard.tsx:174-178 | "hours:minutes" with padded parts is a clock string whose hour and minute parts are the padded numerals, reads back as h*60+m, and is two-digit HH:MM exactly when h < 100 |
| ProfileForm.FormatMinutes | components/SupervisorDashboard.tsx:174-178 | `formatMinutesToHHMM(n)` is a clock string whose hour digits read as n div 60 and minute digits as n mod 60, the hours two digits or with no leading zero; it reads back as `n` for every n ≥ 0, and hours are not capped (HH:MM shape exactly below 6000 minutes) |
| ProfileForm.IsFormValid | components/SupervisorDashboard.tsx:180-188 | the gate holds exactly when name and subject are not blank, the MASP has ≥ 3 characters, the base workload is positive and the total equals 15 minutes per class period |
| ProfileForm.FormatSlot | components/SupervisorDashboard.tsx:197 | a day is stored as "" exactly when one of its ends is empty |
| ProfileForm.FormatSlotParts | components/SupervisorDashboard.tsx:197 | a day with both ends set is stored as the start, " às ", and the end |
| ProfileForm.MatchAt | components/SupervisorDashboard.tsx:75 | an anchored attempt of the regex captures two "HH:MM" groups when it succeeds |
| ProfileForm.RegexAtIsGreedy | components/SupervisorDashboard.tsx:75 | in any match each `\s*` consumes the whole run of whitespace, since neither "à" nor a digit is whitespace |
| ProfileForm.MatchAtSound | components/SupervisorDashboard.tsx:75 | a successful anchored attempt is a match of the expression at that position (clock, whitespace, "às", whitespace, clock) and captures its two clocks |
| ProfileForm.MatchAtComplete | components/SupervisorDashboard.tsx:75 | wherever the expression matches at a position, the anchored attempt there succeeds with that match's two clocks |
| ProfileForm.SearchFrom | components/SupervisorDashboard.tsx:75 | the search from a position captures two "HH:MM" groups when it finds a match |
| ProfileForm.SearchFromMeaning | components/SupervisorDashboard.tsx:75 | the search returns the anchored attempt at the first position where one succeeds, every earlier attempt failing, and nothing when none succeeds |
| ProfileForm.ParseSlot | components/SupervisorDashboard.tsx:75 | `match` of the time-range regex yields two "HH:MM" groups when it matches |
| ProfileForm.ParseSlotMeaning | components/SupervisorDashboard.tsx:75 | `match` yields nothing exactly when the expression matches nowhere; otherwise the groups are the two clocks of a match with no match starting further left |
| ProfileForm.SlotToRange | components/SupervisorDashboard.tsx:74-79 | a stored day reads back as the two captured groups when the regex matches, and as an empty pair exactly when it does not |
| ProfileForm.SlotRoundTrip | components/SupervisorDashboard.tsx:195-198 | a day stored as `"start às end"` is matched by the regex and reads back as the same pair |
| ProfileForm.IncompleteSlotReadsEmpty | components/SupervisorDashboard.tsx:197 | a day with either end empty is stored as "" and reads back as an empty pair |
| ProfileForm.FormattedSchedule | components/SupervisorDashboard.tsx:194-198 | each day of the saved schedule is that day's `"start às end"` or "" |
| ProfileForm.ParsedSchedule | components/SupervisorDashboard.tsx:72-80 | each day of the form is the regex reading of that stored day (`|| ''` for a missing one) |
| ProfileForm.FormatSchedule | components/SupervisorDashboard.tsx:194-198 | the `DAYS.forEach` loop builds the saved schedule |
| ProfileForm.ParseSchedule | components/SupervisorDashboard.tsx:72-80 | the `DAYS.forEach` loop builds the form schedule |
| ProfileForm.ScheduleRoundTrip | components/SupervisorDashboard.tsx:72-80 | when every day is complete or empty, saving a schedule and opening it again gives back the same schedule |
| ProfileForm.EndOnlyDayIsNotStored | components/SupervisorDashboard.tsx:160-198 | an end-only day counts toward the total, yet is saved as "" and reopens empty |
| ProfileForm.UpdateDay | components/SupervisorDashboard.tsx:235-246 | a schedule edit changes one end of one day and nothing else in the form |
| ProfileForm.UpdateDayTotal | components/SupervisorDashboard.tsx:235-246 | after a schedule edit the total changes by that day's change only |
| ProfileForm.FormatMasp | components/SupervisorDashboard.tsx:145-151 | `formatMasp` keeps the digits; with ≤ 1 digit it is those digits; otherwise the digits with a dash before the last one |
| ProfileForm.FormatMaspIdempotent | components/SupervisorDashboard.tsx:145-151 | formatting a formatted MASP changes nothing |
| ProfileForm.SavedRecord | components/SupervisorDashboard.tsx:200-210 | the saved record keeps id, role, MASP and base workload, upper-cases name and subject, holds a quota string that reads back as 15 minutes per class period, and stores each day as its `"start às end"` or "" |
| ProfileForm.FormOf | components/SupervisorDashboard.tsx:68-80 | the form opened on a teacher takes the name and MASP, the subject or "", the base workload or 0, and each day as the regex reading of the stored day |
| ProfileForm.BuildRecord | components/SupervisorDashboard.tsx:193-210 | the record builder with its loop produces the saved record of a valid form |
| ProfileForm.SavedRecordFacts | components/SupervisorDashboard.tsx:200-210 | a saved record keeps id, role and MASP, has non-blank name and subject, and its `chExtraClasse` is the quota rendered as HH:MM, which reads back as the scheduled total |
| ProfileForm.SavedRecordRoundTrip | components/SupervisorDashboard.tsx:68-101 | when every day is complete or empty, opening a saved record again gives back the saved form with its name and subject upper-cased |
| ProfileForm.SavedRecordReopensValid | components/SupervisorDashboard.tsx:68-101 | when every day is complete or empty, reopening a saved teacher in the form yields a form that passes the gate |
| ProfileForm.NewTypeName | components/SupervisorDashboard.tsx:248-254 | a new activity name is forwarded, untrimmed, exactly when it is not blank |
| App.WithoutKey | App.tsx:78 | the filter keeps exactly the reports with another key |
| App.Upsert | App.tsx:77-80 | after `saveReport` the saved report is last, and no other report has its key; membership is the saved report or an old one with another key |
| App.UpsertKeepsOthers | App.tsx:78 | every report with another key keeps its number of occurrences |
| App.UpsertKeepsOrder | App.tsx:78 | reports with another key keep their relative order |
| App.UpsertOverwrites | App.tsx:77-80 | saving twice under the same key equals saving the second report once |
| App.UpsertKeepsKeysDistinct | App.tsx:77-80 | if report keys were pairwise distinct they stay so |
| App.ReadBackAfterSave | App.tsx:77-80 | if no report of that teacher and month has another year, the month lookup finds the report just saved |
| App.OtherYearShadowsSave | components/TeacherDashboard.tsx:82 | a report of the same teacher and month name from another year hides a newly saved one from the month lookup |
| App.ReplaceTeacher | App.tsx:104 | the map keeps the length and ids, replaces every teacher with the id, and keeps the others |
| App.ReplaceThenFind | App.tsx:104 | after a replacement the roster lookup finds the new record, or nothing if the id was absent |
| App.ReplaceTeacherIdempotent | App.tsx:104 | replacing twice with the same record equals replacing once |
| App.WithoutTeacher | App.tsx:113 | the deletion keeps exactly the teachers with another id, and the id is no longer found |
| App.WithoutTeacherKeepsOthers | App.tsx:113 | each teacher with another id keeps its number of occurrences |
| App.WithoutTeacherKeepsOrder | App.tsx:113 | teachers with another id keep their relative order |
| App.WithoutOwner | App.tsx:114 | the cascade keeps exactly the reports of other teachers, and the month lookup finds nothing for the deleted teacher |
| App.CascadeKeepsOthers | App.tsx:114 | each report of another teacher keeps its number of occurrences |
| App.CascadeKeepsOrder | App.tsx:114 | reports of other teachers keep their relative order |
| App.NewActivity | App.tsx:86 | the new activity type has the given id and the upper-cased name |
| App.WithoutActivity | App.tsx:93 | the deletion keeps exactly the types with another id |
| App.WithoutActivityKeepsOthers | App.tsx:93 | each type with another id keeps its number of occurrences |
| App.WithoutActivityKeepsOrder | App.tsx:93 | types with another id keep their relative order |
| App.DeleteMissingActivity | App.tsx:93 | deleting an id that is not listed changes nothing |
| App.CloudActivities | App.tsx:31-35 | the remote activity list is used when non-empty, the seed list otherwise; the result is never empty |
| App.AppState.constructor | App.tsx:11-15 | the initial state: nobody logged in, empty lists, loading |
| App.AppState.LoadData | App.tsx:18-56 | with remote data, missing lists become empty and the activity list follows the fallback rule; without it, each list comes from the cache or else the seed (reports are kept) |
| App.AppState.Login | App.tsx:67-69 | the session user becomes the given user |
| App.AppState.Logout | App.tsx:71-73 | the session user is cleared |
| App.AppState.SaveReport | App.tsx:75-83 | the reports become the upsert of the saved report |
| App.AppState.AddActivityType | App.tsx:85-89 | one upper-cased entry is appended and the old entries are unchanged; duplicates are not checked |
| App.AppState.DeleteActivityType | App.tsx:91-96 | when confirmed the entries with that id go, otherwise nothing changes; reports are untouched |
| App.AppState.AddTeacher | App.tsx:98-101 | the teacher is appended without an id check |
| App.AppState.UpdateTeacher | App.tsx:103-109 | the roster is the replacement; the session user is replaced exactly when its id matches |
| App.AppState.DeleteTeacher | App.tsx:111-117 | when confirmed the teacher and all of the teacher's reports go; otherwise nothing changes |
| SupervisorDashboard.SaveOutcome | components/SupervisorDashboard.tsx:190-224 | nothing is saved exactly when the gate fails; an update exactly when an id is being edited, under that id; otherwise an add under the fresh id; the record is the saved record of the form |
| SupervisorDashboard.BuildSaveAction | components/SupervisorDashboard.tsx:190-224 | the handler's body computes that decision |
| SupervisorDashboard.SavedTeacherFacts | components/SupervisorDashboard.tsx:200-224 | a saved teacher has role TEACHER, upper-cased name and subject, and `chExtraClasse` = formatted quota, which reads back as the total |
| SupervisorDashboard.SupervisorView.constructor | components/SupervisorDashboard.tsx:40-66 | the initial view: no teacher selected, the current month, nothing edited, an empty form |
| SupervisorDashboard.SupervisorView.SelectTeacher | components/SupervisorDashboard.tsx:288 | the teacher selector sets the selected id |
| SupervisorDashboard.SupervisorView.SelectMonth | components/SupervisorDashboard.tsx:299 | the month selector sets the month |
| SupervisorDashboard.SupervisorView.SelectedTeacher | components/SupervisorDashboard.tsx:51 | the selected teacher is absent exactly when no roster member has the selected id, and otherwise the first member in roster order that has it |
| SupervisorDashboard.SupervisorView.ActiveReport | components/SupervisorDashboard.tsx:52 | the active report is the month lookup for the selected teacher and month |
| SupervisorDashboard.SupervisorView.NewTeacher | components/SupervisorDashboard.tsx:310 | the new-teacher button clears the edited id |
| SupervisorDashboard.SupervisorView.EditTeacher | components/SupervisorDashboard.tsx:230-233 | editing records the teacher's id |
| SupervisorDashboard.SupervisorView.SyncForm | components/SupervisorDashboard.tsx:68-101 | the form is filled from the edited teacher when found, left alone when not found, and emptied when nothing is edited |
| SupervisorDashboard.SupervisorView.SetName | components/SupervisorDashboard.tsx:388 | only the name changes |
| SupervisorDashboard.SupervisorView.SetMasp | components/SupervisorDashboard.tsx:398 | only the MASP changes, to the formatted input |
| SupervisorDashboard.SupervisorView.SetSubject | components/SupervisorDashboard.tsx:409 | only the subject changes |
| SupervisorDashboard.SupervisorView.SetChRegimeBasico | components/SupervisorDashboard.tsx:419 | only the base workload changes, to the parsed number or 0 |
| SupervisorDashboard.SupervisorView.UpdateDaySchedule | components/SupervisorDashboard.tsx:235-246 | the form becomes the one-day edit |
| SupervisorDashboard.SupervisorView.SaveTeacher | components/SupervisorDashboard.tsx:190-228 | the save hands on the decision for the current form, and clears the edited id exactly when something is saved |
| SupervisorDashboard.SupervisorView.SetNewActivityName | components/SupervisorDashboard.tsx:553 | the typed name is recorded |
| SupervisorDashboard.SupervisorView.AddNewActivity | components/SupervisorDashboard.tsx:248-254 | a non-blank name is forwarded and the field cleared; a blank one changes nothing |
| TeacherDashboard.NewWeek | components/TeacherDashboard.tsx:162-167 | a new week has empty dates and exactly six empty slots |
| TeacherDashboard.ApplyEdit | components/TeacherDashboard.tsx:172-180 | a week edit changes only the named field or slot, and keeps the id and the number of slots |
| TeacherDashboard.EditWeeks | components/TeacherDashboard.tsx:171-181 | `updateWeek` keeps length and ids, edits exactly the weeks with the id, and keeps the others |
| TeacherDashboard.EditMissingWeek | components/TeacherDashboard.tsx:171-181 | an edit of an id no week carries changes nothing |
| TeacherDashboard.EditWeeksIdempotent | components/TeacherDashboard.tsx:171-181 | repeating the same edit changes nothing more |
| TeacherDashboard.WithoutWeek | components/TeacherDashboard.tsx:191 | the deletion keeps exactly the weeks with another id, each with its multiplicity |
| TeacherDashboard.WithoutWeekKeepsOrder | components/TeacherDashboard.tsx:191 | surviving weeks keep their relative order |
| TeacherDashboard.MonthWeeks | components/TeacherDashboard.tsx:81-88 | the loaded weeks are exactly those of the first report of the teacher for the month name, whatever its year, and none without such a report |
| TeacherDashboard.TeacherView.constructor | components/TeacherDashboard.tsx:34-56 | the initial view: the current month, no weeks, nothing pending, the form from the user with an empty schedule |
| TeacherDashboard.TeacherView.LoadMonth | components/TeacherDashboard.tsx:81-88 | the month-load effect sets the weeks to the month's weeks |
| TeacherDashboard.TeacherView.SelectMonth | components/TeacherDashboard.tsx:240 | choosing a month sets it and loads its weeks |
| TeacherDashboard.TeacherView.OpenProfileEditor | components/TeacherDashboard.tsx:59-78 | opening the editor fills the form from the user, reading each stored day through the regex |
| TeacherDashboard.TeacherView.RefreshUser | App.tsx:103-107 | a new `user` prop (the root replaces the signed-in record after a profile save, App.tsx:147) becomes the dashboard's user |
| TeacherDashboard.TeacherView.AddWeek | components/TeacherDashboard.tsx:161-169 | exactly one new week is appended and the existing weeks are unchanged |
| TeacherDashboard.TeacherView.UpdateWeek | components/TeacherDashboard.tsx:171-181 | the weeks become the edit |
| TeacherDashboard.TeacherView.RequestDeleteWeek | components/TeacherDashboard.tsx:184-186 | only the pending id is recorded |
| TeacherDashboard.TeacherView.CancelDeleteWeek | components/TeacherDashboard.tsx:311 | cancelling clears the pending id |
| TeacherDashboard.TeacherView.ConfirmDeleteWeek | components/TeacherDashboard.tsx:189-194 | with an id pending, every week with it goes and nothing stays pending; with none pending, nothing changes |
| TeacherDashboard.TeacherView.Save | components/TeacherDashboard.tsx:150-159 | the saved report has the user's id, the selected month, the given year and the weeks on screen |
| TeacherDashboard.TeacherView.SaveProfile | components/TeacherDashboard.tsx:128-148 | a profile is saved exactly when the gate holds, as the saved record under the user's own id and role |
| TeacherDashboard.TeacherView.SetName | components/TeacherDashboard.tsx:336 | only the name changes |
| TeacherDashboard.TeacherView.SetMasp | components/TeacherDashboard.tsx:345 | only the MASP changes, to the formatted input |
| TeacherDashboard.TeacherView.SetSubject | components/TeacherDashboard.tsx:355 | only the subject changes |
| TeacherDashboard.TeacherView.SetChRegimeBasico | components/TeacherDashboard.tsx:364 | only the base workload changes, to the parsed number or 0 |
| TeacherDashboard.TeacherView.UpdateDaySchedule | components/TeacherDashboard.tsx:390-403 | the form becomes the one-day edit |
| TeacherDashboard.TeacherView.SetNewActivityName | components/TeacherDashboard.tsx:441 | the typed name is recorded |
| TeacherDashboard.TeacherView.AddNewType | components/TeacherDashboard.tsx:196-202 | a non-blank name is forwarded untrimmed and the field cleared; a blank one changes nothing |
| LoginForm.Submit | components/LoginForm.tsx:24-53 | the supervisor pair logs in as the supervisor, checked first; an empty normalised field gives the MASP error; a teacher logs in exactly when both normalised fields are equal and some MASP normalises to them, and it is the first such teacher; otherwise the invalid-credentials error |
| LoginForm.ErrorShown | components/LoginForm.tsx:24-53 | whatever was shown before, the error line after a submission is empty exactly when the supervisor pair or a matching teacher logs in; the MASP message exactly when a digit-filtered field is empty; the invalid-credentials message exactly when both are non-empty and they differ or no MASP has those digits |
| LoginForm.FormattedMaspLogsIn | components/LoginForm.tsx:43-49 | a MASP stored through `formatMasp` logs in with its digits typed as both fields |
| LoginForm.MismatchRejected | components/LoginForm.tsx:43-51 | different non-empty digit strings are refused with the same message as an unknown MASP |
| ReportGrid.ScheduleCell | components/ReportGrid.tsx:94-99 | a schedule cell shows the stored day, or "--" when it is empty or missing |
| ReportGrid.SavedScheduleCell | components/ReportGrid.tsx:99 | for a teacher saved through a form, a cell shows `"start às end"` when both ends were set and "--" otherwise |
| ReportGrid.MonthIndex | components/ReportGrid.tsx:25 | `indexOf` is -1 exactly for a name that is not a month, and otherwise the month's position |
| ReportGrid.MinDate | components/ReportGrid.tsx:28 | `minDate` is defined exactly for a month name, and is `"<year>-MM-01"` whose two digits MM name the same month |
| ReportGrid.Shown | components/ReportGrid.tsx:113-115 | read-only slots are exactly the non-blank ones, each with its multiplicity, and none exactly when all are blank; editable slots are all shown unchanged |
| ReportGrid.ShownKeepsOrder | components/ReportGrid.tsx:114 | read-only slots keep their original order |
| ReportGrid.Rows | components/ReportGrid.tsx:112-117 | the drawn weeks are exactly the weeks that are drawn (all when editable, those with a filled slot when read-only), each with its shown slots, in the report's order for an editable sheet |
| ReportGrid.RowOf | components/ReportGrid.tsx:112-117 | one week contributes one row with its shown slots when it is drawn, and none otherwise |
| ReportGrid.DrawnUnlessNothingShown | components/ReportGrid.tsx:117 | a week is drawn exactly unless the sheet is read-only and none of its slots is shown |
| ReportGrid.RowsMultiplicity | components/ReportGrid.tsx:112-117 | each drawn week is drawn as many times as it occurs in the report |
| ReportGrid.RowsKeepOrder | components/ReportGrid.tsx:112-117 | two drawn weeks are drawn in the order they have in the report |
| ReportGrid.RenderBody | components/ReportGrid.tsx:109-112 | the placeholder appears exactly when there are no weeks |
| ReportGrid.AllBlankWeeksDrawNothing | components/ReportGrid.tsx:109-117 | read-only weeks with only blank slots draw neither the placeholder nor any week |

## Left out

- The remote store client is not part of this model: its fetch calls, `no-cors` writes, URL configuration and page reload. The handlers' awaited remote writes are left out, and so is the fire-and-forget ordering between them and the state updates.
- The PDF export uses html2canvas, jsPDF, a timer and floating-point image sizes (components/SupervisorDashboard.tsx:103-143). It is not modelled.
- The local-storage backup effect (App.tsx:59-65) is not modelled. Parsing the cache as JSON is taken to succeed: `LocalCache` holds parsed lists.
- Clocks and dialogs are inputs, not modelled:
  - `Date.now()` ids are the `freshId` parameters;
  - `getFullYear()` is `year`;
  - the ISO timestamp is `timestamp`;
  - the current month index is a constructor argument;
  - `confirm()` is `confirmed`;
  - the success `alert` is dropped.
- `maxDate` and the `toLocaleDateString` rendering of dates depend on time zone and locale and are not modelled.
- JSX layout and styling are not modelled, and neither are the modal-visibility flags. The profile editor's opening is `OpenProfileEditor`.
- The month-load effect runs only when the month or the user changes, not when the reports do. The model calls `LoadMonth` from `SelectMonth` and leaves its scheduling to the caller.
- ProfileForm.TimeToMinutes: only defined on "" and on clock strings (digits, a colon, two digits). JavaScript's `Number`/`split` results on other strings, including `NaN`, are not modelled. Time inputs only produce "" or "HH:MM".
- Text.ToUpper: upper-cases ASCII and Latin-1 letters only. Characters whose upper case lies elsewhere or has another length (such as "ß") are not modelled.
- `masp.length` counts UTF-16 code units; the model counts characters.
- The base-workload field's `parseInt(...) || 0` is an input: `Option<int>`, `None` for `NaN`.
- TeacherDashboard.TeacherView.UpdateWeek: requires the slot index to be in range for the weeks it edits. The grid only passes indexes of shown slots. JavaScript's growing of an array through an out-of-range index is not modelled, and neither is a `descriptions` edit without an index.
- The seed data is modelled as constants (`InitialTeachers`, `InitialActivityTypes`, `Months`). Two of the seed teachers do not meet the quota rule: one schedule sums to 420 minutes against 330, another to 300 against 240. So quota equality is stated only for records saved through the forms, not for loaded data.
- "Six description slots" holds only for weeks made by `handleAddWeek` (`NewWeek`). It is not an invariant of stored reports.
- The concrete examples are not evaluated as literals: 330 minutes rendering as "05:30", and the stored MASP "1324749-9" matching "13247499". `FormatMinutes` fixes the digits of any rendering (hours value, minutes value, no leading zero beyond two digits), and `FormattedMaspLogsIn` and `MismatchRejected` state the general properties the MASP example is an instance of.
