# Team-View scheduling core in Dafny

Team-View is a single-page team calendar. Client appointments sit on a day
grid, with one row per team member and thirteen whole-hour slots from
6:00 am (slot 0) to 6:00 pm (slot 12). Beside the grid is a job panel. This
project models the scheduling core of that calendar:

- the application store (`AppContext`): team members, appointments and
  jobs, the seed data, and the add / update / delete / assign operations;
- the scheduling utilities (`AppointmentUtils`): the half-open overlap check
  per team member, the exact-start occupancy lookup, duration labels,
  "h:mm am/pm" parsing and end-time computation, the status colours and the
  slot list;
- the appointment editor (`AppointmentModal`): form initialisation, the
  live conflict state, the ordered submit checks, the store call a submit
  makes, and deletion behind a confirmation;
- the day grid (`CalendarGrid`): status and team filters, block geometry,
  the dialog selection state, and drag-and-drop, which moves an appointment
  without any conflict check;
- the job panel (`JobCards`): the appointment a job's dialog creates, the
  assigned / unassigned tabs and "Assign all".

Pure logic is written as functions with lemmas about them. The store, the
editor's state, the grid's selection state and the job panel's dialog state
are classes whose methods update their fields. The loops of the source
(`generateTimeSlots`, `handleAssignAll`) are methods with loop invariants.

Units: a duration is a whole number of MINUTES. The source counts hours and
allows fractions, so the source's `hours` becomes `60 * hours` here, and a
half hour is 30. `startHour` is a slot index, as in the source. The end of
the working day, `startHour + duration <= 12` in hours, becomes
`startHour * 60 + duration <= 720`. JavaScript's `%` truncates toward zero
and is written out as `Text.JsRem`. `parseInt` gives `None` where
JavaScript gives `NaN`.

The model follows the code, including these behaviours a user might not
expect:

- The editor's live conflict check passes no duration, so it always tests a
  one-hour window.
- The submit's start slot is `timeOption?.index || 3`, so slot 0 is checked
  and stored as slot 3.
- `addAppointment` always replaces the caller's id with a fresh one.
- A drop updates every entry that carries the dragged id.
- A drop leaves the `time` display label as it was.

## Model

| member | source | states |
|---|---|---|
| AppContext.MergeFieldwise | contexts/AppContext.tsx:298 | every field of `{ ...a, ...p }` comes from the patch when the patch has it and from the entry otherwise |
| AppContext.AddAppends | contexts/AppContext.tsx:285-290 | adding grows the collection by one entry at the end, keeps the earlier entries, and stores the argument with the fresh id |
| AppContext.AddDiscardsCallerId | contexts/AppContext.tsx:285-290 | the caller's id never reaches the store: arguments that differ only in id are stored alike |
| AppContext.AddFreshIdIsUnique | contexts/AppContext.tsx:285-290 | when the fresh id is unused, the added entry is the only one carrying it |
| AppContext.UpdateShape | contexts/AppContext.tsx:292-301 | update keeps length and order; entries with the id get the patch merged over them, all others are unchanged |
| AppContext.UpdateUnknownIdIsNoop | contexts/AppContext.tsx:292-301 | updating an id that is absent changes nothing |
| AppContext.UpdateIdempotent | contexts/AppContext.tsx:292-301 | applying the same patch to the same id twice equals applying it once |
| AppContext.DeleteRemovesExactly | contexts/AppContext.tsx:303-307 | after delete no entry has the id; every other entry survives as many times as it occurred; nothing new appears |
| AppContext.DeleteKeepsOrder | contexts/AppContext.tsx:303-307 | delete distributes over concatenation, so survivors keep their relative order |
| AppContext.DeleteUnknownIdIsNoop | contexts/AppContext.tsx:303-307 | deleting an absent id changes nothing |
| AppContext.DeleteIdempotent | contexts/AppContext.tsx:303-307 | deleting twice equals deleting once |
| AppContext.AssignJobShape | contexts/AppContext.tsx:309-315 | assign sets `assignedMember` on the matching jobs only and changes no other field or job |
| AppContext.Merge | contexts/AppContext.tsx:298 | no contract; specified by `MergeFieldwise` |
| AppContext.AppendWithId | contexts/AppContext.tsx:285-290 | no contract; specified by `AddAppends`, `AddDiscardsCallerId` and `AddFreshIdIsUnique` |
| AppContext.UpdateById | contexts/AppContext.tsx:292-301 | no contract; specified by `UpdateShape`, `UpdateUnknownIdIsNoop` and `UpdateIdempotent` |
| AppContext.DeleteById | contexts/AppContext.tsx:303-307 | no contract; specified by `DeleteRemovesExactly`, `DeleteKeepsOrder`, `DeleteUnknownIdIsNoop` and `DeleteIdempotent` |
| AppContext.AssignJob | contexts/AppContext.tsx:309-315 | no contract; specified by `AssignJobShape` |
| AppContext.AppStore.constructor | contexts/AppContext.tsx:94-267 | the store starts from the eleven team members, ten appointments and four jobs of the seed |
| AppContext.AppStore.AddAppointment | contexts/AppContext.tsx:285-290 | the collection becomes the old one plus the argument under the fresh id; jobs and members unchanged |
| AppContext.AppStore.UpdateAppointment | contexts/AppContext.tsx:292-301 | the collection becomes the id-wise merge of the patch; its length is kept; nothing else changes |
| AppContext.AppStore.DeleteAppointment | contexts/AppContext.tsx:303-307 | the collection becomes the filtered one and no longer holds the id; nothing else changes |
| AppContext.AppStore.AssignJobToMember | contexts/AppContext.tsx:309-315 | the jobs become the assigned list; appointments and members unchanged |
| Text.ParseInt | utils/appointmentUtils.ts:60-61 | no contract; specified by `ParseIntOfIntToString` |
| Text.ParseIntOfIntToString | utils/appointmentUtils.ts:60-61 | `parseInt` reads back every integer that `toString` rendered |
| Text.IntToString | utils/appointmentUtils.ts:89 | no contract; specified by `ParseIntOfIntToString` and `IntToStringInjective` |
| Text.IntToStringInjective | utils/appointmentUtils.ts:89 | distinct integers render as distinct decimal strings |
| Text.PadStart2 | utils/appointmentUtils.ts:89 | a string of two or more characters is kept; a shorter one is filled with leading '0's to exactly two characters, ending in the original |
| Text.JsRem | utils/appointmentUtils.ts:79-80 | JavaScript's `%` for a positive divisor: the mathematical remainder for a non-negative dividend; for a negative one, 0 when the divisor divides it and the mathematical remainder minus the divisor otherwise, so it lies in (-divisor, 0] |
| Text.JsRemTruncates | utils/appointmentUtils.ts:79-80 | that value is the remainder of division truncated toward zero: `a == trunc(a / b) * b + JsRem(a, b)` |
| Text.Trim | components/AppointmentModal.tsx:114 | no contract; specified by `TrimEmptyIffBlank` and `NonBlankStart` |
| Text.TrimEmptyIffBlank | components/AppointmentModal.tsx:114 | a name trims to nothing exactly when every character of it is JavaScript white space |
| Text.NonBlankStart | components/AppointmentModal.tsx:114 | a name whose first character is not white space survives the trim |
| Text.Upper | utils/appointmentUtils.ts:126 | on ASCII text (the slot labels), `toUpperCase` keeps the length and upper-cases each character in place |
| SeedChecks.SeedMembersNumbered | contexts/AppContext.tsx:94-106 | the seed team members are numbered 1 to 11 in list order |
| SeedChecks.SeedAppointmentRows | contexts/AppContext.tsx:109-230 | seed appointment `i` belongs to member `i + 1` and has a non-empty id |
| SeedChecks.SeedAppointmentsInWorkingDay | contexts/AppContext.tsx:109-230 | every seed appointment is on an existing member's row, has a positive duration, starts on a slot and ends by 6:00 pm |
| SeedChecks.SeedAppointmentsConflictFree | contexts/AppContext.tsx:109-230 | no seed appointment conflicts with another one under the conflict rule |
| SeedChecks.OccupancyMissesCoveredSlot | utils/appointmentUtils.ts:27-40 | the occupancy lookup reports a slot free that an earlier-starting appointment covers, where the conflict check reports a conflict |
| SeedChecks.StoreAcceptsConflictingAdd | contexts/AppContext.tsx:285-290 | the store adds an appointment that conflicts with one it already holds |
| AppointmentUtils.CheckAppointmentConflict | utils/appointmentUtils.ts:3-25 | `hasConflict` holds iff some existing appointment passes the filter iff the list is non-empty; the list holds exactly the conflicting appointments |
| AppointmentUtils.ConflictsKeepOrder | utils/appointmentUtils.ts:12-19 | the reported appointments keep their collection order |
| AppointmentUtils.ConflictsCounted | utils/appointmentUtils.ts:12-19 | each conflicting appointment is reported exactly as many times as it occurs in the collection, and a non-conflicting one never |
| AppointmentUtils.CandidateDefaults | utils/appointmentUtils.ts:8-10 | a missing start is slot 0 and a missing duration is one hour |
| AppointmentUtils.TouchingNeverConflicts | utils/appointmentUtils.ts:17-18 | intervals that only touch, on either side, never conflict |
| AppointmentUtils.OverlapsSymmetric | utils/appointmentUtils.ts:18 | the overlap test does not depend on which interval comes first |
| AppointmentUtils.ConflictSymmetric | utils/appointmentUtils.ts:12-19 | two appointments clash with each other in both directions or in neither |
| AppointmentUtils.NeverReported | utils/appointmentUtils.ts:13-14 | the excluded id and other members' appointments are never reported |
| AppointmentUtils.GetTimeSlotAvailability | utils/appointmentUtils.ts:27-40 | occupied iff some appointment of the row starts exactly at the slot; the appointment returned is the first such |
| AppointmentUtils.FormatDuration | utils/appointmentUtils.ts:42-53 | under an hour gives "M min", whole hours "Hh", otherwise "Hh Mm" |
| AppointmentUtils.FormatDurationInjective | utils/appointmentUtils.ts:42-53 | distinct durations get distinct labels |
| AppointmentUtils.DurationLabelInjective | utils/appointmentUtils.ts:46-52 | a duration label gives back its hours and its minutes |
| AppointmentUtils.ParseDigitLabel | utils/appointmentUtils.ts:55-64 | "a:b per" with digit strings splits into the numbers `a` and `b` and the period |
| AppointmentUtils.ParseRenderedTime | utils/appointmentUtils.ts:55-64 | parsing a rendered "h:mm am/pm" label gives back its 12-hour hour, minute and period |
| AppointmentUtils.ParseClockLabel | utils/appointmentUtils.ts:55-64 | the label of a minute of the day parses into that minute's hour, minute and period |
| AppointmentUtils.EndTimeOfClockLabel | utils/appointmentUtils.ts:66-90 | the end label of a clock label after `d` minutes is the clock label of the end minute, wrapped modulo a day |
| AppointmentUtils.ClockLabelInjective | utils/appointmentUtils.ts:82-89 | distinct minutes of a day have distinct labels |
| AppointmentUtils.SameClockParts | utils/appointmentUtils.ts:70-72 | the 12-hour hour, the minute and the period determine the minute of the day |
| AppointmentUtils.EndTimeWithoutSpace | utils/appointmentUtils.ts:55-64 | a start label without a space has no period, and the end-time computation throws |
| AppointmentUtils.EndTimeOfUnreadableHour | utils/appointmentUtils.ts:60-89 | an hour that `parseInt` cannot read gives "NaN:NaN am" whatever the duration |
| AppointmentUtils.EndTimeOfWordHour | utils/appointmentUtils.ts:55-90 | "nine am" gives "NaN:NaN am" |
| AppointmentUtils.StatusColorsDistinct | utils/appointmentUtils.ts:92-116 | each status has its own background and its own border colour |
| AppointmentUtils.GenerateTimeSlots | utils/appointmentUtils.ts:118-129 | the loop builds exactly the slot list |
| AppointmentUtils.TimeSlotsShape | utils/appointmentUtils.ts:118-129 | thirteen slots indexed 0 to 12, labelled "6:00 am" through "6:00 pm", with upper-cased display labels |
| AppointmentUtils.SlotValueListed | utils/appointmentUtils.ts:121-126 | the label of slot `i` is the `i`-th written-out label |
| AppointmentUtils.SlotValueIsClockLabel | utils/appointmentUtils.ts:121-126 | slot `i` is labelled as the minute `i` whole hours after 6:00 am |
| AppointmentUtils.SlotValuesDistinct | utils/appointmentUtils.ts:118-129 | no two slots share a label |
| AppointmentUtils.SlotLabelReadable | utils/appointmentUtils.ts:66-90 | every slot label can be read back by the end-time computation, whatever the duration |
| AppointmentUtils.SlotEndLabel | utils/appointmentUtils.ts:66-90 | the end label of slot `s` after `d` minutes is the clock label of that minute of the day |
| AppointmentUtils.SlotRoundTrip | utils/appointmentUtils.ts:66-90 | adding `k` whole hours to slot `s`'s label gives slot `s + k`'s label |
| AppointmentUtils.EndTimeBetweenLabels | utils/appointmentUtils.ts:66-90 | the clock-label round trip, stated for labels already in hand |
| AppointmentUtils.ParseTimeString | utils/appointmentUtils.ts:55-64 | no contract; specified by `ParseDigitLabel`, `ParseRenderedTime`, `ParseClockLabel` and `EndTimeWithoutSpace` |
| AppointmentUtils.CalculateEndTime | utils/appointmentUtils.ts:66-90 | no contract; specified by `EndTimeOfClockLabel`, `SlotEndLabel`, `SlotRoundTrip`, `EndTimeWithoutSpace`, `EndTimeOfUnreadableHour` and `EndTimeOfWordHour` |
| AppointmentUtils.StatusColor | utils/appointmentUtils.ts:92-103 | no contract; specified by `StatusColorsDistinct` and `CalendarGrid.GridColoursMatchStatusColours` |
| AppointmentUtils.StatusBorderColor | utils/appointmentUtils.ts:105-116 | no contract; specified by `StatusColorsDistinct` and `CalendarGrid.GridColoursMatchStatusColours` |
| AppointmentUtils.TimeSlots | utils/appointmentUtils.ts:118-129 | no contract; specified by `GenerateTimeSlots`, `TimeSlotsShape`, `SlotValueListed`, `SlotValueIsClockLabel` and `SlotValuesDistinct` |
| AppointmentModal.StartHourOf | components/AppointmentModal.tsx:136-139 | the start slot a label maps to is between 1 and 12: slot 0 and unknown labels become 3 |
| AppointmentModal.SlotWithIndexFinds | components/AppointmentModal.tsx:58 | slots 0 to 12 are found by their index, and no other index is found |
| AppointmentModal.SlotWithValueFinds | components/AppointmentModal.tsx:136 | a slot label is found at its own slot |
| AppointmentModal.StartHourOfSlot | components/AppointmentModal.tsx:136-139 | slot `i`'s label maps to `i`, except slot 0, which maps to 3 |
| AppointmentModal.StartHourOfUnknown | components/AppointmentModal.tsx:136-139 | a label that is not a slot label maps to 3 |
| AppointmentModal.EditFormOnGrid | components/AppointmentModal.tsx:56-69 | editing an appointment on the grid shows its slot's label and copies its fields; member 0 becomes 1 |
| AppointmentModal.EditFormSlotZero | components/AppointmentModal.tsx:56-69 | an appointment at slot 0 is edited showing "6:00 am" with start hour 3, and that label maps to 3 as well |
| AppointmentModal.EditFormOffGrid | components/AppointmentModal.tsx:56-69 | an appointment off the grid is edited with its own start label, or "9:00 am" when it has none |
| AppointmentModal.SlotFormFromCell | components/AppointmentModal.tsx:70-83 | a create from cell (t, m) starts at slot t on member m + 1, one hour, pending, with slot t's label or "9:00 am" |
| AppointmentModal.InitFormCases | components/AppointmentModal.tsx:53-96 | which of the four forms the initialisation installs, and that a closed dialog or an edit without an appointment keeps the form |
| AppointmentModal.LiveConflictsOneHour | components/AppointmentModal.tsx:99-106 | the live check tests a one-hour window whatever duration is entered |
| AppointmentModal.LiveConflictsMissLongOverlap | components/AppointmentModal.tsx:99-106 | a long entered duration that overlaps the next slot's appointment is not reported live, although the full check reports it |
| AppointmentModal.LiveConflictsSkipEdited | components/AppointmentModal.tsx:99-106 | the appointment being edited is never reported against itself |
| AppointmentModal.ValidateAccepts | components/AppointmentModal.tsx:110-144 | a submit is accepted iff the name is non-blank, 0 < duration <= 8 hours, no live conflict, the start label is readable and the start slot plus duration ends by 6:00 pm |
| AppointmentModal.ScheduleAccepts | components/AppointmentModal.tsx:135-144 | after the input checks, a submit is accepted iff the start label is readable and it ends by 6:00 pm |
| AppointmentModal.AcceptedData | components/AppointmentModal.tsx:146-156 | accepted data has the trimmed name, the form's label, duration, status, member and description, the end label the end-time computation gives, and a start slot of 1 to 12 within the day |
| AppointmentModal.ValidateOrder | components/AppointmentModal.tsx:113-144 | the first failing check decides the error, in the source's order |
| AppointmentModal.ScheduleFailures | components/AppointmentModal.tsx:135-144 | an unreadable start label is refused first, then an end after 6:00 pm |
| AppointmentModal.AcceptedSlotEndsOnSlot | components/AppointmentModal.tsx:135-156 | starting on slot `i` for `k` whole hours, the stored end label is slot `i + k`'s label, and slot 0 is stored as slot 3 |
| AppointmentModal.LateAppointmentRefused | components/AppointmentModal.tsx:138-144 | "Acme" at "5:00 pm" for two hours is refused as ending after 6:00 pm |
| AppointmentModal.EditedEntryTakesData | components/AppointmentModal.tsx:163-164 | an edited entry becomes exactly the submitted data and keeps its id |
| AppointmentModal.EditForm | components/AppointmentModal.tsx:56-69 | no contract; specified by `EditFormOnGrid`, `EditFormSlotZero` and `EditFormOffGrid` |
| AppointmentModal.SlotForm | components/AppointmentModal.tsx:70-83 | no contract; specified by `SlotFormFromCell` |
| AppointmentModal.InitForm | components/AppointmentModal.tsx:53-96 | no contract; specified by `InitFormCases` |
| AppointmentModal.LiveConflicts | components/AppointmentModal.tsx:99-106 | no contract; specified by `LiveConflictsOneHour`, `LiveConflictsMissLongOverlap` and `LiveConflictsSkipEdited` |
| AppointmentModal.OnStartTimeChange | components/AppointmentModal.tsx:223-229 | no contract; specified by `AppointmentEditor.SetStartTime` and, for the slot it stores, `StartHourOfSlot` and `StartHourOfUnknown` |
| AppointmentModal.Validate | components/AppointmentModal.tsx:110-156 | no contract; specified by `ValidateAccepts`, `ValidateOrder` and `AcceptedData` |
| AppointmentModal.Schedule | components/AppointmentModal.tsx:135-156 | no contract; specified by `ScheduleAccepts`, `ScheduleFailures` and `AcceptedSlotEndsOnSlot` |
| AppointmentModal.AppointmentEditor.constructor | components/AppointmentModal.tsx:25-48 | a closed create dialog with the default form (9:00 am, one hour, member 1, pending) and the live state for it |
| AppointmentModal.AppointmentEditor.Open | components/AppointmentModal.tsx:53-106 | new props install the initialised form and recompute the live conflict state |
| AppointmentModal.AppointmentEditor.SetStartTime | components/AppointmentModal.tsx:223-229 | choosing a label sets the label and its start slot, and the live check runs |
| AppointmentModal.AppointmentEditor.SetMember | components/AppointmentModal.tsx:207 | choosing a member sets it, and the live check runs |
| AppointmentModal.AppointmentEditor.SetDuration | components/AppointmentModal.tsx:248 | the duration changes without a live check, and the live state stays exact |
| AppointmentModal.AppointmentEditor.SetDetails | components/AppointmentModal.tsx:197-271 | name, status and description change the form only, and a live state that was current for the store's appointments stays current |
| AppointmentModal.AppointmentEditor.AppointmentsChanged | components/AppointmentModal.tsx:99-106 | a change of the store's appointments re-runs the live check against them; the form and the dialog state are unchanged |
| AppointmentModal.AppointmentEditor.HandleSubmit | components/AppointmentModal.tsx:99-168 | with the live state current for the store, a submit closes iff every check passes against the store's appointments, so a form that conflicts with them is refused; no store call unless it closes; then one add under a fresh id (create) or one update of the edited id (edit); the live check then runs against the new collection |
| AppointmentModal.AppointmentEditor.HandleDelete | components/AppointmentModal.tsx:170-172 | the delete button only shows the confirmation |
| AppointmentModal.AppointmentEditor.CancelDelete | components/AppointmentModal.tsx:351 | cancelling hides the confirmation and changes nothing else |
| AppointmentModal.AppointmentEditor.ConfirmDelete | components/AppointmentModal.tsx:174-180 | confirming deletes the edited id, closes, and the live check runs against the new collection; without an edited appointment nothing happens |
| CalendarGrid.SlotToTimeStringWithinDay | components/CalendarGrid.tsx:172-179 | before midnight, the drop formatter gives the clock label of the same minute |
| CalendarGrid.SlotToTimeStringOnSlots | components/CalendarGrid.tsx:172-179 | at whole slots the drop formatter agrees with the slot list |
| CalendarGrid.FormatterRenders | components/CalendarGrid.tsx:172-179 | at minute `mi` of hour `h` the drop formatter renders that hour and minute |
| CalendarGrid.DropEndAgreesWithinDay | components/CalendarGrid.tsx:181-182 | before midnight the drop's end label equals the end-time computation's |
| CalendarGrid.DropEndDisagreesPastMidnight | components/CalendarGrid.tsx:172-182 | past midnight they disagree: the formatter says "pm" where the end-time computation wraps to "am" |
| CalendarGrid.DropMovesEntry | components/CalendarGrid.tsx:160-193 | a drop moves each entry with the payload's id to the target slot and row with the same duration and new start and end labels; everything else, including `time`, is unchanged |
| CalendarGrid.DropMerge | components/CalendarGrid.tsx:184-190 | merging the drop patch into an entry moves it as above |
| CalendarGrid.DropWithoutTargetIsNoop | components/CalendarGrid.tsx:163-167 | a drop without a target, target data or payload changes nothing |
| CalendarGrid.DropSkipsConflictCheck | components/CalendarGrid.tsx:160-193 | dropping an entry on the start cell of another leaves the two in conflict |
| CalendarGrid.ElevenOClockLabels | components/CalendarGrid.tsx:172-179 | offsets 300 and 330 format as "11:00 am" and "11:30 am" |
| CalendarGrid.SeedDropExample | components/CalendarGrid.tsx:181-190 | seed appointment "3" dropped on slot 5, row 1 becomes member 2, "11:00 am" to "11:30 am" |
| CalendarGrid.FilteredExactly | components/CalendarGrid.tsx:109-113 | the grid shows exactly the entries that pass both filters, in collection order |
| CalendarGrid.FilterAllShowsEverything | components/CalendarGrid.tsx:109-113 | with both filters at "All" everything is shown |
| CalendarGrid.TeamFilterSelectsMember | components/CalendarGrid.tsx:111 | the team filter for member `k` keeps exactly member `k`'s entries |
| CalendarGrid.StatusFilterSelectsStatus | components/CalendarGrid.tsx:110 | the status filter for a status name keeps exactly that status |
| CalendarGrid.GridColoursMatchStatusColours | components/CalendarGrid.tsx:213-226 | the grid's colour table equals the status colour functions |
| CalendarGrid.BlockRows | components/CalendarGrid.tsx:238 | blocks share a row iff they belong to the same member, and rows are 32 pixels apart |
| CalendarGrid.NonConflictingBlocksApart | components/CalendarGrid.tsx:229-237 | two non-conflicting blocks on one row are drawn apart |
| CalendarGrid.SlotToTimeString | components/CalendarGrid.tsx:172-179 | no contract; specified by `SlotToTimeStringWithinDay`, `SlotToTimeStringOnSlots`, `FormatterRenders` and `ElevenOClockLabels` |
| CalendarGrid.DropPatch | components/CalendarGrid.tsx:181-190 | no contract; specified by `DropMerge` |
| CalendarGrid.DropOutcome | components/CalendarGrid.tsx:160-193 | no contract; specified by `DropMovesEntry`, `DropWithoutTargetIsNoop`, `DropSkipsConflictCheck` and `SeedDropExample` |
| CalendarGrid.FilteredAppointments | components/CalendarGrid.tsx:109-113 | no contract; specified by `FilteredExactly`, `FilterAllShowsEverything`, `TeamFilterSelectsMember` and `StatusFilterSelectsStatus` |
| CalendarGrid.GridStatusStyle | components/CalendarGrid.tsx:213-226 | no contract; specified by `GridColoursMatchStatusColours` |
| CalendarGrid.AppointmentStyle | components/CalendarGrid.tsx:212-246 | no contract; specified by `BlockRows` and `NonConflictingBlocksApart` |
| CalendarGrid.CalendarView.constructor | components/CalendarGrid.tsx:152-158 | nothing selected, create mode, dialog closed |
| CalendarGrid.CalendarView.HandleCreateAppointment | components/CalendarGrid.tsx:195-199 | double-clicking a cell opens a create for it |
| CalendarGrid.CalendarView.HandleEditAppointment | components/CalendarGrid.tsx:201-205 | double-clicking a block opens an edit of it |
| CalendarGrid.CalendarView.CloseModal | components/CalendarGrid.tsx:207-210 | closing clears both selections and keeps the mode |
| CalendarGrid.CalendarView.HandleDragEnd | components/CalendarGrid.tsx:160-193 | the collection becomes the drop outcome, without any conflict check |
| JobCards.JobTimeMapAgreesWithSlots | components/JobCards.tsx:29-39 | every label of the job dialog's map is the label of the slot it maps to, among slots 0 to 8 |
| JobCards.JobStartHourMatchesEditor | components/JobCards.tsx:48 | the job dialog and the editor give every offered label the same start slot; "6:00 am" gives 3 |
| JobCards.OnlySixIsSlotZero | components/JobCards.tsx:29-39 | "6:00 am" is the only label the map sends to slot 0 |
| JobCards.JobStartHourUnknown | components/JobCards.tsx:48 | a label the map does not list starts at slot 3 |
| JobCards.JobAppointmentUnchecked | components/JobCards.tsx:41-53 | every offered label gives an appointment for any duration and member: pending, named after the job, with its end label, unchecked |
| JobCards.JobAppointmentEndsOnSlot | components/JobCards.tsx:41-47 | whole hours from an offered label end on the slot that many hours later |
| JobCards.HandleJobSubmit | components/JobCards.tsx:25-57 | one add under the fresh id, no check, and the job's `assignedMember` left alone |
| JobCards.TabsPartitionJobs | components/JobCards.tsx:166-170 | the two tabs split the jobs: together they hold every job once |
| JobCards.OtherTabShowsAll | components/JobCards.tsx:166-170 | any other filter value shows every job |
| JobCards.OnlyLastAssigned | components/JobCards.tsx:166-170 | with four jobs of which only the last is assigned, the tabs hold that one and the first three |
| JobCards.SeedJobTabs | components/JobCards.tsx:166-170 | of the seed jobs only the fourth is assigned |
| JobCards.LastUnassigned | components/JobCards.tsx:156-163 | none iff every job is assigned; otherwise an unassigned job after which every job is assigned |
| JobCards.LastOfUnassignedTab | components/JobCards.tsx:156-170 | the unassigned tab's last job is the last unassigned job |
| JobCards.SeedAssignAll | components/JobCards.tsx:156-163 | with the seed data, "Assign all" opens the dialog for the third job |
| JobCards.JobStartHour | components/JobCards.tsx:48 | no contract; specified by `JobStartHourMatchesEditor`, `OnlySixIsSlotZero` and `JobStartHourUnknown` |
| JobCards.JobAppointment | components/JobCards.tsx:41-53 | no contract; specified by `JobAppointmentUnchecked` and `JobAppointmentEndsOnSlot` |
| JobCards.FilteredJobs | components/JobCards.tsx:166-170 | no contract; specified by `TabsPartitionJobs`, `OtherTabShowsAll`, `OnlyLastAssigned`, `SeedJobTabs` and `LastOfUnassignedTab` |
| JobCards.JobBoard.constructor | components/JobCards.tsx:154 | no job dialog is open |
| JobCards.JobBoard.OpenJob | components/JobCards.tsx:259 | clicking a card opens its dialog |
| JobCards.JobBoard.CloseJobModal | components/JobCards.tsx:286 | closing clears the dialog's job |
| JobCards.JobBoard.HandleAssignAll | components/JobCards.tsx:156-163 | the dialog ends on the last unassigned job; with none, the dialog is unchanged |

## Left out

- Persistence in `localStorage` (contexts/AppContext.tsx:317-350) is browser I/O and is not modelled. The store starts from the seed.
- `Date.now().toString()` ids are a clock reading. Each add takes the id as a `freshId` parameter.
- The selected date, active view, view mode, time interval and `draggedItem` store fields are not read by the scheduling core and are not modelled.
- The drag-and-drop library is not modelled: collision detection, the drag transform and the drop target's highlight. A drag end is modelled as its payload and its target's `{timeIndex, memberIndex}`.
- `ResizeObserver` slot-width measurement, the `console.log` call and all JSX/CSS markup are not modelled. The slot width is a parameter of the block geometry.
- The grid's header labels ("6am" … "6pm") and the width of a hovered drop target are display only.
- `alert` messages are not modelled. Each refusal is a `SubmitError` value instead.
- `onClose` callbacks are not modelled. They become a `closes` result.
- React's batching of state updates and effect scheduling are reduced to the order the handlers run in. AppointmentModal.AppointmentEditor.Open re-initialises the form on every call, whereas the source's initialisation effect runs only when `isOpen`, `appointment?.id` or `mode` changes (components/AppointmentModal.tsx:96). In the source a changed `defaultTimeSlot` alone, or a new appointment object with the same id, keeps the form as it is.
- AppointmentModal.Validate: a duration field that `parseFloat` reads as `NaN` (such as "abc") passes every check in the source, because each comparison with `NaN` is false, and is then stored. The model's duration is either blank or a whole number of minutes, so that path is not modelled.
- AppointmentModal.Validate: the browser's own form checks are not modelled: `required` on the client name (components/AppointmentModal.tsx:195), `required step="0.5" min="0.5" max="8"` on the duration (components/AppointmentModal.tsx:241-247) and `disabled={conflicts.hasConflict}` on the submit button (components/AppointmentModal.tsx:312). In the browser they stop some submits before `handleSubmit` runs, such as a duration under 30 minutes or one that is not a multiple of 30 minutes (seed appointment "5" at 45 minutes cannot be saved unchanged). `Validate` models `handleSubmit` alone, so it accepts those durations.
- AppointmentUtils.FormatDuration: durations are whole minutes. The rounding of fractional minutes by `Math.round` is not modelled.
- AppointmentUtils.CalculateEndTime returns `None` where the source throws (a start label without a space leaves the period undefined). The throw itself is not modelled.
- Text.Upper: only ASCII letters are upper-cased. JavaScript's full Unicode case mapping, which can change a string's length ("ß" becomes "SS"), is not modelled; the only strings upper-cased are the slot labels, which are ASCII.
- `parseInt` is modelled as an optional sign followed by the longest decimal digit prefix. The leading whitespace `parseInt` skips and the "0x" hexadecimal prefix it accepts are not modelled.
- JobCards.HandleJobSubmit: the browser's own `min`, `max` and `step` checks on the job dialog's duration input are not modelled. The duration is any whole number of minutes. The input is not `required`, so a blank duration (or text the number input discards) reaches the handler as the empty string. `parseFloat` reads that as `NaN`, and the source then stores an appointment whose duration is `NaN`, whose end label is "NaN:NaN am" and whose `time` is the start label followed by " - NaN:NaN am" (components/JobCards.tsx:41-49). The model's duration is a whole number of minutes, so that path is not modelled.
- The job dialog's own selector state (member, label, duration) and the editor's member dropdown contents are inputs of the handlers. They are not modelled as state.
- The editor's read-only preview of the end time is display only.
- app/page.tsx, Header, TeamSidebar, ConfirmDialog (beyond its confirm and cancel callbacks), EmptyState and LoadingState are presentational and are not part of this model.
