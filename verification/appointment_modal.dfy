/**
 * The appointment editor: how the form is filled when the dialog opens, the
 * live conflict state, the start-time selector, the ordered checks a submit
 * runs before it touches the store, and deletion behind a confirmation.
 */
module AppointmentModal {
  import opened Wrappers
  import opened Sequences
  import opened Text
  import opened AppContext
  import opened AppointmentUtils

  datatype Mode = CreateMode | EditMode

  /** The grid cell a create was started from: slot index and row index. */
  datatype SlotRef = SlotRef(timeIndex: int, memberIndex: int)

  /** The duration field: empty, or the number it holds, in minutes. */
  datatype DurationInput = Blank | Entered(minutes: int)

  datatype FormData = FormData(
    clientName: string,
    startTime: string,
    duration: DurationInput,
    status: Status,
    member: int,
    description: string,
    startHour: int)

  /** The form a plain create starts from: 9:00 am (slot 3), one hour, member 1, pending. */
  const DefaultForm := FormData("", "9:00 am", Entered(60), Pending, 1, "", 3)

  // ---------------------------------------------------------------------------
  // Slot lookups

  /** `timeOptions.find(t => t.index === i)`. */
  function SlotWithIndex(i: int): Option<TimeSlot> {
    match FindFirst(TimeSlots(), (t: TimeSlot) => t.index == i)
    case None => None
    case Some(k) => Some(TimeSlots()[k])
  }

  /** `timeOptions.find(t => t.value === v)`. */
  function SlotWithValue(v: string): Option<TimeSlot> {
    match FindFirst(TimeSlots(), (t: TimeSlot) => t.value == v)
    case None => None
    case Some(k) => Some(TimeSlots()[k])
  }

  /** `timeOption?.index || 3`: slot 0 is falsy, so it turns into slot 3 like a missing label. */
  function StartHourOf(text: string): (r: int)
    ensures 1 <= r <= 12
  {
    TimeSlotsShape();
    match FindFirst(TimeSlots(), (t: TimeSlot) => t.value == text)
    case None => 3
    case Some(k) => if TimeSlots()[k].index == 0 then 3 else TimeSlots()[k].index
  }

  /** Slots 0 to 12 are found by their index, and nothing else is. */
  lemma SlotWithIndexFinds(i: int)
    ensures 0 <= i <= 12 ==> SlotWithIndex(i) == Some(TimeSlots()[i])
    ensures !(0 <= i <= 12) ==> SlotWithIndex(i) == None
  {
    TimeSlotsShape();
  }

  /** A slot label is found at its own slot. */
  lemma SlotWithValueFinds(i: int)
    requires 0 <= i <= 12
    ensures SlotWithValue(TimeSlots()[i].value) == Some(TimeSlots()[i])
  {
    TimeSlotsShape();
    var v := TimeSlots()[i].value;
    var r := FindFirst(TimeSlots(), (t: TimeSlot) => t.value == v);
    assert r.Some?;
    var k := r.value;
    TimeSlotAt(k);
    TimeSlotAt(i);
    SlotValuesDistinct(k, i);
  }

  /** The start hour of slot `i`'s label is `i`, except for slot 0, which gives 3. */
  lemma StartHourOfSlot(i: int)
    requires 0 <= i <= 12
    ensures StartHourOf(TimeSlots()[i].value) == (if i == 0 then 3 else i)
  {
    TimeSlotsShape();
    SlotWithValueFinds(i);
  }

  /** A label that is not a slot label gives 3. */
  lemma StartHourOfUnknown(text: string)
    requires forall i :: 0 <= i < |TimeSlots()| ==> TimeSlots()[i].value != text
    ensures StartHourOf(text) == 3
  {
  }

  // ---------------------------------------------------------------------------
  // Form initialisation

  /**
   * The form for editing `a`: the slot label of its start hour (else its own
   * start label, else "9:00 am"), and the `||` fallbacks of the fields.
   */
  function EditForm(a: Appointment): FormData {
    var startTime := match SlotWithIndex(a.startHour)
      case Some(t) => t.value
      case None => if a.startTime.Some? && a.startTime.value != "" then a.startTime.value else "9:00 am";
    FormData(a.clientName, startTime, Entered(a.duration), a.status,
      if a.member == 0 then 1 else a.member,
      a.description.GetOr(""),
      if a.startHour == 0 then 3 else a.startHour)
  }

  /** The form for a create started from a grid cell. */
  function SlotForm(s: SlotRef): FormData {
    var startTime := match SlotWithIndex(s.timeIndex)
      case Some(t) => t.value
      case None => "9:00 am";
    FormData("", startTime, Entered(60), Pending, s.memberIndex + 1, "", s.timeIndex)
  }

  /** The form-initialisation effect: a closed dialog, or an edit without an appointment, keeps `current`. */
  function InitForm(isOpen: bool, mode: Mode, appointment: Option<Appointment>, slot: Option<SlotRef>, current: FormData): FormData {
    if !isOpen then current
    else if appointment.Some? && mode == EditMode then EditForm(appointment.value)
    else if mode == CreateMode && slot.Some? then SlotForm(slot.value)
    else if mode == CreateMode then DefaultForm
    else current
  }

  /**
   * Editing an appointment on the grid shows its slot's label and copies its
   * fields; a member 0 becomes member 1.
   */
  lemma EditFormOnGrid(a: Appointment)
    requires 0 <= a.startHour <= 12
    ensures EditForm(a).startTime == TimeSlots()[a.startHour].value
    ensures EditForm(a).clientName == a.clientName && EditForm(a).status == a.status
    ensures EditForm(a).duration == Entered(a.duration)
    ensures EditForm(a).member == (if a.member == 0 then 1 else a.member)
    ensures EditForm(a).description == (if a.description.Some? then a.description.value else "")
  {
    SlotWithIndexFinds(a.startHour);
  }

  /**
   * An appointment at slot 0 is edited with the label "6:00 am" shown but with
   * start hour 3 in the form, so the shown label and the form's slot disagree.
   */
  lemma EditFormSlotZero(a: Appointment)
    requires a.startHour == 0
    ensures EditForm(a).startTime == TimeSlots()[0].value
    ensures EditForm(a).startHour == 3
    ensures StartHourOf(EditForm(a).startTime) == 3
  {
    SlotWithIndexFinds(0);
    StartHourOfSlot(0);
  }

  /** Editing an appointment off the grid shows its own start label, or "9:00 am" when it has none. */
  lemma EditFormOffGrid(a: Appointment)
    requires !(0 <= a.startHour <= 12)
    ensures a.startTime.Some? && a.startTime.value != "" ==> EditForm(a).startTime == a.startTime.value
    ensures a.startTime.None? || a.startTime == Some("") ==> EditForm(a).startTime == "9:00 am"
    ensures EditForm(a).startHour == a.startHour
  {
    SlotWithIndexFinds(a.startHour);
  }

  /** A create from cell (t, m) starts at slot t on member m + 1 with one hour, pending. */
  lemma SlotFormFromCell(s: SlotRef)
    ensures SlotForm(s).member == s.memberIndex + 1 && SlotForm(s).startHour == s.timeIndex
    ensures SlotForm(s).duration == Entered(60) && SlotForm(s).status == Pending
    ensures SlotForm(s).clientName == "" && SlotForm(s).description == ""
    ensures 0 <= s.timeIndex <= 12 ==> SlotForm(s).startTime == TimeSlots()[s.timeIndex].value
    ensures !(0 <= s.timeIndex <= 12) ==> SlotForm(s).startTime == "9:00 am"
  {
    SlotWithIndexFinds(s.timeIndex);
  }

  /** Which of the four forms the effect installs. */
  lemma InitFormCases(isOpen: bool, mode: Mode, appointment: Option<Appointment>, slot: Option<SlotRef>, current: FormData)
    ensures !isOpen ==> InitForm(isOpen, mode, appointment, slot, current) == current
    ensures isOpen && mode == EditMode && appointment.Some? ==> InitForm(isOpen, mode, appointment, slot, current) == EditForm(appointment.value)
    ensures isOpen && mode == EditMode && appointment.None? ==> InitForm(isOpen, mode, appointment, slot, current) == current
    ensures isOpen && mode == CreateMode && slot.Some? ==> InitForm(isOpen, mode, appointment, slot, current) == SlotForm(slot.value)
    ensures isOpen && mode == CreateMode && slot.None? ==> InitForm(isOpen, mode, appointment, slot, current) == DefaultForm
  {
  }

  // ---------------------------------------------------------------------------
  // Live conflict state

  function ExcludeIdOf(appointment: Option<Appointment>): Option<string> {
    if appointment.Some? then Some(appointment.value.id) else None
  }

  /** The live check: only the member and the start hour are passed, never the duration. */
  function LiveConflicts(form: FormData, apts: seq<Appointment>, appointment: Option<Appointment>): ConflictResult {
    CheckAppointmentConflict(Candidate(Some(form.member), Some(form.startHour), None), apts, ExcludeIdOf(appointment))
  }

  /** Whatever duration is entered, the live check tests a one-hour window. */
  lemma LiveConflictsOneHour(form: FormData, apts: seq<Appointment>, appointment: Option<Appointment>)
    ensures LiveConflicts(form, apts, appointment)
         == CheckAppointmentConflict(Candidate(Some(form.member), Some(form.startHour), Some(60)), apts, ExcludeIdOf(appointment))
  {
    var c1 := Candidate(Some(form.member), Some(form.startHour), None);
    var c2 := Candidate(Some(form.member), Some(form.startHour), Some(60));
    var x := ExcludeIdOf(appointment);
    FilterCongruent(apts, (a: Appointment) => IsConflict(c1, a, x), (a: Appointment) => IsConflict(c2, a, x));
  }

  /**
   * An appointment of the same member that starts one slot later is not
   * reported, although it overlaps the entered, longer duration.
   */
  lemma LiveConflictsMissLongOverlap(form: FormData, b: Appointment, appointment: Option<Appointment>)
    requires form.duration.Entered? && form.duration.minutes > 60
    requires b.member == form.member && b.startHour == form.startHour + 1 && b.duration > 0
    requires !Excluded(b, ExcludeIdOf(appointment))
    ensures !LiveConflicts(form, [b], appointment).hasConflict
    ensures CheckAppointmentConflict(Candidate(Some(form.member), Some(form.startHour), Some(form.duration.minutes)), [b], ExcludeIdOf(appointment)).hasConflict
  {
    assert IsConflict(Candidate(Some(form.member), Some(form.startHour), Some(form.duration.minutes)), b, ExcludeIdOf(appointment));
  }

  /** The appointment being edited is never reported against itself. */
  lemma LiveConflictsSkipEdited(form: FormData, apts: seq<Appointment>, a: Appointment)
    requires a.id != ""
    ensures a !in LiveConflicts(form, apts, Some(a)).conflicting
  {
    NeverReported(Candidate(Some(form.member), Some(form.startHour), None), apts, Some(a.id), a);
  }

  /** Choosing a start label sets the label and the start hour it maps to. */
  function OnStartTimeChange(form: FormData, value: string): FormData {
    form.(startTime := value, startHour := StartHourOf(value))
  }

  // ---------------------------------------------------------------------------
  // Submit

  /** Why a submit was refused; `UnreadableStartTime` is where the end-time computation throws. */
  datatype SubmitError =
    | MissingClientName
    | InvalidDuration
    | DurationTooLong
    | SchedulingConflict
    | UnreadableStartTime
    | BeyondWorkingHours

  /** The `appointmentData` a successful submit hands to the store. */
  datatype AppointmentData = AppointmentData(
    clientName: string,
    time: string,
    startTime: string,
    endTime: string,
    startHour: int,
    duration: int,
    status: Status,
    member: int,
    description: string)

  /**
   * `handleSubmit`'s checks in their order: a name, a positive duration, at
   * most 8 hours, no live conflict, then (after the end time is computed) an
   * end by 6:00 pm.
   */
  function Validate(form: FormData, hasConflict: bool): Result<AppointmentData, SubmitError> {
    if Trim(form.clientName) == "" then Failure(MissingClientName)
    else if form.duration.Blank? || form.duration.minutes <= 0 then Failure(InvalidDuration)
    else if form.duration.minutes > 480 then Failure(DurationTooLong)
    else if hasConflict then Failure(SchedulingConflict)
    else Schedule(form, form.duration.minutes)
  }

  /**
   * The second half of `handleSubmit`, once the input checks have passed: the
   * end label, the start slot, and the check that the appointment ends by
   * 6:00 pm.
   */
  function Schedule(form: FormData, minutes: int): Result<AppointmentData, SubmitError> {
    match CalculateEndTime(form.startTime, minutes)
    case None => Failure(UnreadableStartTime)
    case Some(endTime) =>
      var startHour := StartHourOf(form.startTime);
      if startHour * 60 + minutes > 720 then Failure(BeyondWorkingHours)
      else Success(AppointmentData(Trim(form.clientName), form.startTime + " - " + endTime, form.startTime, endTime,
        startHour, minutes, form.status, form.member, form.description))
  }

  /** The patch an edit sends: every field of the data, and no id. */
  function ToPatch(d: AppointmentData): AppointmentPatch {
    AppointmentPatch(None, Some(d.clientName), Some(d.time), Some(d.startHour), Some(d.duration),
      Some(d.status), Some(d.member), Some(d.startTime), Some(d.endTime), Some(d.description))
  }

  /** The appointment a create sends: the data under the id `id`. */
  function ToAppointment(d: AppointmentData, id: string): Appointment {
    Appointment(id, d.clientName, d.time, d.startHour, d.duration, d.status, d.member,
      Some(d.startTime), Some(d.endTime), Some(d.description))
  }

  /**
   * A submit is accepted exactly when all five checks pass and the start label
   * can be read.
   */
  lemma ValidateAccepts(form: FormData, hasConflict: bool)
    ensures Validate(form, hasConflict).Success? <==>
      && Trim(form.clientName) != ""
      && form.duration.Entered? && 0 < form.duration.minutes <= 480
      && !hasConflict
      && CalculateEndTime(form.startTime, form.duration.minutes).Some?
      && StartHourOf(form.startTime) * 60 + form.duration.minutes <= 720
  {
    if Trim(form.clientName) != "" && form.duration.Entered? && 0 < form.duration.minutes <= 480 && !hasConflict {
      assert Validate(form, hasConflict) == Schedule(form, form.duration.minutes);
      ScheduleAccepts(form, form.duration.minutes);
    }
  }

  lemma ScheduleAccepts(form: FormData, minutes: int)
    ensures Schedule(form, minutes).Success? <==>
      CalculateEndTime(form.startTime, minutes).Some? && StartHourOf(form.startTime) * 60 + minutes <= 720
  {
  }

  /**
   * What an accepted submit stores: a named appointment of 1 minute to 8 hours
   * that starts on slot 1 to 12, ends by 6:00 pm and carries its own end time.
   */
  lemma AcceptedData(form: FormData, hasConflict: bool)
    requires Validate(form, hasConflict).Success?
    ensures var d := Validate(form, hasConflict).value;
      && d.clientName != [] && d.clientName == Trim(form.clientName)
      && 0 < d.duration <= 480 && 1 <= d.startHour <= 12 && d.startHour * 60 + d.duration <= 720
      && CalculateEndTime(d.startTime, d.duration) == Some(d.endTime)
      && d.time == d.startTime + " - " + d.endTime
      && d.startTime == form.startTime && d.duration == form.duration.minutes
      && d.startHour == StartHourOf(form.startTime)
      && d.status == form.status && d.member == form.member && d.description == form.description
  {
    assert Validate(form, hasConflict) == Schedule(form, form.duration.minutes);
  }

  /** The first failing check decides the error: a missing name hides every later problem, and so on. */
  lemma ValidateOrder(form: FormData, hasConflict: bool)
    ensures Trim(form.clientName) == "" ==> Validate(form, hasConflict) == Failure(MissingClientName)
    ensures Trim(form.clientName) != "" && (form.duration.Blank? || form.duration.minutes <= 0)
      ==> Validate(form, hasConflict) == Failure(InvalidDuration)
    ensures Trim(form.clientName) != "" && form.duration.Entered? && form.duration.minutes > 480
      ==> Validate(form, hasConflict) == Failure(DurationTooLong)
    ensures Trim(form.clientName) != "" && form.duration.Entered? && 0 < form.duration.minutes <= 480 && hasConflict
      ==> Validate(form, hasConflict) == Failure(SchedulingConflict)
    ensures Trim(form.clientName) != "" && form.duration.Entered? && 0 < form.duration.minutes <= 480 && !hasConflict
      && CalculateEndTime(form.startTime, form.duration.minutes).None?
      ==> Validate(form, hasConflict) == Failure(UnreadableStartTime)
    ensures Trim(form.clientName) != "" && form.duration.Entered? && 0 < form.duration.minutes <= 480 && !hasConflict
      && CalculateEndTime(form.startTime, form.duration.minutes).Some?
      && StartHourOf(form.startTime) * 60 + form.duration.minutes > 720
      ==> Validate(form, hasConflict) == Failure(BeyondWorkingHours)
  {
    if Trim(form.clientName) != "" && form.duration.Entered? && 0 < form.duration.minutes <= 480 && !hasConflict {
      assert Validate(form, hasConflict) == Schedule(form, form.duration.minutes);
      ScheduleFailures(form, form.duration.minutes);
    }
  }

  lemma ScheduleFailures(form: FormData, minutes: int)
    ensures CalculateEndTime(form.startTime, minutes).None? ==> Schedule(form, minutes) == Failure(UnreadableStartTime)
    ensures CalculateEndTime(form.startTime, minutes).Some? && StartHourOf(form.startTime) * 60 + minutes > 720
      ==> Schedule(form, minutes) == Failure(BeyondWorkingHours)
  {
  }

  /**
   * Starting on slot `i` for a whole number `k` of hours, an accepted submit
   * stores slot `i + k`'s label as its end time; slot 0 is stored as slot 3.
   */
  lemma AcceptedSlotEndsOnSlot(form: FormData, hasConflict: bool, i: int, k: int)
    requires 0 <= i <= 12 && form.startTime == TimeSlots()[i].value
    requires form.duration == Entered(60 * k)
    requires Validate(form, hasConflict).Success?
    ensures i + k <= 12
    ensures Validate(form, hasConflict).value.endTime == TimeSlots()[i + k].value
    ensures Validate(form, hasConflict).value.startHour == (if i == 0 then 3 else i)
  {
    AcceptedData(form, hasConflict);
    StartHourOfSlot(i);
    SlotRoundTrip(i, k);
  }

  /** "Acme" at "5:00 pm" for two hours is refused: slot 11 plus two hours ends after 6:00 pm. */
  lemma LateAppointmentRefused()
    ensures Validate(FormData("Acme", "5:00 pm", Entered(120), Pending, 1, "", 11), false) == Failure(BeyondWorkingHours)
  {
    var form := FormData("Acme", "5:00 pm", Entered(120), Pending, 1, "", 11);
    FivePmIsSlotEleven();
    FivePmPlusTwoHoursReadable();
    AcmeIsAName();
    ValidateOrder(form, false);
  }

  lemma AcmeIsAName()
    ensures Trim("Acme") != ""
  {
    NonBlankStart("Acme");
  }

  lemma FivePmIsSlotEleven()
    ensures StartHourOf("5:00 pm") == 11
  {
    TimeSlotsShape();
    assert SlotLabels[11] == "5:00 pm";
    StartHourOfSlot(11);
  }

  lemma FivePmPlusTwoHoursReadable()
    ensures CalculateEndTime("5:00 pm", 120).Some?
  {
    SlotValueListed(11);
    assert SlotLabels[11] == "5:00 pm";
    EndTimeBetweenLabels("5:00 pm", ClockLabel(1140), 1020, 120);
  }

  /** An edited entry becomes exactly the submitted data and keeps its id. */
  lemma EditedEntryTakesData(a: Appointment, d: AppointmentData)
    ensures Merge(a, ToPatch(d)) == ToAppointment(d, a.id)
  {
  }

  // ---------------------------------------------------------------------------
  // The dialog's state

  /**
   * The dialog's props and state. `conflicts` is the live conflict state; it is
   * recomputed when the member, the start hour, the edited appointment or the
   * store's appointments change, and not when the duration changes.
   */
  class AppointmentEditor {
    var isOpen: bool
    var mode: Mode
    var appointment: Option<Appointment>
    var defaultTimeSlot: Option<SlotRef>
    var form: FormData
    var conflicts: ConflictResult
    var showDeleteConfirm: bool

    /** The live conflict state is the check of the current form against `apts`. */
    predicate LiveStateFor(apts: seq<Appointment>)
      reads this
    {
      conflicts == LiveConflicts(form, apts, appointment)
    }

    /** A closed dialog in create mode with the default form and the live state for it. */
    constructor(apts: seq<Appointment>)
      ensures !isOpen && mode == CreateMode && appointment == None && defaultTimeSlot == None
      ensures form == DefaultForm && !showDeleteConfirm
      ensures conflicts == LiveConflicts(form, apts, appointment)
    {
      isOpen := false;
      mode := CreateMode;
      appointment := None;
      defaultTimeSlot := None;
      form := DefaultForm;
      showDeleteConfirm := false;
      conflicts := LiveConflicts(DefaultForm, apts, None);
    }

    /** New props: the form-initialisation effect runs, then the live check. */
    method Open(open: bool, m: Mode, a: Option<Appointment>, slot: Option<SlotRef>, apts: seq<Appointment>)
      modifies this
      ensures isOpen == open && mode == m && appointment == a && defaultTimeSlot == slot
      ensures form == InitForm(open, m, a, slot, old(form))
      ensures conflicts == LiveConflicts(form, apts, appointment)
      ensures showDeleteConfirm == old(showDeleteConfirm)
    {
      isOpen, mode, appointment, defaultTimeSlot := open, m, a, slot;
      form := InitForm(open, m, a, slot, form);
      conflicts := LiveConflicts(form, apts, appointment);
    }

    /** The start-time selector: label and start hour change, and the live check runs. */
    method SetStartTime(value: string, apts: seq<Appointment>)
      modifies this
      ensures form == OnStartTimeChange(old(form), value)
      ensures conflicts == LiveConflicts(form, apts, appointment)
      ensures isOpen == old(isOpen) && mode == old(mode) && appointment == old(appointment)
      ensures defaultTimeSlot == old(defaultTimeSlot) && showDeleteConfirm == old(showDeleteConfirm)
    {
      form := OnStartTimeChange(form, value);
      conflicts := LiveConflicts(form, apts, appointment);
    }

    /** The member selector: the member changes, and the live check runs. */
    method SetMember(member: int, apts: seq<Appointment>)
      modifies this
      ensures form == old(form).(member := member)
      ensures conflicts == LiveConflicts(form, apts, appointment)
      ensures isOpen == old(isOpen) && mode == old(mode) && appointment == old(appointment)
      ensures defaultTimeSlot == old(defaultTimeSlot) && showDeleteConfirm == old(showDeleteConfirm)
    {
      form := form.(member := member);
      conflicts := LiveConflicts(form, apts, appointment);
    }

    /**
     * The duration field: the live check does not run, and the live state
     * stays exact because the check never reads the duration.
     */
    method SetDuration(duration: DurationInput, ghost apts: seq<Appointment>)
      modifies this
      ensures form == old(form).(duration := duration)
      ensures conflicts == old(conflicts)
      ensures old(conflicts) == LiveConflicts(old(form), apts, appointment) ==> conflicts == LiveConflicts(form, apts, appointment)
      ensures isOpen == old(isOpen) && mode == old(mode) && appointment == old(appointment)
      ensures defaultTimeSlot == old(defaultTimeSlot) && showDeleteConfirm == old(showDeleteConfirm)
    {
      form := form.(duration := duration);
    }

    /** The name, status and description fields: only the form changes. */
    method SetDetails(clientName: string, status: Status, description: string, ghost apts: seq<Appointment>)
      modifies this
      ensures form == old(form).(clientName := clientName, status := status, description := description)
      ensures conflicts == old(conflicts)
      ensures old(LiveStateFor(apts)) ==> LiveStateFor(apts)
      ensures isOpen == old(isOpen) && mode == old(mode) && appointment == old(appointment)
      ensures defaultTimeSlot == old(defaultTimeSlot) && showDeleteConfirm == old(showDeleteConfirm)
    {
      form := form.(clientName := clientName, status := status, description := description);
    }

    /** The store's appointments changed (an add, an update, a delete or a drop): the live check runs again. */
    method AppointmentsChanged(apts: seq<Appointment>)
      modifies this
      ensures LiveStateFor(apts)
      ensures form == old(form) && isOpen == old(isOpen) && mode == old(mode) && appointment == old(appointment)
      ensures defaultTimeSlot == old(defaultTimeSlot) && showDeleteConfirm == old(showDeleteConfirm)
    {
      conflicts := LiveConflicts(form, apts, appointment);
    }

    /**
     * `handleSubmit`, with the live state current for the store: no store call
     * unless every check passes, so a form that conflicts with the store's
     * appointments is refused; then one add (create) or one update of the
     * edited id (edit), after which the live check runs against the new
     * collection. `closes` says whether the dialog asks to be closed.
     */
    method HandleSubmit(store: AppStore, freshId: string) returns (closes: bool)
      requires LiveStateFor(store.appointments)
      modifies this, store
      ensures closes <==> Validate(form, LiveConflicts(form, old(store.appointments), appointment).hasConflict).Success?
      ensures closes ==> !LiveConflicts(form, old(store.appointments), appointment).hasConflict
      ensures !closes ==> store.appointments == old(store.appointments)
      ensures closes && mode == CreateMode ==>
        store.appointments == AppendWithId(old(store.appointments),
          ToAppointment(Validate(form, false).value, freshId), freshId)
      ensures closes && mode == EditMode && appointment.Some? ==>
        store.appointments == UpdateById(old(store.appointments), appointment.value.id, ToPatch(Validate(form, false).value))
      ensures closes && mode == EditMode && appointment.None? ==> store.appointments == old(store.appointments)
      ensures store.jobs == old(store.jobs) && store.teamMembers == old(store.teamMembers)
      ensures LiveStateFor(store.appointments)
      ensures form == old(form) && isOpen == old(isOpen) && mode == old(mode) && appointment == old(appointment)
      ensures defaultTimeSlot == old(defaultTimeSlot) && showDeleteConfirm == old(showDeleteConfirm)
    {
      var hasConflict := conflicts.hasConflict;
      assert hasConflict == LiveConflicts(form, store.appointments, appointment).hasConflict;
      var outcome := Validate(form, hasConflict);
      if outcome.Failure? {
        return false;
      }
      assert !hasConflict by {
        ValidateAccepts(form, hasConflict);
      }
      var data := outcome.value;
      if mode == CreateMode {
        store.AddAppointment(ToAppointment(data, freshId), freshId);
      } else if appointment.Some? {
        store.UpdateAppointment(appointment.value.id, ToPatch(data));
      }
      AppointmentsChanged(store.appointments);
      closes := true;
    }

    /** The delete button only asks for confirmation. */
    method HandleDelete()
      modifies this
      ensures showDeleteConfirm
      ensures form == old(form) && conflicts == old(conflicts)
      ensures isOpen == old(isOpen) && mode == old(mode) && appointment == old(appointment) && defaultTimeSlot == old(defaultTimeSlot)
    {
      showDeleteConfirm := true;
    }

    /** Cancelling the confirmation hides it again. */
    method CancelDelete()
      modifies this
      ensures !showDeleteConfirm
      ensures form == old(form) && conflicts == old(conflicts)
      ensures isOpen == old(isOpen) && mode == old(mode) && appointment == old(appointment) && defaultTimeSlot == old(defaultTimeSlot)
    {
      showDeleteConfirm := false;
    }

    /**
     * Confirming deletes the edited appointment's id, and the live check runs
     * against the new collection; without an edited appointment nothing happens.
     */
    method ConfirmDelete(store: AppStore) returns (closes: bool)
      modifies this, store
      ensures closes <==> old(appointment).Some?
      ensures closes ==> store.appointments == DeleteById(old(store.appointments), old(appointment).value.id) && !showDeleteConfirm
      ensures closes ==> LiveStateFor(store.appointments)
      ensures !closes ==> store.appointments == old(store.appointments) && showDeleteConfirm == old(showDeleteConfirm)
      ensures !closes ==> conflicts == old(conflicts)
      ensures store.jobs == old(store.jobs) && store.teamMembers == old(store.teamMembers)
      ensures form == old(form)
      ensures isOpen == old(isOpen) && mode == old(mode) && appointment == old(appointment) && defaultTimeSlot == old(defaultTimeSlot)
    {
      closes := false;
      if appointment.Some? {
        store.DeleteAppointment(appointment.value.id);
        AppointmentsChanged(store.appointments);
        showDeleteConfirm := false;
        closes := true;
      }
    }
  }
}
