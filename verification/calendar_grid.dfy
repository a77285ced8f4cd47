/**
 * The day grid: which appointments it shows, where each block is drawn, the
 * dialog selection state, and what a drag-and-drop does to the store.
 */
module CalendarGrid {
  import opened Wrappers
  import opened Sequences
  import opened Text
  import opened AppContext
  import opened AppointmentUtils
  import opened AppointmentModal

  // ---------------------------------------------------------------------------
  // The drop handler's own label formatter

  /**
   * `slotToTimeString` for a position `offset` minutes after 6:00 am: the hour
   * is floored, the remainders are JavaScript's, `hour % 12 || 12` picks the
   * 12-hour number, and nothing wraps at midnight.
   */
  function SlotToTimeString(offset: int): string {
    var totalMinutes := 360 + offset;
    var hour := totalMinutes / 60;
    var minutes := JsRem(totalMinutes, 60);
    var ampm := if hour >= 12 then "pm" else "am";
    var h := JsRem(hour, 12);
    IntToString(if h == 0 then 12 else h) + ":" + PadStart2(IntToString(minutes)) + " " + ampm
  }

  /** Within the day the formatter gives the clock label of the same minute. */
  lemma SlotToTimeStringWithinDay(offset: int)
    requires 0 <= 360 + offset < 1440
    ensures SlotToTimeString(offset) == ClockLabel(360 + offset)
  {
    var t := 360 + offset;
    assert t % 1440 == t;
    var hour := t / 60;
    assert JsRem(hour, 12) == hour % 12;
    assert (if hour % 12 == 0 then 12 else hour % 12) == To12Hour(hour);
  }

  /** At whole slots the formatter agrees with the slot list. */
  lemma SlotToTimeStringOnSlots(i: int)
    requires 0 <= i <= 12
    ensures SlotToTimeString(60 * i) == TimeSlots()[i].value
  {
    TimeSlotAt(i);
    FormatterRenders(60 * i, 6 + i, 0);
  }

  /** At minute `mi` of hour `h` of the day the formatter renders that hour and minute. */
  lemma FormatterRenders(offset: int, h: int, mi: int)
    requires 0 <= h < 24 && 0 <= mi < 60 && 360 + offset == 60 * h + mi
    ensures SlotToTimeString(offset) == RenderTime(h, mi)
  {
    assert (360 + offset) / 60 == h && JsRem(360 + offset, 60) == mi;
    assert (if JsRem(h, 12) == 0 then 12 else JsRem(h, 12)) == To12Hour(h);
  }

  /**
   * Before midnight the drop's end label is the one `CalculateEndTime` gives
   * for the slot label and the duration.
   */
  lemma DropEndAgreesWithinDay(s: int, d: int)
    requires 0 <= s <= 12 && 0 <= 360 + 60 * s + d < 1440
    ensures CalculateEndTime(TimeSlots()[s].value, d) == Some(SlotToTimeString(60 * s + d))
  {
    SlotEndLabel(s, d, 360 + (60 * s + d));
    SlotToTimeStringWithinDay(60 * s + d);
  }

  /**
   * Past midnight they disagree: the formatter keeps counting hours and says
   * "pm" where `CalculateEndTime` has wrapped to "am".
   */
  lemma DropEndDisagreesPastMidnight(s: int, d: int)
    requires 0 <= s <= 12 && 1440 <= 360 + 60 * s + d < 2160
    ensures CalculateEndTime(TimeSlots()[s].value, d).Some?
    ensures CalculateEndTime(TimeSlots()[s].value, d).value != SlotToTimeString(60 * s + d)
  {
    var m := 360 + (60 * s + d);
    SlotEndLabel(s, d, m);
    GridLabelAfterNoon(60 * s + d);
    ClockLabelBeforeNoon(m);
  }

  lemma GridLabelAfterNoon(offset: int)
    requires 720 <= 360 + offset
    ensures |SlotToTimeString(offset)| >= 2 && SlotToTimeString(offset)[|SlotToTimeString(offset)| - 2] == 'p'
  {
    var t := 360 + offset;
    var h := JsRem(t / 60, 12);
    var head := IntToString(if h == 0 then 12 else h) + ":" + PadStart2(IntToString(JsRem(t, 60))) + " ";
    assert SlotToTimeString(offset) == head + "pm";
  }

  lemma ClockLabelBeforeNoon(m: int)
    requires 1440 <= m < 2160
    ensures |ClockLabel(m)| >= 2 && ClockLabel(m)[|ClockLabel(m)| - 2] == 'a'
  {
    var t := m % 1440;
    assert t == m - 1440;
    var head := IntToString(To12Hour(t / 60)) + ":" + PadStart2(IntToString(t % 60)) + " ";
    assert ClockLabel(m) == head + "am";
  }

  // ---------------------------------------------------------------------------
  // Drag and drop

  /**
   * A drag-end event: the dragged appointment (the payload captured when the
   * drag started), and the drop target, which may be missing or carry no data.
   */
  datatype DragEnd = DragEnd(payload: Option<Appointment>, over: Option<Option<SlotRef>>)

  /** The update a drop sends: new slot, new row, same duration, relabelled start and end. */
  function DropPatch(a: Appointment, target: SlotRef): AppointmentPatch {
    var startHour := target.timeIndex;
    AppointmentPatch(None, None, None, Some(startHour), Some(a.duration), None, Some(target.memberIndex + 1),
      Some(SlotToTimeString(startHour * 60)), Some(SlotToTimeString(startHour * 60 + a.duration)), None)
  }

  /** The collection after `handleDragEnd`: an update by the payload's id, or nothing. */
  function DropOutcome(apts: seq<Appointment>, e: DragEnd): seq<Appointment> {
    if e.over.Some? && e.payload.Some? && e.over.value.Some? then
      UpdateById(apts, e.payload.value.id, DropPatch(e.payload.value, e.over.value.value))
    else apts
  }

  /**
   * A drop moves every entry with the payload's id to the target slot and row,
   * keeps the payload's duration, relabels start and end, and leaves id, name,
   * status, description and the display `time` label as they were; every
   * other entry is untouched.
   */
  lemma DropMovesEntry(apts: seq<Appointment>, a: Appointment, target: SlotRef)
    ensures |DropOutcome(apts, DragEnd(Some(a), Some(Some(target))))| == |apts|
    ensures forall j :: 0 <= j < |apts| && apts[j].id != a.id ==> DropOutcome(apts, DragEnd(Some(a), Some(Some(target))))[j] == apts[j]
    ensures forall j :: 0 <= j < |apts| && apts[j].id == a.id ==>
      Moved(apts[j], DropOutcome(apts, DragEnd(Some(a), Some(Some(target))))[j], a, target)
  {
    var p := DropPatch(a, target);
    UpdateShape(apts, a.id, p);
    forall j | 0 <= j < |apts| && apts[j].id == a.id
      ensures Moved(apts[j], UpdateById(apts, a.id, p)[j], a, target)
    {
      DropMerge(apts[j], a, target);
    }
  }

  /** `after` is `before` placed at `target` with the payload `a`'s duration, and otherwise unchanged. */
  predicate Moved(before: Appointment, after: Appointment, a: Appointment, target: SlotRef) {
    && after.startHour == target.timeIndex
    && after.member == target.memberIndex + 1
    && after.duration == a.duration
    && after.startTime == Some(SlotToTimeString(60 * target.timeIndex))
    && after.endTime == Some(SlotToTimeString(60 * target.timeIndex + a.duration))
    && after.id == before.id && after.clientName == before.clientName && after.status == before.status
    && after.description == before.description && after.time == before.time
  }

  lemma DropMerge(before: Appointment, a: Appointment, target: SlotRef)
    ensures Moved(before, Merge(before, DropPatch(a, target)), a, target)
  {
    MergeFieldwise(before, DropPatch(a, target));
    assert target.timeIndex * 60 == 60 * target.timeIndex;
  }

  /** A drop with no target, no target data or no payload changes nothing. */
  lemma DropWithoutTargetIsNoop(apts: seq<Appointment>, e: DragEnd)
    requires e.over.None? || e.over == Some(None) || e.payload.None?
    ensures DropOutcome(apts, e) == apts
  {
  }

  /**
   * A drop does not check conflicts: dropping entry `i` on the start cell of
   * another entry `j` makes the two conflict.
   */
  lemma DropSkipsConflictCheck(apts: seq<Appointment>, i: int, j: int)
    requires 0 <= i < |apts| && 0 <= j < |apts|
    requires apts[i].id != apts[j].id && apts[i].duration > 0 && apts[j].duration > 0
    ensures var r := DropOutcome(apts, DragEnd(Some(apts[i]), Some(Some(SlotRef(apts[j].startHour, apts[j].member - 1)))));
      && r[j] == apts[j]
      && r[i].member == apts[j].member && r[i].startHour == apts[j].startHour
      && CheckAppointmentConflict(AsCandidate(r[i]), r, Some(r[i].id)).hasConflict
  {
    var target := SlotRef(apts[j].startHour, apts[j].member - 1);
    var r := DropOutcome(apts, DragEnd(Some(apts[i]), Some(Some(target))));
    DropMovesEntry(apts, apts[i], target);
    assert IsConflict(AsCandidate(r[i]), r[j], Some(r[i].id));
  }

  lemma ElevenOClockLabels()
    ensures SlotToTimeString(300) == "11:00 am"
    ensures SlotToTimeString(330) == "11:30 am"
  {
    FormatterRenders(300, 11, 0);
    FormatterRenders(330, 11, 30);
    SlotValueListed(5);
    SlotLabelsSpelled();
    ElevenThirty();
  }

  lemma ElevenThirty()
    ensures RenderTime(11, 30) == "11:30 am"
  {
    var hh, mm := IntToString(11), PadStart2(IntToString(30));
    assert hh == "11" by {
      assert IntToString(11) == NatToString(1) + [DigitChar(1)];
    }
    assert mm == "30" by {
      assert IntToString(30) == NatToString(3) + [DigitChar(0)];
    }
  }

  /** Seed appointment "3" dropped on slot 5 of the second row is relabelled "11:00 am" to "11:30 am". */
  lemma SeedDropExample()
    ensures DropPatch(SeedAppointments[2], SlotRef(5, 1)).startTime == Some("11:00 am")
    ensures DropPatch(SeedAppointments[2], SlotRef(5, 1)).endTime == Some("11:30 am")
    ensures DropPatch(SeedAppointments[2], SlotRef(5, 1)).member == Some(2)
  {
    ElevenOClockLabels();
  }

  // ---------------------------------------------------------------------------
  // Filtering

  /** The status filter is "All" or a status name; the team filter is "All" or a member id in decimal. */
  predicate ShowsAppointment(a: Appointment, statusFilter: string, teamFilter: string) {
    && (statusFilter == "All" || StatusName(a.status) == statusFilter)
    && (teamFilter == "All" || IntToString(a.member) == teamFilter)
  }

  function FilteredAppointments(apts: seq<Appointment>, statusFilter: string, teamFilter: string): seq<Appointment> {
    Filter(apts, (a: Appointment) => ShowsAppointment(a, statusFilter, teamFilter))
  }

  /** The grid shows exactly the entries that pass both filters, in collection order. */
  lemma FilteredExactly(apts: seq<Appointment>, more: seq<Appointment>, statusFilter: string, teamFilter: string)
    ensures forall i :: 0 <= i < |apts| && ShowsAppointment(apts[i], statusFilter, teamFilter) ==>
      apts[i] in FilteredAppointments(apts, statusFilter, teamFilter)
    ensures forall a :: a in FilteredAppointments(apts, statusFilter, teamFilter) ==> a in apts && ShowsAppointment(a, statusFilter, teamFilter)
    ensures FilteredAppointments(apts + more, statusFilter, teamFilter)
         == FilteredAppointments(apts, statusFilter, teamFilter) + FilteredAppointments(more, statusFilter, teamFilter)
  {
    FilterConcat(apts, more, (a: Appointment) => ShowsAppointment(a, statusFilter, teamFilter));
  }

  /** With both filters at "All" everything is shown. */
  lemma FilterAllShowsEverything(apts: seq<Appointment>)
    ensures FilteredAppointments(apts, "All", "All") == apts
  {
    FilterAllPass(apts, (a: Appointment) => ShowsAppointment(a, "All", "All"));
  }

  /** The team filter for member `k` keeps exactly member `k`'s entries. */
  lemma TeamFilterSelectsMember(a: Appointment, k: int)
    ensures ShowsAppointment(a, "All", IntToString(k)) <==> a.member == k
  {
    ParseIntOfIntToString(k);
    assert ParseInt("All") == None;
    if IntToString(a.member) == IntToString(k) {
      IntToStringInjective(a.member, k);
    }
  }

  /** The status filter for a status name keeps exactly that status. */
  lemma StatusFilterSelectsStatus(a: Appointment, s: Status)
    ensures ShowsAppointment(a, StatusName(s), "All") <==> a.status == s
  {
  }

  // ---------------------------------------------------------------------------
  // Block geometry

  /** The background and left-border colours of a block, as the grid's own table lists them. */
  datatype StatusStyle = StatusStyle(background: string, borderLeftColor: string)

  function GridStatusStyle(s: Status): StatusStyle {
    match s
    case Completed => StatusStyle("#EEF6FF", "#CBDDEE")
    case Active => StatusStyle("#FBF5FF", "#E8E3F5")
    case Pending => StatusStyle("#FEF7EC", "#EFD8C0")
  }

  /** Position and colours of a block, in pixels, for slots `slotWidth` wide. */
  datatype BlockStyle = BlockStyle(left: real, width: real, top: int, colours: StatusStyle)

  /** `getAppointmentStyle`: the width is the duration in hours times the slot width, less 6. */
  function AppointmentStyle(a: Appointment, slotWidth: real): BlockStyle {
    var eventWidth := (a.duration as real / 60.0) * slotWidth;
    BlockStyle(180.0 + a.startHour as real * slotWidth + 2.0, eventWidth - 6.0, 67 + (a.member - 1) * 32 + 2, GridStatusStyle(a.status))
  }

  /** The grid's colour table is the status colour functions'. */
  lemma GridColoursMatchStatusColours(s: Status)
    ensures GridStatusStyle(s) == StatusStyle(StatusColor(s), StatusBorderColor(s))
  {
  }

  /** Blocks share a row exactly when they belong to the same member; rows are 32 pixels apart. */
  lemma BlockRows(a: Appointment, b: Appointment, w: real)
    ensures AppointmentStyle(a, w).top == AppointmentStyle(b, w).top <==> a.member == b.member
    ensures AppointmentStyle(a, w).top - AppointmentStyle(b, w).top == 32 * (a.member - b.member)
  {
  }

  lemma ScaleMonotone(x: real, y: real, w: real)
    requires x <= y && w > 0.0
    ensures x * w <= y * w
  {
  }

  /** Two blocks on the same row that do not conflict are drawn apart. */
  lemma NonConflictingBlocksApart(a: Appointment, b: Appointment, w: real)
    requires w > 0.0 && a.member == b.member && a.id != b.id
    requires a.duration > 0 && b.duration > 0
    requires !IsConflict(AsCandidate(a), b, Some(a.id))
    ensures var sa, sb := AppointmentStyle(a, w), AppointmentStyle(b, w);
      sa.left + sa.width < sb.left || sb.left + sb.width < sa.left
  {
    var sa, sb := AppointmentStyle(a, w), AppointmentStyle(b, w);
    var ea := (a.startHour * 60 + a.duration) as real / 60.0;
    var eb := (b.startHour * 60 + b.duration) as real / 60.0;
    assert sa.left + sa.width == 176.0 + ea * w;
    assert sb.left + sb.width == 176.0 + eb * w;
    if a.startHour * 60 + a.duration <= b.startHour * 60 {
      assert ea <= b.startHour as real;
      ScaleMonotone(ea, b.startHour as real, w);
    } else {
      assert b.startHour * 60 + b.duration <= a.startHour * 60;
      assert eb <= a.startHour as real;
      ScaleMonotone(eb, a.startHour as real, w);
    }
  }

  // ---------------------------------------------------------------------------
  // The grid's state

  /** Which appointment or empty cell the dialog was opened for, and in which mode. */
  class CalendarView {
    var selectedAppointment: Option<Appointment>
    var modalMode: Mode
    var newAppointmentSlot: Option<SlotRef>

    constructor()
      ensures selectedAppointment == None && modalMode == CreateMode && newAppointmentSlot == None
      ensures !IsModalOpen()
    {
      selectedAppointment := None;
      modalMode := CreateMode;
      newAppointmentSlot := None;
    }

    /** `!!(selectedAppointment || newAppointmentSlot)`. */
    predicate IsModalOpen()
      reads this
    {
      selectedAppointment.Some? || newAppointmentSlot.Some?
    }

    /** Double-clicking a cell opens a create for it. */
    method HandleCreateAppointment(timeIndex: int, memberIndex: int)
      modifies this
      ensures newAppointmentSlot == Some(SlotRef(timeIndex, memberIndex))
      ensures modalMode == CreateMode && selectedAppointment == None
      ensures IsModalOpen()
    {
      newAppointmentSlot := Some(SlotRef(timeIndex, memberIndex));
      modalMode := CreateMode;
      selectedAppointment := None;
    }

    /** Double-clicking a block opens an edit of it. */
    method HandleEditAppointment(a: Appointment)
      modifies this
      ensures selectedAppointment == Some(a)
      ensures modalMode == EditMode && newAppointmentSlot == None
      ensures IsModalOpen()
    {
      selectedAppointment := Some(a);
      modalMode := EditMode;
      newAppointmentSlot := None;
    }

    /** Closing clears both selections and leaves the mode as it was. */
    method CloseModal()
      modifies this
      ensures selectedAppointment == None && newAppointmentSlot == None
      ensures modalMode == old(modalMode)
      ensures !IsModalOpen()
    {
      selectedAppointment := None;
      newAppointmentSlot := None;
    }

    /** `handleDragEnd`: the store's collection becomes the drop outcome, without any conflict check. */
    method HandleDragEnd(store: AppStore, e: DragEnd)
      modifies store
      ensures store.appointments == DropOutcome(old(store.appointments), e)
      ensures store.jobs == old(store.jobs) && store.teamMembers == old(store.teamMembers)
    {
      if e.over.Some? && e.payload.Some? && e.over.value.Some? {
        var a := e.payload.value;
        var target := e.over.value.value;
        store.UpdateAppointment(a.id, DropPatch(a, target));
      }
    }
  }
}
