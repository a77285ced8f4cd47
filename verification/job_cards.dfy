/**
 * The job panel: the appointment a job's dialog creates, the assigned /
 * unassigned tabs, and "Assign all", which opens the dialog for the last
 * unassigned job.
 */
module JobCards {
  import opened Wrappers
  import opened Sequences
  import opened AppContext
  import opened AppointmentUtils
  import opened AppointmentModal

  // ---------------------------------------------------------------------------
  // Start labels

  /** The job dialog's nine start labels and the slots they map to. */
  const JobTimeMap: map<string, int> := map[
    "6:00 am" := 0, "7:00 am" := 1, "8:00 am" := 2, "9:00 am" := 3, "10:00 am" := 4,
    "11:00 am" := 5, "12:00 pm" := 6, "1:00 pm" := 7, "2:00 pm" := 8
  ]

  /** `timeMap[selectedTime] || 3`: a missing label and slot 0 both become slot 3. */
  function JobStartHour(selectedTime: string): int {
    if selectedTime in JobTimeMap && JobTimeMap[selectedTime] != 0 then JobTimeMap[selectedTime] else 3
  }

  /** Every label of the map is the label of the slot it maps to, among slots 0 to 8. */
  lemma JobTimeMapAgreesWithSlots(text: string)
    requires text in JobTimeMap
    ensures 0 <= JobTimeMap[text] <= 8 && TimeSlots()[JobTimeMap[text]].value == text
  {
    JobTimeMapListsSlotLabels(text);
    ListedSlot(text, JobTimeMap[text]);
  }

  lemma JobTimeMapListsSlotLabels(text: string)
    requires text in JobTimeMap
    ensures 0 <= JobTimeMap[text] <= 8 && SlotLabels[JobTimeMap[text]] == text
  {
  }

  lemma ListedSlot(text: string, k: int)
    requires 0 <= k <= 12 && SlotLabels[k] == text
    ensures TimeSlots()[k].value == text
  {
    TimeSlotsShape();
  }

  /** The job dialog and the appointment editor give every offered label the same start hour. */
  lemma JobStartHourMatchesEditor(text: string)
    requires text in JobTimeMap
    ensures JobStartHour(text) == StartHourOf(text)
    ensures JobStartHour(text) == (if text == "6:00 am" then 3 else JobTimeMap[text])
  {
    JobTimeMapAgreesWithSlots(text);
    StartHourAt(text, JobTimeMap[text]);
    OnlySixIsSlotZero(text);
  }

  lemma OnlySixIsSlotZero(text: string)
    requires text in JobTimeMap
    ensures JobTimeMap[text] == 0 <==> text == "6:00 am"
  {
  }

  lemma StartHourAt(text: string, k: int)
    requires 0 <= k <= 12 && TimeSlots()[k].value == text
    ensures StartHourOf(text) == (if k == 0 then 3 else k)
  {
    StartHourOfSlot(k);
  }

  /** A label the map does not list starts at slot 3. */
  lemma JobStartHourUnknown(text: string)
    requires text !in JobTimeMap
    ensures JobStartHour(text) == 3
  {
  }

  // ---------------------------------------------------------------------------
  // The appointment a job creates

  /**
   * The appointment the job dialog submits for `job`: pending, on the chosen
   * member, described by the job number, labelled with its end time. `None`
   * where the end-time computation throws.
   */
  function JobAppointment(job: Job, selectedMember: int, selectedTime: string, duration: int, id: string): Option<Appointment> {
    match CalculateEndTime(selectedTime, duration)
    case None => None
    case Some(endTime) =>
      Some(Appointment(id, job.name, selectedTime + " - " + endTime, JobStartHour(selectedTime), duration,
        Pending, selectedMember, Some(selectedTime), Some(endTime), Some("Job: " + job.jobId)))
  }

  /**
   * Every offered label gives an appointment, whatever the duration or member:
   * nothing checks conflicts, working hours or the duration, and its end time
   * is the slot `k` hours later for a whole number `k` of hours within the day.
   */
  lemma JobAppointmentUnchecked(job: Job, member: int, text: string, duration: int, id: string)
    requires text in JobTimeMap
    ensures JobAppointment(job, member, text, duration, id).Some?
    ensures var a := JobAppointment(job, member, text, duration, id).value;
      && a.clientName == job.name && a.status == Pending && a.member == member
      && a.description == Some("Job: " + job.jobId)
      && a.duration == duration && a.startHour == JobStartHour(text)
      && a.startTime == Some(text) && a.endTime.Some?
      && CalculateEndTime(text, duration) == a.endTime
      && a.time == text + " - " + a.endTime.value
  {
    JobTimeMapAgreesWithSlots(text);
    SlotLabelReadable(JobTimeMap[text], duration);
  }

  /** Whole hours from an offered label end on the slot that many hours later. */
  lemma JobAppointmentEndsOnSlot(job: Job, member: int, text: string, k: int, id: string)
    requires text in JobTimeMap && 0 <= k && JobTimeMap[text] + k <= 12
    ensures JobAppointment(job, member, text, 60 * k, id).Some?
    ensures JobAppointment(job, member, text, 60 * k, id).value.endTime == Some(TimeSlots()[JobTimeMap[text] + k].value)
  {
    JobTimeMapAgreesWithSlots(text);
    SlotRoundTrip(JobTimeMap[text], k);
  }

  /**
   * `handleSubmit` of the job dialog: one add, no check, and the job's own
   * `assignedMember` is left alone.
   */
  method HandleJobSubmit(store: AppStore, job: Job, selectedMember: int, selectedTime: string, duration: int, freshId: string)
    returns (closes: bool)
    modifies store
    ensures closes <==> JobAppointment(job, selectedMember, selectedTime, duration, freshId).Some?
    ensures closes ==> (store.appointments
      == AppendWithId(old(store.appointments), JobAppointment(job, selectedMember, selectedTime, duration, freshId).value, freshId))
    ensures !closes ==> store.appointments == old(store.appointments)
    ensures store.jobs == old(store.jobs) && store.teamMembers == old(store.teamMembers)
  {
    var a := JobAppointment(job, selectedMember, selectedTime, duration, freshId);
    if a.None? {
      return false;
    }
    store.AddAppointment(a.value, freshId);
    closes := true;
  }

  // ---------------------------------------------------------------------------
  // Tabs

  /** "Assigned" keeps assigned jobs, "Unassigned" the others, any other value all of them. */
  predicate JobShown(j: Job, assignedFilter: string) {
    if assignedFilter == "Assigned" then IsAssigned(j)
    else if assignedFilter == "Unassigned" then !IsAssigned(j)
    else true
  }

  function FilteredJobs(jobs: seq<Job>, assignedFilter: string): seq<Job> {
    Filter(jobs, (j: Job) => JobShown(j, assignedFilter))
  }

  /** The two tabs split the list: together they hold every job once. */
  lemma {:induction false} TabsPartitionJobs(jobs: seq<Job>)
    ensures |FilteredJobs(jobs, "Assigned")| + |FilteredJobs(jobs, "Unassigned")| == |jobs|
    ensures forall i :: 0 <= i < |jobs| ==> (jobs[i] in FilteredJobs(jobs, "Assigned") <==> IsAssigned(jobs[i]))
    ensures forall i :: 0 <= i < |jobs| ==> (jobs[i] in FilteredJobs(jobs, "Unassigned") <==> !IsAssigned(jobs[i]))
  {
    if jobs != [] {
      TabsPartitionJobs(jobs[1..]);
    }
  }

  /** Any other filter value shows every job. */
  lemma OtherTabShowsAll(jobs: seq<Job>, assignedFilter: string)
    requires assignedFilter != "Assigned" && assignedFilter != "Unassigned"
    ensures FilteredJobs(jobs, assignedFilter) == jobs
  {
    FilterAllPass(jobs, (j: Job) => JobShown(j, assignedFilter));
  }

  /** Of the seed jobs only the fourth is assigned. */
  lemma SeedJobTabs()
    ensures FilteredJobs(SeedJobs, "Assigned") == [SeedJobs[3]]
    ensures FilteredJobs(SeedJobs, "Unassigned") == SeedJobs[..3]
  {
    OnlyLastAssigned(SeedJobs);
  }

  /** Four jobs of which only the last is assigned: the tabs hold that one and the first three. */
  lemma OnlyLastAssigned(jobs: seq<Job>)
    requires |jobs| == 4 && IsAssigned(jobs[3])
    requires forall i :: 0 <= i < 3 ==> !IsAssigned(jobs[i])
    ensures FilteredJobs(jobs, "Assigned") == [jobs[3]]
    ensures FilteredJobs(jobs, "Unassigned") == jobs[..3]
  {
    var init := jobs[..3];
    assert jobs == init + [jobs[3]];
    FilterConcat(init, [jobs[3]], (j: Job) => JobShown(j, "Assigned"));
    FilterConcat(init, [jobs[3]], (j: Job) => JobShown(j, "Unassigned"));
    FilterAllPass(init, (j: Job) => JobShown(j, "Unassigned"));
    TabsPartitionJobs(init);
  }

  // ---------------------------------------------------------------------------
  // "Assign all"

  /** The last unassigned job in list order. */
  function LastUnassigned(jobs: seq<Job>): (r: Option<Job>)
    ensures r.None? <==> forall i :: 0 <= i < |jobs| ==> IsAssigned(jobs[i])
    ensures r.Some? ==> exists k :: (0 <= k < |jobs| && jobs[k] == r.value && !IsAssigned(jobs[k])
      && forall j :: k < j < |jobs| ==> IsAssigned(jobs[j]))
  {
    if jobs == [] then None
    else if !IsAssigned(jobs[|jobs| - 1]) then Some(jobs[|jobs| - 1])
    else
      var r := LastUnassigned(jobs[..|jobs| - 1]);
      assert forall i :: 0 <= i < |jobs| - 1 ==> jobs[..|jobs| - 1][i] == jobs[i];
      r
  }

  /** The unassigned tab's last job is the last unassigned job. */
  lemma {:induction false} LastOfUnassignedTab(jobs: seq<Job>)
    ensures var u := Filter(jobs, (j: Job) => !IsAssigned(j));
      && (u == [] <==> LastUnassigned(jobs).None?)
      && (u != [] ==> LastUnassigned(jobs) == Some(u[|u| - 1]))
  {
    if jobs != [] {
      var init, last := jobs[..|jobs| - 1], jobs[|jobs| - 1];
      assert jobs == init + [last];
      LastOfUnassignedTab(init);
      FilterConcat(init, [last], (j: Job) => !IsAssigned(j));
    }
  }

  /** With the seed data, "Assign all" opens the dialog for the third job. */
  lemma SeedAssignAll()
    ensures LastUnassigned(SeedJobs) == Some(SeedJobs[2])
  {
  }

  /** The job panel's dialog state. */
  class JobBoard {
    var modalJob: Option<Job>

    constructor()
      ensures modalJob == None && !IsJobModalOpen()
    {
      modalJob := None;
    }

    /** `!!modalJob`. */
    predicate IsJobModalOpen()
      reads this
    {
      modalJob.Some?
    }

    /** Clicking a job card opens its dialog. */
    method OpenJob(job: Job)
      modifies this
      ensures modalJob == Some(job) && IsJobModalOpen()
    {
      modalJob := Some(job);
    }

    /** Closing the dialog clears the job. */
    method CloseJobModal()
      modifies this
      ensures modalJob == None && !IsJobModalOpen()
    {
      modalJob := None;
    }

    /**
     * `handleAssignAll`: sets the dialog's job to each unassigned job in turn,
     * so the last one stays; nothing changes when every job is assigned.
     */
    method HandleAssignAll(jobs: seq<Job>)
      modifies this
      ensures LastUnassigned(jobs).None? ==> modalJob == old(modalJob)
      ensures LastUnassigned(jobs).Some? ==> modalJob == LastUnassigned(jobs)
    {
      var unassigned := Filter(jobs, (j: Job) => !IsAssigned(j));
      var i := 0;
      while i < |unassigned|
        invariant 0 <= i <= |unassigned|
        invariant i == 0 ==> modalJob == old(modalJob)
        invariant i > 0 ==> modalJob == Some(unassigned[i - 1])
      {
        modalJob := Some(unassigned[i]);
        i := i + 1;
      }
      LastOfUnassignedTab(jobs);
    }
  }
}
