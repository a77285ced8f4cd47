/**
 * The application store of the team calendar: the entities (team members,
 * client appointments, jobs), the patch-merge update, the four store
 * operations and the seed data the store starts from.
 */
module AppContext {
  import opened Wrappers
  import opened Sequences

  // ---------------------------------------------------------------------------
  // Entities

  datatype TeamMember = TeamMember(id: int, name: string, color: string)

  datatype Status = Completed | Active | Pending

  /** The string a status is stored and filtered as. */
  function StatusName(s: Status): string {
    match s
    case Completed => "completed"
    case Active => "active"
    case Pending => "pending"
  }

  /**
   * A client appointment. `startHour` is a slot index (0 is 6:00 am, 12 is
   * 6:00 pm) and `duration` is in minutes; `time`, `startTime` and `endTime`
   * are display labels that nothing keeps in step with the numeric fields.
   */
  datatype Appointment = Appointment(
    id: string,
    clientName: string,
    time: string,
    startHour: int,
    duration: int,
    status: Status,
    member: int,
    startTime: Option<string>,
    endTime: Option<string>,
    description: Option<string>)

  datatype Priority = High | Medium | Low

  /** A job; `estimatedDuration` is in minutes. */
  datatype Job = Job(
    id: string,
    name: string,
    address: string,
    jobId: string,
    assignedMember: Option<int>,
    priority: Option<Priority>,
    estimatedDuration: Option<int>)

  /** `!!job.assignedMember`: member 0 counts as unassigned, as in JavaScript. */
  predicate IsAssigned(j: Job) {
    j.assignedMember.Some? && j.assignedMember.value != 0
  }

  // ---------------------------------------------------------------------------
  // Partial updates

  /** A `Partial<ClientAppointment>`: every field may be left out. */
  datatype AppointmentPatch = AppointmentPatch(
    id: Option<string>,
    clientName: Option<string>,
    time: Option<string>,
    startHour: Option<int>,
    duration: Option<int>,
    status: Option<Status>,
    member: Option<int>,
    startTime: Option<string>,
    endTime: Option<string>,
    description: Option<string>)

  const NoChanges := AppointmentPatch(None, None, None, None, None, None, None, None, None, None)

  /** `{ ...a, ...p }`: the fields present in the patch win, the others are kept. */
  function Merge(a: Appointment, p: AppointmentPatch): Appointment {
    Appointment(
      p.id.GetOr(a.id),
      p.clientName.GetOr(a.clientName),
      p.time.GetOr(a.time),
      p.startHour.GetOr(a.startHour),
      p.duration.GetOr(a.duration),
      p.status.GetOr(a.status),
      p.member.GetOr(a.member),
      if p.startTime.Some? then p.startTime else a.startTime,
      if p.endTime.Some? then p.endTime else a.endTime,
      if p.description.Some? then p.description else a.description)
  }

  /** Each field of a merge comes from the patch when the patch has it and from the entry otherwise. */
  lemma MergeFieldwise(a: Appointment, p: AppointmentPatch)
    ensures Merge(a, p).id == (if p.id.Some? then p.id.value else a.id)
    ensures Merge(a, p).clientName == (if p.clientName.Some? then p.clientName.value else a.clientName)
    ensures Merge(a, p).time == (if p.time.Some? then p.time.value else a.time)
    ensures Merge(a, p).startHour == (if p.startHour.Some? then p.startHour.value else a.startHour)
    ensures Merge(a, p).duration == (if p.duration.Some? then p.duration.value else a.duration)
    ensures Merge(a, p).status == (if p.status.Some? then p.status.value else a.status)
    ensures Merge(a, p).member == (if p.member.Some? then p.member.value else a.member)
    ensures p.startTime.Some? ==> Merge(a, p).startTime == p.startTime
    ensures p.startTime.None? ==> Merge(a, p).startTime == a.startTime
    ensures p.endTime.Some? ==> Merge(a, p).endTime == p.endTime
    ensures p.endTime.None? ==> Merge(a, p).endTime == a.endTime
    ensures p.description.Some? ==> Merge(a, p).description == p.description
    ensures p.description.None? ==> Merge(a, p).description == a.description
  {
  }

  // ---------------------------------------------------------------------------
  // The new values the store operations compute

  /** `[...prev, { ...appointment, id: freshId }]`. */
  function AppendWithId(apts: seq<Appointment>, a: Appointment, freshId: string): seq<Appointment> {
    apts + [a.(id := freshId)]
  }

  /** `prev.map(x => x.id === id ? { ...x, ...p } : x)`. */
  function UpdateById(apts: seq<Appointment>, id: string, p: AppointmentPatch): seq<Appointment> {
    seq(|apts|, i requires 0 <= i < |apts| => if apts[i].id == id then Merge(apts[i], p) else apts[i])
  }

  /** `prev.filter(x => x.id !== id)`. */
  function DeleteById(apts: seq<Appointment>, id: string): seq<Appointment> {
    Filter(apts, (a: Appointment) => a.id != id)
  }

  /** `prev.map(j => j.id === jobId ? { ...j, assignedMember: memberId } : j)`. */
  function AssignJob(jobs: seq<Job>, jobId: string, memberId: int): seq<Job> {
    seq(|jobs|, i requires 0 <= i < |jobs| =>
      if jobs[i].id == jobId then jobs[i].(assignedMember := Some(memberId)) else jobs[i])
  }

  predicate HasId(apts: seq<Appointment>, id: string) {
    exists i :: 0 <= i < |apts| && apts[i].id == id
  }

  // ---------------------------------------------------------------------------
  // What the store operations promise

  /**
   * Adding grows the collection by one entry at the end, keeps every earlier
   * entry in place, and stores the argument with its id replaced.
   */
  lemma AddAppends(apts: seq<Appointment>, a: Appointment, freshId: string)
    ensures |AppendWithId(apts, a, freshId)| == |apts| + 1
    ensures AppendWithId(apts, a, freshId)[..|apts|] == apts
    ensures AppendWithId(apts, a, freshId)[|apts|].id == freshId
    ensures AppendWithId(apts, a, freshId)[|apts|] == a.(id := freshId)
  {
  }

  /** The caller's id never reaches the store: two arguments that differ only in their id are stored alike. */
  lemma AddDiscardsCallerId(apts: seq<Appointment>, a: Appointment, b: Appointment, freshId: string)
    requires a.(id := b.id) == b
    ensures AppendWithId(apts, a, freshId) == AppendWithId(apts, b, freshId)
  {
  }

  /** With an unused id, the added entry is the only one carrying it. */
  lemma AddFreshIdIsUnique(apts: seq<Appointment>, a: Appointment, freshId: string)
    requires !HasId(apts, freshId)
    ensures forall i :: 0 <= i < |apts| + 1 && AppendWithId(apts, a, freshId)[i].id == freshId ==> i == |apts|
  {
  }

  /**
   * Updating keeps length and order; entries with the id get the patch merged
   * over them and every other entry is left as it was.
   */
  lemma UpdateShape(apts: seq<Appointment>, id: string, p: AppointmentPatch)
    ensures |UpdateById(apts, id, p)| == |apts|
    ensures forall i :: 0 <= i < |apts| && apts[i].id != id ==> UpdateById(apts, id, p)[i] == apts[i]
    ensures forall i :: 0 <= i < |apts| && apts[i].id == id ==> UpdateById(apts, id, p)[i] == Merge(apts[i], p)
  {
  }

  /** Updating an id that is not in the collection changes nothing. */
  lemma UpdateUnknownIdIsNoop(apts: seq<Appointment>, id: string, p: AppointmentPatch)
    requires !HasId(apts, id)
    ensures UpdateById(apts, id, p) == apts
  {
  }

  /** Applying the same patch to the same id twice is applying it once. */
  lemma UpdateIdempotent(apts: seq<Appointment>, id: string, p: AppointmentPatch)
    ensures UpdateById(UpdateById(apts, id, p), id, p) == UpdateById(apts, id, p)
  {
    var once := UpdateById(apts, id, p);
    var twice := UpdateById(once, id, p);
    forall i | 0 <= i < |apts| ensures twice[i] == once[i] {
      if apts[i].id == id {
        MergeFieldwise(apts[i], p);
        MergeFieldwise(once[i], p);
      }
    }
  }

  /** Deleting removes every entry with the id and keeps all others, each as often as it occurred. */
  lemma DeleteRemovesExactly(apts: seq<Appointment>, id: string)
    ensures !HasId(DeleteById(apts, id), id)
    ensures forall i :: 0 <= i < |apts| && apts[i].id != id ==> apts[i] in DeleteById(apts, id)
    ensures forall a :: a in DeleteById(apts, id) ==> a in apts
    ensures forall a :: multiset(DeleteById(apts, id))[a] == (if a.id != id then multiset(apts)[a] else 0)
  {
    FilterCounts(apts, (x: Appointment) => x.id != id);
  }

  /** Deleting keeps the remaining entries in their relative order. */
  lemma DeleteKeepsOrder(a: seq<Appointment>, b: seq<Appointment>, id: string)
    ensures DeleteById(a + b, id) == DeleteById(a, id) + DeleteById(b, id)
  {
    FilterConcat(a, b, (x: Appointment) => x.id != id);
  }

  /** Deleting an unknown id changes nothing. */
  lemma DeleteUnknownIdIsNoop(apts: seq<Appointment>, id: string)
    requires !HasId(apts, id)
    ensures DeleteById(apts, id) == apts
  {
    FilterAllPass(apts, (x: Appointment) => x.id != id);
  }

  /** Deleting twice is deleting once. */
  lemma DeleteIdempotent(apts: seq<Appointment>, id: string)
    ensures DeleteById(DeleteById(apts, id), id) == DeleteById(apts, id)
  {
    FilterIdempotent(apts, (x: Appointment) => x.id != id);
  }

  /** Assigning sets the member of the matching jobs only and touches nothing else. */
  lemma AssignJobShape(jobs: seq<Job>, jobId: string, memberId: int)
    ensures |AssignJob(jobs, jobId, memberId)| == |jobs|
    ensures forall i :: 0 <= i < |jobs| && jobs[i].id != jobId ==> AssignJob(jobs, jobId, memberId)[i] == jobs[i]
    ensures forall i :: 0 <= i < |jobs| && jobs[i].id == jobId ==>
      AssignJob(jobs, jobId, memberId)[i].assignedMember == Some(memberId) &&
      AssignJob(jobs, jobId, memberId)[i].(assignedMember := jobs[i].assignedMember) == jobs[i]
  {
  }

  // ---------------------------------------------------------------------------
  // Seed data

  const SeedTeamMembers: seq<TeamMember> := [
    TeamMember(1, "Alex Johnson", "#F5A623"),
    TeamMember(2, "Sarah Wilson", "#9AE095"),
    TeamMember(3, "Mike Davis", "#74EBE1"),
    TeamMember(4, "Emma Brown", "#9EE1FF"),
    TeamMember(5, "Tom Garcia", "#A0C6FF"),
    TeamMember(6, "Lisa Miller", "#A0FFB5"),
    TeamMember(7, "John Taylor", "#FFA0F9"),
    TeamMember(8, "Amy Anderson", "#FFE1A0"),
    TeamMember(9, "Chris Moore", "#FFA0A0"),
    TeamMember(10, "Kate White", "#C0A0FF"),
    TeamMember(11, "David Lee", "#FFFFA0")
  ]

  const SeedAppointments: seq<Appointment> := [
    Appointment("1", "Hello", "10:00 am - 12:30 am", 4, 240, Completed, 1,
      Some("10:00 am"), Some("10:30 am"), Some("Website maintenance")),
    Appointment("2", "TechStart Inc", "8:00 am - 8:30 am", 2, 30, Completed, 2,
      Some("8:00 am"), Some("8:30 am"), Some("System setup consultation")),
    Appointment("3", "Global Solutions", "9:00 am - 9:30 am", 3, 30, Active, 3,
      Some("9:00 am"), Some("9:30 am"), Some("Network security review")),
    Appointment("4", "Digital Media Co", "11:00 am - 11:30 am", 5, 30, Active, 4,
      Some("11:00 am"), Some("11:30 am"), Some("Content management system")),
    Appointment("5", "Finance Plus", "1:00 pm - 1:45 pm", 7, 45, Completed, 5,
      Some("1:00 pm"), Some("1:45 pm"), Some("Database migration")),
    Appointment("6", "Marketing Hub", "12:00 pm - 12:30 pm", 6, 30, Pending, 6,
      Some("12:00 pm"), Some("12:30 pm"), Some("Analytics setup")),
    Appointment("7", "Retail Chain", "7:00 am - 7:30 am", 1, 30, Completed, 7,
      Some("7:00 am"), Some("7:30 am"), Some("POS system integration")),
    Appointment("8", "Tech Solutions", "3:00 pm - 4:00 pm", 9, 60, Pending, 8,
      Some("3:00 pm"), Some("4:00 pm"), Some("Cloud migration planning")),
    Appointment("9", "Healthcare Group", "4:30 pm - 5:15 pm", 10, 45, Active, 9,
      Some("4:30 pm"), Some("5:15 pm"), Some("System security audit")),
    Appointment("10", "Education Corp", "5:30 pm - 6:00 pm", 11, 30, Pending, 10,
      Some("5:30 pm"), Some("6:00 pm"), Some("Learning management system"))
  ]

  const SeedJobs: seq<Job> := [
    Job("1", "Cameron Williamson", "4140 Parker Rd, Allentown, New Mexico 31134", "JOB106731",
      None, Some(High), Some(120)),
    Job("2", "Brooklyn Simmons", "2715 Ash Dr. San Jose, South Dakota 83475", "JOB106732",
      None, Some(Medium), Some(90)),
    Job("3", "Leslie Alexander", "6391 Elgin St. Celina, Delaware 10299", "JOB106733",
      None, Some(Low), Some(60)),
    Job("4", "Jerome Bell", "8502 Preston Rd. Inglewood, Maine 98380", "JOB106734",
      Some(3), Some(Medium), Some(180))
  ]

  // ---------------------------------------------------------------------------
  // The store

  /**
   * The provider's state. Every operation replaces a collection by the value
   * computed above; none of them checks conflicts or bounds.
   */
  class AppStore {
    var teamMembers: seq<TeamMember>
    var appointments: seq<Appointment>
    var jobs: seq<Job>

    constructor()
      ensures teamMembers == SeedTeamMembers
      ensures appointments == SeedAppointments
      ensures jobs == SeedJobs
    {
      teamMembers := SeedTeamMembers;
      appointments := SeedAppointments;
      jobs := SeedJobs;
    }

    /** Appends `a` under the freshly generated id `freshId`. */
    method AddAppointment(a: Appointment, freshId: string)
      modifies this
      ensures appointments == old(appointments) + [a.(id := freshId)]
      ensures jobs == old(jobs) && teamMembers == old(teamMembers)
    {
      appointments := AppendWithId(appointments, a, freshId);
    }

    method UpdateAppointment(id: string, p: AppointmentPatch)
      modifies this
      ensures appointments == UpdateById(old(appointments), id, p)
      ensures |appointments| == |old(appointments)|
      ensures jobs == old(jobs) && teamMembers == old(teamMembers)
    {
      appointments := UpdateById(appointments, id, p);
    }

    method DeleteAppointment(id: string)
      modifies this
      ensures appointments == DeleteById(old(appointments), id)
      ensures !HasId(appointments, id)
      ensures jobs == old(jobs) && teamMembers == old(teamMembers)
    {
      appointments := DeleteById(appointments, id);
      DeleteRemovesExactly(old(appointments), id);
    }

    method AssignJobToMember(jobId: string, memberId: int)
      modifies this
      ensures jobs == AssignJob(old(jobs), jobId, memberId)
      ensures appointments == old(appointments) && teamMembers == old(teamMembers)
    {
      jobs := AssignJob(jobs, jobId, memberId);
    }
  }
}
