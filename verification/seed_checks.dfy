/**
 * What the seed data the store starts from satisfies: numbered team members,
 * appointments inside the working day on existing rows, and no two of them in
 * conflict. Also the two places where the store and the occupancy lookup are
 * weaker than the conflict rule.
 */
module SeedChecks {
  import opened Wrappers
  import opened AppContext
  import opened AppointmentUtils

  /** Team members are numbered 1 to 11 in list order. */
  lemma SeedMembersNumbered()
    ensures |SeedTeamMembers| == 11
    ensures forall i :: 0 <= i < 11 ==> SeedTeamMembers[i].id == i + 1
  {
  }

  /** Appointment `i` of the seed belongs to member `i + 1`. */
  lemma SeedAppointmentRows()
    ensures |SeedAppointments| == 10
    ensures forall i :: 0 <= i < 10 ==> SeedAppointments[i].member == i + 1 && SeedAppointments[i].id != ""
  {
  }

  /**
   * Every seed appointment sits on an existing team member's row, has a
   * positive duration, starts on a slot and ends by 6:00 pm.
   */
  lemma SeedAppointmentsInWorkingDay()
    ensures forall a :: a in SeedAppointments ==>
      && (exists m :: m in SeedTeamMembers && m.id == a.member)
      && a.duration > 0
      && 0 <= a.startHour <= 12
      && a.startHour * 60 + a.duration <= 720
  {
    forall a | a in SeedAppointments
      ensures exists m :: m in SeedTeamMembers && m.id == a.member
      ensures a.duration > 0 && 0 <= a.startHour <= 12 && a.startHour * 60 + a.duration <= 720
    {
      var i :| 0 <= i < |SeedAppointments| && SeedAppointments[i] == a;
      SeedRowInDay(i);
      assert SeedTeamMembers[i] in SeedTeamMembers;
    }
  }

  lemma SeedRowInDay(i: int)
    requires 0 <= i < 10
    ensures |SeedAppointments| == 10 && |SeedTeamMembers| == 11
    ensures SeedTeamMembers[i].id == SeedAppointments[i].member
    ensures SeedAppointments[i].duration > 0 && 0 <= SeedAppointments[i].startHour <= 12
    ensures SeedAppointments[i].startHour * 60 + SeedAppointments[i].duration <= 720
  {
    SeedMembersNumbered();
    SeedAppointmentRows();
  }

  /** No seed appointment conflicts with any other one. */
  lemma SeedAppointmentsConflictFree()
    ensures forall i :: 0 <= i < |SeedAppointments| ==>
      !CheckAppointmentConflict(AsCandidate(SeedAppointments[i]), SeedAppointments, Some(SeedAppointments[i].id)).hasConflict
  {
    SeedAppointmentRows();
    forall i, j | 0 <= i < 10 && 0 <= j < 10
      ensures !IsConflict(AsCandidate(SeedAppointments[i]), SeedAppointments[j], Some(SeedAppointments[i].id))
    {
      if i != j {
        assert SeedAppointments[i].member != SeedAppointments[j].member;
      }
    }
  }

  /**
   * The occupancy lookup only sees exact starts: member 1's first seed
   * appointment covers slots 4 to 7, and slot 5 is reported free although a
   * one-hour candidate there conflicts with it.
   */
  lemma OccupancyMissesCoveredSlot()
    ensures !GetTimeSlotAvailability(5, 0, SeedAppointments).isOccupied
    ensures CheckAppointmentConflict(Candidate(Some(1), Some(5), None), SeedAppointments, None).hasConflict
  {
    SeedAppointmentRows();
    assert IsConflict(Candidate(Some(1), Some(5), None), SeedAppointments[0], None);
  }

  /** The store adds an appointment that conflicts with one it already holds. */
  lemma StoreAcceptsConflictingAdd(freshId: string)
    requires freshId != "" && freshId != "1"
    ensures var added := AppendWithId(SeedAppointments, SeedAppointments[0], freshId);
      && |added| == 11
      && CheckAppointmentConflict(AsCandidate(added[10]), added, Some(freshId)).hasConflict
  {
    var added := AppendWithId(SeedAppointments, SeedAppointments[0], freshId);
    assert added[0] == SeedAppointments[0];
    assert IsConflict(AsCandidate(added[10]), added[0], Some(freshId));
  }
}
