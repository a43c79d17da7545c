/**
 * The booking guard that runs before an appointment is created or updated
 * (`checkAppointmentConflict`): a half-open overlap test against every stored
 * appointment, whatever its state, leaving out the appointment named by the route.
 */
module Conflict {
  import opened Wrappers
  import opened Records
  import opened Text
  import opened Seqs
  import Availability

  const EndNotAfterStart := "La hora de finalización debe ser posterior a la hora de inicio."
  const DatesOverlap := "The dates cannot overlap."
  const ServerError := "Server error"

  /** The appointment left out of the comparison: the parsed route id, when the route has one. */
  function Excluded(routeId: Option<string>): (r: Reply<Option<int>>)
    ensures routeId.None? || routeId.value == "" ==> r == Ok(None)
    ensures routeId.Some? && routeId.value != "" ==>
      (r.Ok? <==> ParseInt(routeId.value).Some?) && (r.Ok? ==> r.value == ParseInt(routeId.value))
  {
    if routeId.None? || routeId.value == "" then Ok(None)
    else match ParseInt(routeId.value)
      case None => Err(500, ServerError)
      case Some(n) => Ok(Some(n))
  }

  /** A stored appointment other than `exclude` overlaps [start, end). */
  predicate ConflictWith(appts: map<int, Appointment>, start: Instant, end: Instant, exclude: Option<int>) {
    exists id :: id in appts && (exclude.None? || id != exclude.value)
                 && Availability.Overlaps(appts[id].start, appts[id].end, start, end)
  }

  /**
   * `checkAppointmentConflict`. The times are the values of `new Date(start_time)` and
   * `new Date(end_time)`, `None` standing for an Invalid Date (an absent field or a text
   * that does not read as a date). 400 when the range is empty or reversed, before any
   * lookup; an Invalid Date makes that comparison false and the lookup fail, so 500; a
   * route id that is not a number fails in the store too; 409 when a stored appointment
   * other than the routed one overlaps the range; otherwise control passes to the next handler.
   */
  function CheckAppointmentConflict(appts: map<int, Appointment>, start: Option<Instant>, end: Option<Instant>, routeId: Option<string>): (g: Gate<()>)
    ensures start.None? || end.None? ==> g == Stop(500, ServerError)
    ensures start.Some? && end.Some? && end.value <= start.value ==> g == Stop(400, EndNotAfterStart)
    ensures start.Some? && end.Some? && start.value < end.value && Excluded(routeId).Err? ==> g == Stop(500, ServerError)
    ensures g.Next? <==>
      start.Some? && end.Some? && start.value < end.value && Excluded(routeId).Ok?
      && !ConflictWith(appts, start.value, end.value, Excluded(routeId).value)
    ensures g.Stop? && g.status == 409 <==>
      start.Some? && end.Some? && start.value < end.value && Excluded(routeId).Ok?
      && ConflictWith(appts, start.value, end.value, Excluded(routeId).value)
  {
    if start.None? || end.None? then Stop(500, ServerError)
    else if end.value <= start.value then Stop(400, EndNotAfterStart)
    else match Excluded(routeId)
      case Err(_, _) => Stop(500, ServerError)
      case Ok(exclude) =>
        if ConflictWith(appts, start.value, end.value, exclude) then Stop(409, DatesOverlap) else Next(())
  }

  /** The overlap test does not depend on which range is the stored one. */
  lemma OverlapSymmetric(start1: Instant, end1: Instant, start2: Instant, end2: Instant)
    ensures Availability.Overlaps(start1, end1, start2, end2) <==> Availability.Overlaps(start2, end2, start1, end1)
  {
  }

  /** Booking the exact time of a stored appointment of positive length is a conflict. */
  lemma SameRangeConflicts(appts: map<int, Appointment>, id: int)
    requires id in appts && appts[id].start < appts[id].end
    ensures CheckAppointmentConflict(appts, Some(appts[id].start), Some(appts[id].end), None) == Stop(409, DatesOverlap)
  {
    assert Availability.Overlaps(appts[id].start, appts[id].end, appts[id].start, appts[id].end);
  }

  /** A range that ends where a stored appointment starts, or starts where it ends, does not meet it. */
  lemma TouchingIsNoConflict(a: Appointment, start: Instant, end: Instant)
    requires end == a.start || start == a.end
    requires start < end && a.start < a.end
    ensures !Availability.Overlaps(a.start, a.end, start, end)
  {
  }

  /**
   * An update routed to appointment `id` gets the verdict the table without that
   * appointment gives, so the appointment itself never makes the update conflict.
   */
  lemma OwnRangeIsNoConflict(appts: map<int, Appointment>, id: nat, start: Instant, end: Instant)
    requires start < end
    ensures CheckAppointmentConflict(appts, Some(start), Some(end), Some(NatToString(id)))
         == CheckAppointmentConflict(appts - {id}, Some(start), Some(end), None)
    ensures appts.Keys <= {id} ==> CheckAppointmentConflict(appts, Some(start), Some(end), Some(NatToString(id))) == Next(())
  {
    ExcludedOfNat(id);
    GuardOfExclusion(appts, start, end, Some(NatToString(id)), id);
    if appts.Keys <= {id} {
      var rest := appts - {id};
      assert rest.Keys == {};
      assert !ConflictWith(rest, start, end, None);
    }
  }

  /** The decimal text of an id excludes that id. */
  lemma ExcludedOfNat(id: nat)
    ensures Excluded(Some(NatToString(id))) == Ok(Some(id))
  {
    NumberOfNatToString(id);
  }

  /** A route id that reads as `id` makes the guard check the table without `id`. */
  lemma GuardOfExclusion(appts: map<int, Appointment>, start: Instant, end: Instant, routeId: Option<string>, id: int)
    requires start < end && Excluded(routeId) == Ok(Some(id))
    ensures CheckAppointmentConflict(appts, Some(start), Some(end), routeId)
         == CheckAppointmentConflict(appts - {id}, Some(start), Some(end), None)
  {
    ExclusionRemovesRecord(appts, start, end, id);
  }

  /** Leaving out the routed appointment is comparing against the table without it. */
  lemma ExclusionRemovesRecord(appts: map<int, Appointment>, start: Instant, end: Instant, x: int)
    ensures ConflictWith(appts, start, end, Some(x)) <==> ConflictWith(appts - {x}, start, end, None)
  {
    if ConflictWith(appts, start, end, Some(x)) {
      var id :| id in appts && id != x && Availability.Overlaps(appts[id].start, appts[id].end, start, end);
      assert id in appts - {x};
    }
    if ConflictWith(appts - {x}, start, end, None) {
      var id :| id in appts - {x} && Availability.Overlaps((appts - {x})[id].start, (appts - {x})[id].end, start, end);
      assert id in appts && id != x;
    }
  }

  /** The guard reads no state: changing an appointment's state never changes its verdict. */
  lemma StateIsIgnored(appts: map<int, Appointment>, id: int, st: State, start: Instant, end: Instant, routeId: Option<string>)
    requires id in appts
    ensures CheckAppointmentConflict(appts[id := appts[id].(state := st)], Some(start), Some(end), routeId)
         == CheckAppointmentConflict(appts, Some(start), Some(end), routeId)
  {
    var changed := appts[id := appts[id].(state := st)];
    if Excluded(routeId).Ok? {
      var ex := Excluded(routeId).value;
      if ConflictWith(appts, start, end, ex) {
        var k :| k in appts && (ex.None? || k != ex.value) && Availability.Overlaps(appts[k].start, appts[k].end, start, end);
        assert k in changed && changed[k].start == appts[k].start && changed[k].end == appts[k].end;
      }
      if ConflictWith(changed, start, end, ex) {
        var k :| k in changed && (ex.None? || k != ex.value) && Availability.Overlaps(changed[k].start, changed[k].end, start, end);
        assert k in appts && changed[k].start == appts[k].start && changed[k].end == appts[k].end;
      }
    }
  }

  /** So a CANCELED appointment still refuses an overlapping booking. */
  lemma CanceledStillConflicts(appts: map<int, Appointment>, id: int, start: Instant, end: Instant)
    requires id in appts && appts[id].state == CANCELED
    requires start < end && Availability.Overlaps(appts[id].start, appts[id].end, start, end)
    ensures CheckAppointmentConflict(appts, Some(start), Some(end), None) == Stop(409, DatesOverlap)
  {
  }

  /** A range the guard lets through is free as far as the slot listing is concerned, on every day. */
  lemma PassedRangeIsNotBooked(appts: map<int, Appointment>, start: Instant, end: Instant, day: Day)
    requires CheckAppointmentConflict(appts, Some(start), Some(end), None) == Next(())
    ensures !Availability.Booked(Availability.Slot(start, end), day, appts)
  {
  }

  /**
   * The converse fails: a slot the listing offers, because the only appointment on it is
   * CANCELED, is refused by the guard.
   */
  lemma ListedSlotMayBeRefused()
    ensures Availability.AvailableSlots(0, map[1 := Appointment(0, 600, 660, 2, 3, CANCELED, "PRESENCIAL")], map[])[0]
         == Availability.Slot(600, 660)
    ensures CheckAppointmentConflict(map[1 := Appointment(0, 600, 660, 2, 3, CANCELED, "PRESENCIAL")], Some(600), Some(660), None)
         == Stop(409, DatesOverlap)
  {
    var appts := map[1 := Appointment(0, 600, 660, 2, 3, CANCELED, "PRESENCIAL")];
    assert Availability.Overlaps(appts[1].start, appts[1].end, 600, 660);
    var c := Availability.Candidates(0, Availability.WorkRanges, Availability.SessionMinutes);
    Availability.WorkingDaySlots(0);
    assert c[0] == Availability.Slot(600, 660);
    assert !Availability.Booked(c[0], 0, appts);
    assert Filter(c, s => !Availability.Booked(s, 0, appts))[0] == c[0] by {
      FilterHead(c, s => !Availability.Booked(s, 0, appts));
    }
    var free := Filter(c, s => !Availability.Booked(s, 0, appts));
    FilterHead(free, s => !Availability.PartiallyBlocked(s, 0, map[]));
  }
}
