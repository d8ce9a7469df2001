/** The appointment handlers (src/controllers/appointmentController.js). Each
    handler reads the request, consults and updates the appointment
    collection, and answers with a record or an `AppError`; an error thrown
    by the persistence layer is passed on as an unexpected failure. The
    notification e-mails are not part of this model. */
module AppointmentController {
  import opened Outcomes
  import opened AppointmentSchema
  import Store
  import Query

  /** The body of a booking request; `doctor` and `date` may be missing. */
  datatype BookingRequest = BookingRequest(
    doctor: Option<DoctorId>,
    date: Option<int>,
    timeSlot: string,
    visitType: string,
    symptoms: Option<string>)

  /** What the handler hands to `Appointment.create`: the request's fields,
      the caller as patient and the status forced to pending. */
  function DraftOf(req: BookingRequest, doctor: DoctorId, patient: UserId): (d: Draft)
    ensures d.status == Some(StatusText(Pending))
    ensures d.doctor == doctor && d.patient == patient && d.date == req.date && d.timeSlot == req.timeSlot
  {
    Draft(doctor, patient, req.date, req.timeSlot, req.visitType, Some("pending"), req.symptoms)
  }

  /** A booking with a known doctor, a free slot and a valid body is stored as
      the caller's pending appointment; the only other store error is a date
      in the past. */
  lemma DraftOfBooks(req: BookingRequest, doctor: DoctorId, patient: UserId)
    ensures var c := Cast(DraftOf(req, doctor, patient));
      && (c.Ok? <==> req.date.Some? && req.timeSlot in TIME_SLOTS && ParseVisitType(req.visitType).Some?)
      && (c.Ok? ==> c.value.status == Pending && c.value.patient == patient && c.value.doctor == doctor
                    && c.value.date == req.date.value && Active(c.value))
  {
  }

  /** `getMyAppointments`: the caller's appointments and their number. */
  method GetMyAppointments(appts: Store.Appointments, user: UserId)
    returns (results: nat, found: map<AppointmentId, Appointment>)
    requires appts.Valid()
    ensures forall id :: id in found <==> id in appts.docs && appts.docs[id].patient == user
    ensures forall id :: id in found ==> found[id] == appts.docs[id]
    ensures results == |found|
  {
    found := Query.Matching(appts.docs, (a: Appointment) => a.patient == user);
    results := |found|;
  }

  /** `createAppointment`: the doctor must exist, the slot must be free among
      non-cancelled appointments, then the store validates and inserts. */
  method CreateAppointment(appts: Store.Appointments, doctors: Store.Doctors, user: UserId,
                           req: BookingRequest, now: int)
    returns (r: Outcome<AppointmentId>)
    requires appts.Valid() && doctors.Valid()
    modifies appts
    ensures appts.Valid()
    ensures req.doctor.None? || req.doctor.value !in doctors.docs ==> r == AppFail(404, DoctorNotFound)
    ensures (req.doctor.Some? && req.doctor.value in doctors.docs && req.date.Some?
             && !SlotFree(old(appts.docs), req.doctor.value, req.date.value, req.timeSlot))
            ==> r == AppFail(400, SlotAlreadyBooked)
    ensures (req.doctor.Some? && req.doctor.value in doctors.docs
             && (req.date.None? || SlotFree(old(appts.docs), req.doctor.value, req.date.value, req.timeSlot)))
            ==> var c := Cast(DraftOf(req, req.doctor.value, user));
                if c.Fail? then r == Thrown(SchemaValidation)
                else if c.value.date < now then r == Thrown(DateNotInFuture)
                else r.Ok? && r.value !in old(appts.docs) && appts.docs == old(appts.docs)[r.value := c.value]
    ensures r.Ok? ==> var a := appts.docs[r.value];
      a.patient == user && a.status == Pending && Some(a.doctor) == req.doctor
      && Some(a.date) == req.date && a.timeSlot == req.timeSlot
    ensures r.Fail? ==> appts.docs == old(appts.docs)
    ensures r != Thrown(DuplicateKey)
    ensures SlotsExclusive(old(appts.docs)) ==> SlotsExclusive(appts.docs)
  {
    if req.doctor.None? || req.doctor.value !in doctors.docs {
      return AppFail(404, DoctorNotFound);
    }
    var doctor := req.doctor.value;
    if req.date.Some? {
      var date := req.date.value;
      var taken := appts.FindOne((a: Appointment) => Occupies(a, doctor, date, req.timeSlot));
      if taken.Some? {
        return AppFail(400, SlotAlreadyBooked);
      }
    }
    var draft := DraftOf(req, doctor, user);
    DraftOfBooks(req, doctor, user);
    var c := Cast(draft);
    if c.Ok? {
      BookingFreeSlot(appts.docs, appts.nextId, c.value);
    }
    r := appts.Create(draft, now);
  }

  /** `cancelAppointment`: any caller may cancel any appointment that is not
      already cancelled and not in the past, including a completed one. */
  method CancelAppointment(appts: Store.Appointments, id: AppointmentId, now: int)
    returns (r: Outcome<Appointment>)
    requires appts.Valid()
    modifies appts
    ensures appts.Valid()
    ensures id !in old(appts.docs) ==> r == AppFail(404, AppointmentNotFound)
    ensures id in old(appts.docs) ==> var a := old(appts.docs)[id];
      if a.status == Cancelled then r == AppFail(400, AlreadyCancelled)
      else if a.date < now then r == AppFail(400, PastAppointment)
      else r == Ok(a.(status := Cancelled)) && appts.docs == old(appts.docs)[id := a.(status := Cancelled)]
    ensures r.Fail? ==> appts.docs == old(appts.docs)
    ensures SlotsExclusive(old(appts.docs)) ==> SlotsExclusive(appts.docs)
  {
    if id !in appts.docs {
      return AppFail(404, AppointmentNotFound);
    }
    var a := appts.docs[id];
    if a.status == Cancelled {
      return AppFail(400, AlreadyCancelled);
    }
    if a.date < now {
      return AppFail(400, PastAppointment);
    }
    var cancelled := a.(status := Cancelled);
    if SlotsExclusive(appts.docs) {
      StatusChangeKeepsExclusive(appts.docs, id, Cancelled);
    }
    var saved := appts.Save(id, cancelled, now);
    r := Ok(cancelled);
  }

  /** Cancelling an appointment and booking its slot again: the cancelled
      record no longer blocks the booking. */
  method CancelThenRebook(appts: Store.Appointments, doctors: Store.Doctors, id: AppointmentId, user: UserId,
                          visitType: string, symptoms: Option<string>, now: int)
    returns (cancelled: Outcome<Appointment>, rebooked: Outcome<AppointmentId>)
    requires appts.Valid() && doctors.Valid() && SlotsExclusive(appts.docs)
    requires id in appts.docs && Active(appts.docs[id]) && !(appts.docs[id].date < now)
    requires appts.docs[id].doctor in doctors.docs && ParseVisitType(visitType).Some?
    modifies appts
    ensures cancelled.Ok? && rebooked.Ok?
    ensures id in appts.docs && appts.docs[id].status == Cancelled
    ensures rebooked.value in appts.docs && appts.docs[rebooked.value].status == Pending
  {
    var a := appts.docs[id];
    CancellingFreesSlot(appts.docs, id);
    cancelled := CancelAppointment(appts, id, now);
    var req := BookingRequest(Some(a.doctor), Some(a.date), a.timeSlot, visitType, symptoms);
    rebooked := CreateAppointment(appts, doctors, user, req, now);
  }

  /** `getAppointment`: the appointment, only when the caller is its patient. */
  method GetAppointment(appts: Store.Appointments, id: AppointmentId, user: UserId)
    returns (r: Outcome<Appointment>)
    requires appts.Valid()
    ensures r.Ok? <==> id in appts.docs && appts.docs[id].patient == user
    ensures r.Ok? ==> r.value == appts.docs[id]
    ensures r.Fail? ==> r == AppFail(404, AppointmentNotFound)
  {
    if id in appts.docs && appts.docs[id].patient == user {
      r := Ok(appts.docs[id]);
    } else {
      r := AppFail(404, AppointmentNotFound);
    }
  }

  /** `getAllAppointments`: every appointment and their number. */
  method GetAllAppointments(appts: Store.Appointments)
    returns (results: nat, found: map<AppointmentId, Appointment>)
    requires appts.Valid()
    ensures found == appts.docs && results == |appts.docs|
  {
    found := appts.docs;
    results := |found|;
  }

  /** A status no handler may change. */
  predicate Final(st: Status)
  {
    st == Cancelled || st == Completed
  }

  /** `updateAppointmentStatus`: the new status must be one of the four, the
      appointment must exist and be pending or confirmed; then it is saved,
      which runs the date hook and the index. */
  method UpdateAppointmentStatus(appts: Store.Appointments, id: AppointmentId, status: Option<string>, now: int)
    returns (r: Outcome<Appointment>)
    requires appts.Valid()
    modifies appts
    ensures appts.Valid()
    ensures status.None? || ParseStatus(status.value).None? ==> r == AppFail(400, InvalidStatusValue)
    ensures status.Some? && ParseStatus(status.value).Some? ==>
      if id !in old(appts.docs) then r == AppFail(404, AppointmentNotFound)
      else
        var a := old(appts.docs)[id];
        var b := a.(status := ParseStatus(status.value).value);
        if Final(a.status) then r == AppFail(400, CannotUpdateFinal(StatusText(a.status)))
        else if a.date < now then r == Thrown(DateNotInFuture)
        else if !IndexAdmits(old(appts.docs), id, b) then r == Thrown(DuplicateKey)
        else r == Ok(b) && appts.docs == old(appts.docs)[id := b]
    ensures r.Fail? ==> appts.docs == old(appts.docs)
    ensures SlotsExclusive(old(appts.docs)) ==> SlotsExclusive(appts.docs) && r != Thrown(DuplicateKey)
  {
    if status.None? || ParseStatus(status.value).None? {
      return AppFail(400, InvalidStatusValue);
    }
    var st := ParseStatus(status.value).value;
    if id !in appts.docs {
      return AppFail(404, AppointmentNotFound);
    }
    var a := appts.docs[id];
    if a.status == Cancelled || a.status == Completed {
      return AppFail(400, CannotUpdateFinal(StatusText(a.status)));
    }
    var b := a.(status := st);
    if SlotsExclusive(appts.docs) {
      StatusChangeKeepsExclusive(appts.docs, id, st);
    }
    var saved := appts.Save(id, b, now);
    if saved.Fail? {
      return Fail(saved.failure);
    }
    r := Ok(b);
  }
}
