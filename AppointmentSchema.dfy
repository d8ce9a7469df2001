/** The appointment schema (src/models/Appointment.js): the enumerations, the
    default status, the trimmed free-text fields, the partial unique index on
    (doctor, date, timeSlot, status) and the pre-save check that the date is not
    in the past. Dates and times are integers on one clock. */
module AppointmentSchema {
  import opened Outcomes
  import Text

  type DoctorId = nat
  type UserId = nat
  type AppointmentId = nat

  /** The twelve half-hour bands a booking may name, with the midday gap. */
  const TIME_SLOTS: seq<string> := [
    "09:00-09:30", "09:30-10:00",
    "10:00-10:30", "10:30-11:00",
    "11:00-11:30", "11:30-12:00",
    "14:00-14:30", "14:30-15:00",
    "15:00-15:30", "15:30-16:00",
    "16:00-16:30", "16:30-17:00"
  ]

  datatype VisitType = Clinic | Home

  function ParseVisitType(s: string): (r: Option<VisitType>)
  {
    if s == "clinic" then Some(Clinic)
    else if s == "home" then Some(Home)
    else None
  }

  datatype Status = Pending | Confirmed | Cancelled | Completed

  /** The schema default for `status`. */
  const DEFAULT_STATUS: Status := Pending

  function StatusText(st: Status): string
  {
    match st
    case Pending => "pending"
    case Confirmed => "confirmed"
    case Cancelled => "cancelled"
    case Completed => "completed"
  }

  /** Membership in the status enumeration, as the schema and the controller's
      `validStatuses` list both check it. */
  function ParseStatus(s: string): (r: Option<Status>)
  {
    if s == "pending" then Some(Pending)
    else if s == "confirmed" then Some(Confirmed)
    else if s == "cancelled" then Some(Cancelled)
    else if s == "completed" then Some(Completed)
    else None
  }

  /** The status enumeration is exactly the four texts, each naming one status. */
  lemma StatusTextRoundTrip(st: Status, s: string)
    ensures ParseStatus(StatusText(st)) == Some(st)
    ensures ParseStatus(s) == Some(st) <==> s == StatusText(st)
    ensures ParseStatus(s).Some? <==> s in ["pending", "confirmed", "cancelled", "completed"]
  {
  }

  /** A stored appointment. */
  datatype Appointment = Appointment(
    doctor: DoctorId,
    patient: UserId,
    date: int,
    timeSlot: string,
    visitType: VisitType,
    status: Status,
    symptoms: Option<string>,
    notes: Option<string>)

  /** The document handed to `Appointment.create`, fields as the request gave them. */
  datatype Draft = Draft(
    doctor: DoctorId,
    patient: UserId,
    date: Option<int>,
    timeSlot: string,
    visitType: string,
    status: Option<string>,
    symptoms: Option<string>)

  function TrimOpt(s: Option<string>): Option<string>
  {
    if s.Some? then Some(Text.Trim(s.value)) else None
  }

  lemma TrimOptTrimmed(s: Option<string>)
    ensures TrimOpt(s).Some? ==> Text.Trim(TrimOpt(s).value) == TrimOpt(s).value
  {
    if s.Some? {
      Text.TrimTrimmed(s.value);
    }
  }

  /** What the schema guarantees of every stored appointment. */
  predicate WellFormed(a: Appointment)
  {
    && a.timeSlot in TIME_SLOTS
    && (a.symptoms.Some? ==> Text.Trim(a.symptoms.value) == a.symptoms.value)
    && (a.notes.Some? ==> Text.Trim(a.notes.value) == a.notes.value)
  }

  /** Schema validation with defaults and setters: `date`, `timeSlot` and `type`
      are required, the latter two from their enumerations; an absent status
      takes the default; free text is trimmed. */
  function Cast(d: Draft): (r: Outcome<Appointment>)
    ensures r.Ok? <==>
      && d.date.Some?
      && d.timeSlot in TIME_SLOTS
      && ParseVisitType(d.visitType).Some?
      && (d.status.None? || ParseStatus(d.status.value).Some?)
    ensures r.Fail? ==> r == Thrown(SchemaValidation)
    ensures r.Ok? ==> WellFormed(r.value)
    ensures r.Ok? ==>
      && r.value.doctor == d.doctor && r.value.patient == d.patient
      && Some(r.value.date) == d.date && r.value.timeSlot == d.timeSlot
      && r.value.visitType == ParseVisitType(d.visitType).value
      && r.value.symptoms == TrimOpt(d.symptoms)
      && r.value.notes.None?
      && r.value.status == (if d.status.None? then DEFAULT_STATUS else ParseStatus(d.status.value).value)
  {
    if d.date.None? || d.timeSlot !in TIME_SLOTS || ParseVisitType(d.visitType).None? then
      Thrown(SchemaValidation)
    else if d.status.Some? && ParseStatus(d.status.value).None? then
      Thrown(SchemaValidation)
    else
      var status := if d.status.None? then DEFAULT_STATUS else ParseStatus(d.status.value).value;
      TrimOptTrimmed(d.symptoms);
      Ok(Appointment(d.doctor, d.patient, d.date.value, d.timeSlot, ParseVisitType(d.visitType).value,
                     status, TrimOpt(d.symptoms), None))
  }

  /** A non-cancelled appointment: one the partial index and the slot check see. */
  predicate Active(a: Appointment)
  {
    a.status != Cancelled
  }

  /** `a` holds the slot (doctor, date, timeSlot). */
  predicate Occupies(a: Appointment, doctor: DoctorId, date: int, slot: string)
  {
    Active(a) && a.doctor == doctor && a.date == date && a.timeSlot == slot
  }

  /** No stored appointment holds the slot. */
  predicate SlotFree(docs: map<AppointmentId, Appointment>, doctor: DoctorId, date: int, slot: string)
  {
    forall id :: id in docs ==> !Occupies(docs[id], doctor, date, slot)
  }

  /** The key of the partial unique index. */
  function IndexKey(a: Appointment): (DoctorId, int, string, Status)
  {
    (a.doctor, a.date, a.timeSlot, a.status)
  }

  /** The partial unique index: no two non-cancelled documents share a key. */
  predicate IndexHolds(docs: map<AppointmentId, Appointment>)
  {
    forall i, j :: i in docs && j in docs && i != j && Active(docs[i]) ==> IndexKey(docs[i]) != IndexKey(docs[j])
  }

  /** Writing `a` under `id` keeps the index: a cancelled document is outside
      it, any other may not share its key with another document. */
  predicate IndexAdmits(docs: map<AppointmentId, Appointment>, id: AppointmentId, a: Appointment)
  {
    Active(a) ==> forall j :: j in docs && j != id ==> IndexKey(docs[j]) != IndexKey(a)
  }

  lemma AdmittedWriteKeepsIndex(docs: map<AppointmentId, Appointment>, id: AppointmentId, a: Appointment)
    requires IndexHolds(docs) && IndexAdmits(docs, id, a)
    ensures IndexHolds(docs[id := a])
  {
  }

  /** The booking rule the controller keeps: at most one non-cancelled
      appointment per (doctor, date, timeSlot). */
  predicate SlotsExclusive(docs: map<AppointmentId, Appointment>)
  {
    forall i, j ::
      (i in docs && j in docs && Active(docs[i]) &&
       Occupies(docs[j], docs[i].doctor, docs[i].date, docs[i].timeSlot)) ==> i == j
  }

  /** Exclusive slots are stricter than the index: the index never fires on them. */
  lemma ExclusiveKeepsIndex(docs: map<AppointmentId, Appointment>)
    requires SlotsExclusive(docs)
    ensures IndexHolds(docs)
  {
    forall i, j | i in docs && j in docs && i != j && Active(docs[i])
      ensures IndexKey(docs[i]) != IndexKey(docs[j])
    {
      if IndexKey(docs[i]) == IndexKey(docs[j]) {
        assert Occupies(docs[j], docs[i].doctor, docs[i].date, docs[i].timeSlot);
      }
    }
  }

  /** Inserting into a free slot keeps slots exclusive and is admitted by the index. */
  lemma BookingFreeSlot(docs: map<AppointmentId, Appointment>, id: AppointmentId, a: Appointment)
    requires id !in docs
    requires SlotFree(docs, a.doctor, a.date, a.timeSlot)
    ensures IndexAdmits(docs, id, a)
    ensures SlotsExclusive(docs) ==> SlotsExclusive(docs[id := a])
  {
    if Active(a) {
      forall j | j in docs && j != id ensures IndexKey(docs[j]) != IndexKey(a) {
        assert !Occupies(docs[j], a.doctor, a.date, a.timeSlot);
      }
    }
  }

  /** Changing the status of a non-cancelled appointment never creates a clash:
      the slot stays with the same record or is released. */
  lemma StatusChangeKeepsExclusive(docs: map<AppointmentId, Appointment>, id: AppointmentId, st: Status)
    requires SlotsExclusive(docs) && id in docs && Active(docs[id])
    ensures IndexAdmits(docs, id, docs[id].(status := st))
    ensures SlotsExclusive(docs[id := docs[id].(status := st)])
  {
    var a := docs[id].(status := st);
    if Active(a) {
      forall j | j in docs && j != id ensures IndexKey(docs[j]) != IndexKey(a) {
        if IndexKey(docs[j]) == IndexKey(a) {
          assert Occupies(docs[j], docs[id].doctor, docs[id].date, docs[id].timeSlot);
        }
      }
    }
  }

  /** Once a non-cancelled appointment is cancelled, its slot is free for a new booking. */
  lemma {:induction false} CancellingFreesSlot(docs: map<AppointmentId, Appointment>, id: AppointmentId)
    requires SlotsExclusive(docs) && id in docs && Active(docs[id])
    ensures var a := docs[id];
      SlotFree(docs[id := a.(status := Cancelled)], a.doctor, a.date, a.timeSlot)
  {
    var a := docs[id];
    var after := docs[id := a.(status := Cancelled)];
    forall j | j in after ensures !Occupies(after[j], a.doctor, a.date, a.timeSlot) {
      if j != id {
        assert after[j] == docs[j];
      }
    }
  }

  /** The pre-save hook: a document dated before `now` is never saved. */
  predicate PassesPreSave(a: Appointment, now: int)
  {
    !(a.date < now)
  }

  /** The hook only grows stricter with time: a record it refuses now is
      refused at every later save, and one it admits now was admitted at every
      earlier save. */
  lemma PastStaysPast(a: Appointment, now: int, later: int)
    requires now <= later
    ensures !PassesPreSave(a, now) ==> !PassesPreSave(a, later)
    ensures PassesPreSave(a, later) ==> PassesPreSave(a, now)
    ensures PassesPreSave(a, now) <==> now <= a.date
  {
  }
}
