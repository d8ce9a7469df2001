/** The doctor handlers (src/controllers/doctorController.js): listing,
    lookup, creation with an up-front email check, update through
    `findByIdAndUpdate`, and deletion, which first cancels every appointment
    of the doctor. */
module DoctorController {
  import opened Outcomes
  import opened DoctorSchema
  import AppointmentSchema
  import Store
  import Text

  /** The note the deletion cascade writes on every affected appointment. */
  const REMOVAL_NOTE: string := "Doctor is no longer available in the system"

  /** The note passes the schema's trim setter unchanged. */
  lemma RemovalNoteTrimmed()
    ensures Text.Trim(REMOVAL_NOTE) == REMOVAL_NOTE
  {
    assert Text.TrimStart(REMOVAL_NOTE) == REMOVAL_NOTE;
  }

  /** `getAllDoctors`: every doctor. */
  method GetAllDoctors(doctors: Store.Doctors) returns (found: map<DoctorId, Doctor>)
    requires doctors.Valid()
    ensures found == doctors.docs
  {
    found := doctors.docs;
  }

  /** `getDoctor`: the doctor with the id, or 404. */
  method GetDoctor(doctors: Store.Doctors, id: DoctorId) returns (r: Outcome<Doctor>)
    requires doctors.Valid()
    ensures r.Ok? <==> id in doctors.docs
    ensures r.Ok? ==> r.value == doctors.docs[id]
    ensures r.Fail? ==> r == AppFail(404, DoctorNotFound)
  {
    if id in doctors.docs {
      r := Ok(doctors.docs[id]);
    } else {
      r := AppFail(404, DoctorNotFound);
    }
  }

  /** `createDoctor`: a taken email (compared lower-cased, as the schema stores
      it) is refused with 400 before validation; otherwise the store validates
      and inserts, and the email index never fires. */
  method CreateDoctor(doctors: Store.Doctors, f: DoctorFields) returns (r: Outcome<DoctorId>)
    requires doctors.Valid()
    modifies doctors
    ensures doctors.Valid()
    ensures EmailHeldByOther(old(doctors.docs), Text.Lower(f.email), None) ==> r == AppFail(400, DoctorEmailExists)
    ensures !EmailHeldByOther(old(doctors.docs), Text.Lower(f.email), None) ==>
      if Cast(f).Fail? then r == Thrown(SchemaValidation)
      else r.Ok? && r.value !in old(doctors.docs) && doctors.docs == old(doctors.docs)[r.value := Cast(f).value]
    ensures r.Fail? ==> doctors.docs == old(doctors.docs)
    ensures r != Thrown(DuplicateKey)
  {
    var email := Text.Lower(f.email);
    var existing := exists j | j in doctors.docs :: doctors.docs[j].email == email;
    if existing {
      return AppFail(400, DoctorEmailExists);
    }
    r := doctors.Create(f);
  }

  /** `updateDoctor`: validators, then 404 for an unknown id; a patch that
      gives the doctor another doctor's email is refused by the index. */
  method UpdateDoctor(doctors: Store.Doctors, id: DoctorId, patch: DoctorPatch) returns (r: Outcome<Doctor>)
    requires doctors.Valid()
    modifies doctors
    ensures doctors.Valid()
    ensures !PatchValid(patch) ==> r == Thrown(SchemaValidation)
    ensures PatchValid(patch) && id !in old(doctors.docs) ==> r == AppFail(404, DoctorNotFound)
    ensures PatchValid(patch) && id in old(doctors.docs) ==>
      var d := Patched(old(doctors.docs)[id], patch);
      if EmailHeldByOther(old(doctors.docs), d.email, Some(id)) then r == Thrown(DuplicateKey)
      else r == Ok(d) && doctors.docs == old(doctors.docs)[id := d]
    ensures r.Fail? ==> doctors.docs == old(doctors.docs)
  {
    var updated := doctors.FindByIdAndUpdate(id, patch);
    if updated.Fail? {
      return Fail(updated.failure);
    }
    if updated.value.None? {
      return AppFail(404, DoctorNotFound);
    }
    r := Ok(updated.value.value);
  }

  /** `deleteDoctor`: every appointment naming the doctor is cancelled with the
      removal note (whatever its status or date), then the doctor is removed;
      an unknown id still runs the cascade and then answers 404. */
  method DeleteDoctor(appts: Store.Appointments, doctors: Store.Doctors, id: DoctorId) returns (r: Outcome<()>)
    requires appts.Valid() && doctors.Valid()
    modifies appts, doctors
    ensures appts.Valid() && doctors.Valid()
    ensures appts.docs == Store.CascadeCancel(old(appts.docs), id, REMOVAL_NOTE)
    ensures doctors.docs == old(doctors.docs) - {id}
    ensures r.Ok? <==> id in old(doctors.docs)
    ensures r.Fail? ==> r == AppFail(404, DoctorNotFound)
    ensures AppointmentSchema.SlotsExclusive(old(appts.docs)) ==> AppointmentSchema.SlotsExclusive(appts.docs)
  {
    RemovalNoteTrimmed();
    if AppointmentSchema.SlotsExclusive(appts.docs) {
      Store.CascadeKeepsExclusive(appts.docs, id, REMOVAL_NOTE);
    }
    var any := exists j | j in appts.docs :: appts.docs[j].doctor == id;
    if any {
      appts.CancelAllOf(id, REMOVAL_NOTE);
    } else {
      Store.CascadeCancelNoMatch(appts.docs, id, REMOVAL_NOTE);
    }
    var removed := doctors.FindByIdAndDelete(id);
    if removed.None? {
      return AppFail(404, DoctorNotFound);
    }
    r := Ok(());
  }

  /** `getDoctorAppointments`: 404 for an unknown id; a known doctor is
      answered without appointments, as the doctor schema has no
      `appointments` path to fill. */
  method GetDoctorAppointments(doctors: Store.Doctors, id: DoctorId)
    returns (r: Outcome<Option<map<AppointmentSchema.AppointmentId, AppointmentSchema.Appointment>>>)
    requires doctors.Valid()
    ensures r.Ok? <==> id in doctors.docs
    ensures r.Ok? ==> r.value.None?
    ensures r.Fail? ==> r == AppFail(404, DoctorNotFound)
  {
    if id !in doctors.docs {
      return AppFail(404, DoctorNotFound);
    }
    r := Ok(None);
  }
}
