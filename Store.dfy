/** The three collections the core reads and writes, each a class whose
    documents are a map from id to record. Ids are handed out in ascending
    order, so a collection's natural order is id order and `FindOne` returns
    the matching document with the smallest id. Each collection runs its
    schema's validation, hooks and unique indexes on the writes the
    controllers perform. Nothing is ever removed from the appointment or user
    collections. */
module Store {
  import opened Outcomes
  import opened AppointmentSchema
  import DoctorSchema
  import Text
  import Query

  type Role = string

  /** A user as the controllers see it. The user schema is not part of this
      model: `password` holds whatever the controllers assigned, and `active`
      may be absent. */
  datatype User = User(
    name: string,
    email: string,
    password: string,
    role: Role,
    active: Option<bool>,
    resetToken: Option<string>,
    resetExpire: Option<int>)

  /** The appointment collection with its schema. */
  class Appointments {
    var docs: map<AppointmentId, Appointment>
    var nextId: nat

    ghost predicate Valid()
      reads this
    {
      && (forall id :: id in docs ==> id < nextId)
      && (forall id :: id in docs ==> WellFormed(docs[id]))
      && IndexHolds(docs)
    }

    constructor ()
      ensures Valid() && docs == map[]
    {
      docs := map[];
      nextId := 0;
    }

    /** `findOne(filter)`. */
    function FindOne(filter: Appointment -> bool): (r: Option<AppointmentId>)
      reads this
      requires Valid()
      ensures r.Some? ==> r.value in docs && filter(docs[r.value])
      ensures r.None? ==> forall id :: id in docs ==> !filter(docs[id])
    {
      Query.FirstBelow(docs, filter, nextId)
    }

    /** `Appointment.create(draft)`: validation, then the pre-save hook, then
        the insert, which the partial unique index may refuse. */
    method Create(draft: Draft, now: int) returns (r: Outcome<AppointmentId>)
      requires Valid()
      modifies this
      ensures Valid()
      ensures Cast(draft).Fail? ==> r == Thrown(SchemaValidation)
      ensures Cast(draft).Ok? && !PassesPreSave(Cast(draft).value, now) ==> r == Thrown(DateNotInFuture)
      ensures (Cast(draft).Ok? && PassesPreSave(Cast(draft).value, now)
               && !IndexAdmits(old(docs), old(nextId), Cast(draft).value)) ==> r == Thrown(DuplicateKey)
      ensures r.Ok? <==> Cast(draft).Ok? && PassesPreSave(Cast(draft).value, now)
                         && IndexAdmits(old(docs), old(nextId), Cast(draft).value)
      ensures r.Ok? ==> r.value !in old(docs) && docs == old(docs)[r.value := Cast(draft).value]
      ensures r.Fail? ==> docs == old(docs)
    {
      var cast := Cast(draft);
      if cast.Fail? {
        return Thrown(SchemaValidation);
      }
      var a := cast.value;
      if a.date < now {
        return Thrown(DateNotInFuture);
      }
      var id := nextId;
      if !IndexAdmits(docs, id, a) {
        return Thrown(DuplicateKey);
      }
      AdmittedWriteKeepsIndex(docs, id, a);
      docs := docs[id := a];
      nextId := nextId + 1;
      r := Ok(id);
    }

    /** `document.save()` of a changed stored appointment: the pre-save hook
        runs on every save, then the index is consulted. */
    method Save(id: AppointmentId, a: Appointment, now: int) returns (r: Outcome<()>)
      requires Valid() && id in docs && WellFormed(a)
      modifies this
      ensures Valid() && nextId == old(nextId)
      ensures !PassesPreSave(a, now) ==> r == Thrown(DateNotInFuture)
      ensures PassesPreSave(a, now) && !IndexAdmits(old(docs), id, a) ==> r == Thrown(DuplicateKey)
      ensures PassesPreSave(a, now) && IndexAdmits(old(docs), id, a) ==> r == Ok(())
      ensures docs == if r.Ok? then old(docs)[id := a] else old(docs)
    {
      if a.date < now {
        return Thrown(DateNotInFuture);
      }
      if !IndexAdmits(docs, id, a) {
        return Thrown(DuplicateKey);
      }
      AdmittedWriteKeepsIndex(docs, id, a);
      docs := docs[id := a];
      r := Ok(());
    }

    /** `updateMany({ doctor }, { $set: { status: 'cancelled', notes } })`:
        a bulk update, which runs neither validators nor save hooks. */
    method CancelAllOf(doctor: DoctorId, note: string)
      requires Valid() && Text.Trim(note) == note
      modifies this
      ensures Valid() && nextId == old(nextId)
      ensures docs == CascadeCancel(old(docs), doctor, note)
    {
      CascadeKeepsIndex(docs, doctor, note);
      docs := CascadeCancel(docs, doctor, note);
    }
  }

  /** Every appointment of `doctor` set to cancelled with `note`; the rest untouched. */
  function CascadeCancel(docs: map<AppointmentId, Appointment>, doctor: DoctorId, note: string)
    : (after: map<AppointmentId, Appointment>)
    ensures after.Keys == docs.Keys
    ensures forall id :: id in after && after[id].doctor == doctor ==> !Active(after[id])
  {
    map id | id in docs :: if docs[id].doctor == doctor then docs[id].(status := Cancelled, notes := Some(note)) else docs[id]
  }

  /** The bulk cancel removes nothing, cancels every appointment of the doctor
      whatever its status or date, and changes no other doctor's appointment. */
  lemma CascadeCancelEffect(docs: map<AppointmentId, Appointment>, doctor: DoctorId, note: string)
    ensures var after := CascadeCancel(docs, doctor, note);
      && after.Keys == docs.Keys
      && (forall id :: id in docs && docs[id].doctor == doctor ==>
            after[id] == docs[id].(status := Cancelled, notes := Some(note)))
      && (forall id :: id in docs && docs[id].doctor != doctor ==> after[id] == docs[id])
      && SlotFreeForDoctor(after, doctor)
  {
  }

  /** No non-cancelled appointment of the doctor remains. */
  predicate SlotFreeForDoctor(docs: map<AppointmentId, Appointment>, doctor: DoctorId)
  {
    forall id :: id in docs && docs[id].doctor == doctor ==> !Active(docs[id])
  }

  /** Cancelling in bulk keeps the schema, the index and exclusive slots. */
  lemma CascadeKeepsIndex(docs: map<AppointmentId, Appointment>, doctor: DoctorId, note: string)
    requires Text.Trim(note) == note
    requires forall id :: id in docs ==> WellFormed(docs[id])
    requires IndexHolds(docs)
    ensures var after := CascadeCancel(docs, doctor, note);
      (forall id :: id in after ==> WellFormed(after[id])) && IndexHolds(after)
  {
    var after := CascadeCancel(docs, doctor, note);
    forall i, j | i in after && j in after && i != j && Active(after[i])
      ensures IndexKey(after[i]) != IndexKey(after[j])
    {
      assert after[i] == docs[i];
      if docs[j].doctor == doctor {
        assert IndexKey(after[j]).3 == Cancelled;
      } else {
        assert after[j] == docs[j];
      }
    }
  }

  /** Cancelling in bulk never creates a clash between non-cancelled appointments. */
  lemma CascadeKeepsExclusive(docs: map<AppointmentId, Appointment>, doctor: DoctorId, note: string)
    requires SlotsExclusive(docs)
    ensures SlotsExclusive(CascadeCancel(docs, doctor, note))
  {
    var after := CascadeCancel(docs, doctor, note);
    forall i, j | i in after && j in after && Active(after[i])
                  && Occupies(after[j], after[i].doctor, after[i].date, after[i].timeSlot)
      ensures i == j
    {
      assert after[i] == docs[i];
      assert after[j] == docs[j];
    }
  }

  /** With no appointment of the doctor, the bulk cancel changes nothing. */
  lemma CascadeCancelNoMatch(docs: map<AppointmentId, Appointment>, doctor: DoctorId, note: string)
    requires forall id :: id in docs ==> docs[id].doctor != doctor
    ensures CascadeCancel(docs, doctor, note) == docs
  {
  }

  /** Running the bulk cancel twice changes nothing more. */
  lemma CascadeCancelIdempotent(docs: map<AppointmentId, Appointment>, doctor: DoctorId, note: string)
    ensures CascadeCancel(CascadeCancel(docs, doctor, note), doctor, note) == CascadeCancel(docs, doctor, note)
  {
  }

  /** The doctor collection with its schema and the unique index on email. */
  class Doctors {
    var docs: map<DoctorSchema.DoctorId, DoctorSchema.Doctor>
    var nextId: nat

    ghost predicate Valid()
      reads this
    {
      && (forall id :: id in docs ==> id < nextId)
      && (forall id :: id in docs ==> DoctorSchema.Stored(docs[id]))
      && DoctorSchema.EmailsUnique(docs)
    }

    constructor ()
      ensures Valid() && docs == map[]
    {
      docs := map[];
      nextId := 0;
    }

    /** `Doctor.create(fields)`: validation, then the insert, which the email
        index may refuse. */
    method Create(fields: DoctorSchema.DoctorFields) returns (r: Outcome<DoctorSchema.DoctorId>)
      requires Valid()
      modifies this
      ensures Valid()
      ensures DoctorSchema.Cast(fields).Fail? ==> r == Thrown(SchemaValidation)
      ensures r.Ok? <==> DoctorSchema.Cast(fields).Ok?
                         && !DoctorSchema.EmailHeldByOther(old(docs), DoctorSchema.Cast(fields).value.email, None)
      ensures r.Ok? ==> r.value !in old(docs) && docs == old(docs)[r.value := DoctorSchema.Cast(fields).value]
      ensures DoctorSchema.Cast(fields).Ok? && !r.Ok? ==> r == Thrown(DuplicateKey)
      ensures r.Fail? ==> docs == old(docs)
    {
      var cast := DoctorSchema.Cast(fields);
      if cast.Fail? {
        return Thrown(SchemaValidation);
      }
      var d := cast.value;
      if exists j | j in docs :: docs[j].email == d.email {
        return Thrown(DuplicateKey);
      }
      var id := nextId;
      docs := docs[id := d];
      nextId := nextId + 1;
      r := Ok(id);
    }

    /** `findByIdAndUpdate(id, patch, { new: true, runValidators: true })`:
        update validators run first; an unknown id yields no document; the
        email index may refuse the write. */
    method FindByIdAndUpdate(id: DoctorSchema.DoctorId, patch: DoctorSchema.DoctorPatch)
      returns (r: Outcome<Option<DoctorSchema.Doctor>>)
      requires Valid()
      modifies this
      ensures Valid() && nextId == old(nextId)
      ensures !DoctorSchema.PatchValid(patch) ==> r == Thrown(SchemaValidation)
      ensures DoctorSchema.PatchValid(patch) && id !in old(docs) ==> r == Ok(None)
      ensures DoctorSchema.PatchValid(patch) && id in old(docs) ==>
        var d := DoctorSchema.Patched(old(docs)[id], patch);
        if DoctorSchema.EmailHeldByOther(old(docs), d.email, Some(id)) then r == Thrown(DuplicateKey)
        else r == Ok(Some(d)) && docs == old(docs)[id := d]
      ensures !(r.Ok? && r.value.Some?) ==> docs == old(docs)
    {
      if !DoctorSchema.PatchValid(patch) {
        return Thrown(SchemaValidation);
      }
      if id !in docs {
        return Ok(None);
      }
      var d := DoctorSchema.Patched(docs[id], patch);
      DoctorSchema.PatchedKeepsSchema(docs[id], patch);
      if exists j | j in docs :: j != id && docs[j].email == d.email {
        return Thrown(DuplicateKey);
      }
      docs := docs[id := d];
      r := Ok(Some(d));
    }

    /** `findByIdAndDelete(id)`: the removed document, if there was one. */
    method FindByIdAndDelete(id: DoctorSchema.DoctorId) returns (r: Option<DoctorSchema.Doctor>)
      requires Valid()
      modifies this
      ensures Valid() && nextId == old(nextId)
      ensures r.Some? <==> id in old(docs)
      ensures r.Some? ==> r.value == old(docs)[id]
      ensures docs == old(docs) - {id}
    {
      if id in docs {
        r := Some(docs[id]);
      } else {
        r := None;
      }
      docs := docs - {id};
    }
  }

  /** The user collection. The user schema is not part of this model, so no
      validation or index is run here; the controllers check emails themselves. */
  class Users {
    var docs: map<nat, User>
    var nextId: nat

    ghost predicate Valid()
      reads this
    {
      forall id :: id in docs ==> id < nextId
    }

    constructor ()
      ensures Valid() && docs == map[]
    {
      docs := map[];
      nextId := 0;
    }

    /** `findOne(filter)`. */
    function FindOne(filter: User -> bool): (r: Option<nat>)
      reads this
      requires Valid()
      ensures r.Some? ==> r.value in docs && filter(docs[r.value])
      ensures r.None? ==> forall id :: id in docs ==> !filter(docs[id])
    {
      Query.FirstBelow(docs, filter, nextId)
    }

    /** `User.create(u)` / `new User(u).save()`. */
    method Insert(u: User) returns (id: nat)
      requires Valid()
      modifies this
      ensures Valid()
      ensures id !in old(docs) && docs == old(docs)[id := u]
    {
      id := nextId;
      docs := docs[id := u];
      nextId := nextId + 1;
    }

    /** `user.save()` of a changed stored user. */
    method Save(id: nat, u: User)
      requires Valid() && id in docs
      modifies this
      ensures Valid() && nextId == old(nextId)
      ensures docs == old(docs)[id := u]
    {
      docs := docs[id := u];
    }
  }

  /** No two users share an email. */
  predicate EmailsUnique(docs: map<nat, User>)
  {
    forall i, j :: i in docs && j in docs && docs[i].email == docs[j].email ==> i == j
  }

  /** Some user holds the email. */
  predicate EmailTaken(docs: map<nat, User>, email: string)
  {
    exists j :: j in docs && docs[j].email == email
  }
}
