/** The doctor schema (src/models/Doctor.js): required fields, a unique
    lower-cased email, free-text availability bounds and the `availableDays`
    validator. Fees are whole numbers here. */
module DoctorSchema {
  import opened Outcomes
  import Text

  type DoctorId = nat

  datatype Doctor = Doctor(
    name: string,
    email: string,
    specialization: string,
    clinicFee: int,
    homeVisitFee: Option<int>,
    location: string,
    availableFrom: string,
    availableTo: string,
    availableDays: seq<int>)

  /** The body handed to `Doctor.create`. An absent text field is the empty
      string (which `required` refuses, as it refuses a missing one), an absent
      number is `None`, an absent list is the array default `[]`. */
  datatype DoctorFields = DoctorFields(
    name: string,
    email: string,
    specialization: string,
    clinicFee: Option<int>,
    homeVisitFee: Option<int>,
    location: string,
    availableFrom: string,
    availableTo: string,
    availableDays: seq<int>)

  /** A body of `findByIdAndUpdate`: only the fields present are set. */
  datatype DoctorPatch = DoctorPatch(
    name: Option<string>,
    email: Option<string>,
    specialization: Option<string>,
    clinicFee: Option<int>,
    homeVisitFee: Option<int>,
    location: Option<string>,
    availableFrom: Option<string>,
    availableTo: Option<string>,
    availableDays: Option<seq<int>>)

  /** The validator `v.every(day => day >= 0 && day <= 6)`, element by element. */
  function EveryDayInWeek(v: seq<int>): bool
  {
    |v| == 0 || (0 <= v[0] <= 6 && EveryDayInWeek(v[1..]))
  }

  /** The validator accepts exactly the lists whose every entry is a weekday index. */
  lemma {:induction false} EveryDayInWeekMeans(v: seq<int>)
    ensures EveryDayInWeek(v) <==> forall i :: 0 <= i < |v| ==> 0 <= v[i] <= 6
  {
    if |v| > 0 {
      EveryDayInWeekMeans(v[1..]);
      assert forall i :: 1 <= i < |v| ==> v[i] == v[1..][i - 1];
    }
  }

  /** What every write, creation or update, guarantees of a stored doctor. */
  predicate Stored(d: Doctor)
  {
    && Text.IsLower(d.email)
    && forall i :: 0 <= i < |d.availableDays| ==> 0 <= d.availableDays[i] <= 6
  }

  /** What creation guarantees: also the required text fields are non-empty. */
  predicate WellFormed(d: Doctor)
  {
    && d.name != "" && d.email != "" && d.specialization != "" && d.location != ""
    && d.availableFrom != "" && d.availableTo != ""
    && Stored(d)
  }

  /** Validation of a new document: the `lowercase` setter on email, the eight
      required fields and the `availableDays` validator. `availableFrom` and
      `availableTo` are free strings. */
  function Cast(f: DoctorFields): (r: Outcome<Doctor>)
    ensures r.Ok? <==>
      && f.name != "" && f.email != "" && f.specialization != "" && f.clinicFee.Some?
      && f.location != "" && f.availableFrom != "" && f.availableTo != ""
      && forall i :: 0 <= i < |f.availableDays| ==> 0 <= f.availableDays[i] <= 6
    ensures r.Fail? ==> r == Thrown(SchemaValidation)
    ensures r.Ok? ==> WellFormed(r.value)
    ensures r.Ok? ==> r.value == Doctor(f.name, Text.Lower(f.email), f.specialization, f.clinicFee.value,
                                        f.homeVisitFee, f.location, f.availableFrom, f.availableTo,
                                        f.availableDays)
  {
    EveryDayInWeekMeans(f.availableDays);
    Text.LowerIsLower(f.email);
    if f.name == "" || f.email == "" || f.specialization == "" || f.clinicFee.None? || f.location == ""
       || f.availableFrom == "" || f.availableTo == "" || !EveryDayInWeek(f.availableDays)
    then Thrown(SchemaValidation)
    else Ok(Doctor(f.name, Text.Lower(f.email), f.specialization, f.clinicFee.value, f.homeVisitFee,
                   f.location, f.availableFrom, f.availableTo, f.availableDays))
  }

  /** Update validation (`runValidators: true`): only the paths the update sets
      are checked, so only a new `availableDays` list can be refused. */
  predicate PatchValid(p: DoctorPatch)
  {
    p.availableDays.None? || EveryDayInWeek(p.availableDays.value)
  }

  function Pick<T>(o: Option<T>, current: T): T
  {
    if o.Some? then o.value else current
  }

  /** The document after `$set` of the present fields, email lower-cased. */
  function Patched(d: Doctor, p: DoctorPatch): (r: Doctor)
  {
    Doctor(Pick(p.name, d.name),
           if p.email.Some? then Text.Lower(p.email.value) else d.email,
           Pick(p.specialization, d.specialization),
           Pick(p.clinicFee, d.clinicFee),
           if p.homeVisitFee.Some? then p.homeVisitFee else d.homeVisitFee,
           Pick(p.location, d.location),
           Pick(p.availableFrom, d.availableFrom),
           Pick(p.availableTo, d.availableTo),
           Pick(p.availableDays, d.availableDays))
  }

  /** A valid patch keeps every weekday index in range and the email lower-case;
      a field the patch leaves out keeps its value. */
  lemma PatchedKeepsSchema(d: Doctor, p: DoctorPatch)
    requires PatchValid(p)
    requires Stored(d)
    ensures var r := Patched(d, p);
      && Stored(r)
      && (p.name.None? ==> r.name == d.name)
      && (p.email.None? ==> r.email == d.email)
      && (p.specialization.None? ==> r.specialization == d.specialization)
      && (p.clinicFee.None? ==> r.clinicFee == d.clinicFee)
      && (p.homeVisitFee.None? ==> r.homeVisitFee == d.homeVisitFee)
      && (p.location.None? ==> r.location == d.location)
      && (p.availableFrom.None? ==> r.availableFrom == d.availableFrom)
      && (p.availableTo.None? ==> r.availableTo == d.availableTo)
      && (p.availableDays.None? ==> r.availableDays == d.availableDays)
  {
    if p.email.Some? {
      Text.LowerIsLower(p.email.value);
    }
    if p.availableDays.Some? {
      EveryDayInWeekMeans(p.availableDays.value);
    }
  }

  /** The unique index on email. */
  predicate EmailsUnique(docs: map<DoctorId, Doctor>)
  {
    forall i, j :: i in docs && j in docs && docs[i].email == docs[j].email ==> i == j
  }

  /** Some doctor other than `except` holds the email. */
  predicate EmailHeldByOther(docs: map<DoctorId, Doctor>, email: string, except: Option<DoctorId>)
  {
    exists j :: j in docs && Some(j) != except && docs[j].email == email
  }
}
