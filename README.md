# Clinic appointment booking: a verified model

This project models the booking and access-control core of a clinic
appointment backend (Node.js, Express, Mongoose) in Dafny and proves
properties of it. Patients book half-hour slots with doctors. Administrators
confirm, complete or cancel appointments and manage the doctor registry.
Every protected request passes a token guard and a role check.

The model follows the source file by file:

- **The two schemas** are pure modules: `AppointmentSchema` and `DoctorSchema`.
  - They hold the enumerations, the defaults and the trimming and lower-casing
    setters.
  - They hold the partial unique index on (doctor, date, timeSlot, status).
  - They hold the pre-save hook that refuses a date before now.
  - They hold the `availableDays` validator.
- **The persistence layer** is `Store`. Its classes `Appointments`, `Doctors`
  and `Users` each hold a map from id to record.
  - Every write runs the schema's validation, hooks and indexes in the order
    Mongoose runs them.
  - `findOne` returns the matching record with the smallest id, which is the
    natural order of these collections.
- **The controllers** are methods that change those collections:
  `AppointmentController`, `DoctorController`, `AuthController` and
  `SuperAdmin`.
  - Each contract states every error case in the source's order.
  - It states the exact new state of the collection, and that a failure
    changes nothing.
- **The access guard** is `AuthGuard`.
  - `protect` is a method. It returns the authenticated user or the 401 of the
    first failed check.
  - The role check is a pure function.
- **Error values and the global error handler** are pure functions in
  `Errors`.
- **The two route tables** are data in `Routes`, evaluated the way Express
  walks a router.

Time is an integer parameter `now`, and dates are integers on the same clock.
A missing or empty body field is the empty string or `None`, which is how the
JavaScript falsy checks see it. A controller failure is an `Outcome`:

- `Operational(code, reason)` stands for an `AppError` with that status code
  and message.
- `Unexpected(reason)` stands for an error thrown by the persistence layer.

The calls into code the model does not contain are the fields of
`Foreign.Services`, passed in as values:

- bcrypt (`hash`, and `comparePassword` as `matches`)
- SHA-256
- JWT signing and verification
- `passwordChangedAfter`

Some behaviour of the code is easy to miss, and the model keeps it as written:

- `updateAppointmentStatus` accepts any of the four statuses as a target,
  including `pending`, from `pending` or `confirmed`. A pending appointment can
  go straight to `completed`.
- `cancelAppointment` also cancels a `completed` appointment. It does not check
  who owns the appointment.
- `deleteDoctor` cancels every appointment of the doctor and overwrites its
  notes. That includes appointments that are already cancelled, completed or
  in the past.
- A booking is not checked against the doctor's available days or hours.
- User emails are compared exactly. The user schema, which could lower-case
  them, is not part of this model.
- The pre-save hook runs on every save. So the status of an appointment whose
  date has passed can no longer be changed: `UpdateAppointmentStatus` answers
  with the hook's error. An administrator therefore cannot mark a past
  appointment `completed`.

## Model

| member | source | states |
|---|---|---|
| AppointmentSchema.StatusTextRoundTrip | src/models/Appointment.js:35-39 | the status enumeration is exactly the four texts, and parsing a status's text gives that status back |
| AppointmentSchema.Cast | src/models/Appointment.js:3-47 | a new appointment is accepted exactly when a date is given, the slot is one of the twelve, the type is clinic or home, and any given status is one of the four. It keeps the doctor, patient, date, slot and the parsed type. A missing status becomes pending, the symptoms are stored trimmed, there are no notes, and a refusal is a validation error |
| AppointmentSchema.TrimOptTrimmed | src/models/Appointment.js:40-47 | trimmed free text is stable under another trim |
| AppointmentSchema.AdmittedWriteKeepsIndex | src/models/Appointment.js:53-56 | a write the partial unique index admits keeps the index intact |
| AppointmentSchema.ExclusiveKeepsIndex | src/models/Appointment.js:53-56 | one non-cancelled appointment per (doctor, date, slot) implies the index on (doctor, date, slot, status) holds; cancelled records are outside both |
| AppointmentSchema.BookingFreeSlot | src/controllers/appointmentController.js:35-55 | inserting into a slot no non-cancelled appointment holds is admitted by the index and keeps slots exclusive |
| AppointmentSchema.StatusChangeKeepsExclusive | src/controllers/appointmentController.js:172-173 | changing the status of a non-cancelled appointment never creates a slot clash and is admitted by the index |
| AppointmentSchema.PastStaysPast | src/models/Appointment.js:59-64 | the pre-save hook admits a record exactly when its date is not before now; a record it refuses now is refused at every later save |
| AppointmentSchema.CancellingFreesSlot | src/controllers/appointmentController.js:95-96 | after a non-cancelled appointment is cancelled, its (doctor, date, slot) is free for a new booking |
| DoctorSchema.EveryDayInWeekMeans | src/models/Doctor.js:37-46 | the `every` validator accepts exactly the lists whose entries all lie in 0..6 |
| DoctorSchema.Cast | src/models/Doctor.js:3-46 | a new doctor is accepted exactly when the seven required fields are present and every available day is in 0..6. The email is stored lower-cased, homeVisitFee is optional, and the availability times are free strings |
| DoctorSchema.PatchedKeepsSchema | src/controllers/doctorController.js:78-85 | an update that passes validation keeps the email lower-case and the days in range, and leaves each of the nine fields the patch omits unchanged |
| Query.FirstBelow | src/controllers/authController.js:136 | `findOne` returns a matching document, and no document with a smaller id matches; with no result, no document below the bound matches |
| Query.FirstBelowFinds | src/controllers/appointmentController.js:35-44 | when every id is below the bound, `findOne` finds a document exactly when some document matches |
| Query.Matching | src/controllers/appointmentController.js:9 | `find` returns exactly the matching documents, unchanged, under their ids |
| Store.Appointments.FindOne | src/controllers/appointmentController.js:35-41 | a result is a stored appointment that matches the filter; no result means no appointment matches |
| Store.Appointments.Create | src/models/Appointment.js:53-64 | insertion runs validation, then the past-date hook, then the partial unique index, and stores exactly the validated record under a fresh id |
| Store.Appointments.Save | src/models/Appointment.js:59-64 | every save of a stored appointment is refused when its date is before now, and otherwise when the index forbids it |
| Store.Appointments.CancelAllOf | src/controllers/doctorController.js:107-115 | the bulk update sets every appointment of the doctor to cancelled with the note, bypassing hooks, and keeps the schema's invariants |
| Store.CascadeCancel | src/controllers/doctorController.js:107-115 | the bulk update keeps every id and leaves no appointment of the doctor non-cancelled |
| Store.CascadeCancelEffect | src/controllers/doctorController.js:103-116 | the cascade removes no appointment, cancels each of the doctor's appointments whatever its status or date, leaves other doctors' appointments unchanged, and leaves the doctor no non-cancelled appointment |
| Store.CascadeKeepsIndex | src/controllers/doctorController.js:107-115 | the cascade keeps every record well formed and the unique index intact |
| Store.CascadeKeepsExclusive | src/controllers/doctorController.js:107-115 | the cascade never creates a slot clash |
| Store.CascadeCancelNoMatch | src/controllers/doctorController.js:106-116 | with no appointment of the doctor, skipping the bulk update is the same as running it |
| Store.CascadeCancelIdempotent | src/controllers/doctorController.js:107-115 | running the cascade twice changes nothing more |
| Store.Doctors.Create | src/models/Doctor.js:8-13 | a doctor is inserted exactly when it validates and its lower-cased email is unused; otherwise validation or the email index refuses it |
| Store.Doctors.FindByIdAndUpdate | src/controllers/doctorController.js:78-85 | validators run first, an unknown id yields no document, and an email held by another doctor is refused by the index; otherwise exactly that doctor is patched |
| Store.Doctors.FindByIdAndDelete | src/controllers/doctorController.js:119 | returns the removed doctor when the id existed, and removes exactly that id |
| Store.Users.FindOne | src/controllers/authController.js:38 | a result is a stored user that matches the filter; no result means no user matches |
| Store.Users.Insert | src/controllers/authController.js:104-111 | the new user is stored, exactly as given, under a fresh id, and nothing else changes |
| Store.Users.Save | src/controllers/authController.js:154 | saving a changed user replaces exactly that user and adds no id |
| AppointmentController.DraftOf | src/controllers/appointmentController.js:47-55 | the created document names the caller as patient and forces the status to pending |
| AppointmentController.DraftOfBooks | src/controllers/appointmentController.js:47-55 | the draft validates exactly when date, slot and type are valid, and then yields a non-cancelled pending appointment of the caller |
| AppointmentController.GetMyAppointments | src/controllers/appointmentController.js:7-21 | returns exactly the caller's appointments and their count |
| AppointmentController.CreateAppointment | src/controllers/appointmentController.js:24-72 | returns 404 for an unknown doctor and 400 for a slot held by a non-cancelled appointment, in that order; then a validation or past-date error. Otherwise it adds exactly one pending appointment of the caller and changes nothing else. Never a duplicate-key error; slots stay exclusive |
| AppointmentController.CancelAppointment | src/controllers/appointmentController.js:75-108 | returns 404 for an unknown id, 400 when already cancelled, and 400 when in the past. Otherwise it cancels the appointment, from any other status and for any caller, and changes nothing else |
| AppointmentController.CancelThenRebook | src/controllers/appointmentController.js:86-96 | a cancelled appointment no longer blocks a new booking of its slot |
| AppointmentController.GetAppointment | src/controllers/appointmentController.js:111-129 | returns the appointment exactly when the caller is its patient, and otherwise 404 |
| AppointmentController.GetAllAppointments | src/controllers/appointmentController.js:132-146 | returns every appointment and their count |
| AppointmentController.UpdateAppointmentStatus | src/controllers/appointmentController.js:149-185 | an invalid status gives 400 before the lookup, then an unknown id gives 404, and a cancelled or completed appointment gives 400 and never changes. Otherwise it sets any of the four statuses, subject to the past-date hook. A failure changes nothing; slots stay exclusive |
| DoctorController.RemovalNoteTrimmed | src/controllers/doctorController.js:112 | the cascade's note is stored as written |
| DoctorController.GetAllDoctors | src/controllers/doctorController.js:5-16 | returns every doctor |
| DoctorController.GetDoctor | src/controllers/doctorController.js:18-33 | returns the doctor exactly when the id exists, and otherwise 404 |
| DoctorController.CreateDoctor | src/controllers/doctorController.js:35-74 | a taken email gives 400 and adds nothing; otherwise exactly one doctor is added with the validated fields. The email index never fires |
| DoctorController.UpdateDoctor | src/controllers/doctorController.js:76-98 | a validation failure is checked first, then an unknown id gives 404. Otherwise exactly that doctor is patched, unless another doctor holds the new email |
| DoctorController.DeleteDoctor | src/controllers/doctorController.js:100-132 | always cancels every appointment of the id with the removal note, then removes the doctor or answers 404. Slots stay exclusive |
| DoctorController.GetDoctorAppointments | src/controllers/doctorController.js:134-157 | returns 404 for an unknown doctor; a known doctor carries no appointments |
| AuthGuard.TokenOf | src/middleware/auth.js:10-15 | the token is the second space-separated word of a "Bearer" header, else the jwt cookie, and it is never empty |
| AuthGuard.HeaderTokenIsSecondWord | src/middleware/auth.js:11-12 | a header of space-free words whose first word starts with "Bearer" yields its second word, whatever the cookie says |
| AuthGuard.BearerRoundTrip | src/middleware/auth.js:11-12 | "Bearer " followed by a space-free token yields that token (section 2.1 of RFC 6750) |
| AuthGuard.BareBearerIgnoresCookie | src/middleware/auth.js:11-19 | a header that is only "Bearer" yields no token, and the cookie is not consulted |
| AuthGuard.HeaderShadowsCookie | src/middleware/auth.js:11-15 | with a header starting with "Bearer" the cookie never matters |
| AuthGuard.CookieFallback | src/middleware/auth.js:13-15 | without such a header the token is the non-empty cookie |
| AuthGuard.Protect | src/middleware/auth.js:7-57 | checks the token, verification (malformed or expired), the user's existence, a password change after `iat` (section 4.1.6 of RFC 7519) and `active === false`, in that order. It admits the user exactly when all pass, and every refusal is a 401 |
| AuthGuard.RequireRole | src/middleware/auth.js:59-76 | admits exactly the listed roles, and otherwise answers 403 |
| AuthGuard.RequireRoleWidens | src/middleware/auth.js:59-66 | listing more roles never shuts a role out |
| AuthController.FormatUserResponse | src/controllers/authController.js:17-24 | the public view carries exactly the id, name, email and role |
| AuthController.ProfileHidesSecrets | src/controllers/authController.js:17-24 | the public profile never depends on the password, the active flag or the reset fields |
| AuthController.ResetWindow | src/controllers/authController.js:187-190 | a reset issued at t matches exactly before t + 600000 ms, and a cleared reset never matches |
| AuthController.Login | src/controllers/authController.js:26-85 | checks in order: missing fields give 400, an unknown email 401, an inactive account 401 before the password is compared, and a wrong password 401 with the same reason as an unknown email. A success is the user's profile and a token for its id |
| AuthController.Register | src/controllers/authController.js:87-126 | missing fields or a registered email give 400 and add nothing. Otherwise exactly one patient is added. Email uniqueness is preserved |
| AuthController.ForgotPassword | src/controllers/authController.js:128-161 | a missing email gives 400 and an unknown email 404. Otherwise that user alone gets the token's SHA-256 and an expiry of now + 600000 |
| AuthController.ResetPassword | src/controllers/authController.js:173-219 | missing fields give 400, and no user whose hash matches and whose expiry is after now gives 400. Otherwise that user gets the hashed new password and both reset fields are cleared, so it no longer matches the token |
| AuthController.IssuedHashMatchesHolderOnly | src/controllers/authController.js:145-152 | an issued reset hash that no account held before matches its holder alone |
| AuthController.ClearedHolderLeavesNoMatch | src/controllers/authController.js:200-203 | clearing the only matching account leaves the token matching nobody |
| AuthController.ForgotThenResetTwice | src/controllers/authController.js:187-203 | a reset token used within ten minutes succeeds once, and a second use fails with 400 |
| AuthController.GetMe | src/controllers/authController.js:222-238 | returns the caller's profile, or 404 when the account is gone |
| AuthController.UpdateProfile | src/controllers/authController.js:241-275 | an email held by another account gives 400, but the caller's own email is allowed. Only the non-empty name and email change. Email uniqueness is preserved |
| AuthController.ChangePassword | src/controllers/authController.js:278-308 | missing fields give 400, an unknown user 404, and a wrong current password 401 with the password unchanged. Otherwise only the password changes |
| SuperAdmin.AdminAccount | src/utils/initSuperAdmin.js:46-52 | the bootstrap account has role admin, is active and carries the configured email |
| SuperAdmin.InitializeSuperAdmin | src/utils/initSuperAdmin.js:6-66 | creates one admin exactly when no admin exists, both credentials are set and the email is unused. Otherwise nothing changes and no error escapes. Email uniqueness is preserved |
| SuperAdmin.InitializeSuperAdminTwice | src/utils/initSuperAdmin.js:11-17 | a second run creates nothing, so at most one account is ever created |
| Errors.AppError | src/utils/errors.js:2-11 | an AppError is operational and keeps its code and message; its status is "fail" exactly when the code's decimal text starts with '4' |
| Errors.StatusBands | src/utils/errors.js:6 | "fail" exactly for codes in some [4*10^k, 5*10^k), so for every 4xx code; negative codes and every 5xx code give "error" |
| Errors.CreateError | src/utils/errors.js:14-16 | createError builds the same operational error as AppError |
| Errors.ErrorOf | src/utils/errors.js:2-11 | a handler's AppError carries its code and message; a thrown store error is not operational and has no code |
| Errors.WithDefaults | src/utils/errors.js:20-21 | a falsy code becomes 500 and a falsy status "error"; set values are kept |
| Errors.WithDefaultsIdempotent | src/utils/errors.js:20-21 | filling in defaults twice changes nothing more |
| Errors.ErrorHandler | src/utils/errors.js:19-50 | development shows everything; otherwise an operational error shows its own code and message, and anything else a generic 500 |
| Errors.ProductionAnswers | src/utils/errors.js:34-48 | in production a handler's AppError reaches the client with its code and message, while two unexpected errors give the same generic 500 |
| Errors.Capitalize | src/utils/errors.js:55 | upper-cases the first character and keeps the rest |
| Errors.HandleDuplicateKeyError | src/utils/errors.js:53-57 | with at least one key, a 400 AppError "<Key> already exists" naming the first key |
| Errors.DuplicateKeyMessage | src/utils/errors.js:53-57 | the message is the first key with its first letter upper-cased, then " already exists"; status "fail" |
| Errors.HandleValidationError | src/utils/errors.js:60-64 | a 400 AppError "Invalid input data. " followed by the field messages joined by ". " |
| Errors.ValidationMessage | src/utils/errors.js:60-64 | the message starts with the fixed prefix, then the first field message; status "fail" |
| Errors.HandleJWTError | src/utils/errors.js:67-68 | an operational 401 "fail" |
| Errors.HandleJWTExpiredError | src/utils/errors.js:70-71 | an operational 401 "fail" |
| Errors.GuardTokenErrors | src/middleware/auth.js:26-31 | the guard's malformed-token and expired-token refusals are exactly the two JWT handlers' errors |
| Routes.Dispatch | src/routes/appointments.js:15-24 | when no handler answers, no route of the table is for the verb and path |
| Routes.DispatchFirstMatch | src/routes/appointments.js:15-24 | the walk answers with the first route whose verb and pattern match, and with no handler exactly when none matches |
| Routes.Admit | src/middleware/auth.js:59-66 | the guards run in order and the first refusal answers; a request admitted past a `protect` guard was authenticated |
| Routes.AuthenticateThenRole | src/routes/doctors.js:19-22 | a failed authentication answers before any role check; after it, the role decides |
| Routes.AppointmentsNeedAuthentication | src/routes/appointments.js:15 | every appointment request, matched or not, is authenticated first, and a failed authentication answers |
| Routes.AdminAppointmentRoutes | src/routes/appointments.js:17-18 | listing all appointments and changing a status need role admin, however "all" and "status" are capitalised |
| Routes.PatientAppointmentRoutes | src/routes/appointments.js:21-24 | my-appointments, create, get and cancel need authentication only, in any capitalisation of the literal segments. A segment that lower-cases to neither "all" nor "my-appointments" is read as an id |
| Routes.PublicDoctorRoutes | src/routes/doctors.js:15-16 | listing doctors and reading one doctor run no guard |
| Routes.StaffDoctorRoutes | src/routes/doctors.js:19-26 | every other doctor request, matched or not, is authenticated and then needs role admin or superadmin. An unauthenticated request gets the guard's 401, and a wrong role gets 403 |

## Left out

- E-mail notifications, console logging and the JSON body layout are not modelled. A notification cannot change an outcome, because the e-mail service swallows its own failures.
- The express application, the database connection, configuration loading, the location routes and the auth route wiring are not part of this model.
- The user schema (src/models/User.js) is not part of this model. Its `comparePassword` and `passwordChangedAfter` are foreign services.
  - The model does not include the user schema's hooks. Any password hashing on save is not modelled: the stored password is whatever the controller assigns.
  - It does not include the user schema's validators or indexes.
  - The default for `active` is taken to be true (`AuthController.DEFAULT_ACTIVE`).
- The `AppError` the controllers import comes from src/middleware/errorHandler.js, which is not part of this model. Their errors are modelled as a status code and a reason.
- Errors.ErrorOf: it treats every `AppError` built with src/middleware/errorHandler.js like the one in src/utils/errors.js. That covers the appointment and doctor controllers and the 401s of `protect`. The model assumes such an error keeps its code and message and is operational. That class is built as `(message, code)` and is not part of this model. If it does not set `isOperational`, production answers those failures with a generic 500.
- Errors.ProductionAnswers: its first clause rests on the same assumption for failures built with src/middleware/errorHandler.js. It holds as stated for the errors of `createError` and of the two JWT handlers.
- Cast errors are not modelled: ids are natural numbers and dates are integers. So the malformed-id and malformed-date errors, and the catch-all 401 "Authentication failed" of `protect` (src/middleware/auth.js:54-56), cannot arise.
- Token expiry (`jwtExpiresIn`) and the token format belong to the foreign `sign` and `verify`.
- The `createdAt`/`updatedAt` timestamps are not modelled.
- `getMyAppointments` sorts on `appointmentDate`, which is not a field, so its result is modelled as a map from id to appointment, with no order.
- Database round trips and concurrency are not modelled. The model is sequential, so the race between the slot check and the insert in `createAppointment` is not modelled.
- Store.Appointments.Create: the model takes the partial unique index of src/models/Appointment.js:53-56 to exist as declared. Its filter uses `$ne`, which MongoDB may refuse in a partial index, so the index may never be built. The model's answers do not depend on it: the controllers keep slots exclusive, and then the index never fires (`AppointmentController.CreateAppointment` and `AppointmentController.UpdateAppointmentStatus` never answer with a duplicate key).
- Letter case and trimming cover ASCII letters and ASCII white space only.
- Fees are whole numbers.
- AuthController.ForgotPassword: its failures are the errors its try block raises. The catch block (src/controllers/authController.js:163-168) reads `user`, which is declared inside the try block. So every failure raises a ReferenceError inside the catch, before `next(error)` runs, and the client gets no answer. Express 4 does not catch the rejected promise, and the `unhandledRejection` handler in index.js then closes the server and exits. A request with no email or an unknown email therefore stops the server. This is modelled apart from the method, in `AuthController.ForgotPasswordEndingAsWritten` (see Findings).
- DoctorController.GetDoctorAppointments: the `appointments` path it populates is declared nowhere, so a found doctor is answered without appointments. With Mongoose's strict populate, the query fails instead; that failure is not modelled.
- Store.Doctors.FindByIdAndUpdate: only the `availableDays` validator is checked on update. The `required` checks on updated paths are not modelled, so a stored doctor is only known to keep a lower-case email and valid days.
- AppointmentController.CreateAppointment: a request without a date skips the slot check, since no stored appointment lacks a date, and then fails validation.
- DoctorController.CreateDoctor: the email lookup compares the lower-cased email, as Mongoose applies the `lowercase` setter to query values. A missing email is the empty string.

## Findings

| source | as written | input that shows it | evidently intended | confidence | as-written member | corrected member |
|---|---|---|---|---|---|---|
| src/controllers/authController.js:162-169 | the catch block of `forgotPassword` reads `user`, which is declared inside the try block, so every failure throws a ReferenceError before `next(error)`; the rejection is unhandled and index.js shuts the server down | `POST /api/auth/forgot-password` with an empty body, or with an email no account has | the failure is passed to the error handler and answered 400 or 404 | high; not executed | AuthController.ForgotPasswordEndingAsWritten, AuthController.ForgotPasswordRequestEndings | AuthController.ForgotPasswordEnding |
