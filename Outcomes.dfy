/** Result and error vocabulary shared by the controllers, the guard and the store.

    A controller either answers with a value or hands an error to the error
    middleware. Errors built with `AppError` carry a status code and are
    operational; anything else thrown on the way (a schema validation error, a
    rejected pre-save hook, a duplicate-key error from an index) has no status
    code of its own. */
module Outcomes {

  datatype Option<+T> = None | Some(value: T)

  /** Why an operation failed: one constructor per distinct message of the source. */
  datatype Reason =
    // access guard
    | NotLoggedIn | InvalidToken | ExpiredToken | UserNoLongerExists
    | PasswordChangedSinceIssue | AccountDeactivatedToken | NoPermission
    // appointments
    | DoctorNotFound | SlotAlreadyBooked | AppointmentNotFound | AlreadyCancelled
    | PastAppointment | InvalidStatusValue | CannotUpdateFinal(statusText: string)
    // doctors
    | DoctorEmailExists
    // accounts
    | MissingLoginFields | InvalidCredentials | AccountDeactivatedLogin
    | MissingRegisterFields | EmailAlreadyRegistered | MissingEmail | NoUserWithEmail
    | MissingResetFields | InvalidResetToken | UserNotFound | EmailInUse
    | MissingPasswordFields | CurrentPasswordIncorrect
    | MissingAdminCredentials | AdminEmailInUse
    // errors thrown by the persistence layer
    | SchemaValidation | DateNotInFuture | DuplicateKey
    // a role check reached without an authenticated user on the request
    | NoUserOnRequest

  /** An error as it reaches the error middleware. */
  datatype Failure =
    | Operational(code: int, reason: Reason)   // an AppError: status code and message
    | Unexpected(reason: Reason)               // any other thrown error: no status code

  datatype Outcome<+T> = Ok(value: T) | Fail(failure: Failure)

  /** The client-facing message of each reason, as the source spells it. */
  function Message(r: Reason): string
  {
    match r
    case NotLoggedIn => "You are not logged in! Please log in to get access."
    case InvalidToken => "Invalid token. Please log in again."
    case ExpiredToken => "Your token has expired. Please log in again."
    case UserNoLongerExists => "The user belonging to this token no longer exists."
    case PasswordChangedSinceIssue => "User recently changed password! Please log in again."
    case AccountDeactivatedToken => "This user account has been deactivated."
    case NoPermission => "You do not have permission to perform this action"
    case DoctorNotFound => "No doctor found with that ID"
    case SlotAlreadyBooked => "This time slot is already booked"
    case AppointmentNotFound => "No appointment found with that ID"
    case AlreadyCancelled => "This appointment is already cancelled"
    case PastAppointment => "Cannot cancel past appointments"
    case InvalidStatusValue => "Invalid status value"
    case CannotUpdateFinal(t) => "Cannot update " + t + " appointment"
    case DoctorEmailExists => "Doctor with this email already exists"
    case MissingLoginFields => "Please provide email and password"
    case InvalidCredentials => "Invalid credentials"
    case AccountDeactivatedLogin => "Your account has been deactivated. Please contact support."
    case MissingRegisterFields => "Please provide all required fields"
    case EmailAlreadyRegistered => "Email already registered"
    case MissingEmail => "Please provide an email address"
    case NoUserWithEmail => "No user found with this email"
    case MissingResetFields => "Please provide password reset token and new password"
    case InvalidResetToken => "Invalid or expired password reset token"
    case UserNotFound => "User not found"
    case EmailInUse => "Email already in use"
    case MissingPasswordFields => "Please provide current and new password"
    case CurrentPasswordIncorrect => "Current password is incorrect"
    case MissingAdminCredentials => "SUPERADMIN_EMAIL and SUPERADMIN_PASSWORD must be set in environment variables"
    case AdminEmailInUse => "Cannot create superadmin: Email is already in use by another user"
    // SchemaValidation and DuplicateKey stand for texts the schema layer and the database generate
    case SchemaValidation => "Validation failed"
    case DateNotInFuture => "Appointment date must be in the future"
    case DuplicateKey => "E11000 duplicate key error"
    case NoUserOnRequest => "Cannot read properties of undefined (reading 'role')"
  }

  /** Shorthand for an `AppError(message, code)` handed to `next`. */
  function AppFail<T>(code: int, r: Reason): Outcome<T>
  {
    Fail(Operational(code, r))
  }

  /** Shorthand for an error thrown below the controller. */
  function Thrown<T>(r: Reason): Outcome<T>
  {
    Fail(Unexpected(r))
  }
}
