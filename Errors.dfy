/** Error values and the global error handler (src/utils/errors.js).
    `AppError` derives its `status` from the decimal text of its code; the
    handler fills in missing fields and chooses what the client sees. */
module Errors {
  import opened Outcomes
  import Text

  /** An error as the handler receives it. A field that is missing or falsy
      in JavaScript is `None`, `0`, `""` or `false` here. */
  datatype ErrorValue = ErrorValue(
    statusCode: Option<int>,
    status: Option<string>,
    message: string,
    isOperational: bool)

  /** The JSON answer: HTTP code, `success` and `message`; `detailed` when the
      error object and its stack are included too. */
  datatype Response = Response(code: int, success: bool, message: string, detailed: bool)

  /** `${statusCode}`.startsWith('4'). */
  predicate LeadsWithFour(code: int)
  {
    Text.DecimalText(code)[0] == '4'
  }

  /** `new AppError(statusCode, message)`. */
  function AppError(statusCode: int, message: string): (e: ErrorValue)
    ensures e.isOperational && e.statusCode == Some(statusCode) && e.message == message
    ensures e.status == Some(if LeadsWithFour(statusCode) then "fail" else "error")
  {
    ErrorValue(Some(statusCode), Some(if LeadsWithFour(statusCode) then "fail" else "error"), message, true)
  }

  /** The status is "fail" exactly for the codes in a band [4 * 10^k, 5 * 10^k):
      every 4xx code, 4 and 40..49 among others; negative codes and every 5xx
      code give "error". */
  lemma StatusBands(statusCode: int, message: string)
    ensures AppError(statusCode, message).status == Some("fail") <==>
      statusCode >= 0 && exists k: nat :: Text.InFourBand(statusCode, k)
    ensures 400 <= statusCode < 500 ==> AppError(statusCode, message).status == Some("fail")
    ensures statusCode < 0 || 500 <= statusCode < 600 ==> AppError(statusCode, message).status == Some("error")
  {
    if statusCode >= 0 {
      Text.LeadingFour(statusCode);
      if 400 <= statusCode < 500 {
        assert Text.InFourBand(statusCode, 2);
      } else if 500 <= statusCode < 600 {
        assert Text.Digits(statusCode / 10) == Text.Digits(statusCode / 100) + [Text.DigitChar(statusCode / 10 % 10)];
        assert Text.Digits(statusCode)[0] == Text.Digits(statusCode / 100)[0] == '5';
      }
    } else {
      assert Text.DecimalText(statusCode)[0] == '-';
    }
  }

  /** `createError(statusCode, message)`: an `AppError` built by a function. */
  function CreateError(statusCode: int, message: string): (e: ErrorValue)
    ensures e.isOperational && e.statusCode == Some(statusCode) && e.message == message
    ensures e.status == Some(if LeadsWithFour(statusCode) then "fail" else "error")
  {
    AppError(statusCode, message)
  }

  /** The error a handler's failure turns into: an `AppError` with the reason's
      message, or a plain error thrown by the persistence layer. */
  function ErrorOf(f: Failure): (e: ErrorValue)
    ensures f.Operational? ==> e == AppError(f.code, Message(f.reason))
    ensures f.Unexpected? ==> !e.isOperational && e.statusCode.None? && e.message == Message(f.reason)
  {
    match f
    case Operational(code, reason) => AppError(code, Message(reason))
    case Unexpected(reason) => ErrorValue(None, None, Message(reason), false)
  }

  /** Lines 20-21 of the handler: a falsy code becomes 500, a falsy status "error". */
  function WithDefaults(err: ErrorValue): (e: ErrorValue)
    ensures e.statusCode.Some? && e.statusCode.value != 0
    ensures e.status.Some? && e.status.value != ""
    ensures err.statusCode.Some? && err.statusCode.value != 0 ==> e.statusCode == err.statusCode
    ensures err.status.Some? && err.status.value != "" ==> e.status == err.status
    ensures e.message == err.message && e.isOperational == err.isOperational
  {
    err.(statusCode := if err.statusCode.None? || err.statusCode.value == 0 then Some(500) else err.statusCode,
         status := if err.status.None? || err.status.value == "" then Some("error") else err.status)
  }

  /** `errorHandler`: the error with its defaults filled in, and the answer.
      In development everything is shown; otherwise an operational error shows
      its own code and message and anything else a generic 500. */
  function ErrorHandler(err: ErrorValue, development: bool): (out: (ErrorValue, Response))
    ensures out.0 == WithDefaults(err)
    ensures !out.1.success
    ensures development ==> out.1 == Response(out.0.statusCode.value, false, err.message, true)
    ensures !development && err.isOperational ==> out.1 == Response(out.0.statusCode.value, false, err.message, false)
    ensures !development && !err.isOperational ==> out.1 == Response(500, false, "Something went wrong!", false)
  {
    var e := WithDefaults(err);
    if development then (e, Response(e.statusCode.value, false, e.message, true))
    else if e.isOperational then (e, Response(e.statusCode.value, false, e.message, false))
    else (e, Response(500, false, "Something went wrong!", false))
  }

  /** In production, a handler's failure reaches the client as its own code
      and message when it is an `AppError`, and as nothing but a generic 500
      otherwise: two unexpected errors are indistinguishable. */
  lemma ProductionAnswers(f: Failure, g: Failure)
    ensures f.Operational? && f.code != 0 ==>
      ErrorHandler(ErrorOf(f), false).1 == Response(f.code, false, Message(f.reason), false)
    ensures f.Unexpected? && g.Unexpected? ==> ErrorHandler(ErrorOf(f), false).1 == ErrorHandler(ErrorOf(g), false).1
    ensures f.Unexpected? ==> ErrorHandler(ErrorOf(f), false).1.code == 500
  {
  }

  /** Filling in defaults twice changes nothing more. */
  lemma WithDefaultsIdempotent(err: ErrorValue)
    ensures WithDefaults(WithDefaults(err)) == WithDefaults(err)
  {
  }

  /** `field.charAt(0).toUpperCase() + field.slice(1)`. */
  function Capitalize(s: string): (r: string)
    ensures |r| == |s|
    ensures |s| > 0 ==> r[0] == Text.UpperChar(s[0]) && r[1..] == s[1..]
  {
    if s == "" then "" else [Text.UpperChar(s[0])] + s[1..]
  }

  /** `handleDuplicateKeyError(err)` from the key names of `err.keyValue`; `None`
      when there are none, where the JavaScript fails reading the first key. */
  function HandleDuplicateKeyError(keys: seq<string>): (r: Option<ErrorValue>)
    ensures r.Some? <==> |keys| > 0
    ensures r.Some? ==> r.value == AppError(400, Capitalize(keys[0]) + " already exists")
  {
    if |keys| == 0 then None else Some(AppError(400, Capitalize(keys[0]) + " already exists"))
  }

  /** The duplicate-key message names the first key, capitalised, and is a
      400 "fail". */
  lemma DuplicateKeyMessage(keys: seq<string>)
    requires |keys| > 0 && |keys[0]| > 0
    ensures var e := HandleDuplicateKeyError(keys).value;
      && e.statusCode == Some(400) && e.status == Some("fail")
      && e.message[..|keys[0]|][1..] == keys[0][1..]
      && e.message[0] == Text.UpperChar(keys[0][0])
      && e.message[|keys[0]|..] == " already exists"
  {
    StatusBands(400, Capitalize(keys[0]) + " already exists");
    var c := Capitalize(keys[0]);
    assert (c + " already exists")[..|keys[0]|] == c;
  }

  const VALIDATION_PREFIX: string := "Invalid input data. "

  /** `handleValidationError(err)` from the messages of `err.errors`. */
  function HandleValidationError(messages: seq<string>): (e: ErrorValue)
    ensures e == AppError(400, VALIDATION_PREFIX + Text.Join(messages, ". "))
  {
    AppError(400, VALIDATION_PREFIX + Text.Join(messages, ". "))
  }

  /** The validation message is a 400 "fail" starting with the fixed prefix,
      followed by the first field message. */
  lemma ValidationMessage(messages: seq<string>)
    ensures var e := HandleValidationError(messages);
      && e.statusCode == Some(400) && e.status == Some("fail")
      && Text.StartsWith(e.message, VALIDATION_PREFIX)
      && (|messages| > 0 ==> Text.StartsWith(e.message[|VALIDATION_PREFIX|..], messages[0]))
      && (|messages| == 0 ==> e.message == VALIDATION_PREFIX)
  {
    var msg := HandleValidationError(messages).message;
    StatusBands(400, msg);
    assert msg[..|VALIDATION_PREFIX|] == VALIDATION_PREFIX;
    if |messages| > 0 {
      Text.JoinStartsWithFirst(messages, ". ");
      assert msg[|VALIDATION_PREFIX|..] == Text.Join(messages, ". ");
    }
  }

  /** `handleJWTError()`. */
  function HandleJWTError(): (e: ErrorValue)
    ensures e.statusCode == Some(401) && e.status == Some("fail") && e.isOperational
  {
    StatusBands(401, "Invalid token. Please log in again.");
    AppError(401, "Invalid token. Please log in again.")
  }

  /** `handleJWTExpiredError()`. */
  function HandleJWTExpiredError(): (e: ErrorValue)
    ensures e.statusCode == Some(401) && e.status == Some("fail") && e.isOperational
  {
    StatusBands(401, "Your token has expired. Please log in again.");
    AppError(401, "Your token has expired. Please log in again.")
  }

  /** The guard's two token failures are exactly these handlers' errors. */
  lemma GuardTokenErrors()
    ensures ErrorOf(Operational(401, InvalidToken)) == HandleJWTError()
    ensures ErrorOf(Operational(401, ExpiredToken)) == HandleJWTExpiredError()
  {
  }
}
