/** backend/src/api/middleware/errorHandler.js: the mapping from a thrown
    error to the response status and JSON body. Logging is not modelled. */
module ErrorHandler {
  import opened Wrappers
  import opened Strings

  /** The thrown value's `message` and `stack`; `None` when missing. */
  datatype JsError = JsError(message: Option<string>, stack: Option<string>)

  /** The response written, or `Throws` when the handler itself throws:
      `err.message.includes` on a missing message raises a TypeError. */
  datatype Response =
    | Reply(status: nat, error: string, stack: Option<string>)
    | Throws

  const DefaultMessage: string := "Internal server error"

  predicate NotFoundMessage(m: string)
  {
    m == "Patient not found" || m == "Staff not found" || m == "Alert not found"
  }

  predicate AuthMessage(m: string)
  {
    m == "Invalid credentials" || m == "Invalid or expired token"
  }

  predicate PermissionMessage(m: string)
  {
    Contains(m, "permission") || Contains(m, "Insufficient")
  }

  predicate AdmissionMessage(m: string)
  {
    Contains(m, "must have an active admission")
  }

  /** The status the if/else chain picks for a message. */
  function StatusFor(m: string): (status: nat)
    ensures status in {400, 401, 403, 404, 500}
    ensures status == 404 <==> NotFoundMessage(m)
    ensures status == 401 <==> !NotFoundMessage(m) && AuthMessage(m)
    ensures status == 403 <==> !NotFoundMessage(m) && !AuthMessage(m) && PermissionMessage(m)
    ensures status == 400 <==>
      !NotFoundMessage(m) && !AuthMessage(m) && !PermissionMessage(m) && AdmissionMessage(m)
    ensures status == 500 <==>
      !NotFoundMessage(m) && !AuthMessage(m) && !PermissionMessage(m) && !AdmissionMessage(m)
  {
    if NotFoundMessage(m) then 404
    else if AuthMessage(m) then 401
    else if PermissionMessage(m) then 403
    else if AdmissionMessage(m) then 400
    else 500
  }

  /** `errorHandler(err, req, res, next)` with `process.env.NODE_ENV`. */
  function Handle(err: JsError, nodeEnv: Option<string>): (r: Response)
    ensures r.Throws? <==> err.message.None?
    ensures r.Reply? ==> r.status == StatusFor(err.message.value)
    ensures r.Reply? ==> r.error == if err.message.value != "" then err.message.value else DefaultMessage
    ensures r.Reply? ==> r.stack == if nodeEnv == Some("development") then err.stack else None
  {
    match err.message
    case None => Throws
    case Some(m) =>
      var message := if m != "" then m else DefaultMessage;
      Reply(StatusFor(m), message, if nodeEnv == Some("development") then err.stack else None)
  }

  /** A message with 'permission' or 'Insufficient' anywhere in it, and not
      one of the exact 404/401 messages, gives 403, even when it also
      mentions a missing admission. */
  lemma PermissionWinsOverAdmission(prefix: string, word: string, suffix: string)
    requires word == "permission" || word == "Insufficient"
    requires !NotFoundMessage(prefix + word + suffix) && !AuthMessage(prefix + word + suffix)
    ensures StatusFor(prefix + word + suffix) == 403
  {
    ContainsPiece(prefix, word, suffix);
  }

  /** A message that mentions a missing admission but no permission words gives 400. */
  lemma AdmissionIsBadRequest(prefix: string, suffix: string)
    requires !PermissionMessage(prefix + "must have an active admission" + suffix)
    requires !NotFoundMessage(prefix + "must have an active admission" + suffix)
    requires !AuthMessage(prefix + "must have an active admission" + suffix)
    ensures StatusFor(prefix + "must have an active admission" + suffix) == 400
  {
    ContainsPiece(prefix, "must have an active admission", suffix);
  }

  /** A message that none of the four rules matches gives 500. */
  lemma NoKeywordIsServerError(m: string)
    requires !NotFoundMessage(m) && !AuthMessage(m)
    requires !PermissionMessage(m) && !AdmissionMessage(m)
    ensures StatusFor(m) == 500
  {
  }

  /** A message without the letters that start the keywords contains none
      of them, so neither substring rule matches it. */
  lemma LetterFreeHasNoKeyword(m: string)
    requires 'p' !in m && 'I' !in m && 'm' !in m
    ensures !PermissionMessage(m) && !AdmissionMessage(m)
  {
    NotContained(m, "permission", 0);
    NotContained(m, "Insufficient", 0);
    NotContained(m, "must have an active admission", 0);
  }

  /** Only the exact 'Alert not found' is a 404: the longer message thrown
      when an alert is missing or resolved falls through to 500. */
  lemma AlertNotFoundOrResolvedIs500(m: string)
    requires m == "Alert not found or already resolved"
    ensures StatusFor(m) == 500
  {
    assert |m| == 35;
    LacksLetter(m, 'p');
    LacksLetter(m, 'I');
    LacksLetter(m, 'm');
    LetterFreeHasNoKeyword(m);
    NoKeywordIsServerError(m);
  }

  lemma LacksLetter(m: string, c: char)
    requires m == "Alert not found or already resolved"
    requires c == 'p' || c == 'I' || c == 'm'
    ensures c !in m
  {
  }

  /** The body is 'Internal server error' for an empty message; the stack is
      sent only in development. */
  lemma HandleExamples(stack: string)
    ensures Handle(JsError(Some(""), Some(stack)), None) == Reply(500, DefaultMessage, None)
    ensures Handle(JsError(Some("Alert not found"), Some(stack)), Some("development")) == Reply(404, "Alert not found", Some(stack))
    ensures Handle(JsError(Some("Alert not found"), Some(stack)), Some("production")) == Reply(404, "Alert not found", None)
  {
    NotContained("", "permission", 0);
    NotContained("", "Insufficient", 0);
    NotContained("", "must have an active admission", 0);
  }
}
