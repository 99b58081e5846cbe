/**
 * The error-handling middleware `errorHandler(err, req, res, next)`: it
 * copies the error, replaces the copy when the error is a bad object id, a
 * duplicate key or a validation failure (a later rule overriding an earlier
 * one), and answers with the copy's status and message, falling back to 500
 * and "Server error".
 */
module ErrorHandler {
  import opened Wrappers
  import opened Http

  /** One entry of a validation error's `errors` object. */
  datatype FieldError = FieldError(message: string)

  /**
   * The error passed to the handler, with the fields it reads: `name`,
   * `code`, `value` (the offending id of a cast error), the `errors` object's
   * values in their own order, `statusCode` and `message`. An absent `code`
   * or `statusCode` is `None`.
   */
  datatype Err = Err(
    name: string,
    code: Option<int>,
    value: string,
    errors: seq<FieldError>,
    statusCode: Option<int>,
    message: string)

  /** The local `error` record: the status it carries, if any, and its message. */
  datatype ErrorRecord = ErrorRecord(statusCode: Option<int>, message: Message)

  /** What the handler sends: the status and the JSON body. */
  datatype Reply = Reply(status: int, body: ErrorBody)

  const CastErrorName: string := "CastError"
  const ValidationErrorName: string := "ValidationError"
  const DuplicateKeyCode: int := 11000
  const NotFoundPrefix: string := "resource not found with id of "
  const DuplicateMessage: string := "Duplicate field value entered"
  const ServerError: string := "Server error"
  const DefaultStatus: int := 500

  /** `{...err}` with `message` set again from `err.message`. */
  function Copy(err: Err): (e: ErrorRecord)
    ensures e.statusCode == err.statusCode
    ensures e.message.Plain? && e.message.text == err.message
  {
    ErrorRecord(err.statusCode, Plain(err.message))
  }

  /** `Object.values(err.errors).map(value => value.message)`. */
  function MessagesOf(errors: seq<FieldError>): (r: seq<string>)
    ensures |r| == |errors|
    ensures forall i :: 0 <= i < |errors| ==> r[i] == errors[i].message
  {
    if errors == [] then [] else [errors[0].message] + MessagesOf(errors[1..])
  }

  /**
   * The three rules in the order they are tried; each is the record that
   * replaces the copy when its condition holds.
   */
  function Replacements(err: Err): (rs: seq<Option<ErrorRecord>>)
    ensures |rs| == 3
    ensures rs[0].Some? <==> err.name == CastErrorName
    ensures rs[1].Some? <==> err.code == Some(DuplicateKeyCode)
    ensures rs[2].Some? <==> err.name == ValidationErrorName
  {
    [ if err.name == CastErrorName then Some(ErrorRecord(Some(404), Plain(NotFoundPrefix + err.value))) else None,
      if err.code == Some(DuplicateKeyCode) then Some(ErrorRecord(Some(400), Plain(DuplicateMessage))) else None,
      if err.name == ValidationErrorName then Some(ErrorRecord(Some(400), Messages(MessagesOf(err.errors)))) else None ]
  }

  /** The record left after trying the rules in order: the last one that applied, or `start`. */
  function LastApplied(start: ErrorRecord, rs: seq<Option<ErrorRecord>>): (e: ErrorRecord)
    ensures (forall i :: 0 <= i < |rs| ==> rs[i].None?) ==> e == start
    ensures (exists i :: 0 <= i < |rs| && rs[i].Some?) ==>
      exists i :: 0 <= i < |rs| && rs[i] == Some(e) && forall j :: i < j < |rs| ==> rs[j].None?
  {
    if rs == [] then start
    else
      var last := rs[|rs| - 1];
      if last.Some? then
        assert rs[|rs| - 1] == Some(last.value);
        last.value
      else
        var e := LastApplied(start, rs[..|rs| - 1]);
        assert forall i :: 0 <= i < |rs| - 1 ==> rs[..|rs| - 1][i] == rs[i];
        e
  }

  /** `res.status(error.statusCode || 500).json({success: false, error: error.message || "Server error"})`. */
  function Respond(e: ErrorRecord): (r: Reply)
    ensures r.status != 0 && !r.body.success
    ensures e.statusCode.Some? && e.statusCode.value != 0 ==> r.status == e.statusCode.value
    ensures e.statusCode.None? || e.statusCode.value == 0 ==> r.status == DefaultStatus
    ensures e.message == Plain([]) ==> r.body.error == Plain(ServerError)
    ensures e.message != Plain([]) ==> r.body.error == e.message
  {
    Reply(
      if e.statusCode.Some? && e.statusCode.value != 0 then e.statusCode.value else DefaultStatus,
      ErrorBody(false, if e.message == Plain([]) then Plain(ServerError) else e.message))
  }

  /** The handler as one value: the reply for an error. */
  function Classify(err: Err): (r: Reply)
    ensures !r.body.success && r.status != 0
  {
    Respond(LastApplied(Copy(err), Replacements(err)))
  }

  /**
   * The handler: copies the error, replaces the copy rule by rule, then sets
   * the status and the body of the response. Nothing else of the response
   * changes.
   */
  method HandleError(err: Err, res: Response)
    modifies res`statusCode, res`body
    ensures res.statusCode == Classify(err).status
    ensures res.body == Some(Classify(err).body)
  {
    // The spread copies the own enumerable fields, which leaves out an
    // error's `message`; it is set again right after.
    var error := ErrorRecord(err.statusCode, Plain([]));
    error := error.(message := Plain(err.message));
    ghost var rs := Replacements(err);
    assert error == LastApplied(Copy(err), rs[..0]);

    if err.name == CastErrorName {
      var message := NotFoundPrefix + err.value;
      error := ErrorRecord(Some(404), Plain(message));
    }
    assert error == LastApplied(Copy(err), rs[..1]);

    if err.code == Some(DuplicateKeyCode) {
      var message := DuplicateMessage;
      error := ErrorRecord(Some(400), Plain(message));
    }
    assert rs[..2][..1] == rs[..1];
    assert error == LastApplied(Copy(err), rs[..2]);

    if err.name == ValidationErrorName {
      var message := MessagesOf(err.errors);
      error := ErrorRecord(Some(400), Messages(message));
    }
    assert rs[..3][..2] == rs[..2];
    assert rs[..3] == rs;

    var status := if error.statusCode.Some? && error.statusCode.value != 0 then error.statusCode.value else DefaultStatus;
    res.statusCode := status;
    res.body := Some(ErrorBody(false, if error.message == Plain([]) then Plain(ServerError) else error.message));
  }

  // ---------------------------------------------------------------------------
  // What each rule gives

  /** A cast error that is not also a duplicate key is a 404 naming the id. */
  lemma CastErrorIsNotFound(err: Err)
    requires err.name == CastErrorName && err.code != Some(DuplicateKeyCode)
    ensures Classify(err).status == 404
    ensures Classify(err).body == ErrorBody(false, Plain(NotFoundPrefix + err.value))
  {
    var rs := Replacements(err);
    assert LastApplied(Copy(err), rs) == LastApplied(Copy(err), rs[..2]);
    assert LastApplied(Copy(err), rs[..2]) == LastApplied(Copy(err), rs[..2][..1]);
    assert rs[..2][..1] == rs[..1];
  }

  /** A duplicate key that is not a validation error is a 400, whatever its name (a cast error included). */
  lemma DuplicateKeyIsBadRequest(err: Err)
    requires err.code == Some(DuplicateKeyCode) && err.name != ValidationErrorName
    ensures Classify(err).status == 400
    ensures Classify(err).body == ErrorBody(false, Plain(DuplicateMessage))
  {
    var rs := Replacements(err);
    assert LastApplied(Copy(err), rs) == LastApplied(Copy(err), rs[..2]);
  }

  /** A validation error is a 400 listing its field messages in order, whatever its code. */
  lemma ValidationErrorListsMessages(err: Err)
    requires err.name == ValidationErrorName
    ensures Classify(err).status == 400
    ensures Classify(err).body.error == Messages(MessagesOf(err.errors))
  {
  }

  /**
   * An error no rule applies to keeps its own status if it has a non-zero
   * one, else 500, and its own message, else "Server error".
   */
  lemma UnmatchedKeepsOwnFields(err: Err)
    requires err.name != CastErrorName && err.name != ValidationErrorName
    requires err.code != Some(DuplicateKeyCode)
    ensures Classify(err).status == if err.statusCode.Some? && err.statusCode.value != 0 then err.statusCode.value else DefaultStatus
    ensures Classify(err).body.error == Plain(if err.message == [] then ServerError else err.message)
  {
    var rs := Replacements(err);
    assert LastApplied(Copy(err), rs) == LastApplied(Copy(err), rs[..2]);
    assert LastApplied(Copy(err), rs[..2]) == LastApplied(Copy(err), rs[..2][..1]);
    assert rs[..2][..1] == rs[..1];
    assert LastApplied(Copy(err), rs[..1]) == LastApplied(Copy(err), rs[..1][..0]);
  }
}
