/**
 * `POST /api/save-submission`: records a finished submission for the
 * signed-in user. Without a session the answer is 401 before the body is
 * read. The body must carry a numeric `promptId`, a string `submissionText`
 * (possibly empty) and a boolean `isAnonymous`, or the answer is 400. The row
 * takes the user id from the session and the three fields unchanged; an insert
 * error is 500, success 201. Nothing here is inside a `try`.
 */
module SaveSubmissionRoute {
  import opened Wrappers
  import opened JsValues
  import opened Http

  const NotLoggedIn: string := "You must be logged in to submit."
  const InvalidFormat: string := "Invalid data format."
  const SaveFailed: string := "Failed to save submission."
  const Saved: string := "Submission saved successfully!"

  predicate WellTyped(promptId: Option<Json>, submissionText: Option<Json>, isAnonymous: Option<Json>) {
    TypeOf(promptId) == "number" && TypeOf(submissionText) == "string" && TypeOf(isAnonymous) == "boolean"
  }

  /** `POST`, with the session's user id, the body read and the insert's outcome as inputs. */
  function SaveSubmissionPost(user: Option<string>, body: BodyRead, insert: DbOutcome): Handled {
    if user.None? then Responds(401, ErrorBody(NotLoggedIn), [GetUser])
    else
      var read := [GetUser, ReadBody];
      match body
      case ReadThrew(e) => Handled(Uncaught(e), read)
      case Parsed(v) =>
        match Destructure(v, AwaitedValue, "promptId")
        case Err(e) => Handled(Uncaught(e), read)
        case Ok(promptId) =>
          var submissionText := Destructure(v, AwaitedValue, "submissionText").value;
          var isAnonymous := Destructure(v, AwaitedValue, "isAnonymous").value;
          if TypeOf(promptId) != "number" || TypeOf(submissionText) != "string" || TypeOf(isAnonymous) != "boolean" then
            Responds(400, ErrorBody(InvalidFormat), read)
          else
            var row := SubmissionRow(user.value, NumberOf(promptId), StringOf(submissionText), BoolOf(isAnonymous));
            var calls := read + [InsertSubmission(row)];
            match insert
            case DbThrew(e) => Handled(Uncaught(e), calls)
            case DbError(_) => Responds(500, ErrorBody(SaveFailed), calls)
            case DbOk(_) => Responds(201, MessageBody(Saved), calls)
  }

  /** Without a session the answer is 401, before the body is parsed. */
  lemma UnauthenticatedIs401(body: BodyRead, insert: DbOutcome)
    ensures SaveSubmissionPost(None, body, insert) == Responds(401, ErrorBody(NotLoggedIn), [GetUser])
  {
  }

  /** A body whose fields are not a number, a string and a boolean is answered 400 and nothing is inserted. */
  lemma TypeGuard(userId: string, v: Json, insert: DbOutcome)
    requires v != JNull
    ensures var h := SaveSubmissionPost(Some(userId), Parsed(v), insert);
      var (p, t, a) := (Destructure(v, AwaitedValue, "promptId").value, Destructure(v, AwaitedValue, "submissionText").value, Destructure(v, AwaitedValue, "isAnonymous").value);
      !WellTyped(p, t, a) <==> Status(h) == Some(400)
    ensures var h := SaveSubmissionPost(Some(userId), Parsed(v), insert);
      Status(h) == Some(400) ==> h.calls == [GetUser, ReadBody] && NoWrites(h.calls)
  {
  }

  /**
   * A well-typed body, the empty text included, leads to exactly one insert,
   * of a row whose user id is the session's and whose other fields are the
   * body's, unchanged; the answer is 500 on an insert error and 201 otherwise.
   */
  lemma RecordConstruction(userId: string, v: Json, promptId: real, text: string, anonymous: bool, insert: DbOutcome)
    requires v.JObj? && "promptId" in v.fields && "submissionText" in v.fields && "isAnonymous" in v.fields
    requires v.fields["promptId"] == JNum(promptId)
    requires v.fields["submissionText"] == JStr(text)
    requires v.fields["isAnonymous"] == JBool(anonymous)
    ensures var h := SaveSubmissionPost(Some(userId), Parsed(v), insert);
      && h.calls == [GetUser, ReadBody, InsertSubmission(SubmissionRow(userId, promptId, text, anonymous))]
      && (insert.DbError? ==> h.outcome == Respond(Reply(500, ErrorBody(SaveFailed))))
      && (insert.DbOk? ==> h.outcome == Respond(Reply(201, MessageBody(Saved))))
  {
  }

  /** The user id of every inserted row is the session's, whatever fields the body carries. */
  lemma UserIdFromSession(userId: string, body: BodyRead, insert: DbOutcome)
    ensures var h := SaveSubmissionPost(Some(userId), body, insert);
      forall i :: 0 <= i < |h.calls| && h.calls[i].InsertSubmission? ==> h.calls[i].submission.userId == userId
  {
  }
}
