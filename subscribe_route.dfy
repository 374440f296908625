/**
 * `POST /api/subscribe`: registers an email address. Without a database
 * client the answer is 500. An email that is not a non-empty string with an
 * '@' is answered 400. The address is stored lower-cased; a duplicate is
 * answered 200 "already registered", any other insert error 500, success 201.
 * Anything thrown is answered 500 with the error's message.
 */
module SubscribeRoute {
  import opened Wrappers
  import opened JsValues
  import opened Http
  import JsText

  const ClientMissing: string := "Database client not initialized due to server configuration error."
  const BadEmail: string := "A valid email address is required."
  const AlreadyRegistered: string := "This email address is already registered!"
  const RegisterFailed: string := "Failed to register email. Please try again later."
  const Registered: string := "Thank you for registering!"
  const Unexpected: string := "An unexpected error occurred on the server."

  /** The `catch` clause: an `Error`'s message, or a generic one. */
  function SubscribeCatch(e: Thrown, calls: seq<Call>): Handled {
    Responds(500, ErrorBody(if IsErrorInstance(e) then e.message else Unexpected), calls)
  }

  predicate ValidEmail(v: Option<Json>) {
    Truthy(v) && TypeOf(v) == "string" && JsText.Includes(StringOf(v), "@")
  }

  /** `POST`, with whether the database client exists, the body read and the insert's outcome as inputs. */
  function SubscribePost(clientConfigured: bool, body: BodyRead, insert: DbOutcome): Handled {
    if !clientConfigured then Responds(500, ErrorBody(ClientMissing), [])
    else
      var read := [ReadBody];
      match body
      case ReadThrew(e) => SubscribeCatch(e, read)
      case Parsed(v) =>
        match Destructure(v, AwaitedValue, "email")
        case Err(e) => SubscribeCatch(e, read)
        case Ok(email) =>
          if !Truthy(email) || TypeOf(email) != "string" || !JsText.Includes(StringOf(email), "@") then
            Responds(400, ErrorBody(BadEmail), read)
          else
            var calls := read + [InsertRegisteredUser(JsText.ToLowerCase(StringOf(email)))];
            match insert
            case DbThrew(e) => SubscribeCatch(e, calls)
            case DbError(code) =>
              if code == UniqueViolation then Responds(200, MessageBody(AlreadyRegistered), calls)
              else Responds(500, ErrorBody(RegisterFailed), calls)
            case DbOk(data) => Responds(201, MessageWithData(Registered, data), calls)
  }

  /** Without a database client the answer is 500 and the body is not read. */
  lemma NoClientIs500(body: BodyRead, insert: DbOutcome)
    ensures SubscribePost(false, body, insert) == Responds(500, ErrorBody(ClientMissing), [])
  {
  }

  /** The email check is: a non-empty string with an '@' in it; anything else is 400 with nothing inserted. */
  lemma EmailRule(v: Json, insert: DbOutcome)
    requires v != JNull
    ensures var email := Destructure(v, AwaitedValue, "email").value;
      ValidEmail(email) <==> email.Some? && email.value.JStr? && email.value.s != "" && '@' in email.value.s
    ensures var email := Destructure(v, AwaitedValue, "email").value;
      !ValidEmail(email) <==> Status(SubscribePost(true, Parsed(v), insert)) == Some(400)
    ensures var email := Destructure(v, AwaitedValue, "email").value;
      !ValidEmail(email) ==> NoWrites(SubscribePost(true, Parsed(v), insert).calls)
  {
    var email := Destructure(v, AwaitedValue, "email").value;
    if email.Some? && email.value.JStr? {
      JsText.IncludesChar(email.value.s, '@');
    }
  }

  /**
   * The stored address is the lower-cased input; it still passes the email
   * check, and two inputs that differ only in the case of ASCII letters are
   * stored as the same address.
   */
  lemma StoresLowercased(v: Json, insert: DbOutcome, s: string)
    requires v != JNull && Destructure(v, AwaitedValue, "email") == Ok(Some(JStr(s))) && ValidEmail(Some(JStr(s)))
    ensures SubscribePost(true, Parsed(v), insert).calls == [ReadBody, InsertRegisteredUser(JsText.ToLowerCase(s))]
    ensures ValidEmail(Some(JStr(JsText.ToLowerCase(s))))
    ensures JsText.ToLowerCase(JsText.ToLowerCase(s)) == JsText.ToLowerCase(s)
  {
    JsText.IncludesChar(s, '@');
    JsText.ToLowerCaseKeepsAt(s);
    JsText.ToLowerCaseAt(s);
    JsText.IncludesChar(JsText.ToLowerCase(s), '@');
    JsText.ToLowerCaseIdempotent(s);
  }

  /** The insert's outcome decides: a duplicate is 200 with a message, not an error; any other error 500; success 201. */
  lemma InsertOutcomeMapping(v: Json, insert: DbOutcome)
    requires v != JNull && ValidEmail(Destructure(v, AwaitedValue, "email").value)
    ensures var h := SubscribePost(true, Parsed(v), insert);
      && (insert == DbError(UniqueViolation) ==> h.outcome == Respond(Reply(200, MessageBody(AlreadyRegistered))))
      && (insert.DbError? && insert.code != UniqueViolation ==> h.outcome == Respond(Reply(500, ErrorBody(RegisterFailed))))
      && (insert.DbOk? ==> h.outcome == Respond(Reply(201, MessageWithData(Registered, insert.data))))
      && (insert.DbThrew? && IsErrorInstance(insert.error) ==> h.outcome == Respond(Reply(500, ErrorBody(insert.error.message))))
  {
  }

  /** Everything is caught: the handler always responds, with 200, 201, 400 or 500. */
  lemma AlwaysResponds(clientConfigured: bool, body: BodyRead, insert: DbOutcome)
    ensures var h := SubscribePost(clientConfigured, body, insert);
      h.outcome.Respond? && h.outcome.reply.status in {200, 201, 400, 500}
  {
  }
}
