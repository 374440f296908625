/**
 * `POST /api/send-submission`: emails the writer a copy of the submission.
 * Without a configured email client the answer is 500 before the body is
 * read. Otherwise the fields are checked in order (a non-empty email
 * containing '@', a non-empty prompt, a string text, possibly empty), the
 * first failure deciding the 400 message; then the email is sent and the
 * answer is 200, or 500 with the provider's message. In the `catch`, a JSON
 * syntax error is answered 400, any other error 500 with its message.
 */
module SendSubmissionRoute {
  import opened Wrappers
  import opened JsValues
  import opened Http
  import JsText

  const ClientMissing: string :=
    "Email client not initialized. Server configuration error: Resend API Key missing."
  const BadEmail: string := "A valid recipient email is required."
  const BadPrompt: string := "Prompt text is required."
  const BadText: string := "Submission text must be a string."
  const SendFailed: string := "Failed to send email."
  const UnknownProviderError: string := "Unknown Resend error"
  const Sent: string := "Submission email sent successfully!"
  const InvalidJson: string := "Invalid JSON in request body."
  const Unexpected: string := "An unexpected error occurred on the server."

  /** The handler destructures the variable `body`, which names it in the engine's error message. */
  const BodyVariable: string := "body"

  /** What sending gives back: the message id, an error object with its message, or a thrown error. */
  datatype SendOutcome = SendOk(id: Option<string>) | SendError(message: Option<string>) | SendThrew(error: Thrown)

  /** The `catch` clause. */
  function SendCatch(e: Thrown, calls: seq<Call>): Handled {
    if e.SyntaxError? && JsText.Includes(e.message, "JSON.parse") then Responds(400, ErrorBody(InvalidJson), calls)
    else if IsErrorInstance(e) then Responds(500, ErrorBody(e.message), calls)
    else Responds(500, ErrorBody(Unexpected), calls)
  }

  predicate ValidRecipient(v: Option<Json>) {
    Truthy(v) && TypeOf(v) == "string" && JsText.Includes(StringOf(v), "@")
  }

  predicate ValidPrompt(v: Option<Json>) {
    Truthy(v) && TypeOf(v) == "string"
  }

  predicate ValidText(v: Option<Json>) {
    TypeOf(v) == "string"
  }

  /** `POST`, with whether the email client exists, the body read and the send's outcome as inputs. */
  function SendSubmissionPost(clientConfigured: bool, body: BodyRead, send: SendOutcome): Handled {
    if !clientConfigured then Responds(500, ErrorBody(ClientMissing), [])
    else
      var read := [ReadBody];
      match body
      case ReadThrew(e) => SendCatch(e, read)
      case Parsed(v) =>
        match Destructure(v, BodyVariable, "userEmail")
        case Err(e) => SendCatch(e, read)
        case Ok(userEmail) =>
          var prompt := Destructure(v, BodyVariable, "prompt").value;
          var submissionText := Destructure(v, BodyVariable, "submissionText").value;
          if !Truthy(userEmail) || TypeOf(userEmail) != "string" || !JsText.Includes(StringOf(userEmail), "@") then
            Responds(400, ErrorBody(BadEmail), read)
          else if !Truthy(prompt) || TypeOf(prompt) != "string" then
            Responds(400, ErrorBody(BadPrompt), read)
          else if TypeOf(submissionText) != "string" then
            Responds(400, ErrorBody(BadText), read)
          else
            var calls := read + [SendEmail(StringOf(userEmail), StringOf(prompt), StringOf(submissionText))];
            match send
            case SendThrew(e) => SendCatch(e, calls)
            case SendError(message) =>
              var details := if message.Some? && message.value != "" then message.value else UnknownProviderError;
              Responds(500, ErrorWithDetails(SendFailed, details), calls)
            case SendOk(id) => Responds(200, MessageWithResendId(Sent, id), calls)
  }

  /** The three fields of a non-null body. */
  function FieldsOf(v: Json): (Option<Json>, Option<Json>, Option<Json>)
    requires v != JNull
  {
    (Destructure(v, BodyVariable, "userEmail").value, Destructure(v, BodyVariable, "prompt").value, Destructure(v, BodyVariable, "submissionText").value)
  }

  /** Without an email client the answer is 500, before the body is read and with nothing sent. */
  lemma NoClientIs500(body: BodyRead, send: SendOutcome)
    ensures SendSubmissionPost(false, body, send) == Responds(500, ErrorBody(ClientMissing), [])
  {
  }

  /** The recipient check is: a non-empty string with an '@' in it. */
  lemma RecipientRule(v: Option<Json>)
    ensures ValidRecipient(v) <==> v.Some? && v.value.JStr? && v.value.s != "" && '@' in v.value.s
    ensures ValidPrompt(v) <==> v.Some? && v.value.JStr? && v.value.s != ""
    ensures ValidText(Some(JStr(""))) && !ValidText(None)
  {
    if v.Some? && v.value.JStr? {
      JsText.IncludesChar(v.value.s, '@');
    }
  }

  /**
   * The checks run in order and the first failure decides the 400 message:
   * email, then prompt, then text; when all pass exactly one email is sent, to
   * the given address with the given prompt and text.
   */
  lemma ValidationOrder(v: Json, send: SendOutcome)
    requires v != JNull
    ensures var (email, prompt, text) := FieldsOf(v);
      var h := SendSubmissionPost(true, Parsed(v), send);
      && (!ValidRecipient(email) ==> h == Responds(400, ErrorBody(BadEmail), [ReadBody]))
      && (ValidRecipient(email) && !ValidPrompt(prompt) ==> h == Responds(400, ErrorBody(BadPrompt), [ReadBody]))
      && (ValidRecipient(email) && ValidPrompt(prompt) && !ValidText(text) ==>
            h == Responds(400, ErrorBody(BadText), [ReadBody]))
      && (ValidRecipient(email) && ValidPrompt(prompt) && ValidText(text) ==>
            h.calls == [ReadBody, SendEmail(StringOf(email), StringOf(prompt), StringOf(text))])
  {
  }

  /** After a successful validation, the provider's outcome decides: 200 on success, 500 with its message (or a default) on error. */
  lemma ProviderOutcomeMapping(v: Json, send: SendOutcome)
    requires v != JNull
    requires var (email, prompt, text) := FieldsOf(v); ValidRecipient(email) && ValidPrompt(prompt) && ValidText(text)
    ensures var h := SendSubmissionPost(true, Parsed(v), send);
      && (send.SendOk? ==> h.outcome == Respond(Reply(200, MessageWithResendId(Sent, send.id))))
      && (send.SendError? ==> Status(h) == Some(500) && h.outcome.reply.payload.error == SendFailed)
      && (send.SendError? ==> h.outcome == Respond(Reply(500, ErrorWithDetails(SendFailed,
            if send.message.Some? && send.message.value != "" then send.message.value else UnknownProviderError))))
      && (send == SendError(None) || send == SendError(Some("")) ==>
            h.outcome.reply.payload == ErrorWithDetails(SendFailed, UnknownProviderError))
      && (send.SendThrew? && IsErrorInstance(send.error) && !(send.error.SyntaxError? && JsText.Includes(send.error.message, "JSON.parse")) ==>
            h.outcome == Respond(Reply(500, ErrorBody(send.error.message))))
  {
  }

  /**
   * A syntax error from reading the body whose message mentions `JSON.parse`
   * is 400; any other error thrown there, a syntax error without that text
   * included, is 500 carrying its message; a thrown non-`Error` is 500 with the
   * generic message.
   */
  lemma BodyErrorMapping(e: Thrown, send: SendOutcome)
    ensures var h := SendSubmissionPost(true, ReadThrew(e), send);
      && h.calls == [ReadBody]
      && (e.SyntaxError? && JsText.Includes(e.message, "JSON.parse") ==> h.outcome == Respond(Reply(400, ErrorBody(InvalidJson))))
      && (e.SyntaxError? && !JsText.Includes(e.message, "JSON.parse") ==> h.outcome == Respond(Reply(500, ErrorBody(e.message))))
      && (e.TypeError? || e.OtherError? ==> h.outcome == Respond(Reply(500, ErrorBody(e.message))))
      && (e.NonError? ==> h.outcome == Respond(Reply(500, ErrorBody(Unexpected))))
  {
  }

  /**
   * A syntax error whose message has no '.' cannot mention `JSON.parse`, so it
   * is answered 500 with its own message, not 400. The messages V8 gives its
   * JSON parse errors, such as "Unexpected end of JSON input", are of this kind.
   */
  lemma DotlessParseErrorIs500(m: string, send: SendOutcome)
    requires '.' !in m
    ensures SendSubmissionPost(true, ReadThrew(SyntaxError(m)), send) == Responds(500, ErrorBody(m), [ReadBody])
  {
    assert "JSON.parse"[4] == '.';
    JsText.MissingCharExcludes(m, "JSON.parse", '.');
  }

  /** A `null` body is caught by the `catch`: 500 with the engine's message, which names the variable `body`. */
  lemma NullBodyIs500(send: SendOutcome)
    ensures BodyVariable == "body"
    ensures SendSubmissionPost(true, Parsed(JNull), send) ==
      Responds(500, ErrorBody(NullDestructureMessage(BodyVariable, "userEmail")), [ReadBody])
  {
  }

  /** Everything is caught: the handler always responds, with 200, 400 or 500. */
  lemma AlwaysResponds(clientConfigured: bool, body: BodyRead, send: SendOutcome)
    ensures var h := SendSubmissionPost(clientConfigured, body, send);
      h.outcome.Respond? && h.outcome.reply.status in {200, 400, 500}
  {
  }
}
