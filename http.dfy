/**
 * What a route handler produces: the JSON response it returns (status and
 * body) or the error that escapes it, together with the external calls it made,
 * in order. The outcomes of the database, payment and email calls are inputs
 * of the handlers, since those services are not part of the model.
 */
module Http {
  import opened Wrappers
  import opened JsValues

  /** The body of a JSON response, one variant per shape the routes build. */
  datatype Payload =
    | ErrorBody(error: string)
    | ErrorWithDetails(error: string, details: string)
    | MessageBody(message: string)
    | MessageWithResendId(message: string, resendId: Option<string>)
    | MessageWithData(message: string, data: Json)
    | ClientSecret(clientSecret: Option<string>)

  /** `NextResponse.json(payload, { status })`; without a status the response is 200. */
  datatype Reply = Reply(status: int, payload: Payload)

  const DefaultStatus: int := 200

  /** A response, or an error thrown out of the handler (the framework then answers for it). */
  datatype Outcome = Respond(reply: Reply) | Uncaught(error: Thrown)

  /** A row of the `donations` table. */
  datatype DonationRow = DonationRow(
    stripePaymentIntentId: string,
    amount: real,
    donorEmail: Option<Json>,
    clerkId: Option<string>,
    status: string)

  /** A row of the `submissions` table. */
  datatype SubmissionRow = SubmissionRow(
    userId: string,
    promptId: real,
    submissionText: string,
    isAnonymous: bool)

  /** An external call a handler makes. */
  datatype Call =
    | GetUser
    | ReadBody
    | UpdateUsername(userId: string, username: string)
    | CreatePaymentIntent(amount: real, currency: string, donorEmailMeta: Json, clerkIdMeta: string)
    | InsertDonation(donation: DonationRow)
    | SendEmail(to: string, prompt: string, submissionText: string)
    | InsertRegisteredUser(email: string)
    | InsertSubmission(submission: SubmissionRow)

  datatype Handled = Handled(outcome: Outcome, calls: seq<Call>)

  /** What a database call gives back: rows, an error object with its code, or a thrown error. */
  datatype DbOutcome = DbOk(data: Json) | DbError(code: string) | DbThrew(error: Thrown)

  /** The PostgreSQL error code for a unique-constraint violation. */
  const UniqueViolation: string := "23505"

  function Responds(status: int, payload: Payload, calls: seq<Call>): Handled {
    Handled(Respond(Reply(status, payload)), calls)
  }

  predicate IsWrite(c: Call) {
    c.UpdateUsername? || c.CreatePaymentIntent? || c.InsertDonation? || c.SendEmail? ||
    c.InsertRegisteredUser? || c.InsertSubmission?
  }

  /** No call in the list changes anything outside the handler. */
  predicate NoWrites(calls: seq<Call>) {
    forall i :: 0 <= i < |calls| ==> !IsWrite(calls[i])
  }

  function Status(h: Handled): Option<int> {
    if h.outcome.Respond? then Some(h.outcome.reply.status) else None
  }
}
