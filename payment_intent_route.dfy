/**
 * `POST /api/create-payment-intent`: starts a donation. The amount, in cents,
 * must be a number from 100 to 10000 or the answer is 400 and nothing is
 * created. Otherwise a payment intent is created (its metadata carries the
 * donor's email and the signed-in user's id, or the empty string for either),
 * a `pending` donation row is inserted, and the intent's client secret is
 * returned. An insert error is answered 500 "Database error"; anything thrown
 * is answered 500 "Payment failed".
 */
module PaymentIntentRoute {
  import opened Wrappers
  import opened JsValues
  import opened Http

  const InvalidAmount: string := "Invalid amount"
  const DatabaseError: string := "Database error"
  const PaymentFailed: string := "Payment failed"
  const MinAmountCents: real := 100.0
  const MaxAmountCents: real := 10000.0

  /** What creating the payment intent gives back: the intent's id and client secret, or a thrown error. */
  datatype IntentOutcome = IntentCreated(id: string, clientSecret: Option<string>) | IntentThrew(error: Thrown)

  /** `x || ''` for the donor's email. */
  function EmailOrEmpty(v: Option<Json>): Json {
    if Truthy(v) then v.value else JStr("")
  }

  /** `userId || ''`. */
  function UserIdOrEmpty(userId: Option<string>): string {
    if userId.Some? && userId.value != "" then userId.value else ""
  }

  /** The `catch` clause: every thrown error becomes the same 500. */
  function PaymentCatch(calls: seq<Call>): Handled {
    Responds(500, ErrorBody(PaymentFailed), calls)
  }

  /** `POST`, with the body read, the signed-in user's id (`null` when signed out) and the two calls' outcomes as inputs. */
  function PaymentIntentPost(body: BodyRead, userId: Option<string>, intent: IntentOutcome, insert: DbOutcome): Handled {
    var read := [ReadBody];
    match body
    case ReadThrew(_) => PaymentCatch(read)
    case Parsed(v) =>
      match Destructure(v, AwaitedValue, "amount")
      case Err(_) => PaymentCatch(read)
      case Ok(amount) =>
        var donorEmail := Destructure(v, AwaitedValue, "donorEmail").value;
        if TypeOf(amount) != "number" || NumberOf(amount) < MinAmountCents || NumberOf(amount) > MaxAmountCents then
          Responds(400, ErrorBody(InvalidAmount), read)
        else
          var cents := NumberOf(amount);
          var created := read + [CreatePaymentIntent(cents, "usd", EmailOrEmpty(donorEmail), UserIdOrEmpty(userId))];
          match intent
          case IntentThrew(_) => PaymentCatch(created)
          case IntentCreated(id, secret) =>
            var calls := created + [InsertDonation(DonationRow(id, cents, donorEmail, userId, "pending"))];
            match insert
            case DbThrew(_) => PaymentCatch(calls)
            case DbError(_) => Responds(500, ErrorBody(DatabaseError), calls)
            case DbOk(_) => Responds(DefaultStatus, ClientSecret(secret), calls)
  }

  /** The amount the body carries, as the `amount` property. */
  predicate HasAmount(body: BodyRead, amount: Option<Json>) {
    body.Parsed? && Destructure(body.value, AwaitedValue, "amount") == Ok(amount)
  }

  predicate AmountAccepted(amount: Option<Json>) {
    amount.Some? && amount.value.JNum? && 100.0 <= amount.value.n <= 10000.0
  }

  /** An amount is refused exactly when it is not a number of cents from 100 to 10000; a refused amount creates nothing. */
  lemma AmountRange(body: BodyRead, amount: Option<Json>, userId: Option<string>, intent: IntentOutcome, insert: DbOutcome)
    requires HasAmount(body, amount)
    ensures var h := PaymentIntentPost(body, userId, intent, insert);
      !AmountAccepted(amount) <==> Status(h) == Some(400)
    ensures var h := PaymentIntentPost(body, userId, intent, insert);
      !AmountAccepted(amount) ==> h.calls == [ReadBody] && NoWrites(h.calls)
  {
  }

  /**
   * For an accepted amount the intent is created for that many cents in `usd`,
   * with the email and user id defaulting to the empty string; the donation
   * row carries the intent's id, the same amount and status `pending`; and the
   * answer is the client secret, 500 "Database error" for an insert error, or
   * 500 "Payment failed" for anything thrown.
   */
  lemma AcceptedAmountFlow(body: BodyRead, amount: Option<Json>, userId: Option<string>, intent: IntentOutcome, insert: DbOutcome)
    requires HasAmount(body, amount) && AmountAccepted(amount)
    ensures var h := PaymentIntentPost(body, userId, intent, insert);
      var donorEmail := Destructure(body.value, AwaitedValue, "donorEmail").value;
      var create := CreatePaymentIntent(amount.value.n, "usd", EmailOrEmpty(donorEmail), UserIdOrEmpty(userId));
      && (intent.IntentThrew? ==>
            h == Responds(500, ErrorBody(PaymentFailed), [ReadBody, create]))
      && (intent.IntentCreated? ==>
            && h.calls == [ReadBody, create, InsertDonation(DonationRow(intent.id, amount.value.n, donorEmail, userId, "pending"))]
            && (insert.DbError? ==> h.outcome == Respond(Reply(500, ErrorBody(DatabaseError))))
            && (insert.DbThrew? ==> h.outcome == Respond(Reply(500, ErrorBody(PaymentFailed))))
            && (insert.DbOk? ==> h.outcome == Respond(Reply(200, ClientSecret(intent.clientSecret)))))
  {
  }

  /** The metadata defaults: a missing or falsy email and a missing user id become the empty string. */
  lemma MetadataDefaults(donorEmail: Option<Json>, userId: Option<string>)
    ensures !Truthy(donorEmail) ==> EmailOrEmpty(donorEmail) == JStr("")
    ensures Truthy(donorEmail) ==> EmailOrEmpty(donorEmail) == donorEmail.value
    ensures userId.None? ==> UserIdOrEmpty(userId) == ""
    ensures userId.Some? ==> UserIdOrEmpty(userId) == userId.value
  {
  }

  /** Every path ends in a response: nothing escapes the `try`, and the status is 200, 400 or 500. */
  lemma AlwaysResponds(body: BodyRead, userId: Option<string>, intent: IntentOutcome, insert: DbOutcome)
    ensures var h := PaymentIntentPost(body, userId, intent, insert);
      h.outcome.Respond? && h.outcome.reply.status in {200, 400, 500}
  {
  }
}
