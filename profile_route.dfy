/**
 * `POST /api/profile`: sets the signed-in user's username. It answers 401
 * without a session, 400 for a username that is not 3 to 20 characters of
 * `a-z`, `0-9` and `_`, 409 when the name is taken, 500 for any other update
 * error, and the default status with a success message otherwise. Reading the
 * body and the update are outside any `try`, so what they throw escapes.
 */
module ProfileRoute {
  import opened Wrappers
  import opened JsValues
  import opened Http
  import JsText

  const NotLoggedIn: string := "You must be logged in to update your profile."
  const InvalidUsername: string :=
    "Username must be 3-20 characters long and can only contain lowercase letters, numbers, and underscores."
  const UsernameTaken: string := "This username is already taken."
  const UpdateFailed: string := "Failed to update username."
  const UsernameUpdated: string := "Username updated successfully!"

  /** The character class `[a-z0-9_]`. */
  predicate InUsernameClass(c: char) {
    ('a' <= c <= 'z') || ('0' <= c <= '9') || c == '_'
  }

  /** Does all of `s` match `[a-z0-9_]{lo,hi}`? One character of the class per step, as a regex engine consumes it. */
  predicate MatchesClassRepeat(s: string, lo: nat, hi: nat)
    decreases |s|
  {
    if s == [] then lo == 0
    else hi > 0 && InUsernameClass(s[0]) && MatchesClassRepeat(s[1..], if lo > 0 then lo - 1 else 0, hi - 1)
  }

  /** `/^[a-z0-9_]{3,20}$/.test(s)`. */
  predicate UsernamePattern(s: string) {
    MatchesClassRepeat(s, 3, 20)
  }

  /** `POST`, with the session's user id, the body read and the update's outcome as inputs. */
  function ProfilePost(user: Option<string>, body: BodyRead, update: DbOutcome): Handled {
    if user.None? then Responds(401, ErrorBody(NotLoggedIn), [GetUser])
    else
      var read := [GetUser, ReadBody];
      match body
      case ReadThrew(e) => Handled(Uncaught(e), read)
      case Parsed(v) =>
        match Destructure(v, AwaitedValue, "username")
        case Err(e) => Handled(Uncaught(e), read)
        case Ok(username) =>
          if !Truthy(username) || TypeOf(username) != "string" || !UsernamePattern(StringOf(username)) then
            Responds(400, ErrorBody(InvalidUsername), read)
          else
            var calls := read + [UpdateUsername(user.value, StringOf(username))];
            match update
            case DbThrew(e) => Handled(Uncaught(e), calls)
            case DbError(code) =>
              if code == UniqueViolation then Responds(409, ErrorBody(UsernameTaken), calls)
              else Responds(500, ErrorBody(UpdateFailed), calls)
            case DbOk(_) => Responds(DefaultStatus, MessageBody(UsernameUpdated), calls)
  }

  /** The username the body carries, if it passes the guard. */
  predicate AcceptedUsername(body: BodyRead, name: string) {
    body.Parsed? && Destructure(body.value, AwaitedValue, "username") == Ok(Some(JStr(name))) && UsernamePattern(name)
  }

  /** The pattern accepts exactly the strings of 3 to 20 characters drawn from `a-z`, `0-9` and `_`. */
  lemma {:induction false} ClassRepeatIff(s: string, lo: nat, hi: nat)
    ensures MatchesClassRepeat(s, lo, hi) <==>
              lo <= |s| <= hi && forall i :: 0 <= i < |s| ==> InUsernameClass(s[i])
    decreases |s|
  {
    if s != [] {
      ClassRepeatIff(s[1..], if lo > 0 then lo - 1 else 0, if hi > 0 then hi - 1 else 0);
      if hi > 0 && InUsernameClass(s[0]) {
        assert forall i :: 1 <= i < |s| ==> s[i] == s[1..][i - 1];
      }
    }
  }

  lemma UsernameValidIff(s: string)
    ensures UsernamePattern(s) <==> 3 <= |s| <= 20 && forall i :: 0 <= i < |s| ==> InUsernameClass(s[i])
  {
    ClassRepeatIff(s, 3, 20);
  }

  /** Upper-case letters are always rejected, and input lower-cased as the onboarding form does it has none. */
  lemma UppercaseRejected(s: string)
    ensures (exists i :: 0 <= i < |s| && JsText.IsAsciiUpper(s[i])) ==> !UsernamePattern(s)
    ensures forall i :: 0 <= i < |JsText.ToLowerCase(s)| ==> !JsText.IsAsciiUpper(JsText.ToLowerCase(s)[i])
  {
    UsernameValidIff(s);
    JsText.ToLowerCaseHasNoUpper(s);
  }

  /** Without a session the answer is 401, before the body is read and without any update. */
  lemma UnauthenticatedIs401(body: BodyRead, update: DbOutcome)
    ensures ProfilePost(None, body, update) == Responds(401, ErrorBody(NotLoggedIn), [GetUser])
  {
  }

  /**
   * For a signed-in user, a missing, non-string or ill-formed username is
   * answered 400 and nothing is updated; a well-formed one leads to exactly one
   * update, of the session user's row, with that name.
   */
  lemma UsernameGuard(userId: string, v: Json, update: DbOutcome)
    requires v != JNull
    ensures var h := ProfilePost(Some(userId), Parsed(v), update);
      (forall name :: !AcceptedUsername(Parsed(v), name)) <==> Status(h) == Some(400)
    ensures var h := ProfilePost(Some(userId), Parsed(v), update);
      Status(h) == Some(400) ==> h.calls == [GetUser, ReadBody] && NoWrites(h.calls)
    ensures forall name :: AcceptedUsername(Parsed(v), name) ==>
      ProfilePost(Some(userId), Parsed(v), update).calls == [GetUser, ReadBody, UpdateUsername(userId, name)]
  {
    var u := Destructure(v, AwaitedValue, "username");
    TruthyString(u.value);
    if u.value.Some? && u.value.value.JStr? && UsernamePattern(u.value.value.s) {
      assert AcceptedUsername(Parsed(v), u.value.value.s);
    }
  }

  /** The update's outcome decides the answer: 409 for a duplicate name, 500 for any other error, the default 200 on success. */
  lemma UpdateOutcomeMapping(userId: string, body: BodyRead, name: string, update: DbOutcome)
    requires AcceptedUsername(body, name)
    ensures var h := ProfilePost(Some(userId), body, update);
      && (update == DbError(UniqueViolation) ==> h.outcome == Respond(Reply(409, ErrorBody(UsernameTaken))))
      && (update.DbError? && update.code != UniqueViolation ==> h.outcome == Respond(Reply(500, ErrorBody(UpdateFailed))))
      && (update.DbOk? ==> h.outcome == Respond(Reply(200, MessageBody(UsernameUpdated))))
      && (update.DbThrew? ==> h.outcome == Uncaught(update.error))
  {
  }

  /** A `null` body escapes the handler as the engine's `TypeError`, which names the awaited call's result, and nothing is updated. */
  lemma NullBodyEscapes(userId: string, update: DbOutcome)
    ensures AwaitedValue == "(intermediate value)"
    ensures ProfilePost(Some(userId), Parsed(JNull), update) ==
      Handled(Uncaught(TypeError(NullDestructureMessage(AwaitedValue, "username"))), [GetUser, ReadBody])
  {
  }

  /** Every update the handler makes targets the session user's row, whatever the body says. */
  lemma UpdatesOnlyOwnRow(userId: string, body: BodyRead, update: DbOutcome)
    ensures var h := ProfilePost(Some(userId), body, update);
      forall i :: 0 <= i < |h.calls| && h.calls[i].UpdateUsername? ==> h.calls[i].userId == userId
  {
  }
}
