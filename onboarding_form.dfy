/** The onboarding form: the username input, its validity flag, the submit
    button's state and the submit handler, which posts the username to
    `/api/profile/update`, replaces the session's username and navigates to
    the dashboard. */
module OnboardingForm {
  import opened Wrappers
  import opened Js

  /** `[a-zA-Z0-9_]` */
  predicate IsWordChar(c: char) {
    ('a' <= c <= 'z') || ('A' <= c <= 'Z') || ('0' <= c <= '9') || c == '_'
  }

  /** `/^[a-zA-Z0-9_]{3,20}$/.test(username)` */
  predicate ValidUsername(s: string) {
    3 <= |s| <= 20 && forall i :: 0 <= i < |s| ==> IsWordChar(s[i])
  }

  /** The guard of `handleSubmit`: `!username || username.length < 3 || !regex.test(username)`. */
  predicate RejectedBeforeSend(s: string) {
    s == "" || |s| < 3 || !ValidUsername(s)
  }

  /** The `isFormValid` effect: `username.trim() !== ""`. */
  predicate FormValid(s: string) {
    Trim(s) != ""
  }

  /** `disabled={isLoading || username.length < 3}` on the submit button. */
  predicate SubmitDisabled(isLoading: bool, s: string) {
    isLoading || |s| < 3
  }

  /** The form counts as valid exactly when the input holds a character that is
      not white space. */
  lemma FormValidIffNotBlank(s: string)
    ensures FormValid(s) <==> exists i :: 0 <= i < |s| && !IsJsWhitespace(s[i])
  {
    TrimEmptyIffBlank(s);
  }

  /** A username the submit handler accepts also makes the form valid and, while
      nothing is loading, enables the submit button. */
  lemma ValidUsernameEnablesSubmit(s: string)
    requires !RejectedBeforeSend(s)
    ensures ValidUsername(s)
    ensures FormValid(s) && !SubmitDisabled(false, s)
  {
    assert !IsJsWhitespace(s[0]);
    FormValidIffNotBlank(s);
  }

  /** The handler's guard rejects exactly the usernames the pattern rejects; the
      emptiness and length tests before it decide nothing on their own. */
  lemma GuardIsThePattern(s: string)
    ensures RejectedBeforeSend(s) <==> !ValidUsername(s)
  {
  }

  const InvalidUsernameMessage := "Username must be 3-20 characters long and contain only letters, numbers, or underscores."
  const DefaultFailureMessage := "Failed to update username."
  const SuccessMessage := "Username set successfully! Redirecting to dashboard..."
  const UnexpectedMessage := "An unexpected error occurred."

  /** What the request to `/api/profile/update` comes back with: it threw (the
      fetch, or parsing the body as JSON), or it replied with `res.ok`, the body's
      `ok` and the body's `error`. */
  datatype Reply = FetchThrew | Replied(resOk: bool, dataOk: bool, error: Option<string>)

  datatype Navigation = Refresh | Push(path: string)

  class Form {
    var username: string
    var message: string
    var isError: bool
    var isLoading: bool
    var isFormValid: bool
    /** `session.user.username` as the client session holds it. */
    var sessionUsername: Option<string>
    /** The usernames posted to `/api/profile/update`, in order. */
    var requests: seq<string>
    /** The calls made on the router, in order. */
    var navigations: seq<Navigation>

    /** `isFormValid` follows the input; only valid usernames are ever posted;
        the dashboard is reached only once the session holds a valid username. */
    ghost predicate Valid()
      reads this
    {
      && isFormValid == FormValid(username)
      && (forall i :: 0 <= i < |requests| ==> ValidUsername(requests[i]))
      && (Push("/dashboard") in navigations ==> sessionUsername.Some? && ValidUsername(sessionUsername.value))
    }

    /** The form as first rendered, for a session that has no username yet. */
    constructor()
      ensures Valid()
      ensures username == "" && message == "" && !isError && !isLoading && !isFormValid
      ensures sessionUsername == None && requests == [] && navigations == []
    {
      username := "";
      message := "";
      isError := false;
      isLoading := false;
      isFormValid := false;
      sessionUsername := None;
      requests := [];
      navigations := [];
      TrimEmptyIffBlank("");
    }

    /** Typing into the input: `setUsername`, then the effect recomputes `isFormValid`. */
    method Type(s: string)
      requires Valid()
      modifies this
      ensures Valid()
      ensures username == s && isFormValid == FormValid(s)
      ensures message == old(message) && isError == old(isError) && isLoading == old(isLoading)
      ensures sessionUsername == old(sessionUsername) && requests == old(requests) && navigations == old(navigations)
    {
      username := s;
      isFormValid := Trim(username) != "";
    }

    /** `handleSubmit`, run to completion with the request's outcome `reply`. */
    method HandleSubmit(reply: Reply)
      requires Valid()
      modifies this
      ensures Valid()
      ensures !isLoading
      ensures username == old(username) && isFormValid == old(isFormValid)
      ensures !ValidUsername(username) ==>
        && isError && message == InvalidUsernameMessage
        && requests == old(requests) && sessionUsername == old(sessionUsername) && navigations == old(navigations)
      ensures ValidUsername(username) ==> requests == old(requests) + [username]
      ensures ValidUsername(username) && reply.FetchThrew? ==>
        && isError && message == UnexpectedMessage
        && sessionUsername == old(sessionUsername) && navigations == old(navigations)
      ensures ValidUsername(username) && reply.Replied? && !(reply.resOk && reply.dataOk) ==>
        && isError && message == Or(reply.error, DefaultFailureMessage)
        && sessionUsername == old(sessionUsername) && navigations == old(navigations)
      ensures ValidUsername(username) && reply.Replied? && reply.resOk && reply.dataOk ==>
        && !isError && message == SuccessMessage
        && sessionUsername == Some(username)
        && navigations == old(navigations) + [Refresh, Push("/dashboard")]
    {
      message := "";
      isError := false;
      isLoading := true;

      if username == "" || |username| < 3 || !ValidUsername(username) {
        isError := true;
        message := InvalidUsernameMessage;
        isLoading := false;
        return;
      }

      requests := requests + [username];
      match reply {
        case FetchThrew =>
          isError := true;
          message := UnexpectedMessage;
        case Replied(resOk, dataOk, error) =>
          if !resOk || !dataOk {
            isError := true;
            message := Or(error, DefaultFailureMessage);
            isLoading := false;
            return;
          }
          sessionUsername := Some(username);
          message := SuccessMessage;
          navigations := navigations + [Refresh, Push("/dashboard")];
      }
      isLoading := false;
    }
  }
}
