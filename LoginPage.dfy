/**
 * The login page: the two input guards, the mock and the real sign-in
 * branches, how every failure becomes one message, and the loading flag.
 */
module LoginPage {
  import opened Wrappers
  import opened Storage
  import MockApi
  import Text
  import Dashboard

  const FillInAllFields: string := "Please fill in all fields"
  const LoginFailed: string := "Login failed"
  const GenericLoginError: string := "An error occurred during login"

  /** What reaches the `catch` block: an `Error` object with its message, or any other thrown value. */
  datatype Thrown = ErrorObject(message: string) | OtherValue

  /**
   * What the back end's `/login` endpoint does for one request: the request
   * (or reading its JSON body) throws, or a response arrives with its `ok`
   * flag, the `detail` of an error body, and the `access_token` and
   * `user.is_admin` of a success body.
   */
  datatype Reply =
    | Threw(thrown: Thrown)
    | Answered(ok: bool, detail: string, accessToken: string, isAdmin: Option<bool>)

  /** How a submit ends: refused before any request, handed to `onLogin`, or a failure message. */
  datatype LoginOutcome =
    | Rejected(message: string)
    | LoggedIn(email: string, isAdmin: Option<bool>)
    | Failed(message: string)

  /**
   * The checks made before any request: both fields filled in, then the
   * `@ufl.edu` suffix; None lets the request go ahead.
   */
  function Guard(email: string, password: string): (r: Option<string>)
    ensures r == Some(FillInAllFields) <==> email == "" || password == ""
    ensures r == Some(MockApi.InvalidDomain) <==> email != "" && password != "" && !Text.EndsWith(email, MockApi.UflSuffix)
    ensures r.None? <==> email != "" && password != "" && Text.EndsWith(email, MockApi.UflSuffix)
  {
    if email == "" || password == "" then Some(FillInAllFields)
    else if !Text.EndsWith(email, MockApi.UflSuffix) then Some(MockApi.InvalidDomain)
    else None
  }

  /** The `catch` block's message: the error's own text, or the generic one for anything that is not an `Error`. */
  function CaughtMessage(t: Thrown): (message: string)
    ensures t.ErrorObject? ==> message == t.message
    ensures t.OtherValue? ==> message == GenericLoginError
  {
    match t
    case ErrorObject(m) => m
    case OtherValue => GenericLoginError
  }

  /** `new Error(text || 'Login failed')`: an empty text falls back to the fixed one. */
  function OrLoginFailed(text: string): (message: string)
    ensures message != ""
    ensures text != "" ==> message == text
  {
    if text != "" then text else LoginFailed
  }

  /**
   * The real branch's result: a thrown request fails with the caught
   * message; a non-2xx response fails with its `detail` or the fixed text;
   * a 2xx response logs the email in with the reported admin flag.
   */
  function RealOutcome(email: string, reply: Reply): (outcome: LoginOutcome)
    ensures !outcome.Rejected?
    ensures outcome.LoggedIn? <==> reply.Answered? && reply.ok
    ensures outcome.LoggedIn? ==> outcome == LoggedIn(email, reply.isAdmin)
    ensures reply.Threw? ==> outcome == Failed(CaughtMessage(reply.thrown))
    ensures reply.Answered? && !reply.ok ==> outcome == Failed(OrLoginFailed(reply.detail))
  {
    match reply
    case Threw(t) => Failed(CaughtMessage(t))
    case Answered(ok, detail, _, isAdmin) =>
      if !ok then Failed(CaughtMessage(ErrorObject(OrLoginFailed(detail)))) else LoggedIn(email, isAdmin)
  }

  /** The page's state: the two inputs and the loading flag. */
  class LoginForm {
    var email: string
    var password: string
    var isLoading: bool

    constructor ()
      ensures email == "" && password == "" && !isLoading
    {
      email := "";
      password := "";
      isLoading := false;
    }

    /** Typing into the two inputs, which are disabled while a login is in flight. */
    method SetCredentials(email: string, password: string)
      requires !isLoading
      modifies this
      ensures this.email == email && this.password == password && isLoading == old(isLoading)
    {
      this.email := email;
      this.password := password;
    }

    /**
     * The start of `handleLogin`: the guards, and `isLoading` set once they
     * pass. The submit button is disabled while a login is in flight.
     */
    method Begin() returns (rejection: Option<string>)
      requires !isLoading
      modifies this
      ensures rejection == Guard(email, password)
      ensures rejection.None? ==> isLoading
      ensures rejection.Some? ==> isLoading == old(isLoading)
      ensures email == old(email) && password == old(password)
    {
      rejection := Guard(email, password);
      if rejection.None? {
        isLoading := true;
      }
    }

    /**
     * The rest of `handleLogin`, from the `try` to the `finally`. In mock mode
     * the outcome is the mock service's verdict on the credentials; in real
     * mode it is `RealOutcome`, and only a 2xx response stores its token
     * under `access_token`. Either way `isLoading` ends false.
     */
    method Finish(store: LocalStorage, mockMode: bool, reply: Reply) returns (outcome: LoginOutcome)
      requires isLoading
      modifies this, store
      ensures !isLoading && email == old(email) && password == old(password)
      ensures !outcome.Rejected?
      ensures mockMode ==>
        && (outcome.LoggedIn? <==> MockApi.HasCredentials(MockApi.GetMockUsers(old(store.entries)), email, password))
        && (outcome.LoggedIn? ==> outcome == LoggedIn(email, None)
                                  && store.entries == old(store.entries)[MockCurrentUserKey := Text(email)])
        && (!outcome.LoggedIn? ==> outcome == Failed(MockApi.InvalidCredentials) && store.entries == old(store.entries))
      ensures !mockMode ==> outcome == RealOutcome(email, reply)
      ensures !mockMode && reply.Answered? && reply.ok ==>
        store.entries == old(store.entries)[AccessTokenKey := Text(reply.accessToken)]
      ensures !mockMode && !(reply.Answered? && reply.ok) ==> store.entries == old(store.entries)
    {
      if mockMode {
        var result := MockApi.Login(store, email, password);
        if result.success {
          outcome := LoggedIn(email, None);
        } else {
          var text := if result.error.Some? then result.error.value else "";
          outcome := Failed(CaughtMessage(ErrorObject(OrLoginFailed(text))));
        }
      } else {
        match reply
        case Threw(t) =>
          outcome := Failed(CaughtMessage(t));
        case Answered(ok, detail, accessToken, isAdmin) =>
          if !ok {
            outcome := Failed(CaughtMessage(ErrorObject(OrLoginFailed(detail))));
          } else {
            store.SetItem(AccessTokenKey, Text(accessToken));
            outcome := LoggedIn(email, isAdmin);
          }
      }
      isLoading := false;
    }

    /**
     * `handleLogin` as a whole: a refused submit sends no request, leaves
     * the store and the loading flag alone; any other ends with the loading
     * flag false and the outcome of `Finish`.
     */
    method HandleLogin(store: LocalStorage, mockMode: bool, reply: Reply) returns (outcome: LoginOutcome)
      requires !isLoading
      modifies this, store
      ensures email == old(email) && password == old(password)
      ensures Guard(email, password).Some? ==>
        outcome == Rejected(Guard(email, password).value)
        && store.entries == old(store.entries) && isLoading == old(isLoading)
      ensures Guard(email, password).None? ==> !outcome.Rejected? && !isLoading
      ensures outcome.LoggedIn? ==> outcome.email == email && Guard(email, password).None?
      ensures Guard(email, password).None? && mockMode ==>
        (outcome.LoggedIn? <==> MockApi.HasCredentials(MockApi.GetMockUsers(old(store.entries)), email, password))
      ensures Guard(email, password).None? && mockMode ==>
        if outcome.LoggedIn? then store.entries == old(store.entries)[MockCurrentUserKey := Text(email)]
        else store.entries == old(store.entries)
      ensures Guard(email, password).None? && !mockMode ==> outcome == RealOutcome(email, reply)
      ensures Guard(email, password).None? && !mockMode ==>
        if reply.Answered? && reply.ok then store.entries == old(store.entries)[AccessTokenKey := Text(reply.accessToken)]
        else store.entries == old(store.entries)
    {
      var rejection := Begin();
      if rejection.Some? {
        return Rejected(rejection.value);
      }
      outcome := Finish(store, mockMode, reply);
    }
  }

  /**
   * The login page stores its token under `access_token`, the dashboard
   * reads `gator_token`: a real sign-in on a store without a dashboard token
   * still leaves the dashboard without one, so its load asks to log out.
   */
  lemma RealLoginInvisibleToDashboard(entries: map<string, Value>, token: string)
    requires !Dashboard.HasToken(entries)
    ensures !Dashboard.HasToken(entries[AccessTokenKey := Text(token)])
  {
    FixedKeysDistinct("");
  }
}
