/**
 * `utils/auth.py`: the sign-in gate every page runs first, and the admin and
 * logout helpers. Each operation is a transition on the two maps of a
 * `Session`. The four database procedures behind `utils/db.py` are oracles
 * gathered in a `Backend`; every call a transition makes is reported in
 * order, so that "no database call" can be stated.
 */
module Auth {
  import opened Wrappers
  import opened PyValue
  import opened Strings
  import opened Ui

  /** The user record a procedure returns: column name to value. */
  type User = map<string, Value>

  /** What `register_user` does: return a value (truthy or not), or raise with a message. */
  datatype RegisterReply = Created(truthy: bool) | Failed(message: string)

  /** `validate_session`, `authenticate_user`, `create_session` and `register_user`. */
  datatype Backend = Backend(
    validate: string -> Option<User>,
    authenticate: (string, string) -> Option<User>,
    createSession: (Value, Value) -> string,
    register: (string, string, string) -> RegisterReply)

  /** One database call, with its arguments. */
  datatype Call =
    | ValidateCall(token: string)
    | AuthenticateCall(email: string, password: string)
    | CreateSessionCall(userId: Value, userName: Value)
    | RegisterCall(regEmail: string, regPassword: string, regName: string)
    | DeleteCall(stored: Value)

  /** The button pressed on the login form in this run, with the form's fields. */
  datatype Form =
    | Idle
    | SignInPressed(email: string, password: string)
    | CreatePressed(newEmail: string, newName: string, newPassword: string, newConfirm: string)

  /** The message left on the page when it stops. */
  datatype Notice = Quiet | ErrorNotice(text: string) | SuccessNotice(text: string)

  /**
   * How `check_password` ends: it returns `True`, it asks for a rerun after a
   * login, it stops the page behind the form, or an exception escapes.
   */
  datatype AuthOutcome = Passed | Rerun | Stopped(notice: Notice) | Raised(error: PyError)

  const Authenticated := "authenticated"
  const UserEmail := "user_email"
  const UserDisplayName := "user_display_name"
  const UserIsAdmin := "user_is_admin"
  const SessionToken := "session_token"
  /** The URL parameter that survives a browser refresh. */
  const SessionParam := "_session"

  /** The five keys a login writes and a logout removes. */
  const AuthKeys: seq<string> := [Authenticated, UserEmail, UserDisplayName, UserIsAdmin, SessionToken]

  /** `user[key]`, raising `KeyError` when the record lacks it. */
  function Field(user: User, key: string): (r: Result<Value>)
    ensures r.Ok? <==> key in user
    ensures r.Ok? ==> r.value == user[key]
    ensures r.Err? ==> r.error == KeyError(key)
  {
    if key in user then Ok(user[key]) else Err(KeyError(key))
  }

  /** `user.get("user_display_name") or user["user_email"]`. */
  function DisplayOf(user: User): (r: Result<Value>)
    ensures Truthy(Get(user, UserDisplayName, VNone)) ==> r == Ok(user[UserDisplayName])
    ensures !Truthy(Get(user, UserDisplayName, VNone)) ==> r == Field(user, UserEmail)
  {
    var name := Get(user, UserDisplayName, VNone);
    if Truthy(name) then Ok(name) else Field(user, UserEmail)
  }

  /** `user.get("user_is_admin", False)`. */
  function AdminOf(user: User): (admin: Value)
    ensures UserIsAdmin in user ==> admin == user[UserIsAdmin]
    ensures UserIsAdmin !in user ==> admin == VBool(false)
  {
    Get(user, UserIsAdmin, VBool(false))
  }

  /** The session state once the five keys of a login are written. */
  function Established(state: map<string, Value>, email: Value, display: Value, admin: Value, token: Value): (r: map<string, Value>)
    ensures r.Keys == state.Keys + {Authenticated, UserEmail, UserDisplayName, UserIsAdmin, SessionToken}
    ensures r[Authenticated] == VBool(true) && r[UserEmail] == email && r[UserDisplayName] == display
    ensures r[UserIsAdmin] == admin && r[SessionToken] == token
    ensures forall k :: k in state && k !in AuthKeys ==> r[k] == state[k]
  {
    state[Authenticated := VBool(true)][UserEmail := email][UserDisplayName := display]
      [UserIsAdmin := admin][SessionToken := token]
  }

  /**
   * The state writes of a login with an already chosen display name: the
   * flag is written before `user["user_email"]` is read, so a record without
   * an e-mail leaves the flag set and raises.
   */
  method WriteLogin(s: Session, user: User, display: Value, token: Value) returns (r: Result<()>)
    modifies s
    ensures s.params == old(s.params)
    ensures UserEmail in user ==>
      r == Ok(()) && s.state == Established(old(s.state), user[UserEmail], display, AdminOf(user), token)
    ensures UserEmail !in user ==>
      r == Err(KeyError(UserEmail)) && s.state == old(s.state)[Authenticated := VBool(true)]
  {
    s.state := s.state[Authenticated := VBool(true)];
    var email := Field(user, UserEmail);
    if email.Err? {
      return Err(email.error);
    }
    s.state := s.state[UserEmail := email.value];
    s.state := s.state[UserDisplayName := display];
    s.state := s.state[UserIsAdmin := AdminOf(user)];
    s.state := s.state[SessionToken := token];
    r := Ok(());
  }

  /**
   * `if user:` on a procedure's reply: `None` and an empty record `{}` are
   * both falsy, so neither counts as a user.
   */
  predicate Found(found: Option<User>) {
    found.Some? && |found.value| > 0
  }

  /** The URL token `check_password` looks at: `_session` when present and non-empty. */
  function HasUrlToken(params: map<string, string>): (has: bool)
    ensures has <==> SessionParam in params && |params[SessionParam]| > 0
  {
    SessionParam in params && params[SessionParam] != ""
  }

  /**
   * Steps 2 of `check_password`: a non-empty `_session` URL parameter is
   * validated; a valid one logs the user in, an invalid one is removed from
   * the URL. `None` means the form has to be shown.
   */
  method ResumeFromUrl(s: Session, validate: string -> Option<User>) returns (out: Option<Result<()>>, calls: seq<Call>)
    modifies s
    ensures !HasUrlToken(old(s.params)) ==>
      out == None && calls == [] && s.state == old(s.state) && s.params == old(s.params)
    ensures HasUrlToken(old(s.params)) ==>
      var token := old(s.params)[SessionParam];
      calls == [ValidateCall(token)] &&
      if !Found(validate(token)) then
        out == None && s.state == old(s.state) && s.params == old(s.params) - {SessionParam}
      else
        var user := validate(token).value;
        s.params == old(s.params) &&
        (if UserEmail in user then
           out == Some(Ok(())) &&
           s.state == Established(old(s.state), user[UserEmail], DisplayOf(user).value, AdminOf(user), VStr(token))
         else
           out == Some(Err(KeyError(UserEmail))) && s.state == old(s.state)[Authenticated := VBool(true)])
  {
    out := None;
    calls := [];
    if SessionParam in s.params && s.params[SessionParam] != "" {
      var token := s.params[SessionParam];
      calls := [ValidateCall(token)];
      var found := validate(token);
      if found.Some? && |found.value| > 0 {
        var user := found.value;
        s.state := s.state[Authenticated := VBool(true)];
        var email := Field(user, UserEmail);
        if email.Err? {
          out := Some(Err(email.error));
          return;
        }
        s.state := s.state[UserEmail := email.value];
        s.state := s.state[UserDisplayName := DisplayOf(user).value];
        s.state := s.state[UserIsAdmin := AdminOf(user)];
        s.state := s.state[SessionToken := VStr(token)];
        out := Some(Ok(()));
      } else {
        s.params := s.params - {SessionParam};
      }
    }
  }

  /**
   * A new session for an authenticated user (`create_session`), then the
   * login writes in state and URL. The display name and `user["user_id"]` are
   * read before the procedure is called; a missing key raises there.
   */
  method OpenSession(s: Session, createSession: (Value, Value) -> string, user: User)
    returns (r: Result<()>, calls: seq<Call>)
    modifies s
    ensures DisplayOf(user).Err? ==> r == Err(DisplayOf(user).error) && calls == [] && s.state == old(s.state) && s.params == old(s.params)
    ensures DisplayOf(user).Ok? && "user_id" !in user ==>
      r == Err(KeyError("user_id")) && calls == [] && s.state == old(s.state) && s.params == old(s.params)
    ensures DisplayOf(user).Ok? && "user_id" in user ==>
      var display := DisplayOf(user).value;
      var token := createSession(user["user_id"], display);
      calls == [CreateSessionCall(user["user_id"], display)] &&
      (if UserEmail in user then
         r == Ok(()) && s.params == old(s.params)[SessionParam := token] &&
         s.state == Established(old(s.state), user[UserEmail], display, AdminOf(user), VStr(token))
       else
         r == Err(KeyError(UserEmail)) && s.params == old(s.params) &&
         s.state == old(s.state)[Authenticated := VBool(true)])
    ensures r.Ok? ==> SignedIn(s.state, s.params)
  {
    calls := [];
    var display := DisplayOf(user);
    if display.Err? {
      return Err(display.error), calls;
    }
    var id := Field(user, "user_id");
    if id.Err? {
      return Err(id.error), calls;
    }
    var token := createSession(id.value, display.value);
    calls := [CreateSessionCall(id.value, display.value)];
    r := WriteLogin(s, user, display.value, VStr(token));
    if r.Ok? {
      s.params := s.params[SessionParam := token];
    }
  }

  /** A login that survives a refresh: the flag is set and the URL carries the stored token. */
  predicate SignedIn(state: map<string, Value>, params: map<string, string>) {
    Get(state, Authenticated, VNone) == VBool(true) && SessionParam in params &&
    Get(state, SessionToken, VNone) == VStr(params[SessionParam])
  }

  /** A user record that names the user, the session owner and the e-mail: the login can complete. */
  predicate Complete(user: User) {
    UserEmail in user && "user_id" in user
  }

  /** The sign-in tab's button: both fields must be non-empty; the e-mail is stripped before the lookup. */
  method SignIn(s: Session, b: Backend, email: string, password: string) returns (out: AuthOutcome, calls: seq<Call>)
    modifies s
    ensures email == "" || password == "" ==>
      out == Stopped(ErrorNotice("Enter both email and password.")) && calls == [] &&
      s.state == old(s.state) && s.params == old(s.params)
    ensures email != "" && password != "" && !Found(b.authenticate(Strip(email), password)) ==>
      out == Stopped(ErrorNotice("Invalid email or password.")) && calls == [AuthenticateCall(Strip(email), password)] &&
      s.state == old(s.state) && s.params == old(s.params)
    ensures email != "" && password != "" && Found(b.authenticate(Strip(email), password)) ==>
      var user := b.authenticate(Strip(email), password).value;
      var lookup := AuthenticateCall(Strip(email), password);
      if DisplayOf(user).Err? then
        out == Raised(DisplayOf(user).error) && calls == [lookup] && s.state == old(s.state) && s.params == old(s.params)
      else if "user_id" !in user then
        out == Raised(KeyError("user_id")) && calls == [lookup] && s.state == old(s.state) && s.params == old(s.params)
      else
        var display := DisplayOf(user).value;
        var token := b.createSession(user["user_id"], display);
        calls == [lookup, CreateSessionCall(user["user_id"], display)] &&
        if UserEmail in user then
          out == Rerun && s.params == old(s.params)[SessionParam := token] &&
          s.state == Established(old(s.state), user[UserEmail], display, AdminOf(user), VStr(token))
        else
          out == Raised(KeyError(UserEmail)) && s.params == old(s.params) &&
          s.state == old(s.state)[Authenticated := VBool(true)]
    ensures out == Rerun ==> SignedIn(s.state, s.params)
    ensures out.Raised? ==> out.error.KeyError?
    ensures out != Passed
  {
    if email == "" || password == "" {
      return Stopped(ErrorNotice("Enter both email and password.")), [];
    }
    calls := [AuthenticateCall(Strip(email), password)];
    var user := b.authenticate(Strip(email), password);
    if !(user.Some? && |user.value| > 0) {
      return Stopped(ErrorNotice("Invalid email or password.")), calls;
    }
    var started, more := OpenSession(s, b.createSession, user.value);
    calls := calls + more;
    if started.Err? {
      return Raised(started.error), calls;
    }
    out := Rerun;
  }

  /**
   * The message for an exception raised during registration: a clash with
   * an existing account wins over the domain restriction.
   */
  function RegistrationErrorText(err: string): (r: string)
    ensures r == "Account already exists. Sign in instead." <==>
      Contains(Lower(err), "unique") || Contains(Lower(err), "duplicate") || Contains(Lower(err), "already exists")
    ensures r == "Registration restricted to @walkeradvertising.com emails." <==>
      !(Contains(Lower(err), "unique") || Contains(Lower(err), "duplicate") || Contains(Lower(err), "already exists")) &&
      Contains(err, "walkeradvertising.com")
  {
    var low := Lower(err);
    if Contains(low, "unique") || Contains(low, "duplicate") || Contains(low, "already exists") then
      "Account already exists. Sign in instead."
    else if Contains(err, "walkeradvertising.com") then
      "Registration restricted to @walkeradvertising.com emails."
    else
      "Registration failed. Please try again or contact an administrator."
  }

  /** `str(KeyError(key))`: the key in single quotes. */
  function KeyErrorText(e: PyError): (text: string)
    ensures e.KeyError? ==>
      |text| == |e.key| + 2 && text[0] == '\'' && text[|text| - 1] == '\'' && text[1..|text| - 1] == e.key
    ensures !e.KeyError? ==> text == e.message
  {
    match e
    case KeyError(k) => "'" + k + "'"
    case TypeError(m) => m
    case AttributeError(m) => m
  }

  /**
   * The create-account tab's button: every field must be non-empty and the
   * passwords equal before `register_user` is called with the e-mail and the
   * name stripped.
   */
  method Register(s: Session, b: Backend, email: string, name: string, password: string, confirm: string)
    returns (out: AuthOutcome, calls: seq<Call>)
    modifies s
    ensures email == "" || name == "" || password == "" || confirm == "" ==>
      out == Stopped(ErrorNotice("All fields are required.")) && calls == [] &&
      s.state == old(s.state) && s.params == old(s.params)
    ensures email != "" && name != "" && password != "" && confirm != "" && password != confirm ==>
      out == Stopped(ErrorNotice("Passwords do not match.")) && calls == [] &&
      s.state == old(s.state) && s.params == old(s.params)
    ensures email != "" && name != "" && password != "" && confirm != "" && password == confirm ==>
      |calls| >= 1 && calls[0] == RegisterCall(Strip(email), password, Strip(name))
    ensures email != "" && name != "" && password != "" && confirm != "" && password == confirm &&
            b.register(Strip(email), password, Strip(name)) == Created(true) &&
            Found(b.authenticate(Strip(email), password)) && Complete(b.authenticate(Strip(email), password).value) ==>
      var user := b.authenticate(Strip(email), password).value;
      var display := DisplayOf(user).value;
      var token := b.createSession(user["user_id"], display);
      out == Rerun &&
      calls == [RegisterCall(Strip(email), password, Strip(name)), AuthenticateCall(Strip(email), password),
                CreateSessionCall(user["user_id"], display)] &&
      s.params == old(s.params)[SessionParam := token] &&
      s.state == Established(old(s.state), user[UserEmail], display, AdminOf(user), VStr(token))
    ensures out == Rerun ==> SignedIn(s.state, s.params)
    ensures out != Passed && !out.Raised?
  {
    if email == "" || name == "" || password == "" || confirm == "" {
      return Stopped(ErrorNotice("All fields are required.")), [];
    }
    if password != confirm {
      return Stopped(ErrorNotice("Passwords do not match.")), [];
    }
    out, calls := Submit(s, b, Strip(email), password, Strip(name));
  }

  /** A create-account form whose fields passed validation, the e-mail and name already stripped. */
  method Submit(s: Session, b: Backend, email: string, password: string, name: string)
    returns (out: AuthOutcome, calls: seq<Call>)
    modifies s
    ensures |calls| >= 1 && calls[0] == RegisterCall(email, password, name)
    ensures b.register(email, password, name) == Created(true) &&
            Found(b.authenticate(email, password)) && Complete(b.authenticate(email, password).value) ==>
      var user := b.authenticate(email, password).value;
      var display := DisplayOf(user).value;
      var token := b.createSession(user["user_id"], display);
      out == Rerun &&
      calls == [RegisterCall(email, password, name), AuthenticateCall(email, password),
                CreateSessionCall(user["user_id"], display)] &&
      s.params == old(s.params)[SessionParam := token] &&
      s.state == Established(old(s.state), user[UserEmail], display, AdminOf(user), VStr(token))
    ensures out == Rerun ==> SignedIn(s.state, s.params)
    ensures out != Passed && !out.Raised?
  {
    ghost var st0, pa0 := s.state, s.params;
    out, calls := Enrol(s, b, email, password, name);
    if b.register(email, password, name) == Created(true) && Found(b.authenticate(email, password)) &&
       Complete(b.authenticate(email, password).value) {
      AutoLoggedInComplete(b, email, password, st0, pa0, out, calls[1..], s.state, s.params);
      assert calls == [calls[0]] + calls[1..];
    }
  }

  /** The message an exception of the sign-in after registration is shown with. */
  function EnrolErrorNotice(e: PyError): Notice {
    ErrorNotice(RegistrationErrorText(KeyErrorText(e)))
  }

  /**
   * The `try` block of registration: the account is created, then signed in
   * at once. Every exception in it, a missing key of the user record
   * included, is turned into a message.
   */
  method Enrol(s: Session, b: Backend, email: string, password: string, name: string)
    returns (out: AuthOutcome, calls: seq<Call>)
    modifies s
    ensures |calls| >= 1 && calls[0] == RegisterCall(email, password, name)
    ensures b.register(email, password, name).Failed? ==>
      out == Stopped(ErrorNotice(RegistrationErrorText(b.register(email, password, name).message))) &&
      |calls| == 1 && s.state == old(s.state) && s.params == old(s.params)
    ensures b.register(email, password, name) == Created(false) ==>
      out == Stopped(ErrorNotice("Registration failed. Please try again.")) &&
      |calls| == 1 && s.state == old(s.state) && s.params == old(s.params)
    ensures b.register(email, password, name) == Created(true) ==>
      |calls| >= 2 && calls[1] == AuthenticateCall(email, password)
    ensures b.register(email, password, name) == Created(true) ==>
      AutoLoggedIn(b, email, password, old(s.state), old(s.params), out, calls[1..], s.state, s.params)
    ensures out == Rerun ==> SignedIn(s.state, s.params)
    ensures out != Passed && !out.Raised?
  {
    calls := [RegisterCall(email, password, name)];
    var reply := b.register(email, password, name);
    if reply.Failed? {
      return Stopped(ErrorNotice(RegistrationErrorText(reply.message))), calls;
    }
    if !reply.truthy {
      return Stopped(ErrorNotice("Registration failed. Please try again.")), calls;
    }
    var more;
    out, more := AutoLogin(s, b, email, password);
    calls := calls + more;
  }

  /**
   * The sign-in that follows a created account, from state `st0` and URL
   * `pa0` to `st1` and `pa1`: a failed lookup leaves the success notice; a
   * complete record is logged in with the new token in state and URL; an
   * exception of the login is shown as a registration error.
   */
  predicate AutoLoggedIn(b: Backend, email: string, password: string,
                         st0: map<string, Value>, pa0: map<string, string>,
                         out: AuthOutcome, calls: seq<Call>, st1: map<string, Value>, pa1: map<string, string>)
  {
    var lookup := AuthenticateCall(email, password);
    if !Found(b.authenticate(email, password)) then
      out == Stopped(SuccessNotice("Account created! Please sign in.")) && calls == [lookup] && st1 == st0 && pa1 == pa0
    else
      var user := b.authenticate(email, password).value;
      if DisplayOf(user).Err? then
        out == Stopped(EnrolErrorNotice(DisplayOf(user).error)) && calls == [lookup] && st1 == st0 && pa1 == pa0
      else if "user_id" !in user then
        out == Stopped(EnrolErrorNotice(KeyError("user_id"))) && calls == [lookup] && st1 == st0 && pa1 == pa0
      else
        var display := DisplayOf(user).value;
        var token := b.createSession(user["user_id"], display);
        calls == [lookup, CreateSessionCall(user["user_id"], display)] &&
        if UserEmail in user then
          out == Rerun && pa1 == pa0[SessionParam := token] &&
          st1 == Established(st0, user[UserEmail], display, AdminOf(user), VStr(token))
        else
          out == Stopped(EnrolErrorNotice(KeyError(UserEmail))) && pa1 == pa0 &&
          st1 == st0[Authenticated := VBool(true)]
  }

  /**
   * Whatever the record holds, the sign-in after registration looks the user
   * up first, makes at most one more call, lets no exception escape, and a
   * rerun leaves the same token in state and URL.
   */
  lemma AutoLoggedInShape(b: Backend, email: string, password: string,
                          st0: map<string, Value>, pa0: map<string, string>,
                          out: AuthOutcome, calls: seq<Call>, st1: map<string, Value>, pa1: map<string, string>)
    requires AutoLoggedIn(b, email, password, st0, pa0, out, calls, st1, pa1)
    ensures 1 <= |calls| <= 2 && calls[0] == AuthenticateCall(email, password)
    ensures out != Passed && !out.Raised?
    ensures out == Rerun ==> SignedIn(st1, pa1)
  {
  }

  /** A complete user record makes the sign-in after registration succeed. */
  lemma AutoLoggedInComplete(b: Backend, email: string, password: string,
                             st0: map<string, Value>, pa0: map<string, string>,
                             out: AuthOutcome, calls: seq<Call>, st1: map<string, Value>, pa1: map<string, string>)
    requires AutoLoggedIn(b, email, password, st0, pa0, out, calls, st1, pa1)
    requires Found(b.authenticate(email, password)) && Complete(b.authenticate(email, password).value)
    ensures var user := b.authenticate(email, password).value;
      DisplayOf(user).Ok? &&
      var display := DisplayOf(user).value;
      var token := b.createSession(user["user_id"], display);
      out == Rerun &&
      calls == [AuthenticateCall(email, password), CreateSessionCall(user["user_id"], display)] &&
      pa1 == pa0[SessionParam := token] &&
      st1 == Established(st0, user[UserEmail], display, AdminOf(user), VStr(token))
  {
  }

  /** The sign-in that follows a created account. */
  method AutoLogin(s: Session, b: Backend, email: string, password: string)
    returns (out: AuthOutcome, calls: seq<Call>)
    modifies s
    ensures AutoLoggedIn(b, email, password, old(s.state), old(s.params), out, calls, s.state, s.params)
    ensures out == Rerun ==> SignedIn(s.state, s.params)
    ensures out != Passed && !out.Raised?
  {
    calls := [AuthenticateCall(email, password)];
    var user := b.authenticate(email, password);
    if !(user.Some? && |user.value| > 0) {
      out := Stopped(SuccessNotice("Account created! Please sign in."));
    } else {
      var started, more := OpenSession(s, b.createSession, user.value);
      calls := calls + more;
      if started.Err? {
        out := Stopped(EnrolErrorNotice(started.error));
      } else {
        out := Rerun;
      }
    }
    AutoLoggedInShape(b, email, password, old(s.state), old(s.params), out, calls, s.state, s.params);
  }

  /** Whether `check_password` reaches the form: not signed in this tab, and no URL token that validates. */
  predicate ShowsForm(state: map<string, Value>, params: map<string, string>, validate: string -> Option<User>) {
    !Truthy(Get(state, Authenticated, VNone)) &&
    (!HasUrlToken(params) || !Found(validate(params[SessionParam])))
  }

  /** The URL parameters when the form is shown: an invalid token has been removed. */
  function FormParams(params: map<string, string>): map<string, string> {
    if HasUrlToken(params) then params - {SessionParam} else params
  }

  /** The calls made before the form is shown: the validation of the URL token, if there is one. */
  function ResumeCalls(params: map<string, string>): seq<Call> {
    if HasUrlToken(params) then [ValidateCall(params[SessionParam])] else []
  }

  /**
   * `check_password`: the same-tab flag, then the URL token, then the form.
   * A valid URL token passes the gate with that token stored; a completed
   * sign-in or registration reruns with the new token in state and URL.
   */
  method CheckPassword(s: Session, b: Backend, form: Form) returns (out: AuthOutcome, calls: seq<Call>)
    modifies s
    ensures Truthy(Get(old(s.state), Authenticated, VNone)) ==>
      out == Passed && calls == [] && s.state == old(s.state) && s.params == old(s.params)
    ensures !Truthy(Get(old(s.state), Authenticated, VNone)) && HasUrlToken(old(s.params)) ==>
      |calls| >= 1 && calls[0] == ValidateCall(old(s.params)[SessionParam])
    ensures !Truthy(Get(old(s.state), Authenticated, VNone)) && HasUrlToken(old(s.params)) &&
            Found(b.validate(old(s.params)[SessionParam])) ==>
      var token := old(s.params)[SessionParam];
      var user := b.validate(token).value;
      calls == [ValidateCall(token)] && s.params == old(s.params) &&
      if UserEmail in user then
        out == Passed &&
        s.state == Established(old(s.state), user[UserEmail], DisplayOf(user).value, AdminOf(user), VStr(token))
      else
        out == Raised(KeyError(UserEmail)) && s.state == old(s.state)[Authenticated := VBool(true)]
    ensures ShowsForm(old(s.state), old(s.params), b.validate) && form == Idle ==>
      out == Stopped(Quiet) && calls == ResumeCalls(old(s.params)) &&
      s.state == old(s.state) && s.params == FormParams(old(s.params))
    ensures ShowsForm(old(s.state), old(s.params), b.validate) && form.SignInPressed? &&
            form.email != "" && form.password != "" && !Found(b.authenticate(Strip(form.email), form.password)) ==>
      out == Stopped(ErrorNotice("Invalid email or password.")) &&
      calls == ResumeCalls(old(s.params)) + [AuthenticateCall(Strip(form.email), form.password)] &&
      s.state == old(s.state) && s.params == FormParams(old(s.params))
    ensures ShowsForm(old(s.state), old(s.params), b.validate) && form.SignInPressed? &&
            form.email != "" && form.password != "" && Found(b.authenticate(Strip(form.email), form.password)) &&
            Complete(b.authenticate(Strip(form.email), form.password).value) ==>
      var user := b.authenticate(Strip(form.email), form.password).value;
      var display := DisplayOf(user).value;
      var token := b.createSession(user["user_id"], display);
      out == Rerun &&
      calls == ResumeCalls(old(s.params)) + [AuthenticateCall(Strip(form.email), form.password),
                                              CreateSessionCall(user["user_id"], display)] &&
      s.params == FormParams(old(s.params))[SessionParam := token] &&
      s.state == Established(old(s.state), user[UserEmail], display, AdminOf(user), VStr(token))
    ensures ShowsForm(old(s.state), old(s.params), b.validate) && form.CreatePressed? &&
            form.newEmail != "" && form.newName != "" && form.newPassword != "" && form.newConfirm != "" &&
            form.newPassword == form.newConfirm &&
            b.register(Strip(form.newEmail), form.newPassword, Strip(form.newName)) == Created(true) &&
            Found(b.authenticate(Strip(form.newEmail), form.newPassword)) &&
            Complete(b.authenticate(Strip(form.newEmail), form.newPassword).value) ==>
      var user := b.authenticate(Strip(form.newEmail), form.newPassword).value;
      var display := DisplayOf(user).value;
      var token := b.createSession(user["user_id"], display);
      out == Rerun &&
      calls == ResumeCalls(old(s.params)) +
        [RegisterCall(Strip(form.newEmail), form.newPassword, Strip(form.newName)),
         AuthenticateCall(Strip(form.newEmail), form.newPassword), CreateSessionCall(user["user_id"], display)] &&
      s.params == FormParams(old(s.params))[SessionParam := token] &&
      s.state == Established(old(s.state), user[UserEmail], display, AdminOf(user), VStr(token))
    ensures out == Passed ==> Truthy(Get(s.state, Authenticated, VNone))
    ensures out == Rerun ==> SignedIn(s.state, s.params)
  {
    if Truthy(Get(s.state, Authenticated, VNone)) {
      return Passed, [];
    }
    var resumed;
    resumed, calls := ResumeFromUrl(s, b.validate);
    if resumed.Some? {
      if resumed.value.Ok? {
        return Passed, calls;
      }
      return Raised(resumed.value.error), calls;
    }
    var more: seq<Call>;
    match form {
      case Idle =>
        out, more := Stopped(Quiet), [];
      case SignInPressed(email, password) =>
        out, more := SignIn(s, b, email, password);
      case CreatePressed(email, name, password, confirm) =>
        out, more := Register(s, b, email, name, password, confirm);
    }
    calls := calls + more;
  }

  /** `get_current_user`. */
  function CurrentUser(state: map<string, Value>): (r: Option<Value>)
    ensures r.Some? <==> UserEmail in state
    ensures r.Some? ==> r.value == state[UserEmail]
  {
    if UserEmail in state then Some(state[UserEmail]) else None
  }

  /** `get_current_display_name`: the display name, else the e-mail, else `""`. */
  function CurrentDisplayName(state: map<string, Value>): (r: Value)
    ensures Truthy(Get(state, UserDisplayName, VNone)) ==> r == state[UserDisplayName]
    ensures !Truthy(Get(state, UserDisplayName, VNone)) ==> r == Get(state, UserEmail, VStr(""))
  {
    var display := Get(state, UserDisplayName, VNone);
    if Truthy(display) then display else Get(state, UserEmail, VStr(""))
  }

  /** `check_admin`. */
  function CheckAdmin(state: map<string, Value>): (r: Value)
    ensures UserIsAdmin !in state ==> r == VBool(false)
    ensures UserIsAdmin in state ==> r == state[UserIsAdmin]
  {
    Get(state, UserIsAdmin, VBool(false))
  }

  /** The session state with every auth key removed. */
  function LoggedOut(state: map<string, Value>): (r: map<string, Value>)
    ensures forall k :: k in AuthKeys ==> k !in r
    ensures forall k :: k in state && k !in AuthKeys ==> k in r && r[k] == state[k]
    ensures r.Keys <= state.Keys
  {
    map k | k in state && k !in AuthKeys :: state[k]
  }

  /**
   * `logout`: the stored token's session is deleted (a failure there is
   * swallowed, so the procedure's result plays no part), then the five keys
   * and the URL token are removed; the page then reruns.
   */
  method Logout(s: Session) returns (calls: seq<Call>)
    modifies s
    ensures s.state == LoggedOut(old(s.state))
    ensures s.params == old(s.params) - {SessionParam}
    ensures Truthy(Get(old(s.state), SessionToken, VNone)) ==> calls == [DeleteCall(old(s.state)[SessionToken])]
    ensures !Truthy(Get(old(s.state), SessionToken, VNone)) ==> calls == []
  {
    var token := Get(s.state, SessionToken, VNone);
    calls := if Truthy(token) then [DeleteCall(token)] else [];
    ghost var start := s.state;
    var i := 0;
    while i < |AuthKeys|
      invariant 0 <= i <= |AuthKeys|
      invariant s.params == old(s.params)
      invariant s.state == map k | k in start && k !in AuthKeys[..i] :: start[k]
    {
      s.state := s.state - {AuthKeys[i]};
      i := i + 1;
    }
    assert AuthKeys[..|AuthKeys|] == AuthKeys;
    if SessionParam in s.params {
      s.params := s.params - {SessionParam};
    }
  }

  /** A login is visible to the helpers: the user, the display name and the admin flag it stored. */
  lemma EstablishedReads(state: map<string, Value>, email: Value, display: Value, admin: Value, token: Value)
    requires Truthy(display)
    ensures var after := Established(state, email, display, admin, token);
      CurrentUser(after) == Some(email) && CurrentDisplayName(after) == display &&
      CheckAdmin(after) == admin && Truthy(Get(after, Authenticated, VNone))
  {
  }

  /** After a logout no user is current, no one is admin, and a second logout changes nothing. */
  lemma LoggedOutReads(state: map<string, Value>)
    ensures CurrentUser(LoggedOut(state)) == None
    ensures CheckAdmin(LoggedOut(state)) == VBool(false)
    ensures CurrentDisplayName(LoggedOut(state)) == VStr("")
    ensures !Truthy(Get(LoggedOut(state), Authenticated, VNone))
    ensures LoggedOut(LoggedOut(state)) == LoggedOut(state)
  {
  }

  /** A logout undoes a login: only the keys the login did not write remain, unchanged. */
  lemma LogoutUndoesLogin(state: map<string, Value>, email: Value, display: Value, admin: Value, token: Value)
    ensures LoggedOut(Established(state, email, display, admin, token)) == LoggedOut(state)
  {
  }

  /** Each of the three clash words selects the existing-account message, whatever else the text says. */
  lemma ClashWins(err: string)
    requires Contains(Lower(err), "unique") || Contains(Lower(err), "duplicate") || Contains(Lower(err), "already exists")
    ensures RegistrationErrorText(err) == "Account already exists. Sign in instead."
  {
  }

  /** A missing user field is reported with the generic registration message. */
  lemma MissingFieldIsGeneric()
    ensures RegistrationErrorText(KeyErrorText(KeyError(UserEmail))) ==
      "Registration failed. Please try again or contact an administrator."
  {
    var t := KeyErrorText(KeyError(UserEmail));
    UserEmailKeyText();
    assert |t| == 12;
    MissingChar(t, "unique", 'q');
    MissingChar(t, "duplicate", 'p');
    TooLong(t, "already exists");
    TooLong(t, "walkeradvertising.com");
    GenericRegistrationText(t);
  }

  lemma UserEmailKeyText()
    ensures var t := KeyErrorText(KeyError(UserEmail));
      Lower(t) == t && |t| == 12 && 'q' !in t && 'p' !in t
  {
    var t := KeyErrorText(KeyError(UserEmail));
    UserEmailChars();
    assert t == "'" + UserEmail + "'";
    assert forall i :: 0 <= i < |t| ==> t[i] == '\'' || t[i] == UserEmail[i - 1];
    LowerNoUpper(t);
  }

  lemma UserEmailChars()
    ensures |UserEmail| == 10 && 'q' !in UserEmail && 'p' !in UserEmail
    ensures forall i :: 0 <= i < |UserEmail| ==> !('A' <= UserEmail[i] <= 'Z')
  {
  }

  /** An error naming no existing account and no domain gets the generic message. */
  lemma GenericRegistrationText(err: string)
    requires !Contains(Lower(err), "unique") && !Contains(Lower(err), "duplicate")
    requires !Contains(Lower(err), "already exists") && !Contains(err, "walkeradvertising.com")
    ensures RegistrationErrorText(err) == "Registration failed. Please try again or contact an administrator."
  {
  }

  /** A text cannot contain a longer needle. */
  lemma TooLong(s: string, needle: string)
    requires |needle| > |s|
    ensures !Contains(s, needle)
  {
  }

  /** A text cannot contain a needle holding a character the text lacks. */
  lemma MissingChar(s: string, needle: string, c: char)
    requires c in needle && c !in s
    ensures !Contains(s, needle)
  {
  }
}
