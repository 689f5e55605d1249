/**
 * Registration, login and logout of the authentication handlers. The user
 * table is a sequence of `User` records; the session is the key-to-JSON map
 * of SessionState. Template rendering, password hashing, password
 * verification and the failure of each store query are collaborators passed
 * in as function values.
 */
module Auth {
  import opened Wrappers
  import opened EmailSyntax
  import opened SessionState

  // ---------------------------------------------------------------------
  // Records

  /** A row of the `users` table; `password` holds the bcrypt hash. */
  datatype User = User(userId: int, username: string, email: string, password: string)

  /** The registration form as posted. */
  datatype RegisterForm = RegisterForm(username: string, email: string, password: string, passwordConfirm: string)

  /** The login form as posted: `identifier` is a username or an e-mail address. */
  datatype LoginForm = LoginForm(identifier: string, password: string)

  /** A template context. */
  type Context = map<string, string>

  /** Every redirect these handlers issue is a 303 See Other; a rendered view is a 200; an internal error a 500. */
  datatype Response = Redirect(location: string) | Render(view: string, context: Context) | InternalError(message: string)

  /** The store queries that can fail. */
  datatype StoreQuery = CountUsername | CountEmail | InsertUser | FindUser

  /**
   * What the handlers call but do not define: whether a template renders
   * with a context, whether a store query fails, bcrypt's `hash` (failure is
   * `None`) and bcrypt's `verify` (an error is `None`).
   */
  datatype Collaborators = Collaborators(
    renders: (string, Context) -> bool,
    storeFails: StoreQuery -> bool,
    hash: string -> Option<string>,
    verify: (string, string) -> Option<bool>)

  /** A handler's response together with the state it leaves behind. */
  datatype Transition<S> = Transition(response: Response, state: S)

  // ---------------------------------------------------------------------
  // Fixed strings

  const LoginPath := "/auth/login"
  const DashboardPath := "/dashboard"
  const LoginView := "login.html"
  const RegisterView := "register.html"
  const UsernameKey := "username"

  const TemplateError := "Template rendering error"
  const QueryError := "Database query error"
  const VerifyError := "Password verification error"
  const HashError := "Error hashing password"
  const InsertError := "Failed to register user."

  const InvalidCredentials := "Invalid credentials."
  const UsernameTaken := "Username is already taken."
  const EmailTaken := "Email is already registered."

  // ---------------------------------------------------------------------
  // Byte length, as Rust's `str::len`

  function Utf8Width(c: char): nat
  {
    if c as int < 0x80 then 1 else if c as int < 0x800 then 2 else if c as int < 0x1_0000 then 3 else 4
  }

  /** The number of bytes of the UTF-8 encoding of `s`. */
  function Utf8Length(s: string): (n: nat)
    ensures |s| <= n <= 4 * |s|
    ensures (forall i | 0 <= i < |s| :: s[i] as int < 0x80) ==> n == |s|
  {
    if s == [] then 0 else Utf8Width(s[0]) + Utf8Length(s[1..])
  }

  // ---------------------------------------------------------------------
  // Rendering the forms

  /** `show_login_form`: the login view, with `error` in the context when there is one. */
  function ShowLoginForm(error: Option<string>, renders: (string, Context) -> bool): (r: Response)
    ensures r.Render? || r == InternalError(TemplateError)
    ensures r.Render? <==> renders(LoginView, if error.Some? then map["error" := error.value] else map[])
    ensures r.Render? ==> r.view == LoginView && (error.None? ==> r.context == map[])
    ensures r.Render? && error.Some? ==> r.context == map["error" := error.value]
  {
    var ctx := if error.Some? then map["error" := error.value] else map[];
    if renders(LoginView, ctx) then Render(LoginView, ctx) else InternalError(TemplateError)
  }

  /** `show_register_form`: the register view, with `error_message` in the context when there is one. */
  function ShowRegisterForm(error: Option<string>, renders: (string, Context) -> bool): (r: Response)
    ensures r.Render? || r == InternalError(TemplateError)
    ensures r.Render? <==> renders(RegisterView, if error.Some? then map["error_message" := error.value] else map[])
    ensures r.Render? ==> r.view == RegisterView && (error.None? ==> r.context == map[])
    ensures r.Render? && error.Some? ==> r.context == map["error_message" := error.value]
  {
    var ctx := if error.Some? then map["error_message" := error.value] else map[];
    if renders(RegisterView, ctx) then Render(RegisterView, ctx) else InternalError(TemplateError)
  }

  /** The message a re-rendered register view shows, if any. */
  function RegisterMessage(r: Response): Option<string>
  {
    if r.Render? && r.view == RegisterView && "error_message" in r.context
    then Some(r.context["error_message"]) else None
  }

  // ---------------------------------------------------------------------
  // Registration form checks

  const RuleCount := 5

  /** The registration checks, numbered in the order they run. */
  predicate RuleHolds(rule: nat, form: RegisterForm)
  {
    match rule
    case 0 => 3 <= Utf8Length(form.username) <= 20
    case 1 => ' ' !in form.username
    case 2 => Utf8Length(form.password) >= 8
    case 3 => form.password == form.passwordConfirm
    case 4 => IsEmailShape(form.email)
    case _ => true
  }

  /** The message reported when a check fails. */
  function RuleMessage(rule: nat): string
  {
    match rule
    case 0 => "Username must be between 3 and 20 characters long."
    case 1 => "Username cannot contain spaces."
    case 2 => "Password must be at least 8 characters long."
    case 3 => "Password and confirmation do not match."
    case _ => "Invalid email format."
  }

  /**
   * The format checks of `process_register_form`: the message of the first
   * check that fails, or `None` when all pass.
   */
  function ValidateRegistration(form: RegisterForm): (error: Option<string>)
    ensures error.None? <==> forall rule | 0 <= rule < RuleCount :: RuleHolds(rule, form)
    ensures forall rule | 0 <= rule < RuleCount ::
              error == Some(RuleMessage(rule)) <==>
              !RuleHolds(rule, form) && forall earlier | 0 <= earlier < rule :: RuleHolds(earlier, form)
  {
    assert RuleHolds(0, form) <==> !(Utf8Length(form.username) < 3 || Utf8Length(form.username) > 20);
    assert RuleHolds(1, form) <==> ' ' !in form.username;
    assert RuleHolds(2, form) <==> !(Utf8Length(form.password) < 8);
    assert RuleHolds(3, form) <==> form.password == form.passwordConfirm;
    assert RuleHolds(4, form) <==> IsValidEmail(form.email);
    assert forall i, j | 0 <= i < j < RuleCount :: RuleMessage(i) != RuleMessage(j);
    if Utf8Length(form.username) < 3 || Utf8Length(form.username) > 20 then Some(RuleMessage(0))
    else if ' ' in form.username then Some(RuleMessage(1))
    else if Utf8Length(form.password) < 8 then Some(RuleMessage(2))
    else if form.password != form.passwordConfirm then Some(RuleMessage(3))
    else if !IsValidEmail(form.email) then Some(RuleMessage(4))
    else None
  }

  // ---------------------------------------------------------------------
  // The user table

  datatype Column = UsernameColumn | EmailColumn

  function Field(u: User, column: Column): string
  {
    match column
    case UsernameColumn => u.username
    case EmailColumn => u.email
  }

  /** `SELECT COUNT(*) FROM users WHERE <column> = ?` */
  function Count(users: seq<User>, column: Column, value: string): (n: nat)
    ensures n <= |users|
    ensures n == 0 <==> forall i | 0 <= i < |users| :: Field(users[i], column) != value
  {
    if users == [] then 0
    else
      var n := Count(users[1..], column, value);
      assert forall i | 1 <= i < |users| :: users[i] == users[1..][i - 1];
      (if Field(users[0], column) == value then 1 else 0) + n
  }

  predicate Matches(u: User, identifier: string)
  {
    u.username == identifier || u.email == identifier
  }

  /** `SELECT ... WHERE username = ? OR email = ?` with `fetch_optional`: the first matching row. */
  function FindByIdentifier(users: seq<User>, identifier: string): (r: Option<User>)
    ensures r.None? <==> forall i | 0 <= i < |users| :: !Matches(users[i], identifier)
    ensures r.Some? ==> exists i | 0 <= i < |users| ::
              users[i] == r.value && Matches(users[i], identifier) &&
              forall j | 0 <= j < i :: !Matches(users[j], identifier)
  {
    if users == [] then None
    else if Matches(users[0], identifier) then Some(users[0])
    else
      var r := FindByIdentifier(users[1..], identifier);
      assert forall i | 1 <= i < |users| :: users[i] == users[1..][i - 1];
      r
  }

  /** No two stored users share a username, and no two share an e-mail address. */
  predicate HasUniqueAccounts(users: seq<User>)
  {
    forall i, j | 0 <= i < j < |users| ::
      users[i].username != users[j].username && users[i].email != users[j].email
  }

  /** The row the insert adds; the store assigns the next identifier. */
  function NewUser(users: seq<User>, form: RegisterForm, hashed: string): User
  {
    User(|users| + 1, form.username, form.email, hashed)
  }

  predicate UsernameFree(users: seq<User>, name: string) { forall i | 0 <= i < |users| :: users[i].username != name }

  predicate EmailFree(users: seq<User>, email: string) { forall i | 0 <= i < |users| :: users[i].email != email }

  // ---------------------------------------------------------------------
  // Registration

  /** Registration succeeds exactly when every check passes, nothing is taken and no collaborator fails. */
  predicate RegistrationSucceeds(users: seq<User>, form: RegisterForm, env: Collaborators)
  {
    && (forall rule | 0 <= rule < RuleCount :: RuleHolds(rule, form))
    && !env.storeFails(CountUsername) && UsernameFree(users, form.username)
    && !env.storeFails(CountEmail) && EmailFree(users, form.email)
    && env.hash(form.password).Some?
    && !env.storeFails(InsertUser)
  }

  /** `process_register_form` as a transition of the user table. */
  function RegisterStep(users: seq<User>, form: RegisterForm, env: Collaborators): (r: Transition<seq<User>>)
    // the table changes only on success, by exactly one row holding the hash
    ensures r.state == users || r.response == Redirect(LoginPath)
    ensures r.response == Redirect(LoginPath) <==> RegistrationSucceeds(users, form, env)
    ensures RegistrationSucceeds(users, form, env) ==>
              r.state == users + [User(|users| + 1, form.username, form.email, env.hash(form.password).value)]
    // a failed format check is reported with its own message
    ensures ValidateRegistration(form).Some? ==>
              r == Transition(ShowRegisterForm(ValidateRegistration(form), env.renders), users)
    // conflicts are reported only after every format check has passed, username first
    ensures RegisterMessage(r.response) == Some(UsernameTaken) <==>
              && ValidateRegistration(form).None?
              && !env.storeFails(CountUsername) && !UsernameFree(users, form.username)
              && env.renders(RegisterView, map["error_message" := UsernameTaken])
    ensures RegisterMessage(r.response) == Some(EmailTaken) <==>
              && ValidateRegistration(form).None?
              && !env.storeFails(CountUsername) && UsernameFree(users, form.username)
              && !env.storeFails(CountEmail) && !EmailFree(users, form.email)
              && env.renders(RegisterView, map["error_message" := EmailTaken])
    // a conflict re-renders the register view with its message and nothing else
    ensures ValidateRegistration(form).None? && !env.storeFails(CountUsername) && !UsernameFree(users, form.username) ==>
              r == Transition(ShowRegisterForm(Some(UsernameTaken), env.renders), users)
    ensures ValidateRegistration(form).None? && !env.storeFails(CountUsername) && UsernameFree(users, form.username)
            && !env.storeFails(CountEmail) && !EmailFree(users, form.email) ==>
              r == Transition(ShowRegisterForm(Some(EmailTaken), env.renders), users)
    // a hashing failure is an internal error that adds nothing
    ensures ValidateRegistration(form).None? && !env.storeFails(CountUsername) && UsernameFree(users, form.username)
            && !env.storeFails(CountEmail) && EmailFree(users, form.email) && env.hash(form.password).None? ==>
              r == Transition(InternalError(HashError), users)
    // a failed store query is an internal error that adds nothing
    ensures ValidateRegistration(form).None? && env.storeFails(CountUsername) ==>
              r == Transition(InternalError(QueryError), users)
    ensures ValidateRegistration(form).None? && !env.storeFails(CountUsername) && UsernameFree(users, form.username)
            && env.storeFails(CountEmail) ==>
              r == Transition(InternalError(QueryError), users)
    ensures ValidateRegistration(form).None? && !env.storeFails(CountUsername) && UsernameFree(users, form.username)
            && !env.storeFails(CountEmail) && EmailFree(users, form.email) && env.hash(form.password).Some?
            && env.storeFails(InsertUser) ==>
              r == Transition(InternalError(InsertError), users)
    // the uniqueness of usernames and e-mail addresses is kept
    ensures HasUniqueAccounts(users) ==> HasUniqueAccounts(r.state)
  {
    match ValidateRegistration(form)
    case Some(message) => Transition(ShowRegisterForm(Some(message), env.renders), users)
    case None =>
      if env.storeFails(CountUsername) then Transition(InternalError(QueryError), users)
      else if Count(users, UsernameColumn, form.username) > 0 then
        Transition(ShowRegisterForm(Some(UsernameTaken), env.renders), users)
      else if env.storeFails(CountEmail) then Transition(InternalError(QueryError), users)
      else if Count(users, EmailColumn, form.email) > 0 then
        Transition(ShowRegisterForm(Some(EmailTaken), env.renders), users)
      else match env.hash(form.password)
        case None => Transition(InternalError(HashError), users)
        case Some(hashed) =>
          if env.storeFails(InsertUser) then Transition(InternalError(InsertError), users)
          else Transition(Redirect(LoginPath), users + [NewUser(users, form, hashed)])
  }

  // ---------------------------------------------------------------------
  // Login

  /** `process_login_form` as a transition of the session. */
  function LoginStep(users: seq<User>, session: Entries, form: LoginForm, env: Collaborators): (r: Transition<Entries>)
    // the session changes only on success
    ensures r.response != Redirect(DashboardPath) ==> r.state == session
    // success needs a stored user matching the identifier whose hash verifies (the
    // first match in table order), and stores that user's username, not the identifier
    ensures r.response == Redirect(DashboardPath) ==>
              && !env.storeFails(FindUser)
              && FindByIdentifier(users, form.identifier).Some?
              && env.verify(form.password, FindByIdentifier(users, form.identifier).value.password) == Some(true)
              && r.state == Insert(session, UsernameKey, FindByIdentifier(users, form.identifier).value.username)
    // an unknown identifier and a wrong password give the same answer
    ensures !env.storeFails(FindUser) && (forall i | 0 <= i < |users| :: !Matches(users[i], form.identifier)) ==>
              r == Transition(ShowLoginForm(Some(InvalidCredentials), env.renders), session)
    ensures !env.storeFails(FindUser) && FindByIdentifier(users, form.identifier).Some? &&
            env.verify(form.password, FindByIdentifier(users, form.identifier).value.password) == Some(false) ==>
              r == Transition(ShowLoginForm(Some(InvalidCredentials), env.renders), session)
    // the first matching user whose hash verifies is logged in
    ensures !env.storeFails(FindUser) && FindByIdentifier(users, form.identifier).Some? &&
            env.verify(form.password, FindByIdentifier(users, form.identifier).value.password) == Some(true) ==>
              r.response == Redirect(DashboardPath)
    // store and verification failures are internal errors
    ensures env.storeFails(FindUser) ==> r == Transition(InternalError(QueryError), session)
    ensures !env.storeFails(FindUser) && FindByIdentifier(users, form.identifier).Some? &&
            env.verify(form.password, FindByIdentifier(users, form.identifier).value.password).None? ==>
              r == Transition(InternalError(VerifyError), session)
  {
    if env.storeFails(FindUser) then Transition(InternalError(QueryError), session)
    else
      var found := FindByIdentifier(users, form.identifier);
      var failed := Transition(ShowLoginForm(Some(InvalidCredentials), env.renders), session);
      match found
      case None => failed
      case Some(user) =>
        match env.verify(form.password, user.password)
        case None => Transition(InternalError(VerifyError), session)
        case Some(ok) =>
          if ok then Transition(Redirect(DashboardPath), Insert(session, UsernameKey, user.username))
          else failed
  }

  // ---------------------------------------------------------------------
  // The handlers over the user table and one client's session

  class AuthServer {
    var users: seq<User>
    var session: Entries

    constructor (users: seq<User>, session: Entries)
      ensures this.users == users && this.session == session
    {
      this.users := users;
      this.session := session;
    }

    /** `process_register_form`: checks, then conflict queries, then hash and insert. */
    method Register(form: RegisterForm, env: Collaborators) returns (response: Response)
      modifies this
      ensures Transition(response, users) == RegisterStep(old(users), form, env)
      ensures old(HasUniqueAccounts(users)) ==> HasUniqueAccounts(users)
      ensures session == old(session)
    {
      var error := ValidateRegistration(form);
      if error.Some? {
        return ShowRegisterForm(error, env.renders);
      }
      if env.storeFails(CountUsername) {
        return InternalError(QueryError);
      }
      var usernameCount := Count(users, UsernameColumn, form.username);
      if usernameCount > 0 {
        return ShowRegisterForm(Some(UsernameTaken), env.renders);
      }
      if env.storeFails(CountEmail) {
        return InternalError(QueryError);
      }
      var emailCount := Count(users, EmailColumn, form.email);
      if emailCount > 0 {
        return ShowRegisterForm(Some(EmailTaken), env.renders);
      }
      var hashed := env.hash(form.password);
      if hashed.None? {
        return InternalError(HashError);
      }
      if env.storeFails(InsertUser) {
        return InternalError(InsertError);
      }
      users := users + [NewUser(users, form, hashed.value)];
      response := Redirect(LoginPath);
    }

    /** `process_login_form`: look the user up, verify, and store the username claim. */
    method Login(form: LoginForm, env: Collaborators) returns (response: Response)
      modifies this
      ensures Transition(response, session) == LoginStep(users, old(session), form, env)
      ensures users == old(users)
    {
      if env.storeFails(FindUser) {
        return InternalError(QueryError);
      }
      var found := FindByIdentifier(users, form.identifier);
      if found.Some? {
        var verdict := env.verify(form.password, found.value.password);
        if verdict.None? {
          return InternalError(VerifyError);
        }
        if verdict.value {
          session := Insert(session, UsernameKey, found.value.username);
          return Redirect(DashboardPath);
        }
      }
      response := ShowLoginForm(Some(InvalidCredentials), env.renders);
    }

    /** `logout`: whatever the session held, it is emptied, and the client goes to the login page. */
    method Logout() returns (response: Response)
      modifies this
      ensures session == map[] && response == Redirect(LoginPath)
      ensures users == old(users)
    {
      session := Clear(session);
      response := Redirect(LoginPath);
    }
  }
}
