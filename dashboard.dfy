/**
 * The dashboard gate: it reads the username claim of the session and either
 * renders the dashboard for that user or sends the client to the login page.
 * It never changes the session. The lemmas below connect it with login and
 * logout: the client is Anonymous or Authenticated according to the claim.
 */
module Dashboard {
  import opened Wrappers
  import opened SessionState
  import opened EmailSyntax
  import opened Auth

  const DashboardView := "dashboard.html"

  /** The context the dashboard view is rendered with. */
  function WelcomeContext(username: string): Context
  {
    map["username" := username, "welcome_message" := "Welcome to your dashboard, " + username + "!"]
  }

  /** `session.get::<String>("username").unwrap_or(None)`: a value that does not deserialize counts as no claim. */
  function UsernameClaim(session: Entries): (claim: Option<string>)
    ensures claim.Some? ==> UsernameKey in session && Decode(session[UsernameKey]) == claim
    ensures claim.None? <==> UsernameKey !in session || Decode(session[UsernameKey]).None?
  {
    match Get(session, UsernameKey)
    case Ok(value) => value
    case Err(_) => None
  }

  /** `show_dashboard` */
  function ShowDashboard(session: Entries, renders: (string, Context) -> bool): (r: Response)
    ensures r.Redirect? <==> UsernameClaim(session).None?
    ensures r.Redirect? ==> r.location == LoginPath
    ensures r.Render? ==>
              && UsernameClaim(session).Some?
              && r.view == DashboardView
              && r.context.Keys == {"username", "welcome_message"}
              && r.context["username"] == UsernameClaim(session).value
              && r.context["welcome_message"] == "Welcome to your dashboard, " + UsernameClaim(session).value + "!"
    ensures r.InternalError? <==>
              UsernameClaim(session).Some? && !renders(DashboardView, WelcomeContext(UsernameClaim(session).value))
    ensures r.InternalError? ==> r.message == TemplateError
  {
    match UsernameClaim(session)
    case Some(username) =>
      var ctx := WelcomeContext(username);
      if renders(DashboardView, ctx) then Render(DashboardView, ctx) else InternalError(TemplateError)
    case None => Redirect(LoginPath)
  }

  // ---------------------------------------------------------------------
  // The two client states

  datatype ClientState = Anonymous | Authenticated(username: string)

  function StateOf(session: Entries): ClientState
  {
    match UsernameClaim(session)
    case Some(u) => Authenticated(u)
    case None => Anonymous
  }

  /**
   * After a successful login the client is Authenticated as a stored user
   * matching the identifier, and the gate renders that user's username.
   */
  lemma LoginThenDashboard(users: seq<User>, session: Entries, form: LoginForm, env: Collaborators)
    requires LoginStep(users, session, form, env).response == Redirect(DashboardPath)
    ensures exists i | 0 <= i < |users| ::
              var after := LoginStep(users, session, form, env).state;
              && Matches(users[i], form.identifier)
              && StateOf(after) == Authenticated(users[i].username)
              && ShowDashboard(after, env.renders) ==
                   if env.renders(DashboardView, WelcomeContext(users[i].username))
                   then Render(DashboardView, WelcomeContext(users[i].username))
                   else InternalError(TemplateError)
  {
  }

  /** A login that does not succeed leaves the client in the state it was in. */
  lemma FailedLoginKeepsState(users: seq<User>, session: Entries, form: LoginForm, env: Collaborators)
    requires LoginStep(users, session, form, env).response != Redirect(DashboardPath)
    ensures StateOf(LoginStep(users, session, form, env).state) == StateOf(session)
  {
  }

  /** After logout the client is Anonymous and the gate always redirects to the login page. */
  lemma LogoutThenDashboard(session: Entries, renders: (string, Context) -> bool)
    ensures StateOf(Clear(session)) == Anonymous
    ensures ShowDashboard(Clear(session), renders) == Redirect(LoginPath)
  {
  }

  /** The registration form of the alice scenario of `AliceScenario`: user "alice", address a@example.com, password "longpass1" twice. */
  predicate IsAliceForm(form: RegisterForm)
  {
    && form.username == "alice" && form.email == "a@example.com"
    && form.password == "longpass1" && form.passwordConfirm == "longpass1"
  }

  /** The registration form of the alice scenario of `AliceScenario` passes every format check. */
  lemma AliceFormPasses(form: RegisterForm)
    requires IsAliceForm(form)
    ensures ValidateRegistration(form) == None
  {
    assert Utf8Length(form.username) == 5;
    assert Utf8Length(form.password) == 9;
    assert ' ' !in form.username;
    ExampleAddressAccepted();
    assert IsValidEmail(form.email);
  }

  /** Registering "alice" into an empty table with collaborators that do not fail adds her row. */
  lemma AliceRegisters(form: RegisterForm, env: Collaborators)
    requires IsAliceForm(form)
    requires forall q :: !env.storeFails(q)
    requires env.hash(form.password).Some?
    ensures RegisterStep([], form, env) ==
            Transition(Redirect(LoginPath), [User(1, form.username, form.email, env.hash(form.password).value)])
  {
    AliceFormPasses(form);
    assert RegistrationSucceeds([], form, env);
    var alice := User(1, form.username, form.email, env.hash(form.password).value);
    assert [] + [alice] == [alice];
  }

  /** Logging in as "alice" with the password whose hash is stored sets her claim. */
  lemma AliceLogsIn(env: Collaborators)
    requires !env.storeFails(FindUser)
    requires env.hash("longpass1").Some?
    requires env.verify("longpass1", env.hash("longpass1").value) == Some(true)
    ensures var alice := User(1, "alice", "a@example.com", env.hash("longpass1").value);
            LoginStep([alice], map[], LoginForm("alice", "longpass1"), env) ==
            Transition(Redirect(DashboardPath), Insert(map[], UsernameKey, "alice"))
  {
  }

  /**
   * Register, log in, open the dashboard, log out, open it again, with
   * collaborators that never fail and a `verify` that accepts the hash of
   * the password it was made from (an assumption about bcrypt that the
   * handlers do not establish).
   */
  method AliceScenario(env: Collaborators) returns (responses: seq<Response>)
    requires forall q :: !env.storeFails(q)
    requires forall view, ctx :: env.renders(view, ctx)
    requires env.hash("longpass1").Some?
    requires env.verify("longpass1", env.hash("longpass1").value) == Some(true)
    ensures responses == [
      Redirect(LoginPath),
      Redirect(DashboardPath),
      Render(DashboardView, WelcomeContext("alice")),
      Redirect(LoginPath),
      Redirect(LoginPath)]
  {
    var server := new AuthServer([], map[]);
    var form := RegisterForm("alice", "a@example.com", "longpass1", "longpass1");
    AliceRegisters(form, env);
    var registered := server.Register(form, env);
    AliceLogsIn(env);
    var loggedIn := server.Login(LoginForm("alice", "longpass1"), env);
    assert UsernameClaim(server.session) == Some("alice");
    var first := ShowDashboard(server.session, env.renders);
    var loggedOut := server.Logout();
    LogoutThenDashboard(server.session, env.renders);
    var second := ShowDashboard(server.session, env.renders);
    responses := [registered, loggedIn, first, loggedOut, second];
  }
}
