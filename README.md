# Login/Register authentication, modelled in Dafny

This project models the authentication handlers of a small actix-web
application: registration, login and logout over a `users` table and a
client session, and the dashboard gate that admits a client holding a
username claim. The files:

- `wrappers.dfy` — `Option` and `Result`.
- `email.dfy` (module `EmailSyntax`) — `is_valid_email`. The regular
  expression `^[\w\-\.]+@([\w\-]+\.)+[a-zA-Z]{2,}$` is a finite automaton
  (`Step`, `Run`). `IsValidEmail` is proved equal to `IsEmailShape`, which
  splits the address: exactly one `@`; a non-empty local part of word
  characters, `-` and `.`; a domain that splits on `.` into at least two
  non-empty labels of word characters and `-`; a last label of two or more
  ASCII letters.
- `session.dfy` (module `SessionState`) — the session as actix-session
  keeps it: a map from keys to the JSON text of each value. It has
  serde_json's string encoding (`Encode`) and decoding (`Decode`), proved
  to round-trip, and `Insert`, `Get` and `Clear`.
- `auth.dfy` (module `Auth`) — the form records, `User` and `Response`.
  It has the five registration checks in their order, the store queries
  over a sequence of users, and two pure transitions: `RegisterStep` for the
  user table and `LoginStep` for the session. Class `AuthServer` holds the
  table and one client's session. Its methods `Register`, `Login` and
  `Logout` make the handlers' changes in place. `Register` and `Login` are
  proved equal to their transitions; `Logout` states the emptied session
  and its redirect directly.
- `dashboard.dfy` (module `Dashboard`) — `show_dashboard` as a pure
  function of the session. It also has the Anonymous/Authenticated view of
  a client, lemmas linking login and logout to the gate, and a client
  method: register "alice", log in, open the dashboard, log out, open it
  again.

Collaborators are passed in as values of the `Collaborators` datatype:

- whether a template renders with a context;
- whether each store query fails;
- bcrypt's `hash`, which may fail;
- bcrypt's `verify`, which may error.

Every redirect the handlers issue is a 303 See Other. `Render` is a 200
response with the rendered view. `InternalError` is a 500 response with
the handler's message.

The login query (`WHERE username = ? OR email = ?` with `fetch_optional`)
is modelled as returning the first matching user in table order. A new
user's identifier is the table length plus one, an auto-increment counter
with no deletions.

A username is rejected only for the space character (src/auth.rs:112);
tabs and other whitespace pass, and the model follows the code.

The application entry point declares only the `auth` module
(src/main.rs:1), so `dashboard.rs` is never compiled into it. It also
installs no session middleware (src/main.rs:49-54). The gate is modelled
as the standalone function its file defines.

## Model

| member | source | states |
|---|---|---|
| `EmailSyntax.IsValidEmail` | src/auth.rs:98-101 | the automaton for the e-mail expression accepts exactly the addresses of shape local@domain described by splitting on '@' and '.' |
| `EmailSyntax.RunAccepts` | src/auth.rs:99 | from every automaton state, the run accepts exactly the suffixes that state's split-based characterisation describes |
| `EmailSyntax.StepAccepts` | src/auth.rs:99 | one character step preserves the meaning of each automaton state |
| `EmailSyntax.JoinSplit` | src/auth.rs:99 | splitting on a separator loses nothing: joining the pieces gives back the input |
| `EmailSyntax.SplitSingle` | src/auth.rs:99 | a string splits into exactly one piece, itself, exactly when the separator does not occur |
| `EmailSyntax.DomainHasNoAt` | src/auth.rs:99 | a domain accepted by the expression contains no '@', so the '@' is unique |
| `EmailSyntax.ExampleAddressAccepted` | src/auth.rs:125 | the address a@example.com passes the e-mail check |
| `SessionState.DecodeEncode` | src/dashboard.rs:7 | a string serialized into the session deserializes back to the same string |
| `SessionState.Insert` | src/auth.rs:69 | after inserting a value under a key, reading the key gives the value and every other key keeps its entry |
| `SessionState.Get` | src/dashboard.rs:7 | reading a key gives no value when absent, the decoded value when present and decodable, and an error exactly when the stored text does not deserialize |
| `SessionState.Clear` | src/auth.rs:82 | after clearing, every key reads as absent |
| `Auth.Utf8Length` | src/auth.rs:109 | byte length is between the character count and four times it, and equals the character count on ASCII text |
| `Auth.ShowLoginForm` | src/auth.rs:32-40 | the login view is rendered with the error under "error" (empty context without one), or the result is the template-error 500; it renders exactly when the renderer accepts that view and context |
| `Auth.ShowRegisterForm` | src/auth.rs:88-96 | the register view is rendered with the error under "error_message" (empty context without one), or the result is the template-error 500; it renders exactly when the renderer accepts that view and context |
| `Auth.ValidateRegistration` | src/auth.rs:108-127 | no error exactly when all five checks pass; the message of check k is reported exactly when checks before k pass and check k fails |
| `Auth.Count` | src/auth.rs:130-139 | the count of rows with a given column value is zero exactly when no row has that value |
| `Auth.FindByIdentifier` | src/auth.rs:48-63 | no result exactly when no user has the identifier as username or e-mail; otherwise the first such user |
| `Auth.RegisterStep` | src/auth.rs:103-176 | table unchanged on every failure; success (303 to /auth/login) exactly when all checks pass, nothing is taken and no collaborator fails, and then exactly one row with the given username, e-mail and the hash is appended; a failed check re-renders with its own message; a taken username (only after all checks pass) or a taken e-mail (only after the username is free) gives exactly the register view with that message and no other context, or the template-error 500; a failed count query, hash or insert is a 500 that adds nothing; uniqueness of usernames and e-mails is kept |
| `Auth.LoginStep` | src/auth.rs:42-79 | session unchanged unless the answer is the 303 to /dashboard, which needs a user matching the identifier whose hash verifies and stores the username (not the identifier) of the first matching user in table order; an unknown identifier and a wrong password give the identical login view with "Invalid credentials."; a failed lookup or verification error is a 500 with the session unchanged |
| `Auth.AuthServer.Register` | src/auth.rs:103-176 | the in-place handler changes the table exactly as `RegisterStep`, keeps uniqueness and leaves the session alone |
| `Auth.AuthServer.Login` | src/auth.rs:42-79 | the in-place handler changes the session exactly as `LoginStep` and leaves the table alone |
| `Auth.AuthServer.Logout` | src/auth.rs:81-86 | the session is emptied whatever it held and the answer is the 303 to /auth/login, so a second logout changes nothing |
| `Dashboard.UsernameClaim` | src/dashboard.rs:7 | the claim is present exactly when the username entry exists and deserializes; a malformed entry is the same as none |
| `Dashboard.ShowDashboard` | src/dashboard.rs:6-23 | redirect to /auth/login exactly when there is no claim; a rendered dashboard carries the claim as username and the welcome message built from it; the only error is a render failure when the claim is present |
| `Dashboard.LoginThenDashboard` | src/dashboard.rs:7-21 | after a successful login the client is Authenticated as a stored user matching the identifier, and the gate renders that user's username |
| `Dashboard.FailedLoginKeepsState` | src/auth.rs:65-78 | a login that does not succeed leaves the client Anonymous or Authenticated as before |
| `Dashboard.LogoutThenDashboard` | src/auth.rs:82 | after logout the client is Anonymous and the gate redirects to /auth/login |
| `Dashboard.AliceFormPasses` | src/auth.rs:108-127 | the example form (alice, a@example.com, longpass1 twice) passes all five checks |
| `Dashboard.AliceRegisters` | src/auth.rs:159-175 | registering the example into an empty table with working collaborators appends alice's row with the hash and redirects to /auth/login |
| `Dashboard.AliceLogsIn` | src/auth.rs:65-74 | logging in as alice with the password whose hash verifies stores the claim "alice" and redirects to /dashboard |
| `Dashboard.AliceScenario` | src/auth.rs:42-176 | register, login, dashboard, logout, dashboard answer 303 login, 303 dashboard, the dashboard for alice, 303 login, 303 login |

## Left out

- Unicode word characters: `\w` in Rust's regex is Unicode-aware; the recognizer accepts ASCII word characters only, so addresses with non-ASCII letters or digits are rejected by the model.
- MySQL's case-insensitive collation: usernames and e-mails are compared exactly.
- Which row `fetch_optional` returns when several rows match: the model takes the first in table order.
- Concurrency: the uniqueness invariant holds for registrations run one after another; the check-then-insert race between concurrent requests is not modelled.
- Session signing, encryption and the cookie transport: the session is the plain key-to-JSON map.
- `Session::insert` failing: serializing a string cannot fail, so the "Session insertion error" path is not reachable in the model.
- serde_json details the handlers never exercise: whitespace around the JSON text and surrogate-pair `\u` escapes are rejected by `Decode`.
- bcrypt internals and the cost factor: `hash` and `verify` are opaque collaborators; that `verify` accepts the hash of the same password is only assumed, as a requirement of `Dashboard.AliceLogsIn` and `Dashboard.AliceScenario`.
- Tera rendering: a render is a view name and a context, or a failure; template contents are not modelled.
- NewUser: store-assigned user ids are not modelled faithfully; the new row gets the table length plus one, which matches an auto-increment counter only when the table was numbered 1..n with no deletions, and id uniqueness is not part of `HasUniqueAccounts`.
- Store I/O: each query's failure is an input; a failed insert adds no row (the insert is one statement).
- Logging with `eprintln!` and the HTTP content type of rendered pages.
- `configure_routes` in both files and everything in src/main.rs: routing and process start-up.
