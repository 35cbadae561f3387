# Subject: a verified model of JSecurity's per-user security handle

This project models `org.jsecurity.subject.Subject`, the interface through which an
application authenticates one user, asks whether that user holds permissions and roles,
and binds a server-side session to them. The interface has no code of its own: its
contracts are written in its doc comments. The model is a reference implementation of
those contracts. It proves the contracts about that implementation.

The Subject delegates to three collaborators, and these stay abstract:

- the Authenticator is a total function from a login token to an account's principals or an error;
- the Authorizer is a record of three functions: resolve a permission string, decide a
  permission, decide a role;
- the Session Manager is a small class that issues fresh ids from a counter.

Modules, one per responsibility of the Subject:

- `Wrappers` (wrappers.dfy): `Option` stands for a nullable return. `Result` and
  `Outcome` stand for "returns normally or throws".
- `Principals` (principals.dfy) is the identity holder. Principals are tagged values
  (`Str`, `Integer`, `Long`, `Boolean`). A Java `Class<T>` becomes a `JavaType` tag, and
  "assignable to T" is `IsInstance`, with `Object` and `Number` as supertypes.
- `Aggregation` (aggregation.dfy) is the one evaluation that all bulk and enforcing
  checks share. `Each` maps a single check over a request. `All` is the conjunction of the
  single checks. `FirstFailing` gives the first element that fails.
- `Authorization` (authorization.dfy) holds `isPermitted`, `hasRole`, their bulk and
  "all" forms, the `check*` forms, and the `String` overloads. Each query of a Subject `s`
  is the function applied to `s.authorizer` and `s.principals`. A denial is the value
  `false`. A `check*` form returns `Fail(AuthorizationError)` exactly when the matching
  boolean query is false.
- `Sessions` (sessions.dfy) is the stand-in Session Manager.
- `Lifecycle` (lifecycle.dfy) is authentication and session binding as a pure state
  machine over `SubjectState(principals, authenticated, session)`. It defines
  `Login`, `Logout` and `GetSession(create)`. It also runs sequences of calls (`Run`) and
  proves what holds along any such sequence.
- `SubjectModel` (subject.dfy) holds the class `Subject`. Its fields are `principals`,
  `authenticated` and `session`. Its methods `Login`, `Logout` and `GetSession` are proved
  to perform exactly the `Lifecycle` transition of the same name. `GetOrCreateSession`
  (Java's `getSession()`) performs `Lifecycle.GetSession` with `create` set. Each method
  also says what happens to the Session Manager. Each one is also proved to take the
  Subject, together with the Session Manager's counter (`AsMachine`), one `Lifecycle.Step`
  forward. So the lemmas about `Lifecycle.Run` hold of any sequence of calls on a
  `Subject`. The method `Scenario` is a caller that relies only on those contracts. It
  checks that its calls are exactly such a run.

Rules that the interface leaves to the implementation, fixed here:

- `getPrincipal()` returns the first principal, in the order the realms contributed them
  (lines 62-66 leave this open).
- `getPrincipalByType` returns the first principal of the requested type.
- The plural `check*` forms fail fast. They name the first permission or role of the
  request that is missing.
- An account that the Authenticator accepts but that carries no principal makes login
  fail with `AccountWithoutPrincipals`, and the state stays unchanged. So after login returns
  normally, `getPrincipal()` is non-null, as lines 243-245 promise.
- `login` keeps a bound session. `logout` invalidates that session with the Session
  Manager and clears principals, the authenticated flag and the session.

## Model

| member | source | states |
|---|---|---|
| `Principals.GetPrincipal` | src/org/jsecurity/subject/Subject.java:47-70 | absent exactly when the Subject has no principal; otherwise one of its principals, the first one (the documented rule for several realms) |
| `Principals.PrincipalByType` | src/org/jsecurity/subject/Subject.java:72-82 | a returned principal is one of the Subject's and is of the requested type; absent exactly when no principal has that type |
| `Principals.AllPrincipalsByType` | src/org/jsecurity/subject/Subject.java:84-92 | every returned principal has the requested type, and each principal of that type occurs as often as in the Subject; empty, not an error, when none matches |
| `Principals.PrincipalByTypeIsFirstOfAll` | src/org/jsecurity/subject/Subject.java:72-92 | the single typed lookup is absent exactly when the bulk lookup is empty, and otherwise returns its first element |
| `Principals.AllPrincipalsByTypeConcat` | src/org/jsecurity/subject/Subject.java:58-66 | with principals from several realms, the typed lookup over all of them is the lookups over each realm's principals, in order |
| `Principals.AllOfObjectTypeIsEverything` | src/org/jsecurity/subject/Subject.java:84-92 | asking for `Object` returns every principal, in order |
| `Principals.TwoRealmLookup` | src/org/jsecurity/subject/Subject.java:72-92 | for "alice" from one realm and 42 from another: Integer gives [42], String gives ["alice"], Boolean gives absent, getPrincipal gives "alice" |
| `Aggregation.Each` | src/org/jsecurity/subject/Subject.java:118-121 | the bulk answer has the request's length, and entry i is the single check of element i, duplicates included |
| `Aggregation.All` | src/org/jsecurity/subject/Subject.java:138-151 | true exactly when every element passes the single check; true for an empty request |
| `Aggregation.FirstFailing` | src/org/jsecurity/subject/Subject.java:172-189 | nothing exactly when every element passes; otherwise an index whose element fails, with every earlier element passing |
| `Aggregation.AllIffNoneDenied` | src/org/jsecurity/subject/Subject.java:138-151 | "all" holds exactly when the bulk answer contains no `false` |
| `Aggregation.AllDependsOnlyOnMembers` | src/org/jsecurity/subject/Subject.java:146-151 | "all" depends only on which elements the collection holds, not on their order or repetition |
| `Authorization.IsPermittedText` | src/org/jsecurity/subject/Subject.java:94-102 | isPermitted(String) holds exactly when checkPermission of the Permission the string resolves to returns normally |
| `Authorization.IsPermittedEach` | src/org/jsecurity/subject/Subject.java:126-136 | isPermitted(List): the result has the list's length, and entry i equals isPermitted of element i |
| `Authorization.IsPermittedEachText` | src/org/jsecurity/subject/Subject.java:113-124 | isPermitted(String...): the result has the request's length, and entry i equals isPermitted of string i |
| `Authorization.IsPermittedAll` | src/org/jsecurity/subject/Subject.java:146-151 | isPermittedAll(Collection) holds exactly when every permission passes isPermitted |
| `Authorization.IsPermittedAllText` | src/org/jsecurity/subject/Subject.java:138-144 | isPermittedAll(String...) holds exactly when every string passes isPermitted |
| `Authorization.CheckPermission` | src/org/jsecurity/subject/Subject.java:163-170 | returns normally exactly when isPermitted holds; otherwise signals an AuthorizationException naming the permission |
| `Authorization.CheckPermissionText` | src/org/jsecurity/subject/Subject.java:153-161 | returns normally exactly when isPermitted(String) holds; otherwise signals an AuthorizationException naming the resolved permission |
| `Authorization.CheckPermissions` | src/org/jsecurity/subject/Subject.java:182-189 | returns normally exactly when isPermittedAll holds; otherwise signals an AuthorizationException naming a permission of the request that is not permitted |
| `Authorization.CheckPermissionsText` | src/org/jsecurity/subject/Subject.java:172-180 | returns normally exactly when isPermittedAll(String...) holds; otherwise names the resolved form of a string that is not permitted |
| `Authorization.HasRoles` | src/org/jsecurity/subject/Subject.java:198-210 | the result has the list's length, and entry i equals hasRole of role i |
| `Authorization.HasAllRoles` | src/org/jsecurity/subject/Subject.java:212-217 | holds exactly when every role passes hasRole; true for no roles |
| `Authorization.CheckRole` | src/org/jsecurity/subject/Subject.java:219-226 | returns normally exactly when hasRole holds; otherwise signals an AuthorizationException naming the role |
| `Authorization.CheckRoles` | src/org/jsecurity/subject/Subject.java:228-235 | returns normally exactly when hasAllRoles holds; otherwise names a requested role that is not held |
| `Authorization.IsPermittedEachTextResolves` | src/org/jsecurity/subject/Subject.java:113-136 | the String and Permission overloads of bulk isPermitted agree once the strings are resolved |
| `Authorization.IsPermittedAllTextResolves` | src/org/jsecurity/subject/Subject.java:138-151 | the String and Permission overloads of isPermittedAll agree once the strings are resolved |
| `Authorization.IsPermittedAllIffEachTrue` | src/org/jsecurity/subject/Subject.java:113-151 | isPermittedAll holds exactly when bulk isPermitted returns no `false` |
| `Authorization.HasAllRolesIffEachTrue` | src/org/jsecurity/subject/Subject.java:198-217 | hasAllRoles holds exactly when hasRoles returns no `false` |
| `Authorization.CheckSingletonAgrees` | src/org/jsecurity/subject/Subject.java:163-235 | checkPermissions and checkRoles on a one-element request behave as checkPermission and checkRole |
| `Authorization.IsPermittedAllIgnoresOrder` | src/org/jsecurity/subject/Subject.java:146-151 | isPermittedAll and checkPermissions depend only on which permissions the collection holds |
| `Authorization.HasAllRolesIgnoresOrder` | src/org/jsecurity/subject/Subject.java:212-235 | hasAllRoles and checkRoles depend only on which roles the collection holds |
| `Sessions.SessionManager.Start` | src/org/jsecurity/subject/Subject.java:290-291 | a new session gets an id never issued before and becomes active |
| `Sessions.SessionManager.Invalidate` | src/org/jsecurity/subject/Subject.java:303-307 | the invalidated session is no longer active; nothing else changes |
| `Lifecycle.Login` | src/org/jsecurity/subject/Subject.java:237-253 | login returns normally exactly when the Authenticator accepts an account with a principal; then the account's principals are bound, the Subject is authenticated and getPrincipal is present; otherwise it signals the Authenticator's error, or AccountWithoutPrincipals for an accepted account with no principal, and the state is unchanged; the session is kept |
| `Lifecycle.Logout` | src/org/jsecurity/subject/Subject.java:303-307 | after logout the Subject is not authenticated, has no principal and has no session |
| `Lifecycle.GetSession` | src/org/jsecurity/subject/Subject.java:283-301 | a bound session is returned whatever `create` is; with none bound, `create` binds and returns the new id, and `!create` returns absent with no change; identity is never touched |
| `Lifecycle.LoginSuccessAuthenticates` | src/org/jsecurity/subject/Subject.java:240-245 | after a successful login the Subject is authenticated, its principal is the account's first principal, and its session is kept |
| `Lifecycle.LoginFailureChangesNothing` | src/org/jsecurity/subject/Subject.java:238-239 | a login the Authenticator does not accept leaves the principals, the authenticated flag and the session unchanged |
| `Lifecycle.RememberedIsNotAuthenticated` | src/org/jsecurity/subject/Subject.java:255-269 | a remembered Subject has a principal but isAuthenticated is false |
| `Lifecycle.LogoutClears` | src/org/jsecurity/subject/Subject.java:303-307 | a second logout changes nothing, and after logout getSession(false) finds no session |
| `Lifecycle.GetSessionIsStable` | src/org/jsecurity/subject/Subject.java:288-289 | once a call has returned a session, every later call returns the same one and creates nothing |
| `Lifecycle.GetSessionCreatingNeverAbsent` | src/org/jsecurity/subject/Subject.java:271-281 | getSession() never returns absent, and what it returns is the bound session |
| `Lifecycle.GetSessionWithoutCreateTwice` | src/org/jsecurity/subject/Subject.java:292 | with no session bound, getSession(false) twice returns absent twice and leaves the state unchanged |
| `Lifecycle.SessionScenario` | src/org/jsecurity/subject/Subject.java:271-307 | getSession() gives S; getSession(false) then gives S; after logout, getSession(false) gives absent |
| `Lifecycle.RunKeepsValid` | src/org/jsecurity/subject/Subject.java:243-245 | along any sequence of calls, an authenticated Subject has a principal, and a bound session id was issued by the Session Manager |
| `Lifecycle.AuthenticatedIffLoginNotUndone` | src/org/jsecurity/subject/Subject.java:255-269 | after any sequence of calls, isAuthenticated holds exactly when a login succeeded and no logout followed, or the Subject started authenticated and never logged out |
| `Lifecycle.RememberedUntilLogin` | src/org/jsecurity/subject/Subject.java:259-262 | a remembered Subject stays unauthenticated along any sequence of calls without a successful login |
| `Lifecycle.AtMostOneSessionPerSignIn` | src/org/jsecurity/subject/Subject.java:283-301 | without a logout, at most one session is created; a bound session stays bound and no id is issued |
| `SubjectModel.Subject.constructor` | src/org/jsecurity/subject/Subject.java:36-45 | a new Subject has no principal, is not authenticated and has no session |
| `SubjectModel.Subject.Remembering` | src/org/jsecurity/subject/Subject.java:259-262 | a remembered Subject carries the remembered principals, is not authenticated and has no session |
| `SubjectModel.Subject.IsAuthenticated` | src/org/jsecurity/subject/Subject.java:255-269 | an authenticated Subject has a principal (the converse need not hold, see Remembering) |
| `SubjectModel.Subject.Login` | src/org/jsecurity/subject/Subject.java:237-253 | performs the Login transition and one machine step; returns normally exactly when the Authenticator accepts an account with a principal, and then isAuthenticated holds and getPrincipal is present; otherwise signals an error and changes nothing |
| `SubjectModel.Subject.Logout` | src/org/jsecurity/subject/Subject.java:303-307 | performs the Logout transition and one machine step, and invalidates the bound session, if any, with the Session Manager |
| `SubjectModel.Subject.GetSession` | src/org/jsecurity/subject/Subject.java:283-301 | performs the GetSession(create) transition and one machine step; a session is started with the Session Manager exactly when none is bound and `create` holds, and otherwise the Session Manager is untouched |
| `SubjectModel.Subject.GetOrCreateSession` | src/org/jsecurity/subject/Subject.java:271-281 | getSession(): performs getSession(true), so it always returns a session; returns the bound one with the Session Manager unchanged, or starts exactly one new session (counter advanced by one, only that id added to the active set) and binds it |

## Left out

- Credential verification, permission and wildcard matching, and role resolution belong
  to the external Authenticator and Authorizer. They are parameters (`Token -> Verdict`,
  and the `Authorizer` record). The single checks
  `Authorization.IsPermitted` and `Authorization.HasRole` simply ask them.
- Parsing a permission string is the Authorizer's `resolve` function. The String and
  Permission overloads therefore share one evaluation.
- Session storage, expiry and the session objects themselves are not modelled. A session
  is its id, and the Session Manager is a counter plus the set of active ids.
- The AuthenticationException subclass hierarchy is collapsed into one error datatype. It has two cases: the Authenticator's rejection with its reason, and an accepted account that has no principal.
- "Remember me" persistence is not modelled. A remembered Subject is created with its
  principals by the `Remembering` constructor.
- Java reflection, generics and `Class<T>` are not modelled. They are replaced by a fixed
  set of type tags for the boxed types a principal may have. The values carried by
  `Integer` and `Long` are unbounded, which does not matter because no operation does
  arithmetic on them.
- Thread safety is not modelled. That covers `getSession` and `login` under concurrent
  use, and serialization. Each method runs to completion before the next one starts.
- Collections passed to `isPermittedAll`, `hasAllRoles` and the plural checks are
  sequences. Lemmas show that `isPermittedAll`, `hasAllRoles` and whether a plural check
  passes depend only on the members, not on order or repetition. When a plural check fails,
  the element it names is the first failing one in iteration order, so that element
  depends on the order.
- `getPrincipal()` in multi-realm setups may return an object that wraps several
  principals. The model returns the first principal instead.
