/**
 * The Subject: the per-user security handle. It holds the principals, the
 * authenticated flag and the bound session, and changes them only through
 * login, logout and getSession. Login, Logout and GetSession are proved to
 * perform exactly the transition of the same name in module Lifecycle, and
 * GetOrCreateSession (getSession()) performs Lifecycle.GetSession with
 * `create` set. Each method also takes the Subject, with its Session
 * Manager's counter (AsMachine), exactly one Lifecycle.Step forward.
 *
 * The read-only queries (getPrincipal, the typed lookups, isPermitted,
 * hasRole and their bulk, "all" and check forms) are the functions of
 * modules Principals and Authorization applied to `principals` and
 * `authorizer`.
 */
module SubjectModel {
  import opened Wrappers
  import opened Principals
  import opened Sessions
  import opened Lifecycle
  import Authorization

  class Subject {
    /** The external Authorizer that decides permissions and roles. */
    const authorizer: Authorization.Authorizer
    /** The external Authenticator that verifies login tokens. */
    const authenticator: Token -> Verdict
    /** The Session Manager that starts and invalidates sessions. */
    const sessionManager: SessionManager

    var principals: seq<Principal>
    var authenticated: bool
    var session: Option<SessionId>

    ghost predicate Valid()
      reads this, sessionManager
    {
      && Consistent(State())
      && sessionManager.Valid()
      && (session.Some? ==> session.value < sessionManager.nextId)
    }

    /** The state the Subject carries, as a value. */
    function State(): SubjectState
      reads this
    {
      SubjectState(principals, authenticated, session)
    }

    /** The Subject together with its Session Manager's counter, as the machine of module Lifecycle. */
    ghost function AsMachine(): Machine
      reads this, sessionManager
    {
      Machine(State(), sessionManager.nextId)
    }

    /** A Subject for a new interaction with no identity at all. */
    constructor (az: Authorization.Authorizer, authn: Token -> Verdict, manager: SessionManager)
      requires manager.Valid()
      ensures Valid() && State() == Anonymous()
      ensures authorizer == az && authenticator == authn && sessionManager == manager
    {
      authorizer, authenticator, sessionManager := az, authn, manager;
      principals, authenticated, session := [], false, None;
    }

    /** A Subject whose identity was remembered: it has principals but is not authenticated. */
    constructor Remembering(az: Authorization.Authorizer, authn: Token -> Verdict,
                            manager: SessionManager, remembered: seq<Principal>)
      requires manager.Valid()
      ensures Valid() && State() == Remembered(remembered)
      ensures authorizer == az && authenticator == authn && sessionManager == manager
    {
      authorizer, authenticator, sessionManager := az, authn, manager;
      principals, authenticated, session := remembered, false, None;
    }

    /**
     * isAuthenticated(): an authenticated Subject always has a principal; a
     * Subject with a principal need not be authenticated (see Remembering).
     */
    function IsAuthenticated(): (r: bool)
      reads this, sessionManager
      requires Valid()
      ensures r ==> GetPrincipal(principals).Some?
    {
      authenticated
    }

    /**
     * login(token): returns normally exactly when the Authenticator accepts
     * the token with an account that has a principal, and then the account's
     * principals are bound and the Subject is authenticated; otherwise it
     * signals an AuthenticationException and changes nothing.
     */
    method Login(token: Token) returns (r: Outcome<AuthenticationError>)
      requires Valid()
      modifies this
      ensures Valid()
      ensures (r, State()) == Lifecycle.Login(old(State()), authenticator(token))
      ensures AsMachine() == Step(old(AsMachine()), Attempt(authenticator(token)))
      ensures r.Pass? <==> Accepts(authenticator(token))
      ensures r.Pass? ==> IsAuthenticated() && GetPrincipal(principals).Some?
      ensures r.Fail? ==> State() == old(State())
    {
      match authenticator(token)
      case Success(account) =>
        if account == [] {
          r := Fail(AccountWithoutPrincipals);
        } else {
          principals, authenticated := account, true;
          r := Pass;
        }
      case Failure(e) =>
        r := Fail(e);
    }

    /**
     * logout(): the bound session, if any, is invalidated with the Session
     * Manager, and the Subject returns to having no identity.
     */
    method Logout()
      requires Valid()
      modifies this, sessionManager
      ensures Valid()
      ensures State() == Lifecycle.Logout(old(State()))
      ensures AsMachine() == Step(old(AsMachine()), SignOut)
      ensures sessionManager.nextId == old(sessionManager.nextId)
      ensures old(session).Some? ==>
        sessionManager.active == old(sessionManager.active) - {old(session).value}
      ensures old(session).None? ==> sessionManager.active == old(sessionManager.active)
    {
      if session.Some? {
        sessionManager.Invalidate(session.value);
      }
      principals, authenticated, session := [], false, None;
    }

    /**
     * getSession(create): the bound session if there is one; otherwise a new
     * session, started with the Session Manager and bound, when `create`
     * holds; otherwise absent, with nothing started.
     */
    method GetSession(create: bool) returns (r: Option<SessionId>)
      requires Valid()
      modifies this, sessionManager
      ensures Valid()
      ensures (r, State()) == Lifecycle.GetSession(old(State()), create, old(sessionManager.nextId))
      ensures AsMachine() == Step(old(AsMachine()), SessionRequest(create))
      ensures CreatesSession(old(State()), create) ==>
        && r.Some? && r.value !in old(sessionManager.active)
        && sessionManager.nextId == old(sessionManager.nextId) + 1
        && sessionManager.active == old(sessionManager.active) + {r.value}
      ensures !CreatesSession(old(State()), create) ==> unchanged(sessionManager)
    {
      if session.Some? {
        r := session;
      } else if create {
        var id := sessionManager.Start();
        session := Some(id);
        r := session;
      } else {
        r := None;
      }
    }

    /** getSession(): getSession(true), so a session is always returned. */
    method GetOrCreateSession() returns (id: SessionId)
      requires Valid()
      modifies this, sessionManager
      ensures Valid()
      ensures (Some(id), State()) == Lifecycle.GetSession(old(State()), true, old(sessionManager.nextId))
      ensures AsMachine() == Step(old(AsMachine()), SessionRequest(true))
      ensures old(session).Some? ==> id == old(session).value && unchanged(sessionManager)
      ensures old(session).None? ==>
        && id !in old(sessionManager.active)
        && sessionManager.nextId == old(sessionManager.nextId) + 1
        && sessionManager.active == old(sessionManager.active) + {id}
    {
      var r := GetSession(true);
      id := r.value;
    }
  }

  /**
   * A caller's view: getSession() gives a new session S, getSession(false)
   * then gives S, logout, and getSession(false) gives nothing; a remembered
   * Subject has a principal but is not authenticated until login succeeds.
   */
  method Scenario(az: Authorization.Authorizer, authn: Token -> Verdict, token: Token)
  {
    var manager := new SessionManager();
    var subject := new Subject.Remembering(az, authn, manager, [Str("alice")]);
    assert GetPrincipal(subject.principals) == Some(Str("alice"));
    assert !subject.IsAuthenticated();
    // The calls below are, one by one, the run of `evs` on the Lifecycle machine.
    ghost var start, evs := subject.AsMachine(), [];

    var s1 := subject.GetOrCreateSession();
    RunAppend(start, evs, SessionRequest(true));
    evs := evs + [SessionRequest(true)];
    var again := subject.GetSession(false);
    RunAppend(start, evs, SessionRequest(false));
    evs := evs + [SessionRequest(false)];
    assert again == Some(s1);

    var outcome := subject.Login(token);
    RunAppend(start, evs, Attempt(authn(token)));
    evs := evs + [Attempt(authn(token))];
    assert outcome.Pass? ==> subject.IsAuthenticated();
    assert outcome.Fail? ==> !subject.IsAuthenticated() && subject.principals == [Str("alice")];
    assert subject.session == Some(s1);

    subject.Logout();
    RunAppend(start, evs, SignOut);
    evs := evs + [SignOut];
    assert s1 !in manager.active;
    var after := subject.GetSession(false);
    RunAppend(start, evs, SessionRequest(false));
    evs := evs + [SessionRequest(false)];
    assert after == None;
    assert !subject.IsAuthenticated() && GetPrincipal(subject.principals) == None;
    assert subject.AsMachine() == Run(start, evs);
  }
}
