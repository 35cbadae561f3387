/**
 * The authentication coordinator and session binder of a Subject, as a pure
 * state machine: the state a Subject carries, the transitions login, logout
 * and getSession(create), and what holds along any sequence of them.
 *
 * The Subject class of module SubjectModel is proved to follow these
 * transitions exactly.
 */
module Lifecycle {
  import opened Wrappers
  import opened Principals
  import opened Sessions

  /**
   * Why an authentication attempt failed (AuthenticationException): the
   * Authenticator rejected the token, or the account it accepted carries no
   * principal, so that no identity could be bound.
   */
  datatype AuthenticationError = Rejected(reason: string) | AccountWithoutPrincipals

  /** What the caller submits to login: a claimed principal and its credentials. */
  datatype Token = Token(principal: Principal, credentials: string)

  /** The external Authenticator's verdict on a token: the account's principals, or an error. */
  type Verdict = Result<seq<Principal>, AuthenticationError>

  /** The state a Subject carries. */
  datatype SubjectState = SubjectState(
    principals: seq<Principal>,
    authenticated: bool,
    session: Option<SessionId>)

  /** Being authenticated implies having a principal. */
  predicate Consistent(s: SubjectState)
  {
    s.authenticated ==> s.principals != []
  }

  /** A Subject that has neither logged in nor been remembered. */
  function Anonymous(): SubjectState
  {
    SubjectState([], false, None)
  }

  /** A Subject whose identity was remembered from an earlier interaction, not proven in this one. */
  function Remembered(ps: seq<Principal>): SubjectState
  {
    SubjectState(ps, false, None)
  }

  /** Whether a login with this verdict succeeds: an accepted account with at least one principal. */
  predicate Accepts(verdict: Verdict)
  {
    verdict.Success? && verdict.value != []
  }

  /**
   * login(token), given the Authenticator's verdict: what login signals, and
   * the new state. It returns normally exactly when the verdict accepts an
   * account with a principal, and then the account's principals are bound,
   * the Subject is authenticated and its principal is present; otherwise it
   * signals an AuthenticationException and nothing changes. The bound session
   * is kept either way.
   */
  function Login(s: SubjectState, verdict: Verdict): (r: (Outcome<AuthenticationError>, SubjectState))
    ensures r.0.Pass? <==> Accepts(verdict)
    ensures r.0.Pass? ==> r.1.authenticated && r.1.principals == verdict.value
    ensures r.0.Pass? ==> GetPrincipal(r.1.principals).Some?
    ensures r.0.Fail? ==> r.1 == s
    ensures verdict.Failure? ==> r.0 == Fail(verdict.error)
    ensures verdict.Success? && verdict.value == [] ==> r.0 == Fail(AccountWithoutPrincipals)
    ensures r.1.session == s.session
    ensures Consistent(s) ==> Consistent(r.1)
  {
    match verdict
    case Success(ps) =>
      if ps == [] then (Fail(AccountWithoutPrincipals), s)
      else (Pass, s.(principals := ps, authenticated := true))
    case Failure(e) => (Fail(e), s)
  }

  /** logout(): identity, authentication and session are all released. */
  function Logout(s: SubjectState): (r: SubjectState)
    ensures !r.authenticated
    ensures GetPrincipal(r.principals).None?
    ensures r.session.None?
  {
    SubjectState([], false, None)
  }

  /** Whether getSession(create) starts a new session in state `s`. */
  predicate CreatesSession(s: SubjectState, create: bool)
  {
    s.session.None? && create
  }

  /**
   * getSession(create), where `newId` is the id the Session Manager would
   * issue next: the answer and the new state. A bound session is returned
   * whatever `create` is; with none bound, `create` binds and returns a new
   * session, and otherwise the answer is absent and nothing changes. The
   * identity is never touched.
   */
  function GetSession(s: SubjectState, create: bool, newId: SessionId): (r: (Option<SessionId>, SubjectState))
    ensures s.session.Some? ==> r == (s.session, s)
    ensures s.session.None? && create ==> r.0 == Some(newId) && r.1.session == Some(newId)
    ensures s.session.None? && !create ==> r == (None, s)
    ensures r.1.principals == s.principals && r.1.authenticated == s.authenticated
  {
    if s.session.Some? then (s.session, s)
    else if create then (Some(newId), s.(session := Some(newId)))
    else (None, s)
  }

  // ---------------------------------------------------------------- single transitions

  /** After a successful login the Subject's principal is the account's first principal. */
  lemma LoginSuccessAuthenticates(s: SubjectState, account: seq<Principal>)
    requires account != []
    ensures Login(s, Success(account)).0 == Pass
    ensures Login(s, Success(account)).1.authenticated
    ensures GetPrincipal(Login(s, Success(account)).1.principals) == Some(account[0])
    ensures Login(s, Success(account)).1.session == s.session
  {
  }

  /** A failed login leaves principal, authentication and session as they were. */
  lemma LoginFailureChangesNothing(s: SubjectState, verdict: Verdict)
    requires !Accepts(verdict)
    ensures Login(s, verdict).1 == s
    ensures GetPrincipal(Login(s, verdict).1.principals) == GetPrincipal(s.principals)
    ensures Login(s, verdict).1.authenticated == s.authenticated
  {
  }

  /** A remembered Subject has a principal yet is not authenticated. */
  lemma RememberedIsNotAuthenticated(ps: seq<Principal>)
    requires ps != []
    ensures GetPrincipal(Remembered(ps).principals).Some?
    ensures !Remembered(ps).authenticated
  {
  }

  /** Logout is idempotent, and after it getSession(false) finds no session. */
  lemma LogoutClears(s: SubjectState, newId: SessionId)
    ensures Logout(Logout(s)) == Logout(s)
    ensures GetSession(Logout(s), false, newId) == (None, Logout(s))
  {
  }

  /**
   * Once a call has returned a session, every later call returns that same
   * session and creates nothing, whatever its `create` argument.
   */
  lemma GetSessionIsStable(s: SubjectState, c1: bool, f1: SessionId, c2: bool, f2: SessionId)
    requires GetSession(s, c1, f1).0.Some?
    ensures GetSession(GetSession(s, c1, f1).1, c2, f2) == GetSession(s, c1, f1)
    ensures !CreatesSession(GetSession(s, c1, f1).1, c2)
  {
  }

  /** getSession() is getSession(true): it never answers absent. */
  lemma GetSessionCreatingNeverAbsent(s: SubjectState, newId: SessionId)
    ensures GetSession(s, true, newId).0.Some?
    ensures GetSession(s, true, newId).0 == GetSession(s, true, newId).1.session
  {
  }

  /** Without a session, getSession(false) twice answers absent twice and binds nothing. */
  lemma GetSessionWithoutCreateTwice(s: SubjectState, f1: SessionId, f2: SessionId)
    requires s.session.None?
    ensures GetSession(s, false, f1) == (None, s)
    ensures GetSession(GetSession(s, false, f1).1, false, f2) == (None, s)
  {
  }

  /**
   * getSession() gives a new session S; getSession(false) then gives S;
   * after logout, getSession(false) gives nothing.
   */
  lemma SessionScenario(s: SubjectState, f1: SessionId, f2: SessionId, f3: SessionId)
    requires s.session.None?
    ensures GetSession(s, true, f1).0 == Some(f1)
    ensures GetSession(GetSession(s, true, f1).1, false, f2).0 == Some(f1)
    ensures GetSession(Logout(GetSession(GetSession(s, true, f1).1, false, f2).1), false, f3).0 == None
  {
  }

  // ---------------------------------------------------------------- sequences of transitions

  /** One call on the Subject, with the collaborator's answer where there is one. */
  datatype Event =
    | Attempt(verdict: Verdict)
    | SignOut
    | SessionRequest(create: bool)

  /** A Subject's state together with the Session Manager's next id. */
  datatype Machine = Machine(state: SubjectState, nextId: SessionId)

  /** Session ids bound to the Subject were issued by the Session Manager. */
  predicate MachineValid(m: Machine)
  {
    Consistent(m.state) && (m.state.session.Some? ==> m.state.session.value < m.nextId)
  }

  function Step(m: Machine, e: Event): Machine
  {
    match e
    case Attempt(verdict) => Machine(Login(m.state, verdict).1, m.nextId)
    case SignOut => Machine(Logout(m.state), m.nextId)
    case SessionRequest(create) =>
      Machine(GetSession(m.state, create, m.nextId).1,
              if CreatesSession(m.state, create) then m.nextId + 1 else m.nextId)
  }

  /** The machine after the events, applied first to last. */
  function Run(m: Machine, evs: seq<Event>): Machine
    decreases |evs|
  {
    if evs == [] then m else Step(Run(m, evs[..|evs| - 1]), evs[|evs| - 1])
  }

  /** Running one more event is one more step. */
  lemma RunAppend(m: Machine, evs: seq<Event>, e: Event)
    ensures Run(m, evs + [e]) == Step(Run(m, evs), e)
  {
  }

  /** No event after position `i` is a logout. */
  predicate NoSignOutAfter(evs: seq<Event>, i: int)
  {
    forall j :: 0 <= j < |evs| && i < j ==> !evs[j].SignOut?
  }

  /** The event at `i` is a successful login. */
  predicate SuccessfulLoginAt(evs: seq<Event>, i: int)
    requires 0 <= i < |evs|
  {
    evs[i].Attempt? && Accepts(evs[i].verdict)
  }

  /** Every sequence of calls keeps the machine valid. */
  lemma {:induction false} RunKeepsValid(m: Machine, evs: seq<Event>)
    requires MachineValid(m)
    ensures MachineValid(Run(m, evs))
    ensures Run(m, evs).nextId >= m.nextId
  {
    if evs != [] {
      RunKeepsValid(m, evs[..|evs| - 1]);
    }
  }

  /**
   * isAuthenticated() is true exactly when some login succeeded and no logout
   * followed it, or the Subject started authenticated and never logged out.
   * Failed logins and session calls do not matter.
   */
  lemma {:induction false} AuthenticatedIffLoginNotUndone(m: Machine, evs: seq<Event>)
    ensures Run(m, evs).state.authenticated <==>
      (exists i :: 0 <= i < |evs| && SuccessfulLoginAt(evs, i) && NoSignOutAfter(evs, i))
      || (m.state.authenticated && NoSignOutAfter(evs, -1))
  {
    if evs != [] {
      var n := |evs| - 1;
      var pre := evs[..n];
      AuthenticatedIffLoginNotUndone(m, pre);
      var e := evs[n];
      if e.SignOut? {
        assert !NoSignOutAfter(evs, -1);
        forall i | 0 <= i < |evs| ensures !NoSignOutAfter(evs, i) || i == n {
          if i < n { assert evs[n].SignOut?; }
        }
      } else if e.Attempt? && Accepts(e.verdict) {
        assert SuccessfulLoginAt(evs, n) && NoSignOutAfter(evs, n);
      } else {
        assert forall i :: 0 <= i < n ==> (SuccessfulLoginAt(evs, i) <==> SuccessfulLoginAt(pre, i));
        assert forall i :: -1 <= i < n ==> (NoSignOutAfter(evs, i) <==> NoSignOutAfter(pre, i));
      }
    }
  }

  /** A remembered Subject stays unauthenticated until a login succeeds. */
  lemma RememberedUntilLogin(ps: seq<Principal>, nextId: SessionId, evs: seq<Event>)
    requires forall i :: 0 <= i < |evs| ==> !SuccessfulLoginAt(evs, i)
    ensures !Run(Machine(Remembered(ps), nextId), evs).state.authenticated
  {
    AuthenticatedIffLoginNotUndone(Machine(Remembered(ps), nextId), evs);
  }

  /**
   * Between logouts a Subject creates at most one session: once one is bound
   * it stays bound and no further id is issued.
   */
  lemma {:induction false} AtMostOneSessionPerSignIn(m: Machine, evs: seq<Event>)
    requires NoSignOutAfter(evs, -1)
    ensures m.state.session.Some? ==> Run(m, evs) == Run(m, evs).(nextId := m.nextId) && Run(m, evs).state.session == m.state.session
    ensures Run(m, evs).nextId == m.nextId || (Run(m, evs).nextId == m.nextId + 1 && Run(m, evs).state.session == Some(m.nextId))
  {
    if evs != [] {
      AtMostOneSessionPerSignIn(m, evs[..|evs| - 1]);
      assert !evs[|evs| - 1].SignOut?;
    }
  }
}
