/**
 * POST /api/auth/collaborator-login: the two-step collaborator login. A
 * badge without an access code either starts the first-access flow or asks
 * for the code; a badge with a code is checked by the external
 * authentication service, which the model takes as an oracle.
 */
module CollaboratorLoginRoute {
  import opened Wrappers
  import opened Schema

  /** The JSON body; "" stands for an absent or empty field. */
  datatype LoginBody = LoginBody(badgeNumber: string, accessCode: string)

  /** What signInWithPassword reports: an error, success without a session, or a session. */
  datatype AuthResult = AuthRejected | AuthWithoutSession | AuthAccepted

  /** The identity under which the badge is registered with the authentication service. */
  function AuthEmail(badge: string): (e: string)
    ensures |e| == |badge| + 13 && e[..|badge|] == badge && e[|badge|..] == "@timebank.com"
  {
    badge + "@timebank.com"
  }

  /** Distinct badges sign in under distinct identities. */
  lemma AuthEmailInjective(a: string, b: string)
    requires AuthEmail(a) == AuthEmail(b)
    ensures a == b
  {
    assert |a| == |b|;
    assert a == AuthEmail(a)[..|a|] == AuthEmail(b)[..|b|] == b;
  }

  /** The rows of the decision table, in the order the handler tests them. */
  datatype Decision =
    | MissingBadge          // 400, line 18-20
    | LookupFailed          // 500, line 31-34: .single() reports an unknown badge as an error
    | Inactive              // 401, line 36-38
    | UnexpectedCode        // 400, line 41-50
    | NeedsSetup            // 200 + needsAccessCodeSetup, pending session, line 51-59
    | CodeRequired          // 200 + accessCodeRequired, line 63-69
    | WrongCode             // 401, line 77-80
    | NoAuthSession         // 500, line 81-84
    | LoggedIn              // 200, session written, line 86-88

  /**
   * The decision table over the body, the row found for the badge and the
   * authentication oracle, which is consulted only for a collaborator whose
   * code is set and who supplied one.
   */
  function Decide(body: LoginBody, row: Option<Collaborator>, signIn: (string, string) -> AuthResult): Decision {
    if body.badgeNumber == "" then MissingBadge
    else if row.None? then LookupFailed
    else if !row.value.isActive then Inactive
    else if !row.value.accessCodeSet then
      (if body.accessCode != "" then UnexpectedCode else NeedsSetup)
    else if body.accessCode == "" then CodeRequired
    else match signIn(AuthEmail(body.badgeNumber), body.accessCode)
      case AuthRejected => WrongCode
      case AuthWithoutSession => NoAuthSession
      case AuthAccepted => LoggedIn
  }

  function StatusOf(d: Decision): int {
    match d
    case MissingBadge => 400
    case LookupFailed => 500
    case Inactive => 401
    case UnexpectedCode => 400
    case NeedsSetup => 200
    case CodeRequired => 200
    case WrongCode => 401
    case NoAuthSession => 500
    case LoggedIn => 200
  }

  /** The session setSession writes for a decision, if any: note that neither carries a role. */
  function SessionFor(d: Decision, row: Option<Collaborator>): (s: Option<Session>)
    requires d in {NeedsSetup, LoggedIn} ==> row.Some?
    ensures s.Some? <==> d in {NeedsSetup, LoggedIn}
  {
    if d == NeedsSetup then Some(Session(row.value.id, CollaboratorRole, None, Some(true)))
    else if d == LoggedIn then Some(Session(row.value.id, CollaboratorRole, None, None))
    else None
  }

  /**
   * The session the login evidently means to write: the one `SessionFor`
   * writes, with the role "collaborator" that the collaborator routes test.
   */
  function IntendedSessionFor(d: Decision, row: Option<Collaborator>): (s: Option<Session>)
    requires d in {NeedsSetup, LoggedIn} ==> row.Some?
    ensures s.Some? <==> SessionFor(d, row).Some?
    ensures s.Some? ==> s.value == SessionFor(d, row).value.(role := Some(CollaboratorRole))
  {
    if d == NeedsSetup then Some(Session(row.value.id, CollaboratorRole, Some(CollaboratorRole), Some(true)))
    else if d == LoggedIn then Some(Session(row.value.id, CollaboratorRole, Some(CollaboratorRole), None))
    else None
  }

  /** A session is written only for an active collaborator, under that collaborator's id. */
  lemma SessionOnlyForActive(body: LoginBody, row: Option<Collaborator>, signIn: (string, string) -> AuthResult)
    ensures var d := Decide(body, row, signIn);
      d in {NeedsSetup, LoggedIn} ==> row.Some? && row.value.isActive && SessionFor(d, row).value.userId == row.value.id
  {
  }

  /** The pending flag is set exactly when the collaborator has no code yet. */
  lemma PendingIffNoCodeSet(body: LoginBody, row: Option<Collaborator>, signIn: (string, string) -> AuthResult)
    ensures var d := Decide(body, row, signIn);
      d in {NeedsSetup, LoggedIn} ==> (SessionFor(d, row).value.pendingAccessCode == Some(true) <==> !row.value.accessCodeSet)
  {
  }

  /** Typing a code never starts the first-access flow, and omitting one never signs in. */
  lemma CodeDecidesTheFlow(body: LoginBody, row: Option<Collaborator>, signIn: (string, string) -> AuthResult)
    ensures body.accessCode != "" ==> Decide(body, row, signIn) != NeedsSetup
    ensures body.accessCode == "" ==> Decide(body, row, signIn) != LoggedIn
  {
  }

  /**
   * The oracle matters only at the badge's own identity and the supplied
   * code, and not at all for a collaborator without a code.
   */
  lemma OracleConsultedOnce(body: LoginBody, row: Option<Collaborator>, f: (string, string) -> AuthResult, g: (string, string) -> AuthResult)
    requires (row.Some? && row.value.accessCodeSet) ==> f(AuthEmail(body.badgeNumber), body.accessCode) == g(AuthEmail(body.badgeNumber), body.accessCode)
    ensures Decide(body, row, f) == Decide(body, row, g)
  {
  }

  /** No session written by the login carries a role, so none passes the collaborator routes' guard. */
  lemma LoginSessionHasNoRole(d: Decision, row: Option<Collaborator>)
    requires d in {NeedsSetup, LoggedIn} ==> row.Some?
    ensures !IsCollaboratorSession(SessionFor(d, row)) && !IsAdminSession(SessionFor(d, row))
  {
  }

  /** Every session the corrected login writes passes the collaborator guard and not the admin guard. */
  lemma IntendedSessionPassesGuard(d: Decision, row: Option<Collaborator>)
    requires d in {NeedsSetup, LoggedIn} ==> row.Some?
    ensures d in {NeedsSetup, LoggedIn} ==>
      IsCollaboratorSession(IntendedSessionFor(d, row)) && !IsAdminSession(IntendedSessionFor(d, row))
  {
  }

  /**
   * The handler: decides on the row found by badge and writes the cookie
   * only for the two successful rows of the table.
   */
  method CollaboratorLogin(db: Db, cookie: SessionCookie, body: LoginBody, signIn: (string, string) -> AuthResult)
    returns (status: int, needsAccessCodeSetup: bool, accessCodeRequired: bool)
    modifies cookie
    ensures var row := CollaboratorByBadge(db.collaborators, body.badgeNumber);
      var d := Decide(body, row, signIn);
      && status == StatusOf(d)
      && needsAccessCodeSetup == (d == NeedsSetup)
      && accessCodeRequired == (d == CodeRequired)
      && cookie.value == (if d in {NeedsSetup, LoggedIn} then SessionFor(d, row) else old(cookie.value))
  {
    needsAccessCodeSetup, accessCodeRequired := false, false;
    if body.badgeNumber == "" {
      return 400, false, false;
    }
    var collaborator := CollaboratorByBadge(db.collaborators, body.badgeNumber);
    if collaborator.None? {
      return 500, false, false;
    }
    if !collaborator.value.isActive {
      return 401, false, false;
    }
    if !collaborator.value.accessCodeSet {
      if body.accessCode != "" {
        return 400, false, false;
      }
      cookie.value := Some(Session(collaborator.value.id, CollaboratorRole, None, Some(true)));
      return 200, true, false;
    }
    if body.accessCode == "" {
      return 200, false, true;
    }
    var auth := signIn(AuthEmail(body.badgeNumber), body.accessCode);
    if auth == AuthRejected {
      return 401, false, false;
    }
    if auth == AuthWithoutSession {
      return 500, false, false;
    }
    cookie.value := Some(Session(collaborator.value.id, CollaboratorRole, None, None));
    status := 200;
  }
}
