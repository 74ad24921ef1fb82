/**
 * How the sessions written by the collaborator login meet the guards of the
 * collaborator routes. The login writes `userType` but no `role`, and those
 * routes test `role`, so a freshly logged-in collaborator is turned away.
 */
module SessionFlow {
  import opened Wrappers
  import opened Schema
  import CollaboratorLoginRoute
  import SetAccessCodeRoute
  import LeaveRequestRoute
  import ResetRequestRoute
  import Text

  /**
   * The first-access flow: a collaborator without a code logs in with the
   * badge alone and then registers a code. The registration is refused with
   * 401, because the pending session the login wrote has no role.
   */
  method FirstAccess(db: Db, cookie: SessionCookie, badge: string, code: SetAccessCodeRoute.SetCodeBody,
                     signIn: (string, string) -> CollaboratorLoginRoute.AuthResult)
    returns (loginStatus: int, needsSetup: bool, setStatus: int)
    requires db.Valid()
    modifies db`collaborators, cookie
    ensures needsSetup ==> loginStatus == 200 && setStatus == 401
    ensures needsSetup ==> db.collaborators == old(db.collaborators)
  {
    var required;
    loginStatus, needsSetup, required := CollaboratorLoginRoute.CollaboratorLogin(db, cookie, CollaboratorLoginRoute.LoginBody(badge, ""), signIn);
    ghost var row := CollaboratorByBadge(db.collaborators, badge);
    ghost var d := CollaboratorLoginRoute.Decide(CollaboratorLoginRoute.LoginBody(badge, ""), row, signIn);
    if d in {CollaboratorLoginRoute.NeedsSetup, CollaboratorLoginRoute.LoggedIn} {
      CollaboratorLoginRoute.LoginSessionHasNoRole(d, row);
    }
    setStatus := SetAccessCodeRoute.SetOwnAccessCode(db, cookie, code);
  }

  /**
   * A collaborator logs in and, whenever the login wrote a session (a 200
   * that does not ask for the code), asks for leave and for a code reset:
   * both are refused with 401 and neither table changes.
   */
  method LoginThenRequest(db: Db, cookie: SessionCookie, body: CollaboratorLoginRoute.LoginBody,
                          signIn: (string, string) -> CollaboratorLoginRoute.AuthResult, leave: LeaveRequestRoute.LeaveBody)
    returns (loginStatus: int, accessCodeRequired: bool, leaveStatus: int, resetStatus: int)
    requires ResetRequestRoute.AtMostOnePending(db.resetRequests)
    modifies cookie, db`leaveRequests, db`resetRequests
    ensures loginStatus == 200 && !accessCodeRequired ==> leaveStatus == 401 && resetStatus == 401
    ensures loginStatus == 200 && !accessCodeRequired ==>
      db.leaveRequests == old(db.leaveRequests) && db.resetRequests == old(db.resetRequests)
  {
    var needsSetup;
    loginStatus, needsSetup, accessCodeRequired := CollaboratorLoginRoute.CollaboratorLogin(db, cookie, body, signIn);
    ghost var row := CollaboratorByBadge(db.collaborators, body.badgeNumber);
    ghost var d := CollaboratorLoginRoute.Decide(body, row, signIn);
    if d in {CollaboratorLoginRoute.NeedsSetup, CollaboratorLoginRoute.LoggedIn} {
      CollaboratorLoginRoute.LoginSessionHasNoRole(d, row);
    }
    leaveStatus := LeaveRequestRoute.RequestLeave(db, cookie.value, leave);
    resetStatus := ResetRequestRoute.RequestReset(db, cookie.value);
  }

  /**
   * The first-access session meets the set-access-code guards. As written
   * it has no role, so registering a code is refused with 401 whatever the
   * tables and the body; with the role the login evidently intends, the
   * request reaches the remaining checks and succeeds whenever they pass.
   */
  lemma FirstAccessWithRole(row: Collaborator, rows: seq<Collaborator>, body: SetAccessCodeRoute.SetCodeBody)
    ensures SetAccessCodeRoute.Outcome(CollaboratorLoginRoute.SessionFor(CollaboratorLoginRoute.NeedsSetup, Some(row)), rows, body) == 401
    ensures var intended := CollaboratorLoginRoute.IntendedSessionFor(CollaboratorLoginRoute.NeedsSetup, Some(row));
      var current := CollaboratorById(rows, row.id);
      && SetAccessCodeRoute.Outcome(intended, rows, body) != 401
      && ((SetAccessCodeRoute.BodyError(body).None? && current.Some? && current.value.accessCode == ""
             && !CodeHeldByOther(rows, row.id, Text.Trim(body.accessCode)))
            ==> SetAccessCodeRoute.Outcome(intended, rows, body) == 200)
  {
    CollaboratorLoginRoute.LoginSessionHasNoRole(CollaboratorLoginRoute.NeedsSetup, Some(row));
    CollaboratorLoginRoute.IntendedSessionPassesGuard(CollaboratorLoginRoute.NeedsSetup, Some(row));
  }
}
