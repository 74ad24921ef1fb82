/**
 * POST /api/collaborator/leave-request: a collaborator asks for time off.
 * The request is recorded as pending, and only for a collaborator whose
 * balance of hours is not negative.
 */
module LeaveRequestRoute {
  import opened Wrappers
  import opened Schema

  /** The JSON body; "" stands for an absent or empty field. */
  datatype LeaveBody = LeaveBody(startDate: string, endDate: string, reason: string)

  predicate Incomplete(body: LeaveBody) {
    body.startDate == "" || body.endDate == "" || body.reason == ""
  }

  /** `balance_hours < 0`: a null balance compares as 0, so it does not block. */
  predicate NegativeBalance(c: Collaborator) {
    c.balanceHours.Some? && c.balanceHours.value < 0.0
  }

  /** The request the handler records for a caller and a body. */
  function NewRequest(id: Id, body: LeaveBody): (r: LeaveRequest)
    ensures r.collaboratorId == id && r.status == Pending
    ensures r.startDate == body.startDate && r.endDate == body.endDate && r.reason == body.reason
  {
    LeaveRequest(id, body.startDate, body.endDate, body.reason, Pending)
  }

  /**
   * The handler. Guards: collaborator session (401), required fields (400),
   * own row (404), negative balance (403); then a pending request is
   * appended. The collaborators table is read only.
   */
  method RequestLeave(db: Db, session: Option<Session>, body: LeaveBody) returns (status: int)
    modifies db`leaveRequests
    ensures var row := if session.Some? then CollaboratorById(db.collaborators, session.value.userId) else None;
      && (!IsCollaboratorSession(session) ==> status == 401)
      && (IsCollaboratorSession(session) && Incomplete(body) ==> status == 400)
      && (IsCollaboratorSession(session) && !Incomplete(body) && row.None? ==> status == 404)
      && ((IsCollaboratorSession(session) && !Incomplete(body) && row.Some?)
            ==> status == (if NegativeBalance(row.value) then 403 else 200))
    ensures status != 200 ==> db.leaveRequests == old(db.leaveRequests)
    ensures status == 200 ==> db.leaveRequests == old(db.leaveRequests) + [NewRequest(session.value.userId, body)]
  {
    if !IsCollaboratorSession(session) {
      return 401;
    }
    if body.startDate == "" || body.endDate == "" || body.reason == "" {
      return 400;
    }
    var collaborator := CollaboratorById(db.collaborators, session.value.userId);
    if collaborator.None? {
      return 404;
    }
    if collaborator.value.balanceHours.Some? && collaborator.value.balanceHours.value < 0.0 {
      return 403;
    }
    db.leaveRequests := db.leaveRequests + [LeaveRequest(session.value.userId, body.startDate, body.endDate, body.reason, Pending)];
    status := 200;
  }
}
