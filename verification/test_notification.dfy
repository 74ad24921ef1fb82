/**
 * POST /api/admin/send-test-notification: an administrator with the
 * "create admin" permission sends a test notification to an existing
 * collaborator or administrator.
 */
module TestNotificationRoute {
  import opened Wrappers
  import opened Schema

  /** The JSON body; "" stands for an absent or empty field. */
  datatype TestBody = TestBody(recipientId: Id, recipientType: string, message: string)

  /** The recipient types accepted: "collaborator" and "admin". */
  function RecipientRole(t: string): (r: Option<Role>)
    ensures r == Some(CollaboratorRole) <==> t == "collaborator"
    ensures r == Some(AdminRole) <==> t == "admin"
    ensures r.None? <==> t != "collaborator" && t != "admin"
  {
    if t == "collaborator" then Some(CollaboratorRole)
    else if t == "admin" then Some(AdminRole)
    else None
  }

  /** The recipient has a row in the table its type names. */
  predicate RecipientExists(cs: seq<Collaborator>, admins: seq<Administrator>, role: Role, id: Id) {
    match role
    case CollaboratorRole => CollaboratorById(cs, id).Some?
    case AdminRole => AdminById(admins, id).Some?
  }

  /** The row inserted: type "test_notification", no related id, unread. */
  function TestNotification(id: Id, body: TestBody, role: Role): (n: Notification)
    ensures n.userId == body.recipientId && n.userType == role && n.message == body.message
    ensures n.kind == "test_notification" && n.relatedId.None? && !n.isRead
  {
    Notification(id, body.recipientId, role, body.message, "test_notification", None, false)
  }

  /**
   * The handler. Guards: admin session (401), the create-admin permission
   * (403), the three fields present (400), a known recipient type (400),
   * an existing recipient (404); then the notification is appended under
   * the id `newId` the database generates.
   */
  method SendTestNotification(db: Db, session: Option<Session>, body: TestBody, newId: Id) returns (status: int)
    modifies db`notifications
    ensures !IsAdminSession(session) ==> status == 401
    ensures IsAdminSession(session) && !Permitted(db.administrators, session.value, CreateAdmin) ==> status == 403
    ensures (Authorized(db.administrators, session, CreateAdmin)
      && (body.recipientId == "" || body.recipientType == "" || body.message == "")) ==> status == 400
    ensures (Authorized(db.administrators, session, CreateAdmin)
      && body.recipientId != "" && body.recipientType != "" && body.message != "" && RecipientRole(body.recipientType).None?)
      ==> status == 400
    ensures (Authorized(db.administrators, session, CreateAdmin)
      && body.recipientId != "" && body.message != "" && RecipientRole(body.recipientType).Some?)
      ==> status == (if RecipientExists(db.collaborators, db.administrators, RecipientRole(body.recipientType).value, body.recipientId) then 200 else 404)
    ensures status != 200 ==> db.notifications == old(db.notifications)
    ensures status == 200 ==>
      db.notifications == old(db.notifications) + [TestNotification(newId, body, RecipientRole(body.recipientType).value)]
  {
    if !IsAdminSession(session) {
      return 401;
    }
    if !Permitted(db.administrators, session.value, CreateAdmin) {
      return 403;
    }
    if body.recipientId == "" || body.recipientType == "" || body.message == "" {
      return 400;
    }
    if body.recipientType != "collaborator" && body.recipientType != "admin" {
      return 400;
    }
    var userExists := false;
    if body.recipientType == "collaborator" {
      userExists := CollaboratorById(db.collaborators, body.recipientId).Some?;
    } else if body.recipientType == "admin" {
      userExists := AdminById(db.administrators, body.recipientId).Some?;
    }
    if !userExists {
      return 404;
    }
    db.notifications := db.notifications + [TestNotification(newId, body, RecipientRole(body.recipientType).value)];
    status := 200;
  }
}
