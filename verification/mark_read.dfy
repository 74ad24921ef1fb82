/**
 * POST /api/notifications/mark-read: the signed-in user marks some of their
 * own notifications as read.
 */
module MarkReadRoute {
  import opened Wrappers
  import opened Schema

  /** The filter of the bulk update: listed, addressed to the session user, and to the session's role. */
  predicate Targeted(n: Notification, s: Session, ids: seq<Id>) {
    n.id in ids && n.userId == s.userId && s.role == Some(n.userType)
  }

  /** The bulk update: every targeted notification becomes read; no other row changes. */
  function MarkRead(ns: seq<Notification>, s: Session, ids: seq<Id>): (r: seq<Notification>)
    ensures |r| == |ns|
    ensures forall i :: 0 <= i < |ns| ==> r[i] == if Targeted(ns[i], s, ids) then ns[i].(isRead := true) else ns[i]
  {
    seq(|ns|, i requires 0 <= i < |ns| => if Targeted(ns[i], s, ids) then ns[i].(isRead := true) else ns[i])
  }

  /** Marking twice is marking once. */
  lemma MarkReadIdempotent(ns: seq<Notification>, s: Session, ids: seq<Id>)
    ensures MarkRead(MarkRead(ns, s, ids), s, ids) == MarkRead(ns, s, ids)
  {
    var once := MarkRead(ns, s, ids);
    var twice := MarkRead(once, s, ids);
    forall i | 0 <= i < |ns| ensures twice[i] == once[i] {
      assert Targeted(once[i], s, ids) == Targeted(ns[i], s, ids);
    }
  }

  /** Notifications of other users, of the other role, or not listed are left exactly as they were. */
  lemma OthersUntouched(ns: seq<Notification>, s: Session, ids: seq<Id>, i: int)
    requires 0 <= i < |ns|
    requires ns[i].userId != s.userId || s.role != Some(ns[i].userType) || ns[i].id !in ids
    ensures MarkRead(ns, s, ids)[i] == ns[i]
  {
  }

  /** A session without a role, as the collaborator login writes, matches no notification. */
  lemma RolelessSessionMarksNothing(ns: seq<Notification>, s: Session, ids: seq<Id>)
    requires s.role.None?
    ensures MarkRead(ns, s, ids) == ns
  {
    var r := MarkRead(ns, s, ids);
    assert forall i :: 0 <= i < |ns| ==> r[i] == ns[i];
  }

  /**
   * The handler. Any session passes the first guard (401 without one);
   * `ids` is None when the body's notificationIds is not an array, and an
   * empty or absent list gives 400.
   */
  method MarkNotificationsRead(db: Db, session: Option<Session>, ids: Option<seq<Id>>) returns (status: int)
    modifies db`notifications
    ensures session.None? ==> status == 401
    ensures session.Some? ==> status == (if ids.None? || ids.value == [] then 400 else 200)
    ensures status != 200 ==> db.notifications == old(db.notifications)
    ensures status == 200 ==> db.notifications == MarkRead(old(db.notifications), session.value, ids.value)
  {
    if session.None? {
      return 401;
    }
    if ids.None? || |ids.value| == 0 {
      return 400;
    }
    db.notifications := MarkRead(db.notifications, session.value, ids.value);
    status := 200;
  }
}
