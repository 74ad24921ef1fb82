/**
 * GET and POST /api/admin/announcement: the portal shows one announcement,
 * the most recent; saving a new one first deletes the old ones.
 */
module AnnouncementRoute {
  import opened Wrappers
  import opened Schema

  /** `announcement?.content || ""` for the most recently created row. */
  function LatestContent(posts: seq<Announcement>): string {
    if posts == [] then "" else posts[|posts| - 1].content
  }

  /** GET: 401 without an admin session, otherwise the latest content or "". */
  method GetAnnouncement(db: Db, session: Option<Session>) returns (status: int, content: string)
    ensures !IsAdminSession(session) ==> status == 401 && content == ""
    ensures IsAdminSession(session) ==> status == 200 && content == LatestContent(db.announcements)
  {
    if !IsAdminSession(session) {
      return 401, "";
    }
    return 200, LatestContent(db.announcements);
  }

  /**
   * POST. Guards: admin session (401), the enter-hours permission (403),
   * non-empty content (400). The delete-all may fail (`deleteSucceeds` is
   * its outcome); a failure is logged and the insert goes ahead anyway.
   */
  method SaveAnnouncement(db: Db, session: Option<Session>, content: string, deleteSucceeds: bool) returns (status: int)
    modifies db`announcements
    ensures !IsAdminSession(session) ==> status == 401
    ensures IsAdminSession(session) && !Permitted(old(db.administrators), session.value, EnterHours) ==> status == 403
    ensures Authorized(old(db.administrators), session, EnterHours) ==> status == (if content == "" then 400 else 200)
    ensures status != 200 ==> db.announcements == old(db.announcements)
    ensures status == 200 ==>
      var saved := Announcement(content, session.value.userId);
      db.announcements == (if deleteSucceeds then [saved] else old(db.announcements) + [saved])
  {
    if !IsAdminSession(session) {
      return 401;
    }
    if !Permitted(db.administrators, session.value, EnterHours) {
      return 403;
    }
    if content == "" {
      return 400;
    }
    if deleteSucceeds {
      db.announcements := [];
    }
    db.announcements := db.announcements + [Announcement(content, session.value.userId)];
    status := 200;
  }

  /** Whether or not the delete succeeded, the next GET shows the content just saved. */
  lemma LatestAfterSave(previous: seq<Announcement>, saved: Announcement, deleteSucceeds: bool)
    ensures LatestContent(if deleteSucceeds then [saved] else previous + [saved]) == saved.content
  {
  }
}
