/** The optional-value wrapper used for nullable columns and absent JSON keys. */
module Wrappers {
  datatype Option<+T> = None | Some(value: T) {
    /** `x || fallback` / `x ?? fallback` on a nullable value. */
    function GetOr(fallback: T): T {
      if Some? then value else fallback
    }
  }
}

/**
 * The hosted database of the time bank, seen as in-memory tables, and the
 * session cookie. Each table is a sequence of rows in insertion order, so
 * "the most recently created row" is the last matching one.
 */
module Schema {
  import opened Wrappers

  type Id = string

  /** The two kinds of user: the values of a session's userType and role, and of a notification's user_type. */
  datatype Role = AdminRole | CollaboratorRole

  /**
   * The JSON record kept in the session cookie (lib/session.ts:3-8):
   * role and pendingAccessCode are optional keys.
   */
  datatype Session = Session(userId: Id, userType: Role, role: Option<Role>, pendingAccessCode: Option<bool>)

  /** The guard `!session || session.role !== "admin"` lets the request through. */
  predicate IsAdminSession(s: Option<Session>) {
    s.Some? && s.value.role == Some(AdminRole)
  }

  /** The guard `!session || session.role !== "collaborator"` lets the request through. */
  predicate IsCollaboratorSession(s: Option<Session>) {
    s.Some? && s.value.role == Some(CollaboratorRole)
  }

  datatype Permission = CreateCollaborator | CreateAdmin | EnterHours | ChangeAccessCode

  datatype Administrator = Administrator(
    id: Id, fullName: string, username: string, passwordHash: string,
    canCreateCollaborator: bool, canCreateAdmin: bool, canEnterHours: bool, canChangeAccessCode: bool)

  function Grants(a: Administrator, p: Permission): bool {
    match p
    case CreateCollaborator => a.canCreateCollaborator
    case CreateAdmin => a.canCreateAdmin
    case EnterHours => a.canEnterHours
    case ChangeAccessCode => a.canChangeAccessCode
  }

  /** A collaborator row; accessCode is "" where the column is null. */
  datatype Collaborator = Collaborator(
    id: Id, fullName: string, badgeNumber: string, accessCode: string, accessCodeSet: bool,
    isActive: bool, directLeader: Option<string>, balanceHours: Option<real>)

  datatype EntryType = Positive | Negative | Overtime

  datatype TimeEntry = TimeEntry(
    collaboratorId: Id, date: string, hoursWorked: real, overtimeHours: real,
    balanceHours: real, entryType: EntryType, description: string)

  datatype RequestStatus = Pending | Approved | Rejected

  datatype LeaveRequest = LeaveRequest(collaboratorId: Id, startDate: string, endDate: string, reason: string, status: RequestStatus)

  datatype ResetRequest = ResetRequest(collaboratorId: Id, status: RequestStatus)

  /** A time-bank period; dates are instants in milliseconds. */
  datatype Period = Period(startDate: int, endDate: int, isActive: bool, adminId: Id)

  datatype Announcement = Announcement(content: string, adminId: Id)

  datatype Banner = Banner(id: Id, imageUrl: string, linkUrl: Option<string>, orderIndex: int, isActive: bool, adminId: Id)

  datatype Notification = Notification(
    id: Id, userId: Id, userType: Role, message: string, kind: string, relatedId: Option<Id>, isRead: bool)

  /** The position of the first row satisfying `p`: what `.eq(...).single()` selects. */
  function FirstIndex<T>(s: seq<T>, p: T -> bool): (r: Option<nat>)
    ensures r.Some? ==> r.value < |s| && p(s[r.value]) && forall j :: 0 <= j < r.value ==> !p(s[j])
    ensures r.None? ==> forall j :: 0 <= j < |s| ==> !p(s[j])
  {
    if s == [] then None
    else if p(s[0]) then Some(0)
    else match FirstIndex(s[1..], p)
      case None => None
      case Some(k) => Some(k + 1)
  }

  /** The first row satisfying `p`, or None when there is no such row. */
  function First<T>(s: seq<T>, p: T -> bool): (r: Option<T>)
    ensures r.Some? <==> exists i :: 0 <= i < |s| && p(s[i])
    ensures r.Some? ==> r.value in s && p(r.value)
  {
    match FirstIndex(s, p)
    case None => None
    case Some(i) => Some(s[i])
  }

  function CollaboratorIndex(cs: seq<Collaborator>, id: Id): Option<nat> {
    FirstIndex(cs, (c: Collaborator) => c.id == id)
  }

  function CollaboratorById(cs: seq<Collaborator>, id: Id): Option<Collaborator> {
    First(cs, (c: Collaborator) => c.id == id)
  }

  function CollaboratorByBadge(cs: seq<Collaborator>, badge: string): Option<Collaborator> {
    First(cs, (c: Collaborator) => c.badgeNumber == badge)
  }

  function CollaboratorByCode(cs: seq<Collaborator>, code: string): Option<Collaborator> {
    First(cs, (c: Collaborator) => c.accessCode == code)
  }

  function AdminById(admins: seq<Administrator>, id: Id): Option<Administrator> {
    First(admins, (a: Administrator) => a.id == id)
  }

  /** The permission lookup `currentAdmin?.<flag>`: false when the session user has no administrator row. */
  predicate Permitted(admins: seq<Administrator>, s: Session, p: Permission) {
    var a := AdminById(admins, s.userId);
    a.Some? && Grants(a.value, p)
  }

  /** An admin session whose administrator holds `p`: every admin handler's first two guards. */
  predicate Authorized(admins: seq<Administrator>, s: Option<Session>, p: Permission) {
    IsAdminSession(s) && Permitted(admins, s.value, p)
  }

  /** `update({ balance_hours: b }).eq("id", id)`: every row with that id gets the new balance. */
  function SetBalance(cs: seq<Collaborator>, id: Id, b: real): (r: seq<Collaborator>)
    ensures |r| == |cs|
    ensures forall i :: 0 <= i < |cs| ==> r[i] == if cs[i].id == id then cs[i].(balanceHours := Some(b)) else cs[i]
  {
    seq(|cs|, i requires 0 <= i < |cs| => if cs[i].id == id then cs[i].(balanceHours := Some(b)) else cs[i])
  }

  /** `update({ access_code: code }).eq("id", id)`. */
  function SetAccessCode(cs: seq<Collaborator>, id: Id, code: string): (r: seq<Collaborator>)
    ensures |r| == |cs|
    ensures forall i :: 0 <= i < |cs| ==> r[i] == if cs[i].id == id then cs[i].(accessCode := code) else cs[i]
  {
    seq(|cs|, i requires 0 <= i < |cs| => if cs[i].id == id then cs[i].(accessCode := code) else cs[i])
  }

  /** Unique constraints of the collaborators table: id, badge_number and (non-null) access_code. */
  ghost predicate CollaboratorsUnique(cs: seq<Collaborator>) {
    forall i, j :: 0 <= i < j < |cs| ==>
      cs[i].id != cs[j].id && cs[i].badgeNumber != cs[j].badgeNumber &&
      (cs[i].accessCode != "" ==> cs[i].accessCode != cs[j].accessCode)
  }

  /** Unique constraints of the administrators table: id and username. */
  ghost predicate AdministratorsUnique(admins: seq<Administrator>) {
    forall i, j :: 0 <= i < j < |admins| ==> admins[i].id != admins[j].id && admins[i].username != admins[j].username
  }

  /** Unique constraint of the info_banners table on order_index. */
  ghost predicate BannerOrdersUnique(bs: seq<Banner>) {
    forall i, j :: 0 <= i < j < |bs| ==> bs[i].orderIndex != bs[j].orderIndex
  }

  /** Some collaborator other than `id` holds the (non-empty) code. */
  predicate CodeHeldByOther(cs: seq<Collaborator>, id: Id, code: string) {
    exists i :: 0 <= i < |cs| && cs[i].accessCode == code && cs[i].id != id
  }

  /** The balance the handlers read for a collaborator: `balance_hours || 0`, and 0 for an unknown id. */
  function BalanceOf(cs: seq<Collaborator>, id: Id): real {
    match CollaboratorById(cs, id)
    case None => 0.0
    case Some(c) => c.balanceHours.GetOr(0.0)
  }

  /** Two tables whose rows agree, position by position, on `p` and `q` have their first match at the same place. */
  lemma {:induction false} FirstIndexCongruent<T, U>(s: seq<T>, t: seq<U>, p: T -> bool, q: U -> bool)
    requires |s| == |t|
    requires forall i :: 0 <= i < |s| ==> p(s[i]) == q(t[i])
    ensures FirstIndex(s, p) == FirstIndex(t, q)
  {
    if s != [] && !p(s[0]) {
      FirstIndexCongruent(s[1..], t[1..], p, q);
    }
  }

  /** A row update that keeps every id in place finds the same first row for every id. */
  lemma SameIdsSameIndex(cs: seq<Collaborator>, cs': seq<Collaborator>, id: Id)
    requires |cs| == |cs'|
    requires forall i :: 0 <= i < |cs| ==> cs'[i].id == cs[i].id
    ensures CollaboratorIndex(cs', id) == CollaboratorIndex(cs, id)
  {
    var p := (c: Collaborator) => c.id == id;
    FirstIndexCongruent(cs, cs', p, p);
  }

  /** In a table with unique ids, the row found for `id` is the only row with that id. */
  lemma UniqueRowById(cs: seq<Collaborator>, id: Id, i: int)
    requires CollaboratorsUnique(cs)
    requires 0 <= i < |cs| && cs[i].id == id
    ensures CollaboratorIndex(cs, id) == Some(i)
    ensures CollaboratorById(cs, id) == Some(cs[i])
  {
    var r := CollaboratorIndex(cs, id);
    assert r.Some? && cs[r.value].id == id;
  }

  /**
   * Setting one collaborator's balance changes the balance read for that
   * collaborator to the new value and leaves every other balance as it was.
   */
  lemma BalanceAfterSet(cs: seq<Collaborator>, id: Id, b: real, other: Id)
    requires CollaboratorsUnique(cs)
    requires CollaboratorById(cs, id).Some?
    ensures BalanceOf(SetBalance(cs, id, b), other) == if other == id then b else BalanceOf(cs, other)
  {
    var cs' := SetBalance(cs, id, b);
    SameIdsSameIndex(cs, cs', other);
    var k := CollaboratorIndex(cs, other);
    assert CollaboratorById(cs, other) == if k.Some? then Some(cs[k.value]) else None;
    assert CollaboratorById(cs', other) == if k.Some? then Some(cs'[k.value]) else None;
    if other == id {
      assert k.Some?;
    }
  }

  /** Setting a balance touches no id, badge or code, so the unique constraints still hold. */
  lemma SetBalanceKeepsUnique(cs: seq<Collaborator>, id: Id, b: real)
    requires CollaboratorsUnique(cs)
    ensures CollaboratorsUnique(SetBalance(cs, id, b))
  {
    var cs' := SetBalance(cs, id, b);
    forall i, j | 0 <= i < j < |cs'|
      ensures cs'[i].id != cs'[j].id && cs'[i].badgeNumber != cs'[j].badgeNumber
      ensures cs'[i].accessCode != "" ==> cs'[i].accessCode != cs'[j].accessCode
    {
      assert cs[i].id != cs[j].id;
    }
  }

  /** Changing one collaborator's code keeps ids and badges, and keeps codes unique when no one else holds the new code. */
  lemma SetAccessCodeKeepsUnique(cs: seq<Collaborator>, id: Id, code: string)
    requires CollaboratorsUnique(cs)
    requires code != "" && !CodeHeldByOther(cs, id, code)
    ensures CollaboratorsUnique(SetAccessCode(cs, id, code))
  {
    var cs' := SetAccessCode(cs, id, code);
    forall i, j | 0 <= i < j < |cs'|
      ensures cs'[i].id != cs'[j].id && cs'[i].badgeNumber != cs'[j].badgeNumber
      ensures cs'[i].accessCode != "" ==> cs'[i].accessCode != cs'[j].accessCode
    {
    }
  }

  /** The database: one sequence per table. */
  class Db {
    var administrators: seq<Administrator>
    var collaborators: seq<Collaborator>
    var timeEntries: seq<TimeEntry>
    var leaveRequests: seq<LeaveRequest>
    var resetRequests: seq<ResetRequest>
    var periods: seq<Period>
    var announcements: seq<Announcement>
    var banners: seq<Banner>
    var notifications: seq<Notification>

    /** The unique constraints the database enforces on every write. */
    ghost predicate Valid()
      reads this
    {
      AdministratorsUnique(administrators) && CollaboratorsUnique(collaborators) && BannerOrdersUnique(banners)
    }

    constructor ()
      ensures Valid()
      ensures administrators == [] && collaborators == [] && timeEntries == [] && leaveRequests == []
      ensures resetRequests == [] && periods == [] && announcements == [] && banners == [] && notifications == []
    {
      administrators, collaborators, timeEntries, leaveRequests := [], [], [], [];
      resetRequests, periods, announcements, banners, notifications := [], [], [], [], [];
    }
  }

  /** The `session` cookie: getSession() reads `value`, setSession() replaces it. */
  class SessionCookie {
    var value: Option<Session>

    constructor (initial: Option<Session>)
      ensures value == initial
    {
      value := initial;
    }
  }
}
