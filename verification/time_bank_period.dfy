/**
 * GET and POST /api/admin/time-bank-period: the current time-bank period is
 * the most recently created active one; defining a new period deactivates
 * every other, so at most one is active at a time.
 */
module TimeBankPeriodRoute {
  import opened Wrappers
  import opened Schema

  /** The JSON body; a date is None when absent or empty, else its instant in milliseconds. */
  datatype PeriodBody = PeriodBody(startDate: Option<int>, endDate: Option<int>)

  /** The position of the last active period, if any. */
  function LastActiveIndex(ps: seq<Period>): (r: Option<nat>)
    ensures r.Some? ==> r.value < |ps| && ps[r.value].isActive && forall j :: r.value < j < |ps| ==> !ps[j].isActive
    ensures r.None? ==> forall j :: 0 <= j < |ps| ==> !ps[j].isActive
  {
    if ps == [] then None
    else if ps[|ps| - 1].isActive then Some(|ps| - 1)
    else
      var r := LastActiveIndex(ps[..|ps| - 1]);
      assert forall j :: 0 <= j < |ps| - 1 ==> ps[j] == ps[..|ps| - 1][j];
      r
  }

  /**
   * The `.eq("is_active", true).order("created_at", desc).limit(1)` read:
   * the most recently created active period, or None when no period is active.
   */
  function LatestActive(ps: seq<Period>): (r: Option<Period>)
    ensures r.Some? <==> exists i :: 0 <= i < |ps| && ps[i].isActive
    ensures r.Some? ==> r.value in ps && r.value.isActive
  {
    match LastActiveIndex(ps)
    case None => None
    case Some(i) => Some(ps[i])
  }

  /** How many periods are active; none exactly when no period is. */
  function ActiveCount(ps: seq<Period>): (n: nat)
    ensures n == 0 <==> forall j :: 0 <= j < |ps| ==> !ps[j].isActive
  {
    if ps == [] then 0
    else
      assert forall j :: 0 <= j < |ps| - 1 ==> ps[..|ps| - 1][j] == ps[j];
      ActiveCount(ps[..|ps| - 1]) + (if ps[|ps| - 1].isActive then 1 else 0)
  }

  /** Every period starts before it ends. */
  ghost predicate StartsBeforeEnds(ps: seq<Period>) {
    forall i :: 0 <= i < |ps| ==> ps[i].startDate < ps[i].endDate
  }

  /** The table invariants a definition aims to keep: at most one active period, and every period starts before it ends. */
  ghost predicate PeriodsWellFormed(ps: seq<Period>) {
    ActiveCount(ps) <= 1 && StartsBeforeEnds(ps)
  }

  /** `update({ is_active: false }).eq("is_active", true)`: every period becomes inactive, nothing else changes. */
  function DeactivateAll(ps: seq<Period>): (r: seq<Period>)
    ensures |r| == |ps|
    ensures forall i :: 0 <= i < |ps| ==> r[i] == ps[i].(isActive := false)
  {
    seq(|ps|, i requires 0 <= i < |ps| => ps[i].(isActive := false))
  }

  lemma {:induction false} NoneActiveAfterDeactivate(ps: seq<Period>)
    ensures ActiveCount(DeactivateAll(ps)) == 0
  {
    if ps != [] {
      NoneActiveAfterDeactivate(ps[..|ps| - 1]);
      assert DeactivateAll(ps)[..|ps| - 1] == DeactivateAll(ps[..|ps| - 1]);
    }
  }

  /** Appending a period that starts before it ends keeps every period starting before it ends. */
  lemma AppendKeepsStartsBeforeEnds(ps: seq<Period>, p: Period)
    requires StartsBeforeEnds(ps) && p.startDate < p.endDate
    ensures StartsBeforeEnds(ps + [p])
    ensures StartsBeforeEnds(DeactivateAll(ps) + [p])
  {
    var qs := DeactivateAll(ps) + [p];
    forall i | 0 <= i < |qs| ensures qs[i].startDate < qs[i].endDate {
      if i < |ps| {
        assert qs[i].startDate == ps[i].startDate && qs[i].endDate == ps[i].endDate;
      }
    }
  }

  /** A definition with start before end, after a bulk update that succeeded, keeps both table invariants. */
  lemma PostKeepsWellFormed(ps: seq<Period>, p: Period)
    requires PeriodsWellFormed(ps) && p.isActive && p.startDate < p.endDate
    ensures PeriodsWellFormed(DeactivateAll(ps) + [p])
  {
    ExactlyOneActiveAfterPost(ps, p);
    AppendKeepsStartsBeforeEnds(ps, p);
  }

  /** After a definition exactly one period is active, and it is the new one. */
  lemma ExactlyOneActiveAfterPost(ps: seq<Period>, p: Period)
    requires p.isActive
    ensures ActiveCount(DeactivateAll(ps) + [p]) == 1
    ensures LatestActive(DeactivateAll(ps) + [p]) == Some(p)
  {
    var qs := DeactivateAll(ps) + [p];
    assert qs[..|qs| - 1] == DeactivateAll(ps);
    NoneActiveAfterDeactivate(ps);
  }

  /**
   * The handler ignores the bulk update's result. When that update fails
   * while a period is active, the insert still goes ahead and two periods
   * are active; the GET then shows the new one.
   */
  lemma TwoActiveWhenDeactivateFails(ps: seq<Period>, p: Period)
    requires p.isActive && exists i :: 0 <= i < |ps| && ps[i].isActive
    ensures ActiveCount(ps + [p]) >= 2
    ensures LatestActive(ps + [p]) == Some(p)
  {
    var qs := ps + [p];
    assert qs[..|qs| - 1] == ps;
  }

  /** GET: 401 without an admin session, otherwise the latest active period or null. */
  method GetPeriod(db: Db, session: Option<Session>) returns (status: int, period: Option<Period>)
    ensures !IsAdminSession(session) ==> status == 401 && period.None?
    ensures IsAdminSession(session) ==> status == 200 && period == LatestActive(db.periods)
  {
    if !IsAdminSession(session) {
      return 401, None;
    }
    return 200, LatestActive(db.periods);
  }

  /**
   * POST. Guards: admin session (401), the enter-hours permission (403),
   * both dates present (400), start before end (400); then every period is
   * deactivated and the new one appended as active under the session user.
   * The result of the bulk update is not looked at: `deactivateSucceeds`
   * says whether the database carried it out, and when it did not the new
   * period is appended all the same.
   */
  method DefinePeriod(db: Db, session: Option<Session>, body: PeriodBody, deactivateSucceeds: bool) returns (status: int)
    requires StartsBeforeEnds(db.periods)
    modifies db`periods
    ensures StartsBeforeEnds(db.periods)
    ensures old(PeriodsWellFormed(db.periods)) && (status != 200 || deactivateSucceeds) ==> PeriodsWellFormed(db.periods)
    ensures !IsAdminSession(session) ==> status == 401
    ensures IsAdminSession(session) && !Permitted(old(db.administrators), session.value, EnterHours) ==> status == 403
    ensures (Authorized(old(db.administrators), session, EnterHours)
      && (body.startDate.None? || body.endDate.None?)) ==> status == 400
    ensures (Authorized(old(db.administrators), session, EnterHours) && body.startDate.Some? && body.endDate.Some?)
      ==> status == (if body.startDate.value >= body.endDate.value then 400 else 200)
    ensures status != 200 ==> db.periods == old(db.periods)
    ensures status == 200 ==>
      var created := Period(body.startDate.value, body.endDate.value, true, session.value.userId);
      && db.periods == (if deactivateSucceeds then DeactivateAll(old(db.periods)) else old(db.periods)) + [created]
      && LatestActive(db.periods) == Some(created)
  {
    if !IsAdminSession(session) {
      return 401;
    }
    if !Permitted(db.administrators, session.value, EnterHours) {
      return 403;
    }
    if body.startDate.None? || body.endDate.None? {
      return 400;
    }
    if body.startDate.value >= body.endDate.value {
      return 400;
    }
    var created := Period(body.startDate.value, body.endDate.value, true, session.value.userId);
    AppendKeepsStartsBeforeEnds(db.periods, created);
    if deactivateSucceeds {
      if PeriodsWellFormed(db.periods) {
        PostKeepsWellFormed(db.periods, created);
      }
      ExactlyOneActiveAfterPost(db.periods, created);
      db.periods := DeactivateAll(db.periods);
    }
    db.periods := db.periods + [created];
    status := 200;
  }
}
