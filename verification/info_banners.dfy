/**
 * GET and POST /api/admin/info-banners: the carousel holds at most five
 * banners, each in its own display position 1..5.
 */
module InfoBannersRoute {
  import opened Wrappers
  import opened Schema
  import opened Sorting

  /** The largest number of banners, which is also the highest display position. */
  const MaxBanners := 5

  /**
   * The JSON body. imageUrl and linkUrl are "" when absent or empty;
   * orderIndex is None when absent or null; isActive is None when absent or null.
   */
  datatype BannerBody = BannerBody(imageUrl: string, linkUrl: string, orderIndex: Option<int>, isActive: Option<bool>)

  /** `!order_index`: absent, null or 0. */
  predicate OrderMissing(o: Option<int>) {
    o.None? || o.value == 0
  }

  /**
   * The invariant the POST keeps: at most five banners, each positioned in
   * 1..5. The PUT route can store position 0, so a table need not satisfy it.
   */
  ghost predicate WithinLimits(bs: seq<Banner>) {
    |bs| <= MaxBanners && forall i :: 0 <= i < |bs| ==> 1 <= bs[i].orderIndex <= MaxBanners
  }

  /** Some banner already occupies the position. */
  predicate OrderTaken(bs: seq<Banner>, k: int) {
    exists i :: 0 <= i < |bs| && bs[i].orderIndex == k
  }

  /** The row inserted for a body that passed the checks: `link_url || null` and `is_active ?? true`. */
  function NewBanner(id: Id, body: BannerBody, adminId: Id): (b: Banner)
    requires body.orderIndex.Some?
    ensures b.imageUrl == body.imageUrl && b.orderIndex == body.orderIndex.value && b.adminId == adminId
    ensures b.linkUrl.None? <==> body.linkUrl == ""
    ensures b.linkUrl.Some? ==> b.linkUrl.value == body.linkUrl
    ensures b.isActive <==> body.isActive != Some(false)
  {
    Banner(id, body.imageUrl, if body.linkUrl == "" then None else Some(body.linkUrl),
           body.orderIndex.value, body.isActive.GetOr(true), adminId)
  }

  /** The display order: ascending position. */
  function ByOrderIndex(): (le: (Banner, Banner) -> bool)
    ensures TotalPreorder(le)
    ensures forall a, b :: le(a, b) <==> a.orderIndex <= b.orderIndex
  {
    (a: Banner, b: Banner) => a.orderIndex <= b.orderIndex
  }

  /** GET: 401 without an admin session, otherwise every banner in ascending position. */
  method ListBanners(db: Db, session: Option<Session>) returns (status: int, banners: seq<Banner>)
    ensures !IsAdminSession(session) ==> status == 401 && banners == []
    ensures IsAdminSession(session) ==> status == 200 && multiset(banners) == multiset(db.banners)
    ensures forall i, j :: 0 <= i < j < |banners| ==> banners[i].orderIndex <= banners[j].orderIndex
  {
    if !IsAdminSession(session) {
      return 401, [];
    }
    var le := ByOrderIndex();
    banners := SortBy(db.banners, le);
    assert SortedBy(banners, le);
    status := 200;
  }

  /**
   * POST. Guards: admin session (401), the enter-hours permission (403),
   * image and position present (400), position in 1..5 (400), fewer than
   * five banners (400), position free, which the table's unique constraint
   * enforces (400); then the banner is appended under the fresh id `newId`.
   */
  method AddBanner(db: Db, session: Option<Session>, body: BannerBody, newId: Id) returns (status: int)
    requires db.Valid()
    modifies db`banners
    ensures db.Valid()
    ensures old(WithinLimits(db.banners)) ==> WithinLimits(db.banners)
    ensures !IsAdminSession(session) ==> status == 401
    ensures IsAdminSession(session) && !Permitted(old(db.administrators), session.value, EnterHours) ==> status == 403
    ensures (Authorized(old(db.administrators), session, EnterHours)
      && (body.imageUrl == "" || OrderMissing(body.orderIndex))) ==> status == 400
    ensures (Authorized(old(db.administrators), session, EnterHours)
      && body.imageUrl != "" && !OrderMissing(body.orderIndex))
      ==> status == (if body.orderIndex.value < 1 || body.orderIndex.value > MaxBanners
                       || |old(db.banners)| >= MaxBanners
                       || OrderTaken(old(db.banners), body.orderIndex.value) then 400 else 200)
    ensures status != 200 ==> db.banners == old(db.banners)
    ensures status == 200 ==> db.banners == old(db.banners) + [NewBanner(newId, body, session.value.userId)]
  {
    if !IsAdminSession(session) {
      return 401;
    }
    if !Permitted(db.administrators, session.value, EnterHours) {
      return 403;
    }
    if body.imageUrl == "" || body.orderIndex.None? || body.orderIndex.value == 0 {
      return 400;
    }
    var order := body.orderIndex.value;
    if order < 1 || order > MaxBanners {
      return 400;
    }
    var count := |db.banners|;
    if count != 0 && count >= MaxBanners {
      return 400;
    }
    if OrderTaken(db.banners, order) {
      return 400;
    }
    var row := NewBanner(newId, body, session.value.userId);
    db.banners := db.banners + [row];
    status := 200;
  }
}
