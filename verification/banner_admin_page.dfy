/**
 * The banner administration page: which display positions the form offers,
 * the position suggested for a new banner, and when the add button is
 * disabled.
 */
module BannerAdminPage {
  import opened Wrappers
  import opened Schema
  import InfoBannersRoute

  const MaxBanners := InfoBannersRoute.MaxBanners

  /**
   * Position `k` is offered: no banner other than the one being edited uses
   * it, or it is the edited banner's own position.
   */
  predicate Offered(bs: seq<Banner>, editing: Option<Banner>, k: int) {
    !(exists i :: 0 <= i < |bs| && bs[i].orderIndex == k && (editing.None? || bs[i].id != editing.value.id))
    || (editing.Some? && k == editing.value.orderIndex)
  }

  /** The offered positions among k..5, ascending. */
  function OfferedFrom(bs: seq<Banner>, editing: Option<Banner>, k: int): (r: seq<int>)
    requires 1 <= k
    ensures forall i :: 0 <= i < |r| ==> k <= r[i] <= MaxBanners
    ensures forall i, j :: 0 <= i < j < |r| ==> r[i] < r[j]
    ensures forall x :: x in r <==> k <= x <= MaxBanners && Offered(bs, editing, x)
    decreases MaxBanners - k
  {
    if k > MaxBanners then []
    else if Offered(bs, editing, k) then [k] + OfferedFrom(bs, editing, k + 1)
    else OfferedFrom(bs, editing, k + 1)
  }

  /** `availableOrderIndices`: the positions 1..5 filtered by Offered. */
  function AvailableOrderIndices(bs: seq<Banner>, editing: Option<Banner>): (r: seq<int>)
    ensures forall i :: 0 <= i < |r| ==> 1 <= r[i] <= MaxBanners
    ensures forall i, j :: 0 <= i < j < |r| ==> r[i] < r[j]
    ensures forall x :: x in r <==> 1 <= x <= MaxBanners && Offered(bs, editing, x)
  {
    OfferedFrom(bs, editing, 1)
  }

  /** `availableOrderIndices[0] || 1`: the first offered position, or 1 when none is. */
  function SuggestedOrder(bs: seq<Banner>, editing: Option<Banner>): (k: int)
    ensures 1 <= k <= MaxBanners
    ensures AvailableOrderIndices(bs, editing) != [] ==>
      (Offered(bs, editing, k) && forall j :: 1 <= j < k ==> !Offered(bs, editing, j))
    ensures AvailableOrderIndices(bs, editing) == [] ==> k == 1
  {
    var avail := AvailableOrderIndices(bs, editing);
    if avail == [] then 1
    else
      assert avail[0] in avail;
      assert forall j :: 1 <= j < avail[0] ==> j !in avail;
      avail[0]
  }

  /** The add button is disabled once the table holds five banners. */
  predicate AddDisabled(bs: seq<Banner>) {
    |bs| >= MaxBanners
  }

  /** Outside editing, a position is offered exactly when no banner uses it. */
  lemma OfferedWhenNotEditing(bs: seq<Banner>, k: int)
    ensures Offered(bs, None, k) <==> !InfoBannersRoute.OrderTaken(bs, k)
  {
  }

  /** Banners that use every position 1..m number at least m (the pigeonhole principle). */
  lemma {:induction false} PositionsNeedBanners(bs: seq<Banner>, m: nat)
    requires forall k :: 1 <= k <= m ==> InfoBannersRoute.OrderTaken(bs, k)
    ensures |bs| >= m
  {
    if m > 0 {
      assert InfoBannersRoute.OrderTaken(bs, m);
      var i :| 0 <= i < |bs| && bs[i].orderIndex == m;
      var rest := bs[..i] + bs[i + 1..];
      forall k | 1 <= k <= m - 1 ensures InfoBannersRoute.OrderTaken(rest, k) {
        assert InfoBannersRoute.OrderTaken(bs, k);
        var j :| 0 <= j < |bs| && bs[j].orderIndex == k;
        if j < i {
          assert rest[j] == bs[j];
        } else {
          assert rest[j - 1] == bs[j];
        }
      }
      PositionsNeedBanners(rest, m - 1);
    }
  }

  /** With no position offered, the banners use all five positions. */
  lemma AllTakenWhenNoneOffered(bs: seq<Banner>)
    requires AvailableOrderIndices(bs, None) == []
    ensures forall k :: 1 <= k <= MaxBanners ==> InfoBannersRoute.OrderTaken(bs, k)
  {
    forall k | 1 <= k <= MaxBanners ensures InfoBannersRoute.OrderTaken(bs, k) {
      assert k !in AvailableOrderIndices(bs, None);
    }
  }

  /** Fewer than five banners leave some position free (the pigeonhole principle). */
  lemma SomeOfferedWhenFewBanners(bs: seq<Banner>)
    requires |bs| < MaxBanners
    ensures AvailableOrderIndices(bs, None) != []
  {
    if AvailableOrderIndices(bs, None) == [] {
      AllTakenWhenNoneOffered(bs);
      PositionsNeedBanners(bs, MaxBanners);
    }
  }

  /**
   * Whenever the add button is enabled and no banner is being edited, the
   * suggested position is free and in range, so the server's range, limit
   * and uniqueness checks all pass.
   */
  lemma SuggestionFreeWhenAddEnabled(bs: seq<Banner>)
    requires !AddDisabled(bs)
    ensures 1 <= SuggestedOrder(bs, None) <= MaxBanners
    ensures !InfoBannersRoute.OrderTaken(bs, SuggestedOrder(bs, None))
  {
    SomeOfferedWhenFewBanners(bs);
    var k := SuggestedOrder(bs, None);
    assert Offered(bs, None, k);
    OfferedWhenNotEditing(bs, k);
  }

  /**
   * Closing the edit dialog without saving leaves `editingBanner` set, and
   * the add button computes its suggestion before clearing it. The banner
   * last opened for editing then has its own position suggested for the new
   * banner, although that banner still uses it.
   */
  lemma StaleEditSuggestsTakenPosition(b: Banner)
    requires b.orderIndex == 1
    ensures SuggestedOrder([b], Some(b)) == 1
    ensures InfoBannersRoute.OrderTaken([b], SuggestedOrder([b], Some(b)))
    ensures !AddDisabled([b])
  {
    assert Offered([b], Some(b), 1);
    assert [b][0].orderIndex == 1;
  }
}
