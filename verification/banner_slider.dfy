/**
 * The banner carousel shown on the login and collaborator pages: which
 * banner is current, how the arrows, the dots and the three-second tick
 * move it, and what is drawn.
 */
module BannerSlider {
  import opened Wrappers
  import opened Arith

  /** A banner as the carousel receives it. */
  datatype Slide = Slide(imageUrl: string, linkUrl: Option<string>)

  /** JavaScript's `%`: the remainder takes the sign of the dividend. */
  function JsRem(a: int, n: int): (r: int)
    requires n > 0
    ensures a >= 0 ==> r == a % n
    ensures a < 0 ==> -n < r <= 0
  {
    if a >= 0 then a % n else -((-a) % n)
  }

  /** `(i + 1) % n`, the index after `i`. */
  function Next(i: int, n: int): (r: int)
    requires n > 0 && 0 <= i < n
    ensures 0 <= r < n
    ensures r == if i == n - 1 then 0 else i + 1
  {
    JsRem(i + 1, n)
  }

  /** `(i - 1 + n) % n`, the index before `i`. */
  function Previous(i: int, n: int): (r: int)
    requires n > 0 && 0 <= i < n
    ensures 0 <= r < n
    ensures r == if i == 0 then n - 1 else i - 1
  {
    JsRem(i - 1 + n, n)
  }

  lemma PreviousUndoesNext(i: int, n: int)
    requires n > 0 && 0 <= i < n
    ensures Previous(Next(i, n), n) == i
  {
  }

  lemma NextUndoesPrevious(i: int, n: int)
    requires n > 0 && 0 <= i < n
    ensures Next(Previous(i, n), n) == i
  {
  }

  /** The index after `k` ticks from `i`. */
  function Advance(i: int, n: int, k: nat): (r: int)
    requires n > 0 && 0 <= i < n
    ensures 0 <= r < n
  {
    if k == 0 then i else Next(Advance(i, n, k - 1), n)
  }

  /** `k` ticks move the carousel `k` places round the circle. */
  lemma {:induction false} AdvanceIsRotation(i: int, n: int, k: nat)
    requires n > 0 && 0 <= i < n
    ensures Advance(i, n, k) == (i + k) % n
  {
    if k == 0 {
      DivModUnique(i, n, 0, i);
    } else {
      AdvanceIsRotation(i, n, k - 1);
      ModSucc(i + k - 1, n);
    }
  }

  /** After `n` ticks every banner has been shown and the first is current again. */
  lemma FullCycle(i: int, n: int)
    requires n > 0 && 0 <= i < n
    ensures Advance(i, n, n) == i
  {
    AdvanceIsRotation(i, n, n);
    ModSelf(i, n);
  }

  /** What the component draws. */
  datatype View =
    | LoadingMessage
    | Nothing
    | Carousel(current: Slide, index: int, arrows: bool, dots: nat, linked: bool)

  /** The component's state. */
  class Slider {
    var banners: seq<Slide>
    var currentIndex: int
    var loading: bool

    /** The current index addresses a banner whenever there is one; nothing moves before the load. */
    ghost predicate Valid()
      reads this
    {
      0 <= currentIndex
      && (|banners| > 0 ==> currentIndex < |banners|)
      && (|banners| == 0 ==> currentIndex == 0)
      && (loading ==> banners == [] && currentIndex == 0)
    }

    constructor ()
      ensures Valid() && loading && banners == [] && currentIndex == 0
    {
      banners, currentIndex, loading := [], 0, true;
    }

    /** The end of the fetch: the banners received, if the reply was ok; loading ends either way. */
    method FinishLoading(received: Option<seq<Slide>>)
      requires Valid() && loading
      modifies this
      ensures Valid() && !loading && currentIndex == 0
      ensures banners == (if received.Some? then received.value else [])
    {
      if received.Some? {
        banners := received.value;
      }
      loading := false;
    }

    /** The right arrow. */
    method GoToNext()
      requires Valid() && |banners| > 0
      modifies this`currentIndex
      ensures Valid() && currentIndex == Next(old(currentIndex), |banners|)
    {
      currentIndex := JsRem(currentIndex + 1, |banners|);
    }

    /** The left arrow. */
    method GoToPrevious()
      requires Valid() && |banners| > 0
      modifies this`currentIndex
      ensures Valid() && currentIndex == Previous(old(currentIndex), |banners|)
    {
      currentIndex := JsRem(currentIndex - 1 + |banners|, |banners|);
    }

    /** A dot. */
    method GoTo(index: int)
      requires Valid() && !loading && 0 <= index < |banners|
      modifies this`currentIndex
      ensures Valid() && currentIndex == index
    {
      currentIndex := index;
    }

    /** One firing of the three-second interval, which is set up only while there are at least two banners. */
    method Tick()
      requires Valid()
      modifies this`currentIndex
      ensures Valid()
      ensures |banners| > 1 ==> currentIndex == Next(old(currentIndex), |banners|)
      ensures |banners| <= 1 ==> currentIndex == old(currentIndex)
    {
      if |banners| > 1 {
        currentIndex := JsRem(currentIndex + 1, |banners|);
      }
    }

    /** The render: a message while loading, nothing without banners, otherwise the current banner. */
    function Render(): (v: View)
      requires Valid()
      reads this
      ensures loading <==> v == LoadingMessage
      ensures v == Nothing <==> !loading && |banners| == 0
      ensures v.Carousel? ==> v.current == banners[currentIndex] && v.index == currentIndex && v.dots == |banners|
      ensures v.Carousel? ==> (v.arrows <==> |banners| > 1)
      ensures v.Carousel? ==> (v.linked <==> banners[currentIndex].linkUrl.Some? && banners[currentIndex].linkUrl.value != "")
    {
      if loading then LoadingMessage
      else if |banners| == 0 then Nothing
      else
        var current := banners[currentIndex];
        Carousel(current, currentIndex, |banners| > 1, |banners|, current.linkUrl.Some? && current.linkUrl.value != "")
    }
  }
}
