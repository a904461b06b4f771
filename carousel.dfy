/**
 * The horizontal manga carousel of both front ends
 * (manga-reader/src/components/Carousel.tsx and
 * manga-reader-next/src/components/Carousel.tsx): how many cards fit the
 * window width, the largest scroll index, the previous/next/dot handlers and
 * when the component renders at all.
 */
module Carousel {
  import opened Wrappers
  import opened Js

  function Max(a: int, b: int): int { if a >= b then a else b }
  function Min(a: int, b: int): int { if a <= b then a else b }

  /** `updateItemsPerView`: the Tailwind breakpoints 2xl, xl, lg and md. */
  function ItemsPerViewFor(width: int): (r: int)
    ensures 1 <= r <= 5
    ensures r == 5 <==> width >= 1536
    ensures r >= 4 <==> width >= 1280
    ensures r >= 3 <==> width >= 1024
    ensures r >= 2 <==> width >= 768
    ensures r == 1 <==> width < 768
  {
    if width >= 1536 then 5
    else if width >= 1280 then 4
    else if width >= 1024 then 3
    else if width >= 768 then 2
    else 1
  }

  /** A wider window never shows fewer cards. */
  lemma ItemsPerViewMonotone(w1: int, w2: int)
    requires w1 <= w2
    ensures ItemsPerViewFor(w1) <= ItemsPerViewFor(w2)
  {
  }

  /** `Array.isArray(manga) ? manga.length : 0`. */
  function SafeLength<T>(manga: Loose<T>): (n: nat)
    ensures manga.Arr? ==> n == |manga.items|
    ensures manga.NotArray? ==> n == 0
  {
    if manga.Arr? then |manga.items| else 0
  }

  /** `Math.max(0, safeLength - itemsPerView)`: the last index at which the view is still full. */
  function MaxIndex(safeLength: nat, itemsPerView: int): (m: nat)
    ensures m >= safeLength - itemsPerView
    ensures m == 0 || m == safeLength - itemsPerView
  {
    Max(0, safeLength - itemsPerView)
  }

  /** `nextSlide`'s update. */
  function NextIndex(prev: int, maxIndex: nat): (r: int)
    ensures r <= maxIndex
    ensures r <= prev + 1
    ensures prev < maxIndex ==> r == prev + 1
    ensures prev >= maxIndex ==> r == maxIndex
  {
    Min(prev + 1, maxIndex)
  }

  /** `prevSlide`'s update. */
  function PrevIndex(prev: int): (r: int)
    ensures r >= 0
    ensures prev >= 0 ==> prev - 1 <= r <= prev
    ensures prev > 0 ==> r == prev - 1
  {
    Max(prev - 1, 0)
  }

  /** `goToSlide`'s clamp. */
  function GoToIndex(index: int, maxIndex: nat): (r: int)
    ensures 0 <= r <= maxIndex
    ensures 0 <= index <= maxIndex ==> r == index
    ensures index < 0 ==> r == 0
    ensures index > maxIndex ==> r == maxIndex
  {
    Min(Max(0, index), maxIndex)
  }

  predicate PrevDisabled(index: int) { index == 0 }
  predicate NextDisabled(index: int, maxIndex: nat) { index >= maxIndex }

  /** Inside the range a button is disabled exactly when pressing it would not move. */
  lemma DisabledExactlyWhenStuck(index: int, maxIndex: nat)
    requires 0 <= index <= maxIndex
    ensures PrevDisabled(index) <==> PrevIndex(index) == index
    ensures NextDisabled(index, maxIndex) <==> NextIndex(index, maxIndex) == index
  {
  }

  datatype Command = NextSlide | PrevSlide | GoToSlide(index: int)

  function Step(index: int, maxIndex: nat, c: Command): int {
    match c
    case NextSlide => NextIndex(index, maxIndex)
    case PrevSlide => PrevIndex(index)
    case GoToSlide(i) => GoToIndex(i, maxIndex)
  }

  /** The index after a sequence of handler calls with an unchanged width and list. */
  function Run(index: int, maxIndex: nat, cmds: seq<Command>): int
    decreases |cmds|
  {
    if |cmds| == 0 then index else Run(Step(index, maxIndex, cmds[0]), maxIndex, cmds[1..])
  }

  /** From an index in range, any sequence of previous/next/dot clicks stays in [0, maxIndex]. */
  lemma {:induction false} RunStaysInRange(index: int, maxIndex: nat, cmds: seq<Command>)
    requires 0 <= index <= maxIndex
    ensures 0 <= Run(index, maxIndex, cmds) <= maxIndex
    decreases |cmds|
  {
    if |cmds| > 0 {
      RunStaysInRange(Step(index, maxIndex, cmds[0]), maxIndex, cmds[1..]);
    }
  }

  /** From any index whatsoever, one next or dot click brings it to at most maxIndex. */
  lemma ClampingStepsRecover(index: int, maxIndex: nat, c: Command)
    requires !c.PrevSlide?
    ensures Step(index, maxIndex, c) <= maxIndex
  {
  }

  /** The dot indicator: one dot per index 0..maxIndex, shown only when there is somewhere to scroll. */
  function Dots(maxIndex: nat): (r: seq<int>)
    ensures maxIndex == 0 ==> r == []
    ensures maxIndex > 0 ==> |r| == maxIndex + 1 && forall k :: 0 <= k < |r| ==> r[k] == k
  {
    if maxIndex > 0 then seq(maxIndex + 1, k => k) else []
  }

  /** Clicking a dot scrolls exactly to its index. */
  lemma DotsReachTheirIndex(maxIndex: nat)
    ensures forall d :: d in Dots(maxIndex) ==> GoToIndex(d, maxIndex) == d
  {
  }

  /**
   * Whether the component renders: the older tree reads `manga.length`
   * without a guard, which throws for a missing list; the Next.js tree uses
   * the guarded length.
   */
  function Renders<T>(manga: Loose<T>, legacy: bool): (r: Result<bool, string>)
    ensures !legacy ==> r == Success(SafeLength(manga) > 0)
    ensures legacy ==> (r.Failure? <==> manga.NotArray?)
    ensures r.Success? ==> (r.value <==> SafeLength(manga) > 0)
  {
    if legacy && manga.NotArray? then Failure("TypeError")
    else Success(SafeLength(manga) > 0)
  }

  /** The carousel's state: the scroll index and the number of visible cards. */
  class CarouselState {
    const safeLength: nat
    var currentIndex: int
    var itemsPerView: int

    function LastIndex(): nat
      reads this
    {
      MaxIndex(safeLength, itemsPerView)
    }

    /** The index is in range and the card count is one of the breakpoint values. */
    predicate Valid()
      reads this
    {
      0 <= currentIndex <= LastIndex() && 1 <= itemsPerView <= 5
    }

    /** Mount: index 0, one card per view until the first width measurement. */
    constructor (safeLength: nat)
      ensures this.safeLength == safeLength && currentIndex == 0 && itemsPerView == 1
      ensures Valid()
    {
      this.safeLength := safeLength;
      currentIndex := 0;
      itemsPerView := 1;
    }

    /** The resize listener: the index is left as it was. */
    method UpdateItemsPerView(width: int)
      modifies this
      ensures itemsPerView == ItemsPerViewFor(width) && currentIndex == old(currentIndex)
    {
      itemsPerView := ItemsPerViewFor(width);
    }

    method NextSlide()
      modifies this
      ensures currentIndex == NextIndex(old(currentIndex), LastIndex()) && itemsPerView == old(itemsPerView)
      ensures old(currentIndex) >= 0 ==> 0 <= currentIndex <= LastIndex()
      ensures old(Valid()) ==> Valid()
    {
      currentIndex := NextIndex(currentIndex, LastIndex());
    }

    method PrevSlide()
      modifies this
      ensures currentIndex == PrevIndex(old(currentIndex)) && itemsPerView == old(itemsPerView)
      ensures old(Valid()) ==> Valid()
    {
      currentIndex := PrevIndex(currentIndex);
    }

    method GoToSlide(index: int)
      modifies this
      ensures currentIndex == GoToIndex(index, LastIndex()) && itemsPerView == old(itemsPerView)
      ensures 1 <= itemsPerView <= 5 ==> Valid()
    {
      currentIndex := GoToIndex(index, LastIndex());
    }
  }

  /**
   * A resize to a wider window keeps the index, which can then lie past the
   * new largest index: ten cards scrolled to the end on a narrow screen.
   */
  method ResizeKeepsIndexPastEnd() returns (c: CarouselState)
    ensures c.currentIndex == 9 && c.LastIndex() == 5 && !c.Valid()
  {
    c := new CarouselState(10);
    c.GoToSlide(9);
    c.UpdateItemsPerView(1536);
  }
}
