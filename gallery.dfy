/** The gallery carousel: a strip of `itemCount` items of which `itemsPerView`
    are visible at once, paged by prev/next buttons and by dots. */
module GalleryCarousel {
  import opened Track

  /** Widths at or below these breakpoints show one, resp. two items. */
  const MobileMaxWidth := 480
  const TabletMaxWidth := 768
  /** Gap used when the track's computed `gap` does not parse to a nonzero number. */
  const DefaultGap := 24

  /** How many items fit in a viewport of the given width. */
  function ItemsPerView(width: int): (ipv: int)
    ensures 1 <= ipv <= 3
    ensures ipv == 1 <==> width <= MobileMaxWidth
    ensures ipv == 3 <==> width > TabletMaxWidth
  {
    if width <= MobileMaxWidth then 1
    else if width <= TabletMaxWidth then 2
    else 3
  }

  /** A wider viewport never shows fewer items. */
  lemma ItemsPerViewMonotone(narrow: int, wide: int)
    requires narrow <= wide
    ensures ItemsPerView(narrow) <= ItemsPerView(wide)
  {
  }

  /** The last start index from which a full view of items is shown. */
  function MaxIndex(itemCount: nat, ipv: int): nat
  {
    Max(0, itemCount - ipv)
  }

  /** `Math.max(0, Math.min(index, maxIndex))`. */
  function Clamp(index: int, itemCount: nat, ipv: int): (c: nat)
    ensures c <= MaxIndex(itemCount, ipv)
    ensures 0 <= index <= MaxIndex(itemCount, ipv) ==> c == index
    ensures index < 0 ==> c == 0
    ensures index > MaxIndex(itemCount, ipv) ==> c == MaxIndex(itemCount, ipv)
  {
    Max(0, Min(index, MaxIndex(itemCount, ipv)))
  }

  /** Number of dots kept visible: one per valid start index. */
  function TotalSlides(itemCount: nat, ipv: int): (total: int)
    ensures total >= 1
    ensures total == MaxIndex(itemCount, ipv) + 1
  {
    Max(1, itemCount - ipv + 1)
  }

  /** The dot highlighted for a start index: the "page" `floor(index / ipv)`,
      capped at the last visible dot. */
  function PageOf(index: nat, itemCount: nat, ipv: int): (page: int)
    ensures 0 <= page < TotalSlides(itemCount, ipv)
  {
    Min(index / Max(1, ipv), TotalSlides(itemCount, ipv) - 1)
  }

  /** Horizontal translation of the track for a start index: one stride of
      item width plus gap per index, the gap falling back to 24 when it reads
      as 0 (`parseFloat(gap) || 24`). */
  function TrackOffset(index: int, itemWidth: int, gap: int): (px: int)
    ensures gap == 0 ==> px == -(index * (itemWidth + DefaultGap))
    ensures index == 0 ==> px == 0
    ensures index > 0 && itemWidth > 0 && gap >= 0 ==> px < 0
  {
    -(index * (itemWidth + (if gap == 0 then DefaultGap else gap)))
  }

  /** Start index after the "next" button: a jump of `ipv`, capped at the
      last start index, and from there back to the first. */
  function NextIndex(current: int, itemCount: nat, ipv: int): (next: nat)
    requires ipv >= 1
    ensures 0 <= current < MaxIndex(itemCount, ipv) ==>
              next == Min(current + ipv, MaxIndex(itemCount, ipv)) && next > current
    ensures current >= MaxIndex(itemCount, ipv) ==> next == 0
  {
    var maxIndex := MaxIndex(itemCount, ipv);
    Clamp(if current < maxIndex then Min(current + ipv, maxIndex) else 0, itemCount, ipv)
  }

  /** Start index after the "prev" button: a jump back of `ipv`, floored at
      0, and from 0 round to the last start index. */
  function PrevIndex(current: int, itemCount: nat, ipv: int): (prev: nat)
    requires ipv >= 1
    ensures 0 < current <= MaxIndex(itemCount, ipv) ==>
              prev == Max(0, current - ipv) && prev < current
    ensures current <= 0 ==> prev == MaxIndex(itemCount, ipv)
  {
    var maxIndex := MaxIndex(itemCount, ipv);
    Clamp(if current > 0 then Max(0, current - ipv) else maxIndex, itemCount, ipv)
  }

  /** Start index targeted by a click on dot `dot`. */
  function DotTarget(dot: nat, itemCount: nat, ipv: int): (target: nat)
    requires ipv >= 1
    ensures target == Min(dot * ipv, MaxIndex(itemCount, ipv))
  {
    MulMonotone(0, dot, ipv);
    Clamp(Min(dot * ipv, MaxIndex(itemCount, ipv)), itemCount, ipv)
  }

  /** A dot whose page starts at a valid start index is highlighted by its own click. */
  lemma DotClickHighlightsOwnDot(dot: nat, itemCount: nat, ipv: int)
    requires ipv >= 1
    requires dot * ipv <= MaxIndex(itemCount, ipv)
    ensures PageOf(DotTarget(dot, itemCount, ipv), itemCount, ipv) == dot
  {
    MulMonotone(1, ipv, dot);
    assert dot * ipv == ipv * dot;
    MulDivCancel(dot, ipv);
  }

  lemma MulDivCancel(a: nat, b: int)
    requires b >= 1
    ensures a * b / b == a
  {
    var q, r := a * b / b, a * b % b;
    assert a * b == q * b + r && 0 <= r < b;
    assert (a - q) * b == r;
    assert (q - a) * b == -r;
    if a - q >= 1 {
      MulMonotone(1, a - q, b);
    } else if a - q <= -1 {
      MulMonotone(1, q - a, b);
    }
  }

  /** The state of the `k`-th press of "next", starting at `start`. */
  function NextPresses(k: nat, start: int, itemCount: nat, ipv: int): int
    requires ipv >= 1
    decreases k
  {
    if k == 0 then start else NextPresses(k - 1, NextIndex(start, itemCount, ipv), itemCount, ipv)
  }

  /** The state after `k` presses of "prev", starting at `start`. */
  function PrevPresses(k: nat, start: int, itemCount: nat, ipv: int): int
    requires ipv >= 1
    decreases k
  {
    if k == 0 then start else PrevPresses(k - 1, PrevIndex(start, itemCount, ipv), itemCount, ipv)
  }

  /** Presses needed to go round: `ceil(maxIndex / ipv)` jumps to the last
      start index, plus the wrap back to 0. */
  function CycleLength(itemCount: nat, ipv: int): nat
    requires ipv >= 1
  {
    (MaxIndex(itemCount, ipv) + ipv - 1) / ipv + 1
  }

  lemma MulMonotone(a: int, b: int, c: int)
    requires 0 <= a <= b && 0 <= c
    ensures a * c <= b * c
  {
  }

  /** `K = ceil(m / ipv)` is the least number of jumps of `ipv` covering `m`. */
  lemma CeilJumps(m: int, ipv: int)
    requires m > 0 && ipv >= 1
    ensures (m + ipv - 1) / ipv >= 1
    ensures (m + ipv - 1) / ipv * ipv >= m
    ensures ((m + ipv - 1) / ipv - 1) * ipv < m
  {
  }

  lemma {:induction false} NextPressesAdd(a: nat, b: nat, start: int, itemCount: nat, ipv: int)
    requires ipv >= 1
    ensures NextPresses(a + b, start, itemCount, ipv)
         == NextPresses(b, NextPresses(a, start, itemCount, ipv), itemCount, ipv)
    decreases a
  {
    if a > 0 {
      NextPressesAdd(a - 1, b, NextIndex(start, itemCount, ipv), itemCount, ipv);
    }
  }

  /** While the strip has not reached its last start index, each "next" is a
      full jump of `ipv`. */
  lemma {:induction false} NextPressesJump(k: nat, start: nat, itemCount: nat, ipv: int)
    requires ipv >= 1
    requires start <= MaxIndex(itemCount, ipv)
    requires k > 0 ==> start + (k - 1) * ipv < MaxIndex(itemCount, ipv)
    ensures NextPresses(k, start, itemCount, ipv) == Min(start + k * ipv, MaxIndex(itemCount, ipv))
    decreases k
  {
    if k > 0 {
      assert (k - 1) * ipv == k * ipv - ipv;
      var next := NextIndex(start, itemCount, ipv);
      assert NextPresses(k, start, itemCount, ipv) == NextPresses(k - 1, next, itemCount, ipv);
      if k == 1 {
        assert next == Min(start + ipv, MaxIndex(itemCount, ipv));
        assert k * ipv == ipv;
      } else {
        assert (k - 2) * ipv == (k - 1) * ipv - ipv;
        MulMonotone(0, k - 2, ipv);
        assert next == start + ipv;
        NextPressesJump(k - 1, next, itemCount, ipv);
        assert next + (k - 1) * ipv == start + k * ipv;
      }
    }
  }

  /** While the strip has not reached 0, each "prev" is a full jump back of `ipv`. */
  lemma {:induction false} PrevPressesJump(k: nat, start: nat, itemCount: nat, ipv: int)
    requires ipv >= 1
    requires start <= MaxIndex(itemCount, ipv)
    requires k > 0 ==> start - (k - 1) * ipv > 0
    ensures PrevPresses(k, start, itemCount, ipv) == Max(0, start - k * ipv)
    decreases k
  {
    if k > 0 {
      assert (k - 1) * ipv == k * ipv - ipv;
      var prev := PrevIndex(start, itemCount, ipv);
      if k == 1 {
        assert prev == Max(0, start - ipv);
      } else {
        assert (k - 2) * ipv == (k - 1) * ipv - ipv;
        MulMonotone(0, k - 2, ipv);
        assert prev == start - ipv;
        PrevPressesJump(k - 1, prev, itemCount, ipv);
      }
    }
  }

  /** At a fixed viewport, pressing "next" from the first start index comes
      back to it after exactly `CycleLength` presses, and not before. */
  lemma NextSlideCycle(itemCount: nat, ipv: int)
    requires ipv >= 1
    ensures NextPresses(CycleLength(itemCount, ipv), 0, itemCount, ipv) == 0
    ensures forall k :: 0 < k < CycleLength(itemCount, ipv) ==> NextPresses(k, 0, itemCount, ipv) != 0
  {
    var m := MaxIndex(itemCount, ipv);
    var n := CycleLength(itemCount, ipv);
    if m == 0 {
      assert (ipv - 1) / ipv == 0;
      assert NextPresses(1, 0, itemCount, ipv) == NextPresses(0, 0, itemCount, ipv);
    } else {
      CeilJumps(m, ipv);
      NextPressesJump(n - 1, 0, itemCount, ipv);
      NextPressesAdd(n - 1, 1, 0, itemCount, ipv);
      assert NextPresses(1, m, itemCount, ipv) == NextPresses(0, 0, itemCount, ipv);
      forall k | 0 < k < n
        ensures NextPresses(k, 0, itemCount, ipv) != 0
      {
        MulMonotone(k - 1, n - 2, ipv);
        MulMonotone(1, k, ipv);
        NextPressesJump(k, 0, itemCount, ipv);
      }
    }
  }

  /** The same cycle backwards: "prev" from the first start index wraps to the
      last one and walks back to 0 in exactly `CycleLength` presses. */
  lemma PrevSlideCycle(itemCount: nat, ipv: int)
    requires ipv >= 1
    ensures PrevPresses(1, 0, itemCount, ipv) == MaxIndex(itemCount, ipv)
    ensures PrevPresses(CycleLength(itemCount, ipv), 0, itemCount, ipv) == 0
    ensures forall k :: 0 < k < CycleLength(itemCount, ipv) ==> PrevPresses(k, 0, itemCount, ipv) != 0
  {
    var m := MaxIndex(itemCount, ipv);
    var n := CycleLength(itemCount, ipv);
    assert PrevPresses(1, 0, itemCount, ipv) == PrevPresses(0, m, itemCount, ipv);
    if m == 0 {
      assert (ipv - 1) / ipv == 0;
    } else {
      CeilJumps(m, ipv);
      PrevPressesJump(n - 1, m, itemCount, ipv);
      forall k | 0 < k < n
        ensures PrevPresses(k, 0, itemCount, ipv) != 0
      {
        MulMonotone(k - 1, n - 2, ipv);
        PrevPressesJump(k - 1, m, itemCount, ipv);
      }
    }
  }

  /** The dot quirk: with two or more items per view and more items than
      fit, no reachable start index highlights the last visible dot. */
  lemma LastDotNeverActive(itemCount: nat, ipv: int, index: nat)
    requires 2 <= ipv && itemCount > ipv
    requires index <= MaxIndex(itemCount, ipv)
    ensures PageOf(index, itemCount, ipv) < TotalSlides(itemCount, ipv) - 1
  {
  }

  /** The quirk on a desktop with five items: three dots are shown, but every
      start index lies on page 0, so a click on dot 1 or 2 highlights dot 0. */
  lemma DotQuirkExample()
    ensures TotalSlides(5, ItemsPerView(1024)) == 3
    ensures DotTarget(1, 5, 3) == 2 && PageOf(DotTarget(1, 5, 3), 5, 3) == 0
    ensures DotTarget(2, 5, 3) == 2 && PageOf(DotTarget(2, 5, 3), 5, 3) == 0
  {
  }

  /** Each gallery dot's `active` class and `display` style. */
  datatype Dot = Dot(active: bool, visible: bool)

  /** A dot after `moveToIndex` highlighted page `page`: dots before
      `total` are set, the rest keep their flag. */
  function MarkPage(d: Dot, j: int, total: int, page: int): Dot
  {
    if j < total then d.(active := j == page) else d
  }

  /** The dots after `updateDots`: exactly those before `total` shown. */
  function ShowSlides(ds: seq<Dot>, total: int): (shown: seq<Dot>)
    ensures |shown| == |ds|
    ensures forall j :: 0 <= j < |ds| ==> shown[j] == ds[j].(visible := j < total)
  {
    seq(|ds|, j requires 0 <= j < |ds| => ds[j].(visible := j < total))
  }

  class Gallery {
    const itemCount: nat
    const dots: array<Dot>
    var currentIndex: int
    var itemsPerView: int
    var transform: Transform

    /** The carousel's invariant: after every navigation the index is a valid
        start index for the current items per view. Every operation
        establishes it from any state (resizes may leave the index out of
        range for a new width until the next `moveToIndex`), so none needs
        it; callers can rely on it between operations. */
    ghost predicate Valid()
      reads this
    {
      1 <= itemsPerView <= 3 && 0 <= currentIndex <= MaxIndex(itemCount, itemsPerView)
    }

    /** What `moveToIndex` leaves behind for the current `currentIndex` and
        `itemsPerView`, given the dots and transform before it. */
    ghost predicate Settled(before: seq<Dot>, transformBefore: Transform, itemWidth: int, gap: int)
      reads this, dots
    {
      |before| == dots.Length && 0 <= currentIndex &&
      transform == (if itemCount > 0 && itemWidth > 0
                    then TranslateX(TrackOffset(currentIndex, itemWidth, gap))
                    else transformBefore) &&
      forall j :: 0 <= j < dots.Length ==>
        dots[j] == MarkPage(before[j], j, TotalSlides(itemCount, itemsPerView),
                            PageOf(currentIndex, itemCount, itemsPerView))
    }

    /** State before initialisation: index 0, the desktop three items per
        view, dots as the page markup has them. */
    constructor (itemCount: nat, markupDots: seq<Dot>)
      ensures this.itemCount == itemCount && fresh(dots) && dots[..] == markupDots
      ensures currentIndex == 0 && itemsPerView == 3 && transform == Unset
      ensures Valid()
    {
      this.itemCount := itemCount;
      dots := new Dot[|markupDots|](j requires 0 <= j < |markupDots| => markupDots[j]);
      currentIndex := 0;
      itemsPerView := 3;
      transform := Unset;
    }

    method UpdateItemsPerView(width: int)
      modifies this`itemsPerView
      ensures itemsPerView == ItemsPerView(width)
    {
      if width <= MobileMaxWidth {
        itemsPerView := 1;
      } else if width <= TabletMaxWidth {
        itemsPerView := 2;
      } else {
        itemsPerView := 3;
      }
    }

    /** Shows exactly the dots below `totalSlides`; leaves `active` alone. */
    method UpdateDots()
      modifies dots
      ensures dots[..] == ShowSlides(old(dots[..]), TotalSlides(itemCount, itemsPerView))
    {
      var total := Max(1, itemCount - itemsPerView + 1);
      for j := 0 to dots.Length
        invariant forall k :: 0 <= k < j ==> dots[k] == old(dots[k]).(visible := k < total)
        invariant forall k :: j <= k < dots.Length ==> dots[k] == old(dots[k])
      {
        if j < total {
          dots[j] := dots[j].(visible := true);
        } else {
          dots[j] := dots[j].(visible := false);
        }
      }
    }

    /** Recomputes the items per view, clamps `index`, moves the track when
        the first item has a width, and highlights the dot of its page. */
    method MoveToIndex(index: int, width: int, itemWidth: int, gap: int)
      modifies this, dots
      ensures itemsPerView == ItemsPerView(width)
      ensures currentIndex == Clamp(index, itemCount, itemsPerView)
      ensures Settled(old(dots[..]), old(transform), itemWidth, gap)
      ensures Valid()
    {
      UpdateItemsPerView(width);
      var maxIndex := Max(0, itemCount - itemsPerView);
      currentIndex := Max(0, Min(index, maxIndex));

      if itemCount > 0 && itemWidth > 0 {
        var effectiveGap := if gap == 0 then DefaultGap else gap;
        transform := TranslateX(-(currentIndex * (itemWidth + effectiveGap)));
      }

      var total := Max(1, itemCount - itemsPerView + 1);
      var page := Min(currentIndex / Max(1, itemsPerView), total - 1);
      for j := 0 to dots.Length
        modifies dots
        invariant forall k :: 0 <= k < j ==> dots[k] == MarkPage(old(dots[k]), k, total, page)
        invariant forall k :: j <= k < dots.Length ==> dots[k] == old(dots[k])
      {
        if j < total {
          dots[j] := dots[j].(active := j == page);
        }
      }
    }

    /** Page load: items per view, dot visibility, then the first start index. */
    method Load(width: int, itemWidth: int, gap: int)
      modifies this, dots
      ensures itemsPerView == ItemsPerView(width) && currentIndex == 0
      ensures Settled(ShowSlides(old(dots[..]), TotalSlides(itemCount, itemsPerView)),
                      old(transform), itemWidth, gap)
      ensures Valid()
    {
      UpdateItemsPerView(width);
      UpdateDots();
      MoveToIndex(0, width, itemWidth, gap);
    }

    /** The resize handler, once its debounce timer fires. */
    method Resize(width: int, itemWidth: int, gap: int)
      modifies this, dots
      ensures itemsPerView == ItemsPerView(width)
      ensures currentIndex == Clamp(old(currentIndex), itemCount, itemsPerView)
      ensures Settled(ShowSlides(old(dots[..]), TotalSlides(itemCount, itemsPerView)),
                      old(transform), itemWidth, gap)
      ensures Valid()
    {
      UpdateItemsPerView(width);
      UpdateDots();
      MoveToIndex(currentIndex, width, itemWidth, gap);
    }

    method NextSlide(width: int, itemWidth: int, gap: int)
      modifies this, dots
      ensures itemsPerView == ItemsPerView(width)
      ensures currentIndex == NextIndex(old(currentIndex), itemCount, itemsPerView)
      ensures Settled(old(dots[..]), old(transform), itemWidth, gap)
      ensures Valid()
    {
      UpdateItemsPerView(width);
      var maxIndex := Max(0, itemCount - itemsPerView);
      if currentIndex < maxIndex {
        MoveToIndex(Min(currentIndex + itemsPerView, maxIndex), width, itemWidth, gap);
      } else {
        MoveToIndex(0, width, itemWidth, gap);
      }
    }

    method PrevSlide(width: int, itemWidth: int, gap: int)
      modifies this, dots
      ensures itemsPerView == ItemsPerView(width)
      ensures currentIndex == PrevIndex(old(currentIndex), itemCount, itemsPerView)
      ensures Settled(old(dots[..]), old(transform), itemWidth, gap)
      ensures Valid()
    {
      UpdateItemsPerView(width);
      var maxIndex := Max(0, itemCount - itemsPerView);
      if currentIndex > 0 {
        MoveToIndex(Max(0, currentIndex - itemsPerView), width, itemWidth, gap);
      } else {
        MoveToIndex(maxIndex, width, itemWidth, gap);
      }
    }

    /** Click on dot `dot`: go to the page that dot stands for. */
    method DotClick(dot: nat, width: int, itemWidth: int, gap: int)
      modifies this, dots
      ensures itemsPerView == ItemsPerView(width)
      ensures currentIndex == DotTarget(dot, itemCount, itemsPerView)
      ensures Settled(old(dots[..]), old(transform), itemWidth, gap)
      ensures Valid()
    {
      UpdateItemsPerView(width);
      var targetIndex := dot * itemsPerView;
      var maxIndex := Max(0, itemCount - itemsPerView);
      MoveToIndex(Min(targetIndex, maxIndex), width, itemWidth, gap);
    }
  }
}
