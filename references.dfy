/** The references carousel: one card per slide, stepped one at a time by
    buttons, dots and touch swipes, wrapping at both ends. */
module ReferencesCarousel {
  import opened Track

  /** Horizontal finger travel, in pixels, that a swipe must exceed. */
  const SwipeThreshold := 50

  /** `Math.max(0, Math.min(index, cardCount - 1))`; with no cards the upper
      bound is -1 and the result is 0. */
  function Clamp(index: int, cardCount: nat): (c: int)
    ensures cardCount == 0 ==> c == 0
    ensures cardCount >= 1 ==> 0 <= c < cardCount
    ensures 0 <= index < cardCount ==> c == index
    ensures cardCount >= 1 && index >= cardCount ==> c == cardCount - 1
    ensures index < 0 ==> c == 0
  {
    Max(0, Min(index, cardCount - 1))
  }

  /** Slide shown after "next": one step forward, from the last card to the first. */
  function NextIndex(current: int, cardCount: nat): (next: int)
    ensures 0 <= current < cardCount - 1 ==> next == current + 1
    ensures current >= cardCount - 1 ==> next == 0
  {
    Clamp(if current < cardCount - 1 then current + 1 else 0, cardCount)
  }

  /** Slide shown after "prev": one step back, from the first card to the last. */
  function PrevIndex(current: int, cardCount: nat): (prev: int)
    ensures 0 < current < cardCount ==> prev == current - 1
    ensures current <= 0 ==> prev == Clamp(cardCount - 1, cardCount)
    ensures cardCount >= 1 && current <= 0 ==> prev == cardCount - 1
  {
    Clamp(if current > 0 then current - 1 else cardCount - 1, cardCount)
  }

  /** On the cards, "prev" undoes "next" and "next" undoes "prev". */
  lemma NextPrevInverse(current: int, cardCount: nat)
    requires 0 <= current < cardCount
    ensures PrevIndex(NextIndex(current, cardCount), cardCount) == current
    ensures NextIndex(PrevIndex(current, cardCount), cardCount) == current
  {
  }

  /** The slide after `k` presses of "next" from `start`. */
  function NextPresses(k: nat, start: int, cardCount: nat): int
    decreases k
  {
    if k == 0 then start else NextPresses(k - 1, NextIndex(start, cardCount), cardCount)
  }

  /** The slide after `k` presses of "prev" from `start`. */
  function PrevPresses(k: nat, start: int, cardCount: nat): int
    decreases k
  {
    if k == 0 then start else PrevPresses(k - 1, PrevIndex(start, cardCount), cardCount)
  }

  /** Up to one full round, `k` presses of "next" advance `k` cards modulo `cardCount`. */
  lemma {:induction false} NextPressesAdvance(k: nat, start: int, cardCount: nat)
    requires 0 <= start < cardCount && k <= cardCount
    ensures NextPresses(k, start, cardCount)
         == if start + k < cardCount then start + k else start + k - cardCount
    decreases k
  {
    if k > 0 {
      NextPressesAdvance(k - 1, NextIndex(start, cardCount), cardCount);
    }
  }

  /** Up to one full round, `k` presses of "prev" go back `k` cards modulo `cardCount`. */
  lemma {:induction false} PrevPressesRetreat(k: nat, start: int, cardCount: nat)
    requires 0 <= start < cardCount && k <= cardCount
    ensures PrevPresses(k, start, cardCount)
         == if k <= start then start - k else start - k + cardCount
    decreases k
  {
    if k > 0 {
      PrevPressesRetreat(k - 1, PrevIndex(start, cardCount), cardCount);
    }
  }

  /** Both buttons go round every card and come back after exactly `cardCount` presses. */
  lemma SlideCycle(start: int, cardCount: nat)
    requires 0 <= start < cardCount
    ensures NextPresses(cardCount, start, cardCount) == start
    ensures PrevPresses(cardCount, start, cardCount) == start
    ensures forall k :: 0 < k < cardCount ==>
              NextPresses(k, start, cardCount) != start && PrevPresses(k, start, cardCount) != start
  {
    NextPressesAdvance(cardCount, start, cardCount);
    PrevPressesRetreat(cardCount, start, cardCount);
    forall k | 0 < k < cardCount
      ensures NextPresses(k, start, cardCount) != start && PrevPresses(k, start, cardCount) != start
    {
      NextPressesAdvance(k, start, cardCount);
      PrevPressesRetreat(k, start, cardCount);
    }
  }

  /** What a touch gesture asks of the carousel. */
  datatype Gesture = SwipeNext | SwipePrev | Ignored

  /** `handleSwipe`'s decision from the touch start and end positions. */
  function SwipeGesture(touchStartX: int, touchEndX: int): (g: Gesture)
    ensures g == Ignored <==> -SwipeThreshold <= touchStartX - touchEndX <= SwipeThreshold
    ensures g == SwipeNext <==> touchStartX - touchEndX > SwipeThreshold
    ensures g == SwipePrev <==> touchStartX - touchEndX < -SwipeThreshold
  {
    var diff := touchStartX - touchEndX;
    var distance := if diff < 0 then -diff else diff;
    if distance > SwipeThreshold then
      if diff > 0 then SwipeNext else SwipePrev
    else Ignored
  }

  /** The slide a gesture leads to. */
  function Follow(g: Gesture, current: int, cardCount: nat): int
  {
    match g
    case SwipeNext => NextIndex(current, cardCount)
    case SwipePrev => PrevIndex(current, cardCount)
    case Ignored => current
  }

  /** Swiping back along the same path undoes a swipe. */
  lemma SwipeBackRestores(touchStartX: int, touchEndX: int, current: int, cardCount: nat)
    requires 0 <= current < cardCount
    ensures Follow(SwipeGesture(touchEndX, touchStartX),
                   Follow(SwipeGesture(touchStartX, touchEndX), current, cardCount),
                   cardCount) == current
  {
  }

  /** The width one slide occupies: the carousel viewport's, else the first
      card's, else 0 when neither can be read. */
  function SlideWidth(containerWidth: int, cardCount: nat, cardWidth: int): (w: int)
    ensures w > 0 <==> containerWidth > 0 || (cardCount > 0 && cardWidth > 0)
  {
    if containerWidth > 0 then containerWidth
    else if cardCount > 0 && cardWidth > 0 then cardWidth
    else 0
  }

  class References {
    const cardCount: nat
    const dots: array<bool>
    var currentIndex: int
    var transform: Transform
    var transition: Transition

    /** The carousel's invariant: the index names a card, or is 0 with no cards. */
    ghost predicate Valid()
      reads this
    {
      currentIndex == Clamp(currentIndex, cardCount)
    }

    /** What `moveToIndex` leaves behind for the current `currentIndex`. */
    ghost predicate Settled(smooth: bool, transformBefore: Transform, transitionBefore: Transition,
                            containerWidth: int, cardWidth: int)
      reads this, dots
    {
      var w := SlideWidth(containerWidth, cardCount, cardWidth);
      (if w > 0
       then transform == TranslateX(-(currentIndex * w)) &&
            transition == (if smooth then Eased else NoTransition)
       else transform == transformBefore && transition == transitionBefore) &&
      forall j :: 0 <= j < dots.Length ==> dots[j] == (j == currentIndex)
    }

    /** State before initialisation: index 0, dots as the page markup has them. */
    constructor (cardCount: nat, markupDots: seq<bool>)
      ensures this.cardCount == cardCount && fresh(dots) && dots[..] == markupDots
      ensures currentIndex == 0 && transform == Unset && transition == Inherited
      ensures Valid()
    {
      this.cardCount := cardCount;
      dots := new bool[|markupDots|](j requires 0 <= j < |markupDots| => markupDots[j]);
      currentIndex := 0;
      transform := Unset;
      transition := Inherited;
    }

    /** Clamps `index`, moves the track by whole slide widths when a width
        can be read, and makes the dot of the new slide the only active one.
        A click on dot `i` is `MoveToIndex(i, true, ...)`. */
    method MoveToIndex(index: int, smooth: bool, containerWidth: int, cardWidth: int)
      modifies this, dots
      ensures currentIndex == Clamp(index, cardCount)
      ensures Settled(smooth, old(transform), old(transition), containerWidth, cardWidth)
      ensures Valid()
    {
      var maxIndex := cardCount - 1;
      currentIndex := Max(0, Min(index, maxIndex));

      if containerWidth > 0 {
        transition := if smooth then Eased else NoTransition;
        transform := TranslateX(-(currentIndex * containerWidth));
      } else if cardCount > 0 && cardWidth > 0 {
        transition := if smooth then Eased else NoTransition;
        transform := TranslateX(-(currentIndex * cardWidth));
      }

      for i := 0 to dots.Length
        modifies dots
        invariant forall j :: 0 <= j < i ==> dots[j] == (j == currentIndex)
      {
        dots[i] := i == currentIndex;
      }
    }

    /** Page load: the first slide, with the eased transition. */
    method Load(containerWidth: int, cardWidth: int)
      modifies this, dots
      ensures currentIndex == 0
      ensures Settled(true, old(transform), old(transition), containerWidth, cardWidth)
      ensures Valid()
    {
      MoveToIndex(0, true, containerWidth, cardWidth);
    }

    method NextSlide(containerWidth: int, cardWidth: int)
      modifies this, dots
      ensures currentIndex == NextIndex(old(currentIndex), cardCount)
      ensures Settled(true, old(transform), old(transition), containerWidth, cardWidth)
      ensures Valid()
    {
      var maxIndex := cardCount - 1;
      if currentIndex < maxIndex {
        MoveToIndex(currentIndex + 1, true, containerWidth, cardWidth);
      } else {
        MoveToIndex(0, true, containerWidth, cardWidth);
      }
    }

    method PrevSlide(containerWidth: int, cardWidth: int)
      modifies this, dots
      ensures currentIndex == PrevIndex(old(currentIndex), cardCount)
      ensures Settled(true, old(transform), old(transition), containerWidth, cardWidth)
      ensures Valid()
    {
      var maxIndex := cardCount - 1;
      if currentIndex > 0 {
        MoveToIndex(currentIndex - 1, true, containerWidth, cardWidth);
      } else {
        MoveToIndex(maxIndex, true, containerWidth, cardWidth);
      }
    }

    /** A touch ending at `touchEndX` after starting at `touchStartX`: a
        swipe goes to the next or previous slide, a short move changes nothing. */
    method HandleSwipe(touchStartX: int, touchEndX: int, containerWidth: int, cardWidth: int)
      requires Valid()
      modifies this, dots
      ensures currentIndex == Follow(SwipeGesture(touchStartX, touchEndX), old(currentIndex), cardCount)
      ensures SwipeGesture(touchStartX, touchEndX) == Ignored ==>
                transform == old(transform) && transition == old(transition) &&
                dots[..] == old(dots[..])
      ensures SwipeGesture(touchStartX, touchEndX) != Ignored ==>
                Settled(true, old(transform), old(transition), containerWidth, cardWidth)
      ensures Valid()
    {
      var diff := touchStartX - touchEndX;
      var distance := if diff < 0 then -diff else diff;
      if distance > SwipeThreshold {
        if diff > 0 {
          NextSlide(containerWidth, cardWidth);
        } else {
          PrevSlide(containerWidth, cardWidth);
        }
      }
    }

    /** The resize handler, once its debounce timer fires: the same slide,
        re-positioned for the new width without animation. */
    method Resize(containerWidth: int, cardWidth: int)
      requires Valid()
      modifies this, dots
      ensures currentIndex == old(currentIndex)
      ensures Settled(false, old(transform), old(transition), containerWidth, cardWidth)
      ensures Valid()
    {
      MoveToIndex(currentIndex, false, containerWidth, cardWidth);
    }
  }
}
