# Coaching website interactivity — a Dafny model

This project models the stateful logic of the website's client script
(`script.js`): the two carousels, the contact-form check and the navigation
highlighting. The browser is left out. Every reading of the page (viewport
width, an item's or container's `offsetWidth`, the track's `gap`, touch
positions, `scrollY`, section offsets) becomes an integer parameter of the
operation that reads it.

- `track.dfy`, module `Track`: the inline `transform` and `transition` styles that
  both carousels write to their track, and the `Math.max`/`Math.min` both use to clamp.
- `gallery.dfy`, module `GalleryCarousel`: the gallery carousel. It shows `itemsPerView`
  items at once, 1, 2 or 3 depending on the viewport width. Prev/next jump by
  `itemsPerView` and wrap at either end. Dot `i` stands for start index
  `i·itemsPerView`. The `Gallery` class holds `currentIndex`, `itemsPerView`,
  the track's transform and an array of dots, each with an `active` and a
  `visible` flag.
- `references.dfy`, module `ReferencesCarousel`: the references carousel. It shows one
  card per slide and steps one slide at a time with wraparound. It also decides
  swipes against a strict 50 px threshold. The `References` class holds
  `currentIndex`, the track's transform and transition, and an array of `active` flags.
- `contact.dfy`, module `ContactForm`: the submit handler. It checks the required fields first and
  then the e-mail shape `^[^\s@]+@[^\s@]+\.[^\s@]+$`. The shape is defined twice
  and proved equivalent. `MatchesEmailPattern` transcribes the pattern. `IsValidEmail`
  is the structural predicate: no white space, exactly one `@`, a non-empty local part,
  and a `.` inside the domain with a character on each side.
- `navigation.dfy`, module `Navigation`: the scroll handler. It picks the last section whose
  `offsetTop − 200 ≤ scrollY`, then marks exactly the links pointing at it.

The gallery's dot mapping is modelled as written, including its quirk.
`totalSlides = max(1, itemCount − itemsPerView + 1)` dots are shown, one per
start index. The highlighted dot, however, is the "page" `floor(currentIndex / itemsPerView)`.
With two or three items per view, the dots past the last page can therefore never be active.
`LastDotNeverActive` proves this for the last visible dot. The two carousels
also keep their different wrap policies (jumps of `itemsPerView` against single steps).

The track gap is `parseFloat(gap) || 24`. Here the code differs from a reading
of it as "24 when unreadable": a computed gap of `0` is falsy and also becomes 24.
The model passes `gap = 0` for both cases and follows the code.

## Model

| member | source | states |
|---|---|---|
| GalleryCarousel.ItemsPerView | script.js:682-690 | always 1, 2 or 3; 1 exactly for widths ≤ 480, 3 exactly for widths > 768 |
| GalleryCarousel.ItemsPerViewMonotone | script.js:682-690 | a wider viewport never shows fewer items |
| GalleryCarousel.Clamp | script.js:707-708 | the clamped index lies in `[0, max(0, itemCount − itemsPerView)]`; an index already in range is kept; indices below or above go to the nearer end |
| GalleryCarousel.TotalSlides | script.js:694 | the number of shown dots is at least 1 and is one more than the last start index |
| GalleryCarousel.PageOf | script.js:720-721 | the highlighted dot is always one of the shown dots |
| GalleryCarousel.TrackOffset | script.js:711-717 | the track moves left by one stride of item width plus gap per start index; a gap that reads as 0 counts as 24; index 0 gives no offset |
| GalleryCarousel.NextIndex | script.js:734-742 | below the last start index, "next" moves strictly forward to `min(current + itemsPerView, maxIndex)`; at or past it, it wraps to 0 |
| GalleryCarousel.PrevIndex | script.js:745-753 | above 0, "prev" moves strictly back to `max(0, current − itemsPerView)`; at 0, it wraps to the last start index |
| GalleryCarousel.DotTarget | script.js:760-767 | a click on dot `i` lands on `min(i·itemsPerView, maxIndex)` |
| GalleryCarousel.DotClickHighlightsOwnDot | script.js:760-767 | when dot `i`'s page starts at a valid start index, clicking it highlights dot `i` itself |
| GalleryCarousel.NextSlideCycle | script.js:734-742 | at a fixed width, pressing "next" from 0 returns to 0 after exactly `ceil(maxIndex/itemsPerView) + 1` presses and never earlier |
| GalleryCarousel.PrevSlideCycle | script.js:745-753 | "prev" from 0 goes to the last start index, and returns to 0 after the same number of presses and never earlier |
| GalleryCarousel.LastDotNeverActive | script.js:719-730 | with 2 or more items per view and more items than fit, no reachable index highlights the last shown dot |
| GalleryCarousel.DotQuirkExample | script.js:719-730 | with five items on a desktop, three dots are shown, yet a click on dot 1 or dot 2 lands on index 2 and highlights dot 0 |
| GalleryCarousel.ShowSlides | script.js:693-702 | after `updateDots`, every dot keeps its `active` flag and is visible exactly when its index is below `totalSlides` |
| GalleryCarousel.Gallery.constructor | script.js:677-678 | starts at index 0 with three items per view, no transform, and the markup's dots |
| GalleryCarousel.Gallery.UpdateItemsPerView | script.js:682-690 | `itemsPerView` becomes `ItemsPerView(width)` and nothing else changes |
| GalleryCarousel.Gallery.UpdateDots | script.js:693-702 | exactly the dots with index < `totalSlides` become visible; `active` flags are untouched |
| GalleryCarousel.Gallery.MoveToIndex | script.js:705-731 | recomputes items per view and clamps the index; moves the track by `−index·(itemWidth + gap)` only when the first item has a nonzero width, otherwise keeps the old transform; among the shown dots only the page dot is active; hidden dots keep their `active` flag; the carousel invariant holds afterwards |
| GalleryCarousel.Gallery.NextSlide | script.js:734-742 | the new index is `NextIndex` of the old one at the current width; dots and track are settled as by `MoveToIndex` |
| GalleryCarousel.Gallery.PrevSlide | script.js:745-753 | the new index is `PrevIndex` of the old one; dots and track are settled as by `MoveToIndex` |
| GalleryCarousel.Gallery.DotClick | script.js:760-767 | the new index is `DotTarget` of the dot; dots and track are settled as by `MoveToIndex` |
| GalleryCarousel.Gallery.Resize | script.js:771-779 | after the debounce, the old index is re-clamped for the new width, dot visibility is recomputed, and the track is re-positioned |
| GalleryCarousel.Gallery.Load | script.js:782-784 | at page load, the carousel is at index 0 with dot visibility and active dot set for the current width |
| ReferencesCarousel.Clamp | script.js:829-830 | with cards, the index lies in `[0, cardCount − 1]` and an index in range is kept; with no cards it is 0 |
| ReferencesCarousel.NextIndex | script.js:860-867 | "next" steps by exactly +1 before the last card and wraps to 0 from it |
| ReferencesCarousel.PrevIndex | script.js:870-877 | "prev" steps by exactly −1 after the first card and wraps to the last card from 0 |
| ReferencesCarousel.NextPrevInverse | script.js:860-877 | on any card, "prev" undoes "next" and "next" undoes "prev" |
| ReferencesCarousel.NextPressesAdvance | script.js:860-867 | up to one full round, `k` presses of "next" advance `k` cards modulo the card count |
| ReferencesCarousel.PrevPressesRetreat | script.js:870-877 | up to one full round, `k` presses of "prev" go back `k` cards modulo the card count |
| ReferencesCarousel.SlideCycle | script.js:860-877 | both buttons return to the starting card after exactly `cardCount` presses and not earlier |
| ReferencesCarousel.SwipeGesture | script.js:932-945 | a move of at most 50 px either way (exactly 50 included) is ignored; a leftward move of more than 50 px means next; a rightward one means previous |
| ReferencesCarousel.SwipeBackRestores | script.js:932-945 | a swipe followed by the reverse swipe brings back the original card |
| ReferencesCarousel.SlideWidth | script.js:833-846 | a slide width is available exactly when the container or the first card reports a positive width |
| ReferencesCarousel.References.constructor | script.js:817 | starts at index 0 with no transform or transition, and the markup's dots |
| ReferencesCarousel.References.MoveToIndex | script.js:828-857 | clamps the index; when a width is available, translates by whole slide widths with the eased or the instant transition, otherwise leaves both styles alone; exactly the dot at the index is active; the invariant holds |
| ReferencesCarousel.References.NextSlide | script.js:860-867 | the new index is `NextIndex` of the old one, and the carousel is settled with the eased transition |
| ReferencesCarousel.References.PrevSlide | script.js:870-877 | the new index is `PrevIndex` of the old one, and the carousel is settled with the eased transition |
| ReferencesCarousel.References.HandleSwipe | script.js:932-945 | the carousel follows the gesture; an ignored touch changes no index, style or dot |
| ReferencesCarousel.References.Resize | script.js:948-954 | after the debounce, the same slide is re-positioned for the new width with no transition |
| ReferencesCarousel.References.Load | script.js:957 | at page load, the carousel is on the first slide |
| ContactForm.MatchesEmailPattern | script.js:209-210 | the pattern `^[^\s@]+@[^\s@]+\.[^\s@]+$` as three runs of non-space, non-`@` characters split by an `@` and a `.`; a match has at least 5 characters and starts and ends with such a character |
| ContactForm.IsValidEmail | script.js:209-210 | the structural e-mail check (no white space, one `@`, non-empty local part, inner `.` in the domain); an accepted address has at least 5 characters and starts with a non-space, non-`@` character |
| ContactForm.IndexOf | script.js:209-210 | gives the first position of the character, or −1 exactly when it is absent |
| ContactForm.CountOnce | script.js:209-210 | a character occurs exactly once in a string iff no other position holds it |
| ContactForm.ValidEmailIffPattern | script.js:209-210 | the structural e-mail predicate accepts exactly the strings that match `^[^\s@]+@[^\s@]+\.[^\s@]+$` |
| ContactForm.Submit | script.js:196-217 | an empty name, e-mail or message gives the required-fields error and keeps the form, even if the e-mail is also malformed; filled fields with an e-mail that does not match the pattern give the invalid-e-mail error and keep the form; the result is a success exactly when all fields are filled and the e-mail matches, and a success shows the sent acknowledgment and clears the form |
| ContactForm.ResubmitAfterSubmit | script.js:196-217 | resubmitting a rejected form gives the same error; resubmitting after a success reports missing fields |
| ContactForm.SubmitExamples | script.js:196-217 | `{A, a@b.co, hi}` is acknowledged and cleared; an empty e-mail is refused and kept; `a@b` is refused as malformed |
| Navigation.LastReached | script.js:38-45 | a non-empty answer of the scan is the id of a section the page has scrolled to within 200 px of |
| Navigation.LastReachedIsLast | script.js:38-45 | with no section reached the result is ""; otherwise it is the id of a reached section that has no reached section after it |
| Navigation.CurrentSection | script.js:38-45 | the scan over the sections returns the id of the last section with `scrollY ≥ offsetTop − 200` |
| Navigation.NavBar.constructor | script.js:22-23 | the bar holds the links' hrefs and their markup `active` flags |
| Navigation.NavBar.OnScroll | script.js:37-53 | with the sections' ids and offsets as read at this scroll, the current section is the last reached one, and exactly the links whose href is `#` followed by the current section's id are active, and every other link is inactive |

## Left out

- Scroll reveal, section observers and the reduced-motion bypass (script.js:57-152): they are driven by IntersectionObserver and timer callbacks and only write CSS strings.
- The statistic counter ramp (script.js:155-188): it accumulates `target/100` in floating point inside `setInterval`.
- Toast notifications (script.js:226-270): only the toast's severity and text are modelled, as `ContactForm.Notice`. Creating the toast, its colours, its timers and its removal are DOM work.
- The image modal, ripple effect, parallax, smooth scrolling, hero arrow, mobile menu, lazy loading and the injected style blocks: these are DOM creation, timers and floating-point geometry.
- The navbar's `scrolled` class (script.js:26-33): a single comparison `scrollY > 50` that writes one class, with no logic beyond it.
- Debounce and throttle timers, including those of the two resize handlers: only the handler's effect once the timer fires is modelled (`Gallery.Resize`, `References.Resize`).
- Mouse drag on the references track (script.js:906-929): it computes a value used for nothing and changes no carousel state.
- Early returns when an expected element is missing: each model starts from a carousel, form or navigation bar that exists.
- Pixel values are integers. Fractional widths, gaps, touch positions and scroll offsets are not modelled.
- `form.reset()` restores the fields' markup defaults. The model takes those defaults to be empty (`BlankForm`).
- A click on a references dot is `moveToIndex(i)` (script.js:889-893). It has no member of its own: it is `References.MoveToIndex(i, true, ...)`.
