/** What the two carousels share: the inline style state of a track element,
    as the carousels write it, and the two-argument `Math.max`/`Math.min`
    their clamping is written with. */
module Track {

  function Max(a: int, b: int): int { if a < b then b else a }
  function Min(a: int, b: int): int { if a < b then a else b }

  /** The track's `transform` style: never written yet, or `translateX(px)`. */
  datatype Transform = Unset | TranslateX(px: int)

  /** The track's `transition` style: never written yet (the stylesheet's),
      the eased 0.6 s `transform` transition, or `none`. */
  datatype Transition = Inherited | Eased | NoTransition
}
