// The full-screen photo viewer: keyboard dispatch and a bounded zoom. The
// zoom factor moves in steps of 0.5 between 0.5 and 3, so it is kept here as
// a whole number of half-steps: scale = halfSteps / 2.

module Lightbox {
  /** 0.5, 3 and the initial 1, in half-steps. */
  const MinHalfSteps: int := 1
  const MaxHalfSteps: int := 6
  const DefaultHalfSteps: int := 2

  /** handleZoomIn: one half-step larger, stopping at 3. */
  function ZoomedIn(h: int): (r: int)
    ensures r <= MaxHalfSteps
    ensures h < MaxHalfSteps ==> r == h + 1
    ensures h >= MaxHalfSteps ==> r == MaxHalfSteps
  {
    if h + 1 < MaxHalfSteps then h + 1 else MaxHalfSteps
  }

  /** handleZoomOut: one half-step smaller, stopping at 0.5. */
  function ZoomedOut(h: int): (r: int)
    ensures r >= MinHalfSteps
    ensures h > MinHalfSteps ==> r == h - 1
    ensures h <= MinHalfSteps ==> r == MinHalfSteps
  {
    if h - 1 > MinHalfSteps then h - 1 else MinHalfSteps
  }

  /** Zooming in and back out returns to the same scale below the maximum,
      and zooming out and back in does so above the minimum. */
  lemma ZoomRoundTrip(h: int)
    requires MinHalfSteps <= h <= MaxHalfSteps
    ensures h < MaxHalfSteps ==> ZoomedOut(ZoomedIn(h)) == h
    ensures h > MinHalfSteps ==> ZoomedIn(ZoomedOut(h)) == h
  {
  }

  /** The zoom buttons pressed in order: true for zoom-in. */
  function ZoomedBy(h: int, presses: seq<bool>): int
    decreases |presses|
  {
    if presses == [] then h
    else ZoomedBy(if presses[0] then ZoomedIn(h) else ZoomedOut(h), presses[1..])
  }

  /** From any scale in range (in particular the initial 1), every sequence
      of zoom presses keeps the scale a multiple of 0.5 within [0.5, 3]. */
  lemma {:induction false} ZoomStaysInRange(h: int, presses: seq<bool>)
    requires MinHalfSteps <= h <= MaxHalfSteps
    ensures MinHalfSteps <= ZoomedBy(h, presses) <= MaxHalfSteps
    decreases |presses|
  {
    if presses != [] {
      ZoomStaysInRange(if presses[0] then ZoomedIn(h) else ZoomedOut(h), presses[1..]);
    }
  }

  /** The parent callbacks a key press invokes. */
  datatype Action = Close | Next | Prev

  /** handleKeyDown: the callbacks a key invokes. The source makes three
      independent tests; they compare the same key with three different
      names, so at most one of them succeeds. */
  function KeyActions(key: string): (r: seq<Action>)
    ensures |r| <= 1
    ensures r == [Close] <==> key == "Escape"
    ensures r == [Next] <==> key == "ArrowRight"
    ensures r == [Prev] <==> key == "ArrowLeft"
  {
    if key == "Escape" then [Close]
    else if key == "ArrowRight" then [Next]
    else if key == "ArrowLeft" then [Prev]
    else []
  }

  /** The zoom state of one Lightbox. */
  class Viewer {
    var halfSteps: int

    ghost predicate Valid()
      reads this
    {
      MinHalfSteps <= halfSteps <= MaxHalfSteps
    }

    constructor()
      ensures Valid() && halfSteps == DefaultHalfSteps
    {
      halfSteps := DefaultHalfSteps;
    }

    method ZoomIn()
      requires Valid()
      modifies this
      ensures Valid()
      ensures halfSteps == ZoomedIn(old(halfSteps))
    {
      halfSteps := if halfSteps + 1 < MaxHalfSteps then halfSteps + 1 else MaxHalfSteps;
    }

    method ZoomOut()
      requires Valid()
      modifies this
      ensures Valid()
      ensures halfSteps == ZoomedOut(old(halfSteps))
    {
      halfSteps := if halfSteps - 1 > MinHalfSteps then halfSteps - 1 else MinHalfSteps;
    }

    /** The effect on the `photo` prop: a new photo is shown at scale 1. */
    method PhotoChanged()
      modifies this
      ensures Valid() && halfSteps == DefaultHalfSteps
    {
      halfSteps := DefaultHalfSteps;
    }
  }
}
