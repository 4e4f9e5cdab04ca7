/**
 * The release classifier of the swipe screen: when the finger lifts, the final
 * drag displacement (dx, dy) of the card is turned into exactly one outcome.
 * Displacements are reals because the gesture system reports fractional
 * logical pixels; only comparisons are made on them.
 */
module Gesture {

  /** Horizontal swipe threshold, in the drag vector's logical units. */
  const SWIPE_X: real := 120.0
  /** Vertical swipe threshold, in the drag vector's logical units. */
  const SWIPE_Y: real := 100.0

  /** What a release does to the current card. Cancel springs it back to rest. */
  datatype Outcome = Like | Reject | Wishlist | Skip | Cancel

  /** The gate evaluated before any threshold: a card is showing and energy remains. */
  predicate Armed(deckEmpty: bool, energy: int)
  {
    !deckEmpty && energy > 0
  }

  /** The drag stayed inside the horizontal band, where vertical swipes are read. */
  predicate WithinX(dx: real)
  {
    -SWIPE_X <= dx <= SWIPE_X
  }

  /** The drag stayed inside the vertical band. */
  predicate WithinY(dy: real)
  {
    -SWIPE_Y <= dy <= SWIPE_Y
  }

  /**
   * The decision chain run on release: the gate first, then the horizontal
   * thresholds, then the vertical ones, each with a strict inequality.
   * The ensures clauses describe the region of the plane each outcome owns.
   */
  function Classify(deckEmpty: bool, energy: int, dx: real, dy: real): (o: Outcome)
    ensures !Armed(deckEmpty, energy) ==> o == Cancel
    ensures o == Like <==> Armed(deckEmpty, energy) && dx > SWIPE_X
    ensures o == Reject <==> Armed(deckEmpty, energy) && dx < -SWIPE_X
    ensures o == Wishlist <==> Armed(deckEmpty, energy) && WithinX(dx) && dy < -SWIPE_Y
    ensures o == Skip <==> Armed(deckEmpty, energy) && WithinX(dx) && dy > SWIPE_Y
    ensures o == Cancel <==> !Armed(deckEmpty, energy) || (WithinX(dx) && WithinY(dy))
  {
    if deckEmpty || energy <= 0 then Cancel
    else if dx > SWIPE_X then Like
    else if dx < -SWIPE_X then Reject
    else if dy < -SWIPE_Y then Wishlist
    else if dy > SWIPE_Y then Skip
    else Cancel
  }

  /** Once a horizontal threshold is crossed the vertical displacement is ignored. */
  lemma HorizontalOverridesVertical(deckEmpty: bool, energy: int, dx: real, dy: real)
    requires !WithinX(dx)
    ensures Classify(deckEmpty, energy, dx, dy) == Classify(deckEmpty, energy, dx, 0.0)
    ensures Armed(deckEmpty, energy) ==> Classify(deckEmpty, energy, dx, dy) in {Like, Reject}
  {
  }

  /** Reject is the mirror image of Like, and Skip of Wishlist. */
  lemma MirrorSymmetry(deckEmpty: bool, energy: int, dx: real, dy: real)
    ensures Classify(deckEmpty, energy, dx, dy) == Like <==> Classify(deckEmpty, energy, -dx, dy) == Reject
    ensures Classify(deckEmpty, energy, dx, dy) == Wishlist <==> Classify(deckEmpty, energy, dx, -dy) == Skip
  {
  }

  /**
   * Concrete releases on an armed card: thresholds are strict, and a diagonal
   * drag past both thresholds is read horizontally. With no energy left even a
   * long right swipe is cancelled.
   */
  lemma StrictThresholds()
    ensures Classify(false, 15, 120.0, 0.0) == Cancel
    ensures Classify(false, 15, 121.0, 0.0) == Like
    ensures Classify(false, 15, -120.0, 0.0) == Cancel
    ensures Classify(false, 15, -121.0, 0.0) == Reject
    ensures Classify(false, 15, 0.0, -100.0) == Cancel
    ensures Classify(false, 15, 0.0, -101.0) == Wishlist
    ensures Classify(false, 15, 0.0, 100.0) == Cancel
    ensures Classify(false, 15, 0.0, 101.0) == Skip
    ensures Classify(false, 15, 150.0, -150.0) == Like
    ensures Classify(false, 0, 150.0, 0.0) == Cancel
    ensures Classify(true, 15, 150.0, 0.0) == Cancel
  {
  }
}
