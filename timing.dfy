/**
 * The release of the swipe screen as it is timed in the component. A
 * classifying release files the current card at once and starts the card's
 * exit animation; dropping the card from the deck and spending energy
 * (`next`) is that animation's completion callback. The callback also runs
 * when the animation is stopped early: by `pos.setValue` on a drag move, or
 * by starting another animation on `pos` (the exit of a later release, or
 * the spring back to rest of a cancelled one). At most one animation runs
 * on `pos`, so at most one `next` is ever due.
 */
module Timing {
  import opened Gesture
  import opened Store

  /** The store, and whether an exit animation with its `next` is still running. */
  datatype Screen = Screen(store: State, pending: bool)

  /** The store once the running exit animation, if any, has ended. */
  function Settle(sc: Screen): (r: State)
    ensures r.liked == sc.store.liked && r.wishlist == sc.store.wishlist
    ensures r.rejected == sc.store.rejected && r.skipped == sc.store.skipped
    ensures !sc.pending ==> r == sc.store
    ensures sc.pending ==> r.deck == (if sc.store.deck == [] then [] else sc.store.deck[1..])
    ensures sc.pending ==> r.energy == Max(0, sc.store.energy - 1)
  {
    if sc.pending then Next(sc.store) else sc.store
  }

  /** The running exit animation completes and its `next` runs. */
  function Complete(sc: Screen): (r: Screen)
    requires sc.pending
    ensures !r.pending && r.store == Settle(sc)
    ensures sc.store.deck != [] ==> sc.store.deck == [sc.store.deck[0]] + r.store.deck
    ensures r.store.energy == Max(0, sc.store.energy - 1)
    ensures r.store.liked == sc.store.liked && r.store.wishlist == sc.store.wishlist
    ensures r.store.rejected == sc.store.rejected && r.store.skipped == sc.store.skipped
  {
    Screen(Next(sc.store), false)
  }

  /**
   * A drag move: `pos.setValue` stops the running exit animation, whose
   * callback then runs `next`. The settled store does not change.
   */
  function Move(sc: Screen): (r: Screen)
    ensures !r.pending && r.store == Settle(sc) && Settle(r) == Settle(sc)
  {
    if sc.pending then Complete(sc) else sc
  }

  /**
   * A release as written. It reads the deck and energy of the last render,
   * files the card on top of that deck into the list the outcome names,
   * and starts a new animation on `pos`, which stops the running exit
   * animation and so runs its `next`. A classifying release leaves its own
   * exit animation running.
   */
  function ReleaseAsWritten(sc: Screen, dx: real, dy: real): (r: Screen)
    ensures var o := Classify(sc.store.deck == [], sc.store.energy, dx, dy);
      && r.pending == (o != Cancel)
      && (o != Cancel ==> Filed(r.store, o) == Filed(sc.store, o) + [sc.store.deck[0]])
      && (forall other :: other != Cancel && other != o ==> Filed(r.store, other) == Filed(sc.store, other))
    ensures r.store.deck == Settle(sc).deck && r.store.energy == Settle(sc).energy
  {
    var o := Classify(sc.store.deck == [], sc.store.energy, dx, dy);
    var filed := if o == Cancel then sc.store else Append(sc.store, o, sc.store.deck[0]);
    Screen(if sc.pending then Next(filed) else filed, o != Cancel)
  }

  /**
   * A release on a screen with no animation running settles to the atomic
   * step, and the next drag move brings the screen there.
   */
  lemma SettledReleaseIsStep(s: State, dx: real, dy: real)
    ensures Settle(ReleaseAsWritten(Screen(s, false), dx, dy)) == Step(s, dx, dy)
    ensures Move(ReleaseAsWritten(Screen(s, false), dx, dy)) == Screen(Step(s, dx, dy), false)
  {
    var o := Classify(s.deck == [], s.energy, dx, dy);
    if o != Cancel {
      StepFiles(s, dx, dy, o);
    }
  }

  /** Gestures that each deliver a drag move before they are released. */
  function RunDragged(sc: Screen, gs: seq<Drag>): Screen
    decreases |gs|
  {
    if gs == [] then sc else RunDragged(ReleaseAsWritten(Move(sc), gs[0].dx, gs[0].dy), gs[1..])
  }

  /**
   * As long as every gesture moves the card before it is released, the
   * screen as written settles to the atomic replay of the same drags, so
   * every property proved of `Replay` holds of it.
   */
  lemma {:induction false} DraggedRunIsReplay(sc: Screen, gs: seq<Drag>)
    ensures Settle(RunDragged(sc, gs)) == Replay(Settle(sc), gs)
    decreases |gs|
  {
    if gs != [] {
      var m := Move(sc);
      SettledReleaseIsStep(m.store, gs[0].dx, gs[0].dy);
      DraggedRunIsReplay(ReleaseAsWritten(m, gs[0].dx, gs[0].dy), gs[1..]);
    }
  }

  /** The state two right swipes on the first card leave behind. */
  function DoubleLiked(): State
  {
    State(DATA[2..], 13, ["1", "1"], [], [], [])
  }

  /**
   * A right swipe on the first card, then a second right swipe on it whose
   * release still reads the deck rendered before the first `next`, then
   * the completion of the last exit. The first `next` may already have run
   * when a move of the second gesture stopped the exit. Only its update to
   * the rendered deck is missing, so the settled store is the same.
   */
  lemma DoubleReleaseTrace()
    ensures Complete(ReleaseAsWritten(ReleaseAsWritten(Screen(Initial(), false), 150.0, 0.0), 150.0, 0.0))
      == Screen(DoubleLiked(), false)
  {
    var sc1 := ReleaseAsWritten(Screen(Initial(), false), 150.0, 0.0);
    assert sc1 == Screen(Initial().(liked := ["1"]), true);
    var sc2 := ReleaseAsWritten(sc1, 150.0, 0.0);
    assert sc2 == Screen(State(DATA[1..], 14, ["1", "1"], [], [], []), true);
  }

  /** The first two restaurants are not among the rest of the dataset. */
  lemma FrontPairGone()
    ensures "1" !in DATA[2..] && "2" !in DATA[2..]
  {
    DataDistinct();
    assert DATA[0] == "1" && DATA[1] == "2";
    forall k | 0 <= k < |DATA| - 2 ensures DATA[2..][k] != "1" && DATA[2..][k] != "2" {
      assert DATA[2..][k] == DATA[k + 2];
    }
  }

  lemma DoubleLikedCounts()
    ensures multiset(Cards(DoubleLiked()))["1"] == 2
    ensures multiset(Cards(DoubleLiked()))["2"] == 0
  {
    FrontPairGone();
    assert multiset(DATA[2..])["1"] == 0 && multiset(DATA[2..])["2"] == 0;
  }

  lemma DoubleLikedPlaces()
    ensures Places(DoubleLiked(), "2") == 0
  {
    FrontPairGone();
  }

  lemma DoubleLikedBreaksInv()
    ensures !Inv(DATA, DoubleLiked())
  {
    var s := DoubleLiked();
    assert multiset(Filings(s))["2"] == 0;
    assert DATA[..2] == ["1", "2"];
    assert multiset(DATA[..2])["2"] == 1;
  }

  /**
   * After that trace the first restaurant is held twice, the second is in
   * no list and no longer in the deck, and the store invariant fails.
   */
  lemma DoubleReleaseLosesCard()
    ensures var sc := Complete(ReleaseAsWritten(ReleaseAsWritten(Screen(Initial(), false), 150.0, 0.0), 150.0, 0.0));
      && !sc.pending
      && multiset(Cards(sc.store))["1"] == 2
      && Places(sc.store, "2") == 0
      && !Inv(DATA, sc.store)
  {
    DoubleReleaseTrace();
    DoubleLikedCounts();
    DoubleLikedPlaces();
    DoubleLikedBreaksInv();
  }

  /** The release with the missing gate: gestures are ignored while a card is leaving. */
  function ReleaseGuarded(sc: Screen, dx: real, dy: real): (r: Screen)
    ensures sc.pending ==> r == sc
  {
    if sc.pending then sc else ReleaseAsWritten(sc, dx, dy)
  }

  /**
   * With the gate, a release either is ignored or settles to the atomic
   * step of the settled store, and a second release before the exit
   * animation ends does nothing.
   */
  lemma GuardedReleaseSettlesToStep(sc: Screen, dx: real, dy: real, dx2: real, dy2: real)
    ensures Settle(ReleaseGuarded(sc, dx, dy)) == if sc.pending then Settle(sc) else Step(sc.store, dx, dy)
    ensures var r := ReleaseGuarded(Screen(sc.store, false), dx, dy);
      r.pending ==> ReleaseGuarded(r, dx2, dy2) == r
  {
    if !sc.pending {
      SettledReleaseIsStep(sc.store, dx, dy);
    }
  }

  /**
   * With the gate, no interleaving of releases, drag moves and animation
   * completions can break the store invariant of the settled state.
   */
  lemma GuardedKeepsInv(data: seq<Item>, sc: Screen, dx: real, dy: real)
    requires Inv(data, Settle(sc))
    ensures Inv(data, Settle(ReleaseGuarded(sc, dx, dy)))
    ensures Inv(data, Settle(Move(sc)))
    ensures sc.pending ==> Inv(data, Settle(Complete(sc)))
  {
    GuardedReleaseSettlesToStep(sc, dx, dy, dx, dy);
    if !sc.pending {
      StepPreservesInv(data, sc.store, dx, dy);
    }
  }
}
