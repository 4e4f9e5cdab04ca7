# SnackSwipe swipe deck, modelled in Dafny

SnackSwipe is a one-screen app: a deck of restaurant cards that the user
swipes right (like), left (reject), up (wishlist) or down (skip), with an
energy budget that each classified card spends. This project models the
logic of that screen, `app/index.tsx`:

- `gesture.dfy`, module `Gesture`: the release classifier (`onRelease`).
  The final drag displacement `(dx, dy)` becomes one of Like, Reject,
  Wishlist, Skip or Cancel. An empty deck or `energy <= 0` forces Cancel
  before any threshold is read. Then the strict comparisons against
  `SWIPE_X = 120` and `SWIPE_Y = 100` apply in order: right, left, up, down.
- `store.dfy`, module `Store`: the component state as a value (`State`:
  deck, energy and the four outcome lists) and the effect of one release
  (`Step`), treated as one atomic step. The step appends the front card to
  one list, drops it from the deck (`next`'s `slice(1)`) and spends one
  energy, floored at zero. The lemmas prove the invariants a run of gestures
  keeps (`Inv`): conservation of the dataset, mutual exclusivity, a deck
  that only loses cards at the front, append-only lists, and energy that
  never rises and never goes negative.
- `app.dfy`, module `SnackSwipe`: the same state as an object (`App`) whose
  fields `Release` replaces in place, following the source's if/else chain.
  It is proved to coincide with `Classify` and `Step` and to keep `Inv`.
- `timing.dfy`, module `Timing`: the release as the component actually
  times it. The card is filed at once, and `next` runs later, in the exit
  animation's completion callback. The callback also runs when the
  animation is stopped early. A drag move stops it through `pos.setValue`.
  A later release stops it by starting a new animation on `pos`. Gestures
  that move the card before release settle to the atomic `Step`, as long
  as the release reads the deck `next` left behind. The Findings section
  covers a release that still reads the deck of an earlier render.

Restaurants are modelled by their ids (`"1"` to `"10"`). No decision reads
any other field. Drag displacements are `real`, because only comparisons are
made on them.

## Model

| member | source | states |
|---|---|---|
| `Gesture.Classify` | app/index.tsx:83-101 | The guard wins over everything. Each outcome owns an exact region: Like iff armed and `dx > 120`; Reject iff armed and `dx < -120`; Wishlist iff armed, `-120 <= dx <= 120` and `dy < -100`; Skip iff armed, `-120 <= dx <= 120` and `dy > 100`; Cancel iff not armed or both components are inside the thresholds |
| `Gesture.HorizontalOverridesVertical` | app/index.tsx:86-97 | Once `dx` is past a horizontal threshold, `dy` does not affect the outcome; an armed card is then Liked or Rejected |
| `Gesture.MirrorSymmetry` | app/index.tsx:86-97 | Reject is Like mirrored in `dx`; Skip is Wishlist mirrored in `dy` |
| `Gesture.StrictThresholds` | app/index.tsx:84-99 | `dx = 120` cancels and `121` likes; `-120`/`-121`, `dy = -100`/`-101` and `100`/`101` behave the same way; `(150, -150)` likes; energy 0 or an empty deck cancels `dx = 150` |
| `Store.Append` | app/index.tsx:86-97 | The chosen list gains exactly the card at its end; the other three lists, the deck and energy are unchanged |
| `Store.Next` | app/index.tsx:77-81 | The deck loses exactly its front card (an empty deck stays empty); energy drops by one when positive and never goes below zero; the lists are untouched |
| `Store.Step` | app/index.tsx:83-101 | A cancelled release changes nothing. Any other release needs a non-empty deck and positive energy. It appends the old front card to exactly the chosen list, leaves the others alone, makes the deck the old `deck[1..]` and energy `e - 1`. Energy never rises or goes negative |
| `Store.InitialInv` | app/index.tsx:47-52 | The mounted state (`DATA`, energy 15, four empty lists) satisfies the invariant |
| `Store.DataDistinct` | app/index.tsx:31-42 | The dataset's ids are pairwise distinct |
| `Store.StepPreservesInv` | app/index.tsx:77-101 | One release keeps the invariant: the deck is a suffix of the dataset, the lists together hold exactly the classified prefix, and energy equals 15 minus the number classified. The release also only advances the state: the deck shrinks at the front, the lists grow at the end, and energy does not rise |
| `Store.ReplayPreservesInv` | app/index.tsx:77-107 | Any sequence of releases keeps the invariant and only advances the state |
| `Store.Conservation` | app/index.tsx:47-52 | The lengths of the deck and the four lists add up to the dataset size, and the multiset of all cards is the dataset's |
| `Store.ExactlyOnePlace` | app/index.tsx:47-97 | For a dataset without repeats, every item is in exactly one of the deck and the four lists, once; other ids are nowhere |
| `Store.EnergyNeverExhausted` | app/index.tsx:31-84 | With ten restaurants and fifteen energy, at least five energy is always left, so only an empty deck closes the gate |
| `Store.ExhaustedDeckIgnoresDrags` | app/index.tsx:84 | Once the deck is empty, every further release leaves the state as it is |
| `Store.LikeEverything` | app/index.tsx:84-88 | While energy lasts, right swipes on every remaining card move the whole deck, in order, to the end of the liked list. They spend one energy per card and leave the other lists alone |
| `Store.FirstTwoReleases` | app/index.tsx:47-94 | From start-up, a right swipe then an up swipe like `"1"` and wishlist `"2"`; energy is 13 and `"3"` is the current card |
| `SnackSwipe.App.constructor` | app/index.tsx:47-52 | The object starts with deck `DATA`, energy 15 and empty lists, and is valid |
| `SnackSwipe.App.Current` | app/index.tsx:55 | None exactly when the deck is empty, otherwise the deck's front card |
| `SnackSwipe.App.Next` | app/index.tsx:77-81 | Drops the front card and spends one energy floored at zero; its effect is `Store.Next` on the fields |
| `SnackSwipe.App.Release` | app/index.tsx:83-101 | Returns `Classify` of the old deck and energy, leaves the fields equal to `Step` of the old fields, keeps the invariant, and only advances the state |
| `Timing.Settle` | app/index.tsx:74-81 | The store once the running exit animation has ended: the lists are unchanged; with `next` due, the deck loses its front card and energy becomes `max(0, e - 1)`; with none due, it is the store itself |
| `Timing.Complete` | app/index.tsx:74-81 | The exit animation completes and `next` runs: the deck loses its front card, energy becomes `max(0, e - 1)`, every list stays as it was, and nothing is due any more |
| `Timing.Move` | app/index.tsx:103-107 | A drag move stops the running exit animation, so its `next` runs; nothing is due afterwards and the settled store is unchanged |
| `Timing.ReleaseAsWritten` | app/index.tsx:62-101 | The card on top of the last rendered deck goes to the end of exactly the list the outcome names, and the other lists stay. The deck and energy become those of the settled screen, because the new animation stops the running one. An exit is due afterwards exactly when the outcome is not Cancel |
| `Timing.SettledReleaseIsStep` | app/index.tsx:62-101 | A release on a screen with no exit running settles to exactly `Store.Step`, and the next drag move brings the screen to that state |
| `Timing.DraggedRunIsReplay` | app/index.tsx:62-107 | If every gesture moves the card before its release, any run of gestures settles to `Store.Replay` of the same drags. So every invariant proved of the atomic model holds |
| `Timing.DoubleReleaseTrace` | app/index.tsx:62-107 | A right swipe on the first card, then a second right swipe whose release still reads the deck rendered before the first `next`, then the last completion, give deck `DATA[2..]`, energy 13 and liked `["1", "1"]` |
| `Timing.DoubleReleaseLosesCard` | app/index.tsx:62-107 | After that trace `"1"` is held twice, `"2"` is nowhere, and the invariant fails |
| `Timing.ReleaseGuarded` | app/index.tsx:69-101 | Corrected, not in the source: while a card is leaving, a release leaves the screen unchanged |
| `Timing.GuardedReleaseSettlesToStep` | app/index.tsx:62-101 | With that gate, a release is either ignored (an exit is running) or settles to exactly `Store.Step` of the store; a second release before that exit ends does nothing |
| `Timing.GuardedKeepsInv` | app/index.tsx:62-107 | With that gate, no release, drag move or completion can take the settled store out of the invariant |

## Left out

- Rendering: JSX, `StyleSheet`, the `Dimensions` width and the list
  display (app/index.tsx:145-224). `app/_layout.tsx` only configures
  navigation and is not part of this model.
- Animation: `Animated.ValueXY`, `Animated.spring`, `Animated.timing` and
  the `rotate` interpolation (app/index.tsx:54-75). The main model treats
  append, `slice(1)` and the energy decrement as one atomic step. `Timing`
  keeps only when `next` runs: when the exit animation ends, or earlier
  when something stops it. Durations and positions are not modelled.
- `PanResponder` wiring (app/index.tsx:103-107): its effect is modelled as
  calls of `Release(dx, dy)` (and `Replay` over a sequence of drags). In
  `Timing`, a drag move stands for its one effect on the logic:
  `pos.setValue` stops a running exit animation, so its `next` runs early
  (`Timing.Move`). The positions themselves only move the card on screen.
  When a release's handler runs relative to React's re-render is an input
  of the model. `RunDragged` assumes every release reads the deck that the
  previous `next` left behind. The Findings trace assumes a release that
  still reads the deck of the render before that `next`.
- The map: `MAP_HTML`, Leaflet and `WebView` (app/index.tsx:109-143, 182).
  This is HTML templating with network tile loading.
- Restaurant payload fields (name, cuisine, price, tags, popularity, hidden,
  lat, lng): no decision reads them, so an item is its id.
- Floating point: JavaScript numbers are modelled as `real` for `dx`/`dy`
  and `int` for energy. NaN and infinities are not modelled. Energy only
  ever takes integer values in the source.
- The gate follows the code's `energy <= 0` (app/index.tsx:84), not a test
  for energy being exactly zero. The code does not guarantee that each card
  is classified exactly once; the Findings section shows when.

## Findings

| source | as written | input that shows it | evidently intended | confidence | as-written member | corrected member |
|---|---|---|---|---|---|---|
| app/index.tsx:62-107 | `onRelease` files `current` at once. `next` (which drops the card from the deck and spends energy) runs only when the exit animation ends or is stopped. Nothing gates a release while the card is leaving. A second gesture on the leaving card moves it, and `pos.setValue` (line 105) stops the exit, which runs `next`. But `next` only queues state updates. A release handled before React re-renders still sees the old `current` and files it again. The release's own new animation does not help, because the exit has already been stopped | From start-up, a right swipe (`dx = 150`) on the first card. Then, within the 220 ms exit, a second flick on the same card with at least one move after the responder grant, released at `dx = 150` before the component re-renders with the sliced deck, then its exit completes. `"1"` is liked twice, `"2"` is dropped from the deck without being filed, and energy is 13. A gesture with no move after the grant does not show it, because it releases at `(0, 0)`, which cancels | Each card is classified once: a release while a card is leaving does nothing, so the settled state is the atomic step | not executed; low (it needs the move and the release of the second gesture to be handled before React commits the queued updates; whether that can happen is not known) | `Timing.DoubleReleaseLosesCard` | `Timing.GuardedReleaseSettlesToStep` |
