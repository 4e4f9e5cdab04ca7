/**
 * The deck and outcome store of the swipe screen, as values: the remaining
 * deck, the energy budget and the four append-only outcome lists. `Step` is
 * the effect of one release; the class in app.dfy is proved to follow it.
 */
module Store {
  import opened Gesture

  /** A restaurant, by its id; no decision reads any other field of it. */
  type Item = string

  /** The fixed dataset the deck starts from, in deck order. */
  const DATA: seq<Item> := ["1", "2", "3", "4", "5", "6", "7", "8", "9", "10"]
  /** Energy at start-up. */
  const INITIAL_ENERGY: int := 15

  /** The final displacement of one gesture, as the pan responder reports it. */
  datatype Drag = Drag(dx: real, dy: real)

  datatype State = State(
    deck: seq<Item>,
    energy: int,
    liked: seq<Item>,
    wishlist: seq<Item>,
    rejected: seq<Item>,
    skipped: seq<Item>)

  /** The component state when the screen mounts. */
  function Initial(): State
  {
    State(DATA, INITIAL_ENERGY, [], [], [], [])
  }

  function Max(a: int, b: int): int
  {
    if a < b then b else a
  }

  predicate Distinct(s: seq<Item>)
  {
    forall i, j :: 0 <= i < j < |s| ==> s[i] != s[j]
  }

  /** The outcome list a classifying outcome files into. */
  function Filed(s: State, o: Outcome): seq<Item>
    requires o != Cancel
  {
    match o
    case Like => s.liked
    case Reject => s.rejected
    case Wishlist => s.wishlist
    case Skip => s.skipped
  }

  /** All classified cards. */
  function Filings(s: State): seq<Item>
  {
    s.liked + s.wishlist + s.rejected + s.skipped
  }

  /** Every card the store holds, classified or not. */
  function Cards(s: State): seq<Item>
  {
    s.deck + Filings(s)
  }

  /** Appending the current card to the list `o` names. */
  function Append(s: State, o: Outcome, card: Item): (t: State)
    requires o != Cancel
    ensures Filed(t, o) == Filed(s, o) + [card]
    ensures forall other :: other != Cancel && other != o ==> Filed(t, other) == Filed(s, other)
    ensures t.deck == s.deck && t.energy == s.energy
  {
    match o
    case Like => s.(liked := s.liked + [card])
    case Reject => s.(rejected := s.rejected + [card])
    case Wishlist => s.(wishlist := s.wishlist + [card])
    case Skip => s.(skipped := s.skipped + [card])
  }

  /** Dropping the front of the deck and spending one energy, floored at zero. */
  function Next(s: State): (t: State)
    ensures s.deck != [] ==> s.deck == [s.deck[0]] + t.deck
    ensures s.deck == [] ==> t.deck == []
    ensures 0 <= t.energy && (s.energy > 0 ==> t.energy == s.energy - 1)
    ensures s.energy <= 0 ==> t.energy == 0
    ensures Filings(t) == Filings(s) && t.liked == s.liked && t.wishlist == s.wishlist
    ensures t.rejected == s.rejected && t.skipped == s.skipped
  {
    s.(deck := if s.deck == [] then [] else s.deck[1..], energy := Max(0, s.energy - 1))
  }

  /**
   * One release with final displacement (dx, dy): a cancelled release leaves
   * everything as it was; any other files the old front card at the end of
   * exactly one list, removes it from the deck and spends one energy.
   */
  function Step(s: State, dx: real, dy: real): (t: State)
    ensures var o := Classify(s.deck == [], s.energy, dx, dy);
      o == Cancel ==> t == s
    ensures var o := Classify(s.deck == [], s.energy, dx, dy);
      o != Cancel ==>
        && s.deck != [] && s.energy > 0
        && t.deck == s.deck[1..]
        && t.energy == s.energy - 1
        && Filed(t, o) == Filed(s, o) + [s.deck[0]]
        && (forall other :: other != Cancel && other != o ==> Filed(t, other) == Filed(s, other))
    ensures 0 <= s.energy ==> 0 <= t.energy <= s.energy
  {
    var o := Classify(s.deck == [], s.energy, dx, dy);
    if o == Cancel then s else Next(Append(s, o, s.deck[0]))
  }

  /** A classifying release is the append of the front card followed by `Next`. */
  lemma StepFiles(s: State, dx: real, dy: real, o: Outcome)
    requires o == Classify(s.deck == [], s.energy, dx, dy) && o != Cancel
    ensures s.deck != [] && Step(s, dx, dy) == Next(Append(s, o, s.deck[0]))
  {
  }

  /** A sequence of gestures, each released in turn. */
  function Replay(s: State, gs: seq<Drag>): State
    decreases |gs|
  {
    if gs == [] then s else Replay(Step(s, gs[0].dx, gs[0].dy), gs[1..])
  }

  /**
   * What every state reachable from a deck of `data` satisfies: the deck is
   * what is left of `data` after removing a prefix, the four lists together
   * hold exactly that prefix, and one energy has been spent per classified card.
   */
  predicate Inv(data: seq<Item>, s: State)
  {
    && |s.deck| <= |data|
    && s.deck == data[|data| - |s.deck|..]
    && multiset(Filings(s)) == multiset(data[..|data| - |s.deck|])
    && s.energy == INITIAL_ENERGY - (|data| - |s.deck|)
    && s.energy >= 0
  }

  /** How many of the five places hold the item. */
  function Places(s: State, x: Item): nat
  {
    (if x in s.deck then 1 else 0) + (if x in s.liked then 1 else 0)
    + (if x in s.wishlist then 1 else 0) + (if x in s.rejected then 1 else 0)
    + (if x in s.skipped then 1 else 0)
  }

  /**
   * Everything a release may do to a state: the deck only loses cards at the
   * front, the lists only grow at the end, energy never increases and stays
   * non-negative.
   */
  predicate Advances(s: State, t: State)
  {
    && |t.deck| <= |s.deck|
    && t.deck == s.deck[|s.deck| - |t.deck|..]
    && s.liked <= t.liked && s.wishlist <= t.wishlist
    && s.rejected <= t.rejected && s.skipped <= t.skipped
    && 0 <= t.energy <= s.energy
  }

  lemma InitialInv()
    ensures Inv(DATA, Initial())
  {
    assert DATA[|DATA|..] == [];
    assert DATA[..0] == [];
  }

  lemma DataDistinct()
    ensures Distinct(DATA)
  {
  }

  /** In a sequence without repeats, each member occurs exactly once. */
  lemma {:induction false} DistinctOccursOnce(a: seq<Item>, x: Item)
    requires Distinct(a)
    ensures multiset(a)[x] == if x in a then 1 else 0
  {
    if a != [] {
      assert a == [a[0]] + a[1..];
      assert Distinct(a[1..]);
      DistinctOccursOnce(a[1..], x);
      if x == a[0] {
        assert x !in a[1..];
      }
    }
  }

  /** Appending a card adds exactly that card to the classified cards and only extends lists. */
  lemma AppendFilesOne(s: State, o: Outcome, card: Item)
    requires o != Cancel
    ensures multiset(Filings(Append(s, o, card))) == multiset(Filings(s)) + multiset{card}
  {
  }

  /** A release keeps the invariant and only advances the state. */
  lemma StepPreservesInv(data: seq<Item>, s: State, dx: real, dy: real)
    requires Inv(data, s)
    ensures Inv(data, Step(s, dx, dy)) && Advances(s, Step(s, dx, dy))
  {
    var t := Step(s, dx, dy);
    var o := Classify(s.deck == [], s.energy, dx, dy);
    if o == Cancel {
      assert s.deck[|s.deck| - |s.deck|..] == s.deck;
    } else {
      var k := |data| - |s.deck|;
      var a := Append(s, o, s.deck[0]);
      assert t == Next(a);
      AppendFilesOne(s, o, s.deck[0]);
      assert s.deck[0] == data[k];
      assert t.deck == data[k + 1..];
      assert data[..k + 1] == data[..k] + [data[k]];
      assert t.deck == s.deck[|s.deck| - |t.deck|..];
    }
  }

  lemma AdvancesTransitive(r: State, s: State, t: State)
    requires Advances(r, s) && Advances(s, t)
    ensures Advances(r, t)
  {
    assert s.deck[|s.deck| - |t.deck|..] == r.deck[|r.deck| - |t.deck|..];
  }

  /** Any run of gestures keeps the invariant and only advances the state. */
  lemma {:induction false} ReplayPreservesInv(data: seq<Item>, s: State, gs: seq<Drag>)
    requires Inv(data, s)
    ensures Inv(data, Replay(s, gs)) && Advances(s, Replay(s, gs))
    decreases |gs|
  {
    if gs == [] {
      assert s.deck[|s.deck| - |s.deck|..] == s.deck;
    } else {
      var s1 := Step(s, gs[0].dx, gs[0].dy);
      StepPreservesInv(data, s, gs[0].dx, gs[0].dy);
      ReplayPreservesInv(data, s1, gs[1..]);
      AdvancesTransitive(s, s1, Replay(s1, gs[1..]));
    }
  }

  /**
   * Conservation: deck and lists together hold the dataset, with the same
   * size and the same items.
   */
  lemma Conservation(data: seq<Item>, s: State)
    requires Inv(data, s)
    ensures multiset(Cards(s)) == multiset(data)
    ensures |s.deck| + |s.liked| + |s.wishlist| + |s.rejected| + |s.skipped| == |data|
  {
    var k := |data| - |s.deck|;
    assert data == data[..k] + data[k..];
    assert |Cards(s)| == |multiset(Cards(s))|;
  }

  /**
   * Mutual exclusivity: when the dataset has no repeats, every item of it is
   * in exactly one of the deck and the four lists, exactly once, and nothing
   * else is anywhere.
   */
  lemma ExactlyOnePlace(data: seq<Item>, s: State, x: Item)
    requires Distinct(data) && Inv(data, s)
    ensures multiset(Cards(s))[x] == if x in data then 1 else 0
    ensures Places(s, x) == if x in data then 1 else 0
  {
    Conservation(data, s);
    DistinctOccursOnce(data, x);
    assert multiset(Cards(s))[x] == multiset(s.deck)[x] + multiset(s.liked)[x]
      + multiset(s.wishlist)[x] + multiset(s.rejected)[x] + multiset(s.skipped)[x];
  }

  /**
   * Energy left is at least INITIAL_ENERGY - |data|; with the shipped
   * dataset of ten restaurants and fifteen energy it never runs out, so the
   * gate is closed only by an empty deck.
   */
  lemma EnergyNeverExhausted(s: State)
    requires Inv(DATA, s)
    ensures s.energy >= INITIAL_ENERGY - |DATA| > 0
    ensures Armed(s.deck == [], s.energy) <==> s.deck != []
  {
  }

  /** Once the deck is empty every further release is a no-op. */
  lemma {:induction false} ExhaustedDeckIgnoresDrags(s: State, gs: seq<Drag>)
    requires s.deck == []
    ensures Replay(s, gs) == s
    decreases |gs|
  {
    if gs != [] {
      ExhaustedDeckIgnoresDrags(Step(s, gs[0].dx, gs[0].dy), gs[1..]);
    }
  }

  /** Moving the front of `d` to the end of `a` keeps `a + d`. */
  lemma MoveFront(a: seq<Item>, d: seq<Item>)
    requires d != []
    ensures (a + [d[0]]) + d[1..] == a + d
  {
    assert d == [d[0]] + d[1..];
  }

  /** A right swipe past the threshold on an armed card likes it. */
  lemma StepLikes(s: State, dx: real, dy: real)
    requires s.deck != [] && s.energy > 0 && dx > SWIPE_X
    ensures var t := Step(s, dx, dy);
      && t.deck == s.deck[1..] && t.energy == s.energy - 1 && t.liked == s.liked + [s.deck[0]]
      && t.wishlist == s.wishlist && t.rejected == s.rejected && t.skipped == s.skipped
  {
    StepFiles(s, dx, dy, Like);
  }

  /**
   * Swiping right on every remaining card, while energy lasts, moves the
   * whole deck in order to the end of the liked list and spends one energy
   * per card.
   */
  lemma {:induction false} LikeEverything(s: State, gs: seq<Drag>)
    requires s.energy >= |s.deck|
    requires |gs| == |s.deck|
    requires forall i :: 0 <= i < |gs| ==> gs[i].dx > SWIPE_X
    ensures var r := Replay(s, gs);
      && r.deck == [] && r.energy == s.energy - |s.deck| && r.liked == s.liked + s.deck
      && r.wishlist == s.wishlist && r.rejected == s.rejected && r.skipped == s.skipped
    decreases |gs|
  {
    if gs != [] {
      var s1 := Step(s, gs[0].dx, gs[0].dy);
      StepLikes(s, gs[0].dx, gs[0].dy);
      assert Replay(s, gs) == Replay(s1, gs[1..]);
      var rest := gs[1..];
      assert forall i :: 0 <= i < |rest| ==> rest[i].dx > SWIPE_X by {
        forall i | 0 <= i < |rest| ensures rest[i].dx > SWIPE_X {
          assert rest[i] == gs[i + 1];
        }
      }
      LikeEverything(s1, rest);
      MoveFront(s.liked, s.deck);
    }
  }

  /**
   * Two releases from start-up: a right swipe likes the first restaurant, an
   * upward one wishlists the second, and the third is now current.
   */
  lemma FirstTwoReleases()
    ensures Replay(Initial(), [Drag(150.0, 0.0), Drag(0.0, -150.0)])
      == State(DATA[2..], 13, ["1"], ["2"], [], [])
    ensures Replay(Initial(), [Drag(150.0, 0.0), Drag(0.0, -150.0)]).deck[0] == "3"
  {
    var s1 := Step(Initial(), 150.0, 0.0);
    assert s1 == State(DATA[1..], 14, ["1"], [], [], []);
    var s2 := Step(s1, 0.0, -150.0);
    assert s2 == State(DATA[2..], 13, ["1"], ["2"], [], []);
    assert Replay(s2, []) == s2;
  }
}
