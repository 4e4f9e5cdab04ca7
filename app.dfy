/**
 * The swipe screen's component state as an object: the deck, the energy
 * counter and the four outcome lists are fields that each release replaces.
 * Appending to a list, dropping the front of the deck and spending energy
 * happen in one atomic `Release`.
 */
module SnackSwipe {
  import opened Gesture
  import opened Store

  datatype Option<T> = None | Some(value: T)

  class App {
    /** The dataset the deck was loaded from; fixed for the object's lifetime. */
    ghost const data: seq<Item>
    var deck: seq<Item>
    var energy: int
    var liked: seq<Item>
    var wishlist: seq<Item>
    var rejected: seq<Item>
    var skipped: seq<Item>

    /** The fields as a store value. */
    function Snapshot(): State
      reads this
    {
      State(deck, energy, liked, wishlist, rejected, skipped)
    }

    /** The object invariant: the store value is one reachable from the dataset. */
    ghost predicate Valid()
      reads this
    {
      Inv(data, Snapshot())
    }

    /** The state when the screen mounts: the full dataset and fifteen energy. */
    constructor ()
      ensures Valid() && data == DATA
      ensures deck == DATA && energy == INITIAL_ENERGY
      ensures liked == [] && wishlist == [] && rejected == [] && skipped == []
    {
      data := DATA;
      deck := DATA;
      energy := INITIAL_ENERGY;
      liked, wishlist, rejected, skipped := [], [], [], [];
      new;
      InitialInv();
    }

    /** The card on show, or None once the deck is finished. */
    function Current(): (c: Option<Item>)
      reads this
      ensures c == None <==> deck == []
      ensures c.Some? ==> c.value in deck && deck == [c.value] + deck[1..]
    {
      if deck == [] then None else Some(deck[0])
    }

    /**
     * Drops the front card and spends one energy, never going below zero.
     * It is meant only as the tail of a classifying `Release`, as `next` is
     * in the component; on its own it does not keep `Valid()`.
     */
    method Next()
      modifies this`deck, this`energy
      ensures old(deck) != [] ==> old(deck) == [old(deck)[0]] + deck
      ensures old(deck) == [] ==> deck == []
      ensures energy == Max(0, old(energy) - 1)
      ensures Snapshot() == Store.Next(old(Snapshot()))
    {
      deck := if deck == [] then [] else deck[1..];
      energy := Max(0, energy - 1);
    }

    /**
     * A release with final displacement (dx, dy). The decision chain runs
     * on the current card; a classifying outcome files it and advances the
     * deck, a cancelled one changes nothing.
     */
    method Release(dx: real, dy: real) returns (o: Outcome)
      requires Valid()
      modifies this
      ensures Valid()
      ensures o == Classify(old(deck) == [], old(energy), dx, dy)
      ensures Snapshot() == Step(old(Snapshot()), dx, dy)
      ensures Advances(old(Snapshot()), Snapshot())
    {
      ghost var before := Snapshot();
      if deck == [] || energy <= 0 {
        o := Cancel;
        assert Snapshot() == Step(before, dx, dy);
        StepPreservesInv(data, before, dx, dy);
        return;
      }
      var current := deck[0];
      if dx > SWIPE_X {
        liked := liked + [current];
        o := Like;
        assert Snapshot() == Append(before, o, current);
      } else if dx < -SWIPE_X {
        rejected := rejected + [current];
        o := Reject;
        assert Snapshot() == Append(before, o, current);
      } else if dy < -SWIPE_Y {
        wishlist := wishlist + [current];
        o := Wishlist;
        assert Snapshot() == Append(before, o, current);
      } else if dy > SWIPE_Y {
        skipped := skipped + [current];
        o := Skip;
        assert Snapshot() == Append(before, o, current);
      } else {
        o := Cancel;
        assert Snapshot() == Step(before, dx, dy);
        StepPreservesInv(data, before, dx, dy);
        return;
      }
      StepFiles(before, dx, dy, o);
      ghost var filed := Snapshot();
      Next();
      assert Snapshot() == Store.Next(filed);
      assert Snapshot() == Step(before, dx, dy);
      StepPreservesInv(data, before, dx, dy);
    }
  }
}
