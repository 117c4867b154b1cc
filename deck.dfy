/** The Deck: an ordered, mutable pile of cards whose position 0 is the top. */
module Decks {
  import opened Cards

  class Deck {
    var cards: seq<Card>

    /** An empty deck, as the discard pile starts. */
    constructor ()
      ensures cards == []
    {
      cards := [];
    }

    /** The action-only starting deck. Its composition is not part of this
        model, so the cards are given; they hold no Defuse or Explode card. */
    constructor InitDeckNoExplodeOrDefuse(pool: seq<Card>)
      requires NoDefuseOrExplode(pool)
      ensures cards == pool
    {
      cards := pool;
    }

    /** Reorders the deck into some permutation of its cards; which one is
        left open, so every property proved holds for all of them. */
    method Shuffle()
      modifies this
      ensures multiset(cards) == multiset(old(cards))
      ensures |cards| == |old(cards)|
    {
      // `cards` itself is a witness for the choice below.
      assert multiset(cards) == multiset(cards);
      var order :| multiset(order) == multiset(cards);
      cards := order;
    }

    /** Removes and returns the top card. */
    method Deal() returns (c: Card)
      requires cards != []
      modifies this
      ensures c == old(cards)[0]
      ensures cards == old(cards)[1..]
    {
      c := cards[0];
      cards := cards[1..];
    }

    /** Puts `c` back into the deck at some position between the top and the
        bottom, both included; which one is left open. */
    method Insert(c: Card)
      modifies this
      ensures exists p :: 0 <= p <= |old(cards)| && cards == old(cards)[..p] + [c] + old(cards)[p..]
      ensures multiset(cards) == multiset(old(cards)) + multiset{c}
    {
      var p :| 0 <= p <= |cards|;
      assert cards == cards[..p] + cards[p..];
      cards := cards[..p] + [c] + cards[p..];
    }
  }
}
