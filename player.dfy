/** A player and the hand of cards given to them. */
module Players {
  import opened Cards

  class Player {
    /** The cards in hand, in the order they were given. */
    var hand: seq<Card>

    constructor ()
      ensures hand == []
    {
      hand := [];
    }

    /** Adds a card to the hand. */
    method Give(c: Card)
      modifies this
      ensures hand == old(hand) + [c]
    {
      hand := hand + [c];
    }

    /** Seats `numPlayers` new players, each with an empty hand. */
    static method Init(numPlayers: nat) returns (ps: seq<Player>)
      ensures |ps| == numPlayers
      ensures forall j :: 0 <= j < |ps| ==> fresh(ps[j]) && ps[j].hand == []
      ensures forall j, k :: 0 <= j < k < |ps| ==> ps[j] != ps[k]
    {
      ps := [];
      while |ps| < numPlayers
        invariant |ps| <= numPlayers
        invariant forall j :: 0 <= j < |ps| ==> fresh(ps[j]) && ps[j].hand == []
        invariant forall j, k :: 0 <= j < k < |ps| ==> ps[j] != ps[k]
      {
        var p := new Player();
        ps := ps + [p];
      }
    }
  }
}
