/** The officiating side of the game: it owns the deck, the players, the
    draw pile and the discard pile, and sets up a new game. */
module Game {
  import opened Cards
  import opened Decks
  import opened Players
  import opened Setup

  /** Why a game could not be started. */
  datatype SetupError = WrongPlayerCount(numPlayers: int)

  /** How a call to StartGame ended: a started game, or the exception it
      raised, in which case nothing was changed. */
  datatype Outcome = Started | Failed(error: SetupError)

  /** The hands of `ps`, in seating order. */
  ghost function HandsOf(ps: seq<Player>): (hs: seq<seq<Card>>)
    reads ps
    ensures |hs| == |ps|
    ensures forall j :: 0 <= j < |ps| ==> hs[j] == ps[j].hand
  {
    seq(|ps|, j requires 0 <= j < |ps| reads ps => ps[j].hand)
  }

  class GameManager {
    /** The deck in play; after setup it is also the draw pile. */
    var deck: Deck?
    /** The players in seating order, including those who have exploded. */
    var players: seq<Player>
    /** Whose turn it is. */
    var turnIndex: int
    var drawpile: Deck?
    var discardPile: Deck?

    /** A manager before any game: no deck, no players, no piles. */
    constructor ()
      ensures deck == null && players == [] && turnIndex == 0
      ensures drawpile == null && discardPile == null
    {
      deck, players, turnIndex := null, [], 0;
      drawpile, discardPile := null, null;
    }

    /** Starts a game for `numPlayers` players from the action-only pool
        `actionPool` (the starting deck's composition is not part of this
        model). With a player count outside 2..5 it fails and changes
        nothing; otherwise the deck, the players and the draw pile are those
        set up by NewGame, the deck being the draw pile, and the discard
        pile starts empty. */
    method StartGame(numPlayers: int, actionPool: seq<Card>) returns (result: Outcome, ghost shuffled: seq<Card>)
      requires NoDefuseOrExplode(actionPool)
      requires ValidPlayerCount(numPlayers) ==> PASSES * numPlayers <= |actionPool|
      modifies this
      ensures result.Started? <==> ValidPlayerCount(numPlayers)
      ensures !ValidPlayerCount(numPlayers) ==> result == Failed(WrongPlayerCount(numPlayers)) && unchanged(this)
      ensures result.Started? ==>
        && deck != null && fresh(deck) && drawpile == deck
        && discardPile != null && fresh(discardPile) && discardPile != deck && discardPile.cards == []
        && |players| == numPlayers
        && (forall j :: 0 <= j < numPlayers ==> fresh(players[j]))
        && (forall j, k :: 0 <= j < k < numPlayers ==> players[j] != players[k])
        && ValidSetup(actionPool, numPlayers, shuffled, HandsOf(players), deck.cards)
        && turnIndex == old(turnIndex)
    {
      if numPlayers < 2 || numPlayers > 5 {
        return Failed(WrongPlayerCount(numPlayers)), [];
      }
      var d, ps;
      d, ps, shuffled := NewGame(numPlayers, actionPool);
      deck, players := d, ps;
      drawpile := d;
      discardPile := new Deck();
      result := Started;
    }
  }

  /** The setup itself, on new objects: a deck from `actionPool` and
      `numPlayers` players; every player gets a Defuse, the deck is
      shuffled (into `shuffled`), 7 cards are dealt round robin to every
      player, the Defuse and Explode cards set aside go back into the deck,
      and the deck is shuffled again. */
  method NewGame(numPlayers: int, actionPool: seq<Card>) returns (d: Deck, ps: seq<Player>, ghost shuffled: seq<Card>)
    requires NoDefuseOrExplode(actionPool)
    requires ValidPlayerCount(numPlayers) && PASSES * numPlayers <= |actionPool|
    ensures fresh(d) && |ps| == numPlayers
    ensures forall j :: 0 <= j < numPlayers ==> fresh(ps[j])
    ensures forall j, k :: 0 <= j < k < numPlayers ==> ps[j] != ps[k]
    ensures ValidSetup(actionPool, numPlayers, shuffled, HandsOf(ps), d.cards)
  {
    var n := numPlayers;
    OffsetIsProduct(PASSES, n);

    // Deal cards to players
    d := new Deck.InitDeckNoExplodeOrDefuse(actionPool);
    ps := Player.Init(n);
    GiveEach(ps, Defuse);
    assert forall j :: 0 <= j < n ==> ps[j].hand == [Defuse];
    d.Shuffle();
    shuffled := d.cards;
    DealPasses(d, ps);
    HandsAfterDeal(ps, shuffled);
    ghost var hands, rest := HandsOf(ps), d.cards;
    ReturnCards(d, n);
    d.Shuffle();
    assert HandsOf(ps) == hands;
    SetupReached(actionPool, n, shuffled, hands, rest, d.cards);
  }

  /** The facts NewGame gathers along the way make up a valid setup. */
  lemma SetupReached(actionPool: seq<Card>, n: int, shuffled: seq<Card>, hands: seq<seq<Card>>,
                     rest: seq<Card>, drawPile: seq<Card>)
    requires ValidPlayerCount(n) && Offset(PASSES, n) <= |shuffled|
    requires multiset(shuffled) == multiset(actionPool)
    requires hands == StartingHands(shuffled, n)
    requires rest == shuffled[Offset(PASSES, n)..]
    requires multiset(drawPile) == multiset(rest) + Copies(Defuse, ReturnedDefuses(n)) + Copies(Explode, n - 1)
    ensures ValidSetup(actionPool, n, shuffled, hands, drawPile)
  {
  }

  /** Gives card `c` to every player of `ps`, in seating order. */
  method GiveEach(ps: seq<Player>, c: Card)
    requires forall j, k :: 0 <= j < k < |ps| ==> ps[j] != ps[k]
    modifies ps
    ensures forall j :: 0 <= j < |ps| ==> ps[j].hand == old(ps[j].hand) + [c]
  {
    for k := 0 to |ps|
      invariant forall j :: 0 <= j < k ==> ps[j].hand == old(ps[j].hand) + [c]
      invariant forall j :: k <= j < |ps| ==> ps[j].hand == old(ps[j].hand)
    {
      ps[k].Give(c);
    }
  }

  /** The deal: PASSES passes over the players in seating order, each
      player taking the top card of `d` on every pass. */
  method DealPasses(d: Deck, ps: seq<Player>)
    requires forall j, k :: 0 <= j < k < |ps| ==> ps[j] != ps[k]
    requires Offset(PASSES, |ps|) <= |d.cards|
    modifies d, ps
    ensures d.cards == old(d.cards)[Offset(PASSES, |ps|)..]
    ensures forall j :: 0 <= j < |ps| ==> ps[j].hand == old(ps[j].hand) + Dealt(old(d.cards), |ps|, j, PASSES)
  {
    ghost var s := d.cards;
    var n := |ps|;
    for i := 0 to PASSES
      invariant Offset(i, n) <= Offset(PASSES, n)
      invariant d.cards == s[Offset(i, n)..]
      invariant forall j :: 0 <= j < n ==> ps[j].hand == old(ps[j].hand) + Dealt(s, n, j, i)
    {
      OffsetGrows(i, PASSES, n);
      DealPass(d, ps);
      assert d.cards == s[Offset(i + 1, n)..];
    }
  }

  /** One pass of the deal: every player in seating order takes the top card. */
  method DealPass(d: Deck, ps: seq<Player>)
    requires forall j, k :: 0 <= j < k < |ps| ==> ps[j] != ps[k]
    requires |ps| <= |d.cards|
    modifies d, ps
    ensures d.cards == old(d.cards)[|ps|..]
    ensures forall j :: 0 <= j < |ps| ==> ps[j].hand == old(ps[j].hand) + [old(d.cards)[j]]
  {
    for k := 0 to |ps|
      invariant d.cards == old(d.cards)[k..]
      invariant forall j :: 0 <= j < k ==> ps[j].hand == old(ps[j].hand) + [old(d.cards)[j]]
      invariant forall j :: k <= j < |ps| ==> ps[j].hand == old(ps[j].hand)
    {
      var c := d.Deal();
      ps[k].Give(c);
    }
  }

  /** After the deal, player j holds its Defuse and the cards dealt to seat j:
      the starting hands of the game. */
  lemma HandsAfterDeal(ps: seq<Player>, s: seq<Card>)
    requires Offset(PASSES, |ps|) <= |s|
    requires forall j :: 0 <= j < |ps| ==> ps[j].hand == [Defuse] + Dealt(s, |ps|, j, PASSES)
    ensures HandsOf(ps) == StartingHands(s, |ps|)
  {
  }

  /** Puts the cards set aside back into `d`: the Defuse cards not dealt
      (one for 2 or 3 players, 6 - numPlayers otherwise), then
      numPlayers - 1 Explode cards. */
  method ReturnCards(d: Deck, numPlayers: int)
    requires ValidPlayerCount(numPlayers)
    modifies d
    ensures multiset(d.cards)
            == multiset(old(d.cards)) + Copies(Defuse, ReturnedDefuses(numPlayers)) + Copies(Explode, numPlayers - 1)
  {
    // Insert remaining defuse cards into deck
    if numPlayers < 4 {
      InsertCopies(d, Defuse, 1);
    } else {
      InsertCopies(d, Defuse, 6 - numPlayers);
    }

    // Insert exploding kittens into deck
    InsertCopies(d, Explode, numPlayers - 1);
  }

  /** Inserts `k` copies of card `c` into `d`, each at some position. */
  method InsertCopies(d: Deck, c: Card, k: nat)
    modifies d
    ensures multiset(d.cards) == multiset(old(d.cards)) + Copies(c, k)
  {
    for i := 0 to k
      invariant multiset(d.cards) == multiset(old(d.cards)) + Copies(c, i)
    {
      d.Insert(c);
    }
  }
}
