/** What a completed game setup looks like, stated on values: the round-robin
    deal, the Defuse cards put back, and the counting facts they imply. */
module Setup {
  import opened Cards

  /** Passes of the deal: each player is dealt this many cards, one per pass. */
  const PASSES := 7

  predicate ValidPlayerCount(numPlayers: int) {
    2 <= numPlayers <= 5
  }

  /** Number of Defuse cards put back into the deck after each player got one. */
  function ReturnedDefuses(numPlayers: int): (r: nat)
    requires ValidPlayerCount(numPlayers)
    ensures 1 <= r <= 2
    ensures r == 2 <==> numPlayers == 4
    ensures numPlayers + r <= 6
  {
    if numPlayers < 4 then 1 else 6 - numPlayers
  }

  /** The number of cards dealt in the first `passes` passes to `n` players,
      passes * n (see OffsetIsProduct). It is written by recursion so that the
      proofs about the deal stay clear of nonlinear arithmetic. */
  function Offset(passes: nat, n: nat): nat {
    if passes == 0 then 0 else Offset(passes - 1, n) + n
  }

  lemma {:induction false} OffsetIsProduct(passes: nat, n: nat)
    ensures Offset(passes, n) == passes * n
  {
    if passes > 0 {
      OffsetIsProduct(passes - 1, n);
    }
  }

  /** A later pass starts after every card of an earlier pass was dealt. */
  lemma {:induction false} OffsetGrows(i: nat, passes: nat, n: nat)
    requires i < passes
    ensures Offset(i, n) + n <= Offset(passes, n)
    decreases passes
  {
    if i < passes - 1 {
      OffsetGrows(i, passes - 1, n);
    }
  }

  /** The cards player `seat` of `n` receives from the top of `s` in
      `passes` round-robin passes, one per pass (see DealtAt). */
  function Dealt(s: seq<Card>, n: nat, seat: nat, passes: nat): (h: seq<Card>)
    requires seat < n && Offset(passes, n) <= |s|
    ensures |h| == passes
    decreases passes
  {
    if passes == 0 then []
    else Dealt(s, n, seat, passes - 1) + [s[Offset(passes - 1, n) + seat]]
  }

  /** Round robin: on pass i player `seat` receives the card at position
      Offset(i, n) + seat of the deck, that is i * n + seat. */
  lemma {:induction false} DealtAt(s: seq<Card>, n: nat, seat: nat, passes: nat, i: nat)
    requires seat < n && Offset(passes, n) <= |s|
    requires i < passes
    ensures Offset(i, n) + seat < |s|
    ensures Dealt(s, n, seat, passes)[i] == s[Offset(i, n) + seat]
    decreases passes
  {
    OffsetGrows(i, passes, n);
    if i < passes - 1 {
      DealtAt(s, n, seat, passes - 1, i);
    }
  }

  /** The cards each of `n` players holds after `passes` passes. */
  function DealtHands(s: seq<Card>, n: nat, passes: nat): seq<seq<Card>>
    requires Offset(passes, n) <= |s|
  {
    seq(n, seat requires 0 <= seat < n => Dealt(s, n, seat, passes))
  }

  /** All cards held in a collection of hands. */
  function Union(hands: seq<seq<Card>>): multiset<Card> {
    if hands == [] then multiset{} else Union(hands[..|hands| - 1]) + multiset(hands[|hands| - 1])
  }

  /** Every card in play after setup: the hands and the draw pile. */
  function InPlay(hands: seq<seq<Card>>, drawPile: seq<Card>): multiset<Card> {
    Union(hands) + multiset(drawPile)
  }

  lemma {:induction false} UnionOfEmpty(hands: seq<seq<Card>>)
    requires forall j :: 0 <= j < |hands| ==> hands[j] == []
    ensures Union(hands) == multiset{}
  {
    if hands != [] {
      UnionOfEmpty(hands[..|hands| - 1]);
    }
  }

  /** Giving player j the card extra[j], for every j, adds exactly the cards
      of `extra` to the union of the hands. */
  lemma {:induction false} UnionGiveEach(before: seq<seq<Card>>, after: seq<seq<Card>>, extra: seq<Card>)
    requires |before| == |after| == |extra|
    requires forall j :: 0 <= j < |before| ==> multiset(after[j]) == multiset(before[j]) + multiset{extra[j]}
    ensures Union(after) == Union(before) + multiset(extra)
  {
    if before != [] {
      var k := |before| - 1;
      UnionGiveEach(before[..k], after[..k], extra[..k]);
      assert extra == extra[..k] + [extra[k]];
    }
  }

  lemma {:induction false} SplitPrefix(s: seq<Card>, a: nat, b: nat)
    requires a <= b <= |s|
    ensures multiset(s[..b]) == multiset(s[..a]) + multiset(s[a..b])
  {
    assert s[..b] == s[..a] + s[a..b];
  }

  /** Before the first pass nobody holds a dealt card. */
  lemma {:induction false} DealtNone(s: seq<Card>, n: nat)
    ensures Union(DealtHands(s, n, 0)) == multiset{}
  {
    var hs := DealtHands(s, n, 0);
    assert forall j :: 0 <= j < n ==> hs[j] == [];
    UnionOfEmpty(hs);
  }

  /** One pass gives every player one card: together the cards of that pass. */
  lemma {:induction false} DealtOnePass(s: seq<Card>, n: nat, p: nat)
    requires Offset(p + 1, n) <= |s|
    ensures Offset(p + 1, n) == Offset(p, n) + n
    ensures Union(DealtHands(s, n, p + 1))
            == Union(DealtHands(s, n, p)) + multiset(s[Offset(p, n)..Offset(p + 1, n)])
  {
    var pass := s[Offset(p, n)..Offset(p + 1, n)];
    var before, after := DealtHands(s, n, p), DealtHands(s, n, p + 1);
    forall j | 0 <= j < n
      ensures multiset(after[j]) == multiset(before[j]) + multiset{pass[j]}
    {
      assert after[j] == before[j] + [s[Offset(p, n) + j]];
    }
    UnionGiveEach(before, after, pass);
  }

  lemma {:induction false} SplitAt(s: seq<Card>, k: nat)
    requires k <= |s|
    ensures multiset(s) == multiset(s[..k]) + multiset(s[k..])
  {
    assert s == s[..k] + s[k..];
  }

  /** The round-robin deal hands out exactly the top Offset(passes, n) cards. */
  lemma {:induction false} DealConserves(s: seq<Card>, n: nat, passes: nat)
    requires Offset(passes, n) <= |s|
    ensures Union(DealtHands(s, n, passes)) == multiset(s[..Offset(passes, n)])
  {
    if passes == 0 {
      DealtNone(s, n);
      assert s[..Offset(passes, n)] == [];
    } else {
      var p := passes - 1;
      DealtOnePass(s, n, p);
      DealConserves(s, n, p);
      SplitPrefix(s, Offset(p, n), Offset(passes, n));
    }
  }

  /** The hands after setup: player j holds the Defuse given first, then the
      cards dealt to seat j. */
  function StartingHands(s: seq<Card>, n: nat): seq<seq<Card>>
    requires Offset(PASSES, n) <= |s|
  {
    seq(n, seat requires 0 <= seat < n => [Defuse] + Dealt(s, n, seat, PASSES))
  }

  /** The state left by a completed setup for `n` players, where `shuffled`
      is the action deck after its first shuffle, `hands` the players' hands
      in seating order and `drawPile` the final draw pile. The draw pile's
      order is any permutation, so only its multiset is fixed. */
  predicate ValidSetup(actionDeck: seq<Card>, n: int, shuffled: seq<Card>,
                       hands: seq<seq<Card>>, drawPile: seq<Card>)
  {
    && ValidPlayerCount(n)
    && Offset(PASSES, n) <= |shuffled|
    && multiset(shuffled) == multiset(actionDeck)
    && |hands| == n
    && hands == StartingHands(shuffled, n)
    && DrawPileAfterDeal(shuffled, n, drawPile)
  }

  /** The draw pile after setup: the cards left after the deal, the returned
      Defuse cards and n - 1 Explode cards, in any order. */
  predicate DrawPileAfterDeal(shuffled: seq<Card>, n: int, drawPile: seq<Card>)
    requires ValidPlayerCount(n) && Offset(PASSES, n) <= |shuffled|
  {
    multiset(drawPile) == multiset(shuffled[Offset(PASSES, n)..])
                          + Copies(Defuse, ReturnedDefuses(n)) + Copies(Explode, n - 1)
  }

  /** Every card dealt to a player comes from the deck dealt from. */
  lemma {:induction false} DealtFromDeck(s: seq<Card>, n: nat, seat: nat, passes: nat)
    requires seat < n && Offset(passes, n) <= |s|
    ensures forall c :: c in Dealt(s, n, seat, passes) ==> c in s
  {
    var h := Dealt(s, n, seat, passes);
    forall c | c in h
      ensures c in s
    {
      var i :| 0 <= i < |h| && h[i] == c;
      DealtAt(s, n, seat, passes, i);
    }
  }

  /** A starting hand dealt from a deck without Defuse or Explode cards:
      8 cards, the Defuse first, no other Defuse and no Explode. */
  lemma {:induction false} HandShape(s: seq<Card>, n: nat, seat: nat)
    requires NoDefuseOrExplode(s)
    requires seat < n && Offset(PASSES, n) <= |s|
    ensures |StartingHands(s, n)[seat]| == PASSES + 1 && StartingHands(s, n)[seat][0] == Defuse
    ensures Explode !in StartingHands(s, n)[seat]
    ensures multiset(StartingHands(s, n)[seat])[Defuse] == 1
  {
    var h := Dealt(s, n, seat, PASSES);
    assert StartingHands(s, n)[seat] == [Defuse] + h;
    DealtFromDeck(s, n, seat, PASSES);
    assert multiset([Defuse] + h) == multiset{Defuse} + multiset(h);
  }

  /** Giving each of the players one Defuse adds n Defuse cards to the hands. */
  lemma {:induction false} UnionWithDefuse(s: seq<Card>, n: nat)
    requires Offset(PASSES, n) <= |s|
    ensures Union(StartingHands(s, n)) == Union(DealtHands(s, n, PASSES)) + Copies(Defuse, n)
  {
    var hands, dealt := StartingHands(s, n), DealtHands(s, n, PASSES);
    var defuses := seq(n, j => Defuse);
    forall j | 0 <= j < n
      ensures multiset(hands[j]) == multiset(dealt[j]) + multiset{defuses[j]}
    {
      assert hands[j] == [Defuse] + dealt[j];
    }
    UnionGiveEach(dealt, hands, defuses);
    AllSame(defuses, Defuse);
  }

  /** The hands after setup hold the top Offset(PASSES, n) cards of the deck
      and one Defuse per player. */
  lemma {:induction false} HandsHoldDealt(s: seq<Card>, n: nat)
    requires Offset(PASSES, n) <= |s|
    ensures Union(StartingHands(s, n)) == multiset(s[..Offset(PASSES, n)]) + Copies(Defuse, n)
  {
    DealConserves(s, n, PASSES);
    UnionWithDefuse(s, n);
  }

  /** A permutation of a deck without Defuse or Explode cards has none either. */
  lemma {:induction false} PermutationKeepsActionsOnly(a: seq<Card>, b: seq<Card>)
    requires NoDefuseOrExplode(a) && multiset(a) == multiset(b)
    ensures NoDefuseOrExplode(b)
  {
    assert Defuse !in multiset(a) && Explode !in multiset(a);
  }

  /** Every hand holds 8 cards: its one Defuse first, then the 7 dealt ones;
      no hand holds an Explode card or a second Defuse. */
  lemma {:induction false} SetupHands(actionDeck: seq<Card>, n: int, shuffled: seq<Card>,
                   hands: seq<seq<Card>>, drawPile: seq<Card>)
    requires NoDefuseOrExplode(actionDeck)
    requires ValidSetup(actionDeck, n, shuffled, hands, drawPile)
    ensures forall j :: 0 <= j < n ==> |hands[j]| == PASSES + 1 && hands[j][0] == Defuse
    ensures forall j :: 0 <= j < n ==> Explode !in hands[j] && multiset(hands[j])[Defuse] == 1
  {
    PermutationKeepsActionsOnly(actionDeck, shuffled);
    forall j | 0 <= j < n
      ensures |hands[j]| == PASSES + 1 && hands[j][0] == Defuse
      ensures Explode !in hands[j] && multiset(hands[j])[Defuse] == 1
    {
      HandShape(shuffled, n, j);
    }
  }

  /** Round robin after setup: on pass i (0..6) player j received card
      i * n + j of the shuffled deck, which follows its Defuse in the hand. */
  lemma {:induction false} SetupDealOrder(actionDeck: seq<Card>, n: int, shuffled: seq<Card>,
                                          hands: seq<seq<Card>>, drawPile: seq<Card>, i: nat, j: nat)
    requires ValidSetup(actionDeck, n, shuffled, hands, drawPile)
    requires i < PASSES && j < n
    ensures |hands[j]| == PASSES + 1 && 0 <= i * n + j < |shuffled|
    ensures hands[j][i + 1] == shuffled[i * n + j]
  {
    DealtAt(shuffled, n, j, PASSES, i);
    OffsetIsProduct(i, n);
    assert hands[j] == [Defuse] + Dealt(shuffled, n, j, PASSES);
  }

  /** The draw pile holds the undealt action cards, the returned Defuse cards
      and n - 1 Explode cards, and nothing else. */
  lemma {:induction false} SetupDrawPile(actionDeck: seq<Card>, n: int, shuffled: seq<Card>,
                      hands: seq<seq<Card>>, drawPile: seq<Card>)
    requires NoDefuseOrExplode(actionDeck)
    requires ValidSetup(actionDeck, n, shuffled, hands, drawPile)
    ensures |drawPile| == |actionDeck| - PASSES * n + ReturnedDefuses(n) + (n - 1)
    ensures multiset(drawPile)[Defuse] == ReturnedDefuses(n)
    ensures multiset(drawPile)[Explode] == n - 1
  {
    OffsetIsProduct(PASSES, n);
    var rest := shuffled[Offset(PASSES, n)..];
    var extra := Copies(Defuse, ReturnedDefuses(n)) + Copies(Explode, n - 1);
    assert multiset(drawPile) == multiset(rest) + extra;
    assert |shuffled| == |multiset(shuffled)| == |multiset(actionDeck)| == |actionDeck|;
    assert |drawPile| == |multiset(drawPile)| == |rest| + ReturnedDefuses(n) + (n - 1);
    PermutationKeepsActionsOnly(actionDeck, shuffled);
    assert Defuse !in rest && Explode !in rest;
  }

  /** No card is created or lost: the hands and the draw pile together hold
      the action deck plus n + ReturnedDefuses(n) Defuse and n - 1 Explode cards. */
  lemma {:induction false} SetupConserves(actionDeck: seq<Card>, n: int, shuffled: seq<Card>,
                                          hands: seq<seq<Card>>, drawPile: seq<Card>)
    requires ValidSetup(actionDeck, n, shuffled, hands, drawPile)
    ensures InPlay(hands, drawPile)
            == multiset(actionDeck) + Copies(Defuse, n + ReturnedDefuses(n)) + Copies(Explode, n - 1)
  {
    ConservesFrom(actionDeck, shuffled, n, drawPile);
  }

  /** SetupConserves for the starting hands dealt from `shuffled`. */
  lemma {:induction false} ConservesFrom(actionDeck: seq<Card>, shuffled: seq<Card>, n: int,
                                         drawPile: seq<Card>)
    requires ValidPlayerCount(n) && Offset(PASSES, n) <= |shuffled|
    requires multiset(shuffled) == multiset(actionDeck)
    requires DrawPileAfterDeal(shuffled, n, drawPile)
    ensures Union(StartingHands(shuffled, n)) + multiset(drawPile)
            == multiset(actionDeck) + Copies(Defuse, n + ReturnedDefuses(n)) + Copies(Explode, n - 1)
  {
    var r := ReturnedDefuses(n);
    HandsAndRest(shuffled, n);
    CopiesAdd(Defuse, n, r);
    Regroup(Union(StartingHands(shuffled, n)), multiset(drawPile), multiset(actionDeck),
            multiset(shuffled[Offset(PASSES, n)..]), Copies(Defuse, n),
            Copies(Defuse, r), Copies(Defuse, n + r), Copies(Explode, n - 1));
  }

  /** The hands and the undealt rest of the deck hold the whole deck and one
      Defuse per player. */
  lemma {:induction false} HandsAndRest(s: seq<Card>, n: nat)
    requires Offset(PASSES, n) <= |s|
    ensures Union(StartingHands(s, n)) + multiset(s[Offset(PASSES, n)..]) == multiset(s) + Copies(Defuse, n)
  {
    HandsHoldDealt(s, n);
    SplitAt(s, Offset(PASSES, n));
  }

  /** The bookkeeping step of SetupConserves, on multisets alone. */
  lemma {:induction false} Regroup(hands: multiset<Card>, drawPile: multiset<Card>, deck: multiset<Card>,
                rest: multiset<Card>, given: multiset<Card>,
                returned: multiset<Card>, defuses: multiset<Card>, explodes: multiset<Card>)
    requires hands + rest == deck + given
    requires drawPile == rest + returned + explodes
    requires defuses == given + returned
    ensures hands + drawPile == deck + defuses + explodes
  {
    forall c
      ensures (hands + drawPile)[c] == (deck + defuses + explodes)[c]
    {
      assert (hands + rest)[c] == (deck + given)[c];
    }
  }

  /** Adding d Defuse and e Explode cards to a pool with neither. */
  lemma {:induction false} CountsOf(pool: multiset<Card>, d: nat, e: nat)
    requires Defuse !in pool && Explode !in pool
    ensures (pool + Copies(Defuse, d) + Copies(Explode, e))[Defuse] == d
    ensures (pool + Copies(Defuse, d) + Copies(Explode, e))[Explode] == e
    ensures |pool + Copies(Defuse, d) + Copies(Explode, e)| == |pool| + d + e
  {
  }

  /** The totals in play after setup: n + ReturnedDefuses(n) Defuse cards
      (3, 4, 6, 6 for 2..5 players) and n - 1 Explode cards. */
  lemma {:induction false} SetupTotals(actionDeck: seq<Card>, n: int, shuffled: seq<Card>,
                    hands: seq<seq<Card>>, drawPile: seq<Card>)
    requires NoDefuseOrExplode(actionDeck)
    requires ValidSetup(actionDeck, n, shuffled, hands, drawPile)
    ensures InPlay(hands, drawPile)[Defuse] == n + ReturnedDefuses(n)
    ensures InPlay(hands, drawPile)[Explode] == n - 1
    ensures |InPlay(hands, drawPile)| == |actionDeck| + n + ReturnedDefuses(n) + (n - 1)
  {
    SetupConserves(actionDeck, n, shuffled, hands, drawPile);
    CountsOf(multiset(actionDeck), n + ReturnedDefuses(n), n - 1);
  }
}
