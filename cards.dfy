/** Cards of the game. A card's kind is its identity: a deck holds many
    indistinguishable copies of the same kind. */
module Cards {

  /** The action cards that make up the starting pool; their effects are
      not part of this model. */
  datatype ActionKind = Skip | Attack | Nope | Favor | Shuffle | SeeTheFuture | Cat(variety: nat)

  datatype Card = Defuse | Explode | Action(kind: ActionKind)

  /** A pool of cards holding neither Defuse nor Explode cards, as the
      starting action deck is built. */
  predicate NoDefuseOrExplode(s: seq<Card>) {
    Defuse !in s && Explode !in s
  }

  /** The multiset of `k` copies of card `c`. */
  function Copies(c: Card, k: nat): (m: multiset<Card>)
    ensures |m| == k && m[c] == k
    ensures forall d :: d != c ==> m[d] == 0
  {
    multiset{}[c := k]
  }

  /** Copies of the same card add up. */
  lemma CopiesAdd(c: Card, j: nat, k: nat)
    ensures Copies(c, j) + Copies(c, k) == Copies(c, j + k)
  {
  }

  /** A sequence whose every element is `c` holds exactly |s| copies of `c`. */
  lemma {:induction false} AllSame(s: seq<Card>, c: Card)
    requires forall i :: 0 <= i < |s| ==> s[i] == c
    ensures multiset(s) == Copies(c, |s|)
  {
    if s != [] {
      var k := |s| - 1;
      AllSame(s[..k], c);
      assert s == s[..k] + [s[k]];
    }
  }
}
