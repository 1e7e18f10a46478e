/** Playing cards and the full deck. */
module Cards {
  import opened Util

  datatype Suit = Hearts | Diamonds | Clubs | Spades

  /** Two is 2 and Ace is 14. */
  type Rank = r: nat | 2 <= r <= 14 witness 2

  datatype Card = Card(suit: Suit, rank: Rank)

  const SUITS: seq<Suit> := [Hearts, Diamonds, Clubs, Spades]

  /** The 52 cards in the order a fresh deck is built: suit by suit, two to ace. */
  function FullDeck(): (cards: seq<Card>)
    ensures |cards| == 52
    ensures forall k :: 0 <= k < 52 ==> cards[k] == Card(SUITS[k / 13], k % 13 + 2)
  {
    seq(52, k requires 0 <= k < 52 => Card(SUITS[k / 13], k % 13 + 2))
  }

  lemma FullDeckHasNoDuplicates()
    ensures NoDuplicates(FullDeck())
  {
    forall i, j | 0 <= i < j < 52
      ensures FullDeck()[i] != FullDeck()[j]
    {
      if i / 13 == j / 13 {
        assert i % 13 != j % 13;
      } else {
        assert SUITS[i / 13] != SUITS[j / 13];
      }
    }
  }
}
