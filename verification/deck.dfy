/** The deck: building, shuffling and dealing in place, and why no card is ever dealt twice. */
module Decks {
  import opened Util
  import opened Cards

  datatype DeckState = DeckState(cards: seq<Card>, dealt: seq<Card>)

  /** The next `k` cards off the top, in dealing order; the top is the end of the list. */
  function Top(cards: seq<Card>, k: nat): (taken: seq<Card>)
    requires k <= |cards|
    ensures |taken| == k
    ensures forall i :: 0 <= i < k ==> taken[i] == cards[|cards| - 1 - i]
  {
    seq(k, i requires 0 <= i < k => cards[|cards| - 1 - i])
  }

  function Deal(d: DeckState, k: nat): DeckState
    requires k <= |d.cards|
  {
    DeckState(d.cards[..|d.cards| - k], d.dealt + Top(d.cards, k))
  }

  lemma DealTwice(d: DeckState, j: nat, k: nat)
    requires j + k <= |d.cards|
    ensures Deal(Deal(d, j), k) == Deal(d, j + k)
    ensures Top(Deal(d, j).cards, k) == Top(d.cards, j + k)[j..]
    ensures Top(d.cards, j) == Top(d.cards, j + k)[..j]
  {
    assert Top(d.cards, j) + Top(Deal(d, j).cards, k) == Top(d.cards, j + k);
  }

  lemma DealNext(d: DeckState, i: nat)
    requires i < |d.cards|
    ensures |Deal(d, i).cards| == |d.cards| - i
    ensures Top(Deal(d, i).cards, 1)[0] == d.cards[|d.cards| - 1 - i]
    ensures Deal(Deal(d, i), 1) == Deal(d, i + 1)
  {
    DealTwice(d, i, 1);
  }

  /** The undealt and the dealt cards together are the full deck. */
  ghost predicate Whole(d: DeckState) {
    multiset(d.cards) + multiset(d.dealt) == multiset(FullDeck())
  }

  lemma {:induction false} DealKeepsWhole(d: DeckState, k: nat)
    requires k <= |d.cards| && Whole(d)
    ensures Whole(Deal(d, k))
  {
    if k == 0 {
      assert Deal(d, 0) == d by {
        assert d.cards[..|d.cards|] == d.cards;
        assert d.dealt + Top(d.cards, 0) == d.dealt;
      }
    } else {
      DealKeepsWhole(d, k - 1);
      DealTwice(d, k - 1, 1);
      DealOneKeepsWhole(Deal(d, k - 1));
    }
  }

  lemma DealOneKeepsWhole(d: DeckState)
    requires d.cards != [] && Whole(d)
    ensures Whole(Deal(d, 1))
  {
    var n := |d.cards|;
    assert d.cards == d.cards[..n - 1] + [d.cards[n - 1]];
    assert Top(d.cards, 1) == [d.cards[n - 1]];
  }

  /** Cards dealt from a whole deck are pairwise distinct, and none of them is left to deal. */
  lemma WholeHasNoDuplicates(d: DeckState)
    requires Whole(d)
    ensures |d.cards| + |d.dealt| == 52
    ensures NoDuplicates(d.cards + d.dealt)
  {
    var all := d.cards + d.dealt;
    assert multiset(all) == multiset(FullDeck());
    assert |all| == |multiset(all)| == |multiset(FullDeck())| == |FullDeck()|;
    FullDeckHasNoDuplicates();
    NoDuplicatesIff(FullDeck());
    NoDuplicatesIff(all);
    forall c | c in all
      ensures multiset(all)[c] == 1
    {
      assert c in multiset(all);
      assert c in FullDeck();
    }
  }

  function Elements<T>(xs: seq<T>): set<T> {
    set x | x in xs
  }

  lemma {:induction false} FewerElements<T>(xs: seq<T>)
    ensures |Elements(xs)| <= |xs|
    ensures |Elements(xs)| == |xs| <==> NoDuplicates(xs)
  {
    if xs != [] {
      var rest := xs[1..];
      FewerElements(rest);
      assert xs == [xs[0]] + rest;
      assert Elements(xs) == {xs[0]} + Elements(rest);
      if xs[0] in rest {
        assert Elements(xs) == Elements(rest);
      } else {
        assert forall k :: 0 <= k < |rest| ==> rest[k] == xs[k + 1];
      }
    }
  }

  lemma EveryCardIsInFullDeck(c: Card)
    ensures c in FullDeck()
  {
    var s := match c.suit case Hearts => 0 case Diamonds => 1 case Clubs => 2 case Spades => 3;
    assert FullDeck()[13 * s + c.rank - 2] == c;
  }

  lemma SameSize<T>(small: set<T>, large: set<T>)
    requires small <= large && |small| == |large|
    ensures small == large
  {
    assert |large - small| == 0;
    assert large == small + (large - small);
  }

  lemma DifferentIffFullDeck(all: seq<Card>)
    ensures |all| == 52 && |Elements(all)| == 52 <==> multiset(all) == multiset(FullDeck())
  {
    hide FullDeck;
    var full := FullDeck();
    FullDeckHasNoDuplicates();
    FewerElements(full);
    FewerElements(all);
    NoDuplicatesIff(full);
    NoDuplicatesIff(all);
    if |all| == 52 && |Elements(all)| == 52 {
      AllInFullDeck(all);
      SameSize(Elements(all), Elements(full));
      assert forall c :: c in all <==> c in Elements(all);
      assert forall c :: c in full <==> c in Elements(full);
      forall c
        ensures multiset(all)[c] == multiset(full)[c]
      {
        assert c in all <==> c in full;
      }
    }
    if multiset(all) == multiset(full) {
      assert |all| == |multiset(all)| && |full| == |multiset(full)|;
      forall c | c in all
        ensures multiset(all)[c] == 1
      {
        assert c in multiset(all) && c in multiset(full);
      }
    }
  }

  lemma AllInFullDeck(all: seq<Card>)
    ensures Elements(all) <= Elements(FullDeck())
  {
    forall c | c in all
      ensures c in FullDeck()
    {
      EveryCardIsInFullDeck(c);
    }
  }

  class Deck {
    var cards: seq<Card>
    var dealtCards: seq<Card>

    ghost function View(): DeckState
      reads this
    {
      DeckState(cards, dealtCards)
    }

    constructor ()
      ensures View() == DeckState(FullDeck(), [])
    {
      cards, dealtCards := [], [];
      new;
      Reset();
    }

    method Reset()
      modifies this
      ensures View() == DeckState(FullDeck(), [])
    {
      cards := [];
      dealtCards := [];
      for s := 0 to 4
        invariant cards == FullDeck()[..13 * s] && dealtCards == []
      {
        for r := 2 to 15
          invariant cards == FullDeck()[..13 * s + r - 2] && dealtCards == []
        {
          assert FullDeck()[13 * s + r - 2] == Card(SUITS[s], r);
          cards := cards + [Card(SUITS[s], r)];
        }
      }
    }

    /** Fifty-two different cards, dealt and undealt together: exactly when they are the full deck. */
    method Validate() returns (r: bool)
      ensures r <==> Whole(View())
    {
      var allCards := cards + dealtCards;
      DifferentIffFullDeck(allCards);
      if |allCards| != 52 {
        return false;
      }
      var uniqueCards := Elements(allCards);
      return |uniqueCards| == 52;
    }

    /** Fisher-Yates; whichever indices are drawn, the cards are only rearranged. */
    method Shuffle()
      modifies this
      ensures multiset(cards) == multiset(old(cards))
      ensures dealtCards == old(dealtCards)
    {
      var i := |cards| - 1;
      while i > 0
        invariant i < |cards|
        invariant multiset(cards) == multiset(old(cards))
        invariant dealtCards == old(dealtCards)
      {
        var j: nat :| j <= i;
        SwapPermutes(cards, i, j);
        cards := cards[i := cards[j]][j := cards[i]];
        i := i - 1;
      }
    }

    /** `None` stands for the exception thrown on an empty deck. */
    method DealCard() returns (card: Option<Card>)
      modifies this
      ensures old(cards) == [] ==> card == None && View() == old(View())
      ensures old(cards) != [] ==> card == Some(Top(old(cards), 1)[0]) && View() == Deal(old(View()), 1)
    {
      if |cards| == 0 {
        return None;
      }
      var top := cards[|cards| - 1];
      cards := cards[..|cards| - 1];
      dealtCards := dealtCards + [top];
      card := Some(top);
    }

    method DealCards(count: nat) returns (r: Option<seq<Card>>)
      modifies this
      ensures count > |old(cards)| ==> r == None && View() == old(View())
      ensures count <= |old(cards)| ==> r == Some(Top(old(cards), count)) && View() == Deal(old(View()), count)
    {
      if count > |cards| {
        return None;
      }
      var taken := [];
      DealNone(View());
      for i := 0 to count
        invariant View() == Deal(old(View()), i) && taken == Top(old(cards), i)
      {
        DealTwice(old(View()), i, 1);
        var card := DealCard();
        taken := taken + [card.value];
      }
      r := Some(taken);
    }

    /** Two cards each, one at a time around the table. */
    method DealHoleCards(playerCount: nat) returns (r: Option<seq<seq<Card>>>)
      modifies this
      ensures playerCount * 2 > |old(cards)| ==> r == None && View() == old(View())
      ensures playerCount * 2 <= |old(cards)| ==>
                && r == Some(HoleCards(old(cards), playerCount))
                && View() == Deal(old(View()), playerCount * 2)
    {
      if playerCount * 2 > |cards| {
        return None;
      }
      hide Deal, Top, HoleCards;
      ghost var d := View();
      var hands: seq<seq<Card>> := [];
      DealNone(d);
      for i := 0 to playerCount
        invariant View() == Deal(d, i)
        invariant |hands| == i && forall k :: 0 <= k < i ==> hands[k] == [d.cards[|d.cards| - 1 - k]]
      {
        DealNext(d, i);
        var card := DealCard();
        hands := hands + [[card.value]];
      }
      hands := DealSecondCards(hands, d);
      HoleCardsInPlace(d.cards, playerCount);
      assert hands == HoleCards(d.cards, playerCount);
      r := Some(hands);
    }

    /** The second time round the table. */
    method DealSecondCards(first: seq<seq<Card>>, ghost d: DeckState) returns (hands: seq<seq<Card>>)
      requires |first| * 2 <= |d.cards| && View() == Deal(d, |first|)
      modifies this
      ensures View() == Deal(d, |first| * 2)
      ensures |hands| == |first|
      ensures forall k :: 0 <= k < |first| ==> hands[k] == first[k] + [d.cards[|d.cards| - 1 - |first| - k]]
    {
      hide Deal, Top;
      hands := first;
      for i := 0 to |first|
        invariant View() == Deal(d, |first| + i)
        invariant |hands| == |first|
        invariant forall k :: 0 <= k < i ==> hands[k] == first[k] + [d.cards[|d.cards| - 1 - |first| - k]]
        invariant forall k :: i <= k < |first| ==> hands[k] == first[k]
      {
        DealNext(d, |first| + i);
        var card := DealCard();
        hands := hands[i := hands[i] + [card.value]];
      }
    }

    method BurnCard() returns (ok: bool)
      modifies this
      ensures ok == (old(cards) != [])
      ensures View() == if ok then Deal(old(View()), 1) else old(View())
    {
      if |cards| == 0 {
        return false;
      }
      var burned := cards[|cards| - 1];
      cards := cards[..|cards| - 1];
      dealtCards := dealtCards + [burned];
      ok := true;
    }

    /** A burned card and then `count` cards: three for the flop, one for the turn or the river. */
    method DealStreet(count: nat) returns (r: Option<seq<Card>>)
      modifies this
      ensures |old(cards)| >= count + 1 ==>
                && r == Some(Top(old(cards), count + 1)[1..])
                && View() == Deal(old(View()), count + 1)
      ensures |old(cards)| < count + 1 ==>
                && r == None
                && View() == if old(cards) == [] then old(View()) else Deal(old(View()), 1)
    {
      var ok := BurnCard();
      if !ok {
        return None;
      }
      r := DealCards(count);
      if r.Some? {
        DealTwice(old(View()), 1, count);
      }
    }
  }

  lemma DealNone(d: DeckState)
    ensures Deal(d, 0) == d && Top(d.cards, 0) == []
  {
    assert d.cards[..|d.cards|] == d.cards;
    assert d.dealt + Top(d.cards, 0) == d.dealt;
  }

  /** The hole cards of `n` players: each gets one card of the first round and one of the second. */
  function HoleCards(cards: seq<Card>, n: nat): (hands: seq<seq<Card>>)
    requires n * 2 <= |cards|
    ensures |hands| == n
    ensures forall k :: 0 <= k < n ==> hands[k] == [Top(cards, n * 2)[k], Top(cards, n * 2)[n + k]]
  {
    seq(n, k requires 0 <= k < n => [Top(cards, n * 2)[k], Top(cards, n * 2)[n + k]])
  }

  lemma HoleCardsInPlace(cards: seq<Card>, n: nat)
    requires n * 2 <= |cards|
    ensures forall k :: 0 <= k < n
              ==> HoleCards(cards, n)[k] == [cards[|cards| - 1 - k]] + [cards[|cards| - 1 - n - k]]
  {
  }

  lemma SwapPermutes(cards: seq<Card>, i: nat, j: nat)
    requires i < |cards| && j < |cards|
    ensures multiset(cards[i := cards[j]][j := cards[i]]) == multiset(cards)
  {
  }
}
