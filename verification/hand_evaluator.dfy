/** The best five of a player's cards: the loop over all choices, and what the best hand depends on. */
module HandEvaluator {
  import opened Util
  import opened Cards
  import opened Combinations
  import opened HandRanking
  import opened HandOrder
  import opened HandChecks

  // ----- five cards -----

  datatype EvaluationError = NotFiveCards | TooFewCards

  datatype Evaluated = Found(evaluation: Evaluation) | Refused(error: EvaluationError)

  method EvaluateFiveCardHand(cards: seq<Card>) returns (r: Evaluated)
    ensures |cards| != 5 ==> r == Refused(NotFiveCards)
    ensures |cards| == 5 ==> r == Found(EvaluateFive(cards))
  {
    if |cards| != 5 {
      return Refused(NotFiveCards);
    }
    SortByRankSorts(cards);
    var evaluation := EvaluateSortedHand(SortByRank(cards));
    return Found(evaluation);
  }

  // ----- the best of several hands -----

  ghost predicate AllFive(hands: seq<seq<Card>>) {
    forall h :: h in hands ==> |h| == 5
  }

  /** The first hand of greatest value. */
  ghost function BestOf(hands: seq<seq<Card>>): Evaluation
    requires hands != [] && AllFive(hands)
  {
    var e := EvaluateFive(hands[|hands| - 1]);
    if |hands| == 1 then e
    else
      var best := BestOf(hands[..|hands| - 1]);
      if e.value > best.value then e else best
  }

  lemma FiveOfEnough(cards: seq<Card>)
    requires |cards| >= 5
    ensures Choose(cards, 5) != [] && AllFive(Choose(cards, 5))
  {
    ChooseLength(cards, 5);
    var h := cards[..5];
    assert cards == h + cards[5..];
    SubmultisetIsChosen(cards, h);
  }

  /** What `evaluateHand` answers for the hole and board cards together. */
  ghost function BestHand(cards: seq<Card>): Evaluation
    requires |cards| >= 5
  {
    FiveOfEnough(cards);
    BestOf(Choose(cards, 5))
  }

  lemma BestOfStep(hands: seq<seq<Card>>, i: nat)
    requires i < |hands| && AllFive(hands)
    ensures AllFive(hands[..i]) && AllFive(hands[..i + 1]) && |hands[i]| == 5
    ensures BestOf(hands[..i + 1])
         == if i == 0 || EvaluateFive(hands[i]).value > BestOf(hands[..i]).value then EvaluateFive(hands[i])
            else BestOf(hands[..i])
  {
    hide EvaluateFive;
    assert hands[i] in hands;
    assert hands[..i + 1][..i] == hands[..i];
  }

  method EvaluateHand(holeCards: seq<Card>, communityCards: seq<Card>) returns (r: Evaluated)
    ensures |holeCards + communityCards| < 5 ==> r == Refused(TooFewCards)
    ensures |holeCards + communityCards| >= 5 ==> r == Found(BestHand(holeCards + communityCards))
  {
    hide EvaluateFive, BestOf, Choose, AllFive;
    var allCards := holeCards + communityCards;
    if |allCards| < 5 {
      return Refused(TooFewCards);
    }
    var combinations := GenerateCombinations(allCards, 5);
    FiveOfEnough(allCards);
    var best: Option<Evaluation> := None;
    for i := 0 to |combinations|
      invariant i == 0 ==> best == None
      invariant i > 0 ==> AllFive(combinations[..i]) && best == Some(BestOf(combinations[..i]))
    {
      BestOfStep(combinations, i);
      var evaluated := EvaluateFiveCardHand(combinations[i]);
      var e := evaluated.evaluation;
      if best.None? || e.value > best.value.value {
        best := Some(e);
      }
    }
    assert combinations[..|combinations|] == combinations;
    r := Found(best.value);
  }

  // ----- what the best hand depends on -----

  lemma {:induction false} BestOfIsMaximum(hands: seq<seq<Card>>)
    requires hands != [] && AllFive(hands)
    ensures forall h :: h in hands ==> EvaluateFive(h).value <= BestOf(hands).value
    ensures exists h :: h in hands && EvaluateFive(h) == BestOf(hands)
  {
    hide EvaluateFive;
    var last := hands[|hands| - 1];
    if |hands| > 1 {
      var front := hands[..|hands| - 1];
      BestOfIsMaximum(front);
      assert hands == front + [last];
      assert forall h :: h in hands <==> h in front || h == last;
    } else {
      assert hands == [last];
    }
  }

  /** Of equally good hands the first is kept. */
  lemma {:induction false} BestIsFirst(hands: seq<seq<Card>>) returns (k: nat)
    requires hands != [] && AllFive(hands)
    ensures k < |hands| && |hands[k]| == 5 && BestOf(hands) == EvaluateFive(hands[k])
    ensures forall j :: 0 <= j < k ==> |hands[j]| == 5 && EvaluateFive(hands[j]).value < BestOf(hands).value
  {
    hide EvaluateFive;
    var n := |hands| - 1;
    assert hands[n] in hands;
    forall j | 0 <= j < n
      ensures |hands[j]| == 5
    {
      assert hands[j] in hands;
    }
    if n == 0 || EvaluateFive(hands[n]).value > BestOf(hands[..n]).value {
      k := n;
      if n > 0 {
        BestOfIsMaximum(hands[..n]);
        forall j | 0 <= j < n
          ensures EvaluateFive(hands[j]).value < BestOf(hands).value
        {
          assert hands[..n][j] in hands[..n];
        }
      }
    } else {
      k := BestIsFirst(hands[..n]);
      forall j | 0 <= j < k
        ensures EvaluateFive(hands[j]).value < BestOf(hands).value
      {
        assert hands[..n][j] == hands[j];
      }
    }
  }

  lemma {:induction false} ChosenIsSubmultiset<T>(xs: seq<T>, k: nat)
    ensures forall c :: c in Choose(xs, k) ==> multiset(c) <= multiset(xs)
    decreases |xs|
  {
    if k > 0 && xs != [] {
      ChosenIsSubmultiset(xs[1..], k - 1);
      ChosenIsSubmultiset(xs[1..], k);
      assert xs == [xs[0]] + xs[1..];
      assert multiset(xs) == multiset{xs[0]} + multiset(xs[1..]);
      var lists := Choose(xs[1..], k - 1);
      forall j | 0 <= j < |lists|
        ensures multiset([xs[0]] + lists[j]) <= multiset(xs)
      {
        assert lists[j] in lists;
      }
    }
  }

  lemma TakeOneOut<T>(xs: seq<T>, h: seq<T>, i: nat)
    requires xs != [] && i < |h| && h[i] == xs[0] && multiset(h) <= multiset(xs)
    ensures multiset(h[..i] + h[i + 1..]) <= multiset(xs[1..])
    ensures multiset(h) == multiset{xs[0]} + multiset(h[..i] + h[i + 1..])
  {
    assert xs == [xs[0]] + xs[1..];
    assert multiset(xs) == multiset{xs[0]} + multiset(xs[1..]);
    var others := h[..i] + h[i + 1..];
    calc {
      multiset(h);
      { assert h == h[..i] + ([h[i]] + h[i + 1..]); }
      multiset(h[..i] + ([h[i]] + h[i + 1..]));
      multiset(h[..i]) + multiset{h[i]} + multiset(h[i + 1..]);
      multiset{h[i]} + multiset(others);
    }
    forall x
      ensures multiset(others)[x] <= multiset(xs[1..])[x]
    {
      assert multiset(h)[x] <= multiset(xs)[x];
    }
  }

  lemma LeaveFirst<T>(xs: seq<T>, h: seq<T>)
    requires xs != [] && xs[0] !in h && multiset(h) <= multiset(xs)
    ensures multiset(h) <= multiset(xs[1..])
  {
    assert xs == [xs[0]] + xs[1..];
    assert xs[0] !in multiset(h);
  }

  lemma InFirstPart<T>(xs: seq<T>, k: nat, c: seq<T>)
    requires k > 0 && xs != [] && c in Choose(xs[1..], k - 1)
    ensures [xs[0]] + c in Choose(xs, k)
  {
    var j :| 0 <= j < |Choose(xs[1..], k - 1)| && Choose(xs[1..], k - 1)[j] == c;
    assert Choose(xs, k)[j] == [xs[0]] + c;
  }

  /** Whatever cards are picked, in whatever order, some combination consists of them. */
  lemma {:induction false} SubmultisetIsChosen<T>(xs: seq<T>, h: seq<T>)
    requires multiset(h) <= multiset(xs)
    ensures exists c :: c in Choose(xs, |h|) && multiset(c) == multiset(h)
    decreases |xs|
  {
    hide Choose;
    if h == [] {
      EmptyChoice(xs);
      var c: seq<T> := [];
      assert c in Choose(xs, |h|) && multiset(c) == multiset(h);
    } else {
      assert h[0] in multiset(h) && h[0] in multiset(xs);
      if i :| 0 <= i < |h| && h[i] == xs[0] {
        var others := h[..i] + h[i + 1..];
        TakeOneOut(xs, h, i);
        SubmultisetIsChosen(xs[1..], others);
        var c :| c in Choose(xs[1..], |others|) && multiset(c) == multiset(others);
        InFirstPart(xs, |h|, c);
        assert multiset([xs[0]] + c) == multiset(h);
      } else {
        LeaveFirst(xs, h);
        SubmultisetIsChosen(xs[1..], h);
        var c :| c in Choose(xs[1..], |h|) && multiset(c) == multiset(h);
        InSecondPart(xs, |h|, c);
      }
    }
  }

  lemma EmptyChoice<T>(xs: seq<T>)
    ensures [] in Choose(xs, 0)
  {
    assert Choose(xs, 0)[0] == [];
  }

  lemma InSecondPart<T>(xs: seq<T>, k: nat, c: seq<T>)
    requires k > 0 && xs != [] && c in Choose(xs[1..], k)
    ensures c in Choose(xs, k)
  {
    var first := Prefixed([xs[0]], Choose(xs[1..], k - 1));
    assert Choose(xs, k) == first + Choose(xs[1..], k);
  }

  /** The best hand is the greatest value of any five of the cards, and some five attain it. */
  lemma BestHandIsMaximum(cards: seq<Card>)
    requires |cards| >= 5
    ensures forall h :: |h| == 5 && multiset(h) <= multiset(cards) ==> EvaluateFive(h).value <= BestHand(cards).value
    ensures exists h :: |h| == 5 && multiset(h) <= multiset(cards) && EvaluateFive(h) == BestHand(cards)
  {
    hide EvaluateFive, BestOf;
    FiveOfEnough(cards);
    BestOfIsMaximum(Choose(cards, 5));
    ChosenIsSubmultiset(cards, 5);
    forall h | |h| == 5 && multiset(h) <= multiset(cards)
      ensures EvaluateFive(h).value <= BestHand(cards).value
    {
      SubmultisetIsChosen(cards, h);
      var c :| c in Choose(cards, 5) && multiset(c) == multiset(h);
      ValueIgnoresOrder(c, h);
    }
  }

  /** More cards never make a worse hand. */
  lemma MoreCardsNeverWorse(cards: seq<Card>, more: seq<Card>)
    requires |cards| >= 5 && |more| >= 5 && multiset(cards) <= multiset(more)
    ensures BestHand(cards).value <= BestHand(more).value
  {
    hide BestHand;
    BestHandIsMaximum(cards);
    BestHandIsMaximum(more);
  }

  /** The order in which the cards are held does not matter. */
  lemma BestHandIgnoresOrder(cards: seq<Card>, other: seq<Card>)
    requires |cards| >= 5 && |other| >= 5 && multiset(cards) == multiset(other)
    ensures BestHand(cards).value == BestHand(other).value
  {
    MoreCardsNeverWorse(cards, other);
    MoreCardsNeverWorse(other, cards);
  }

  lemma BestHandIsPositive(cards: seq<Card>)
    requires |cards| >= 5
    ensures BestHand(cards).value > 0
  {
    hide EvaluateFive, BestHand;
    BestHandIsMaximum(cards);
    var h :| |h| == 5 && multiset(h) <= multiset(cards) && EvaluateFive(h) == BestHand(cards);
    var key := ValueEncodesKey(h);
  }
}
