/** The cards an evaluation shows: the five of the hand, and the kickers among them. */
module HandShown {
  import opened Cards
  import opened HandRanking

  lemma {:induction false} CountOfMember(cards: seq<Card>, c: Card)
    requires c in cards
    ensures 1 <= Count(cards, c.rank) <= |cards|
  {
    CountAtMost(cards[1..], c.rank);
    if cards[0] != c {
      CountOfMember(cards[1..], c);
    }
  }

  lemma {:induction false} CountAtMost(cards: seq<Card>, rank: nat)
    ensures Count(cards, rank) <= |cards|
  {
    if cards != [] {
      CountAtMost(cards[1..], rank);
    }
  }

  lemma {:induction false} WithoutDescends(cards: seq<Card>, rank: nat)
    requires Descending(cards)
    ensures Descending(Without(cards, rank))
  {
    if cards != [] {
      assert forall k :: 0 <= k < |cards[1..]| ==> cards[1..][k] == cards[k + 1];
      WithoutDescends(cards[1..], rank);
      var rest := Without(cards[1..], rank);
      forall k | 0 <= k < |rest|
        ensures cards[0].rank >= rest[k].rank
      {
        assert rest[k] in rest;
      }
    }
  }

  /** The cards of the hand whose rank no other card has, highest first. */
  ghost predicate SingleCards(kickers: seq<Card>, cards: seq<Card>) {
    && Descending(kickers)
    && forall c :: c in kickers <==> c in cards && Count(cards, c.rank) == 1
  }

  lemma SinglesOutside(s: seq<Card>, rank: nat)
    requires Descending(s) && Count(s, rank) > 1
    requires forall c :: c in s && c.rank != rank ==> Count(s, c.rank) == 1
    ensures SingleCards(Without(s, rank), s)
  {
    WithoutDescends(s, rank);
  }

  lemma FourSingles(s: seq<Card>)
    requires |s| == 5 && Descending(s) && CheckFourOfAKind(s).Some?
    ensures CheckFourOfAKind(s).value.cards == s && SingleCards(CheckFourOfAKind(s).value.kickers, s)
  {
    var four := FirstCounted(s, s, 4).value;
    var rest := Without(s, four.rank);
    forall c | c in s && c.rank != four.rank
      ensures Count(s, c.rank) == 1
    {
      CountWithout(s, four.rank, c.rank);
      CountOfMember(rest, c);
    }
    SinglesOutside(s, four.rank);
    assert rest == [rest[0]];
  }

  lemma ThreeSingles(s: seq<Card>)
    requires |s| == 5 && Descending(s) && CheckFullHouse(s).None? && CheckThreeOfAKind(s).Some?
    ensures CheckThreeOfAKind(s).value.cards == s && SingleCards(CheckThreeOfAKind(s).value.kickers, s)
  {
    var three := FirstCounted(s, s, 3).value;
    forall c | c in s && c.rank != three.rank
      ensures Count(s, c.rank) == 1
    {
      CountWithout(s, three.rank, c.rank);
      CountOfMember(Without(s, three.rank), c);
      assert FirstCounted(s, s, 2).None?;
    }
    SinglesOutside(s, three.rank);
  }

  lemma TwoPairSingles(s: seq<Card>)
    requires |s| == 5 && Descending(s) && CheckTwoPair(s).Some?
    ensures CheckTwoPair(s).value.cards == s && SingleCards(CheckTwoPair(s).value.kickers, s)
  {
    hide Count, Without, FirstCounted;
    var high := FirstCounted(s, s, 2).value;
    var others := Without(s, high.rank);
    var low := FirstCounted(s, others, 2).value;
    var rest := Without(others, low.rank);
    CountWithout(s, high.rank, low.rank);
    assert |rest| == 1 && rest == [rest[0]];
    forall c | c in s
      ensures c == rest[0] <==> Count(s, c.rank) == 1
    {
      assert c in rest <==> c.rank != high.rank && c.rank != low.rank;
      if c in rest {
        CountWithout(s, high.rank, c.rank);
        CountWithout(others, low.rank, c.rank);
        CountOfMember(rest, c);
      }
    }
    assert rest[0] in rest;
  }

  lemma PairSingles(s: seq<Card>)
    requires |s| == 5 && Descending(s) && CheckOnePair(s).Some?
    requires CheckThreeOfAKind(s).None? && CheckTwoPair(s).None?
    ensures CheckOnePair(s).value.cards == s && SingleCards(CheckOnePair(s).value.kickers, s)
  {
    var pair := FirstCounted(s, s, 2).value;
    var others := Without(s, pair.rank);
    forall c | c in s && c.rank != pair.rank
      ensures Count(s, c.rank) == 1
    {
      assert c in others;
      CountWithout(s, pair.rank, c.rank);
      CountOfMember(others, c);
      assert FirstCounted(s, others, 2).None? && FirstCounted(s, s, 3).None?;
    }
    SinglesOutside(s, pair.rank);
  }

  /** The five cards of a hand, and its kickers by category, highest first. */
  ghost predicate Shows(e: Evaluation, cards: seq<Card>) {
    && multiset(e.cards) == multiset(cards) && |e.cards| == 5
    && match e.rank
       case HighCard => Descending(e.cards) && e.kickers == e.cards[1..]
       case Flush => Descending(e.cards) && e.kickers == e.cards[1..]
       case FourOfAKind => Descending(e.cards) && SingleCards(e.kickers, e.cards)
       case ThreeOfAKind => Descending(e.cards) && SingleCards(e.kickers, e.cards)
       case TwoPair => Descending(e.cards) && SingleCards(e.kickers, e.cards)
       case OnePair => Descending(e.cards) && SingleCards(e.kickers, e.cards)
       case FullHouse => Descending(e.cards) && e.kickers == []
       case _ => e.kickers == [] && Runs(e.cards)
  }

  /** Each card is one below the card before it; an ace may follow a two. */
  ghost predicate Runs(cards: seq<Card>) {
    forall k :: 0 < k < |cards| ==>
      cards[k].rank == cards[k - 1].rank - 1 || (cards[k - 1].rank == 2 && cards[k].rank == 14)
  }

  lemma WheelRuns(s: seq<Card>)
    requires |s| == 5 && IsWheel(s)
    ensures Runs(s[1..] + [s[0]]) && multiset(s[1..] + [s[0]]) == multiset(s)
  {
    assert s == [s[0]] + s[1..];
    var run := s[1..] + [s[0]];
    forall k | 0 < k < 5
      ensures run[k].rank == run[k - 1].rank - 1 || (run[k - 1].rank == 2 && run[k].rank == 14)
    {
      assert run[k - 1].rank == Ranks(s)[k];
      assert run[k].rank == Ranks(s)[if k < 4 then k + 1 else 0];
    }
  }

  lemma StraightShows(rank: HandRank, s: seq<Card>)
    requires |s| == 5 && IsStraight(s) && (rank == Straight || rank == StraightFlush)
    ensures Shows(StraightEvaluation(rank, s), s)
  {
    hide IsWheel, Ranks, HandValue;
    if IsWheel(s) {
      WheelRuns(s);
    } else {
      assert Runs(s);
    }
  }

  lemma RoyalShows(s: seq<Card>)
    requires |s| == 5 && IsRoyal(s)
    ensures Shows(CheckRoyalFlush(s).value, s)
  {
    forall k | 0 <= k < 5
      ensures s[k].rank == 14 - k
    {
      assert s[k].rank == Ranks(s)[k];
    }
  }

  lemma RunsShow(s: seq<Card>)
    requires |s| == 5
    ensures CheckRoyalFlush(s).Some? ==> Shows(CheckRoyalFlush(s).value, s)
    ensures CheckStraightFlush(s).Some? ==> Shows(CheckStraightFlush(s).value, s)
    ensures CheckStraight(s).Some? ==> Shows(CheckStraight(s).value, s)
  {
    hide IsFlush, IsStraight, IsRoyal, Shows, HandValue, StraightEvaluation;
    if IsRoyal(s) {
      RoyalShows(s);
    }
    if IsStraight(s) {
      StraightShows(Straight, s);
      StraightShows(StraightFlush, s);
    }
  }

  lemma CountedShow(s: seq<Card>)
    requires |s| == 5 && Descending(s)
    ensures CheckFourOfAKind(s).Some? ==> Shows(CheckFourOfAKind(s).value, s)
    ensures CheckFullHouse(s).None? && CheckThreeOfAKind(s).Some? ==> Shows(CheckThreeOfAKind(s).value, s)
    ensures CheckTwoPair(s).Some? ==> Shows(CheckTwoPair(s).value, s)
    ensures CheckThreeOfAKind(s).None? && CheckTwoPair(s).None? && CheckOnePair(s).Some? ==> Shows(CheckOnePair(s).value, s)
  {
    hide FirstCounted, Without, Descending, SingleCards, HandValue, Ranks, CheckFullHouse;
    if CheckFourOfAKind(s).Some? {
      FourSingles(s);
    }
    if CheckFullHouse(s).None? && CheckThreeOfAKind(s).Some? {
      ThreeSingles(s);
    }
    if CheckTwoPair(s).Some? {
      TwoPairSingles(s);
    }
    if CheckThreeOfAKind(s).None? && CheckTwoPair(s).None? && CheckOnePair(s).Some? {
      PairSingles(s);
    }
  }

  lemma PlainShow(s: seq<Card>)
    requires |s| == 5 && Descending(s)
    ensures CheckFullHouse(s).Some? ==> Shows(CheckFullHouse(s).value, s)
    ensures CheckFlush(s).Some? ==> Shows(CheckFlush(s).value, s)
    ensures Shows(CheckHighCard(s), s)
  {
    hide FirstCounted, Descending, HandValue, Ranks, IsFlush;
  }

  lemma SortedShows(s: seq<Card>)
    requires |s| == 5 && Descending(s)
    ensures Shows(EvaluateSorted(s), s)
  {
    hide Shows, CheckRoyalFlush, CheckStraightFlush, CheckFourOfAKind, CheckFullHouse, CheckFlush, CheckStraight,
         CheckThreeOfAKind, CheckTwoPair, CheckOnePair, CheckHighCard;
    RunsShow(s);
    CountedShow(s);
    PlainShow(s);
  }

  /** An evaluation shows the hand's own cards: a run in its order, anything else highest first. */
  lemma EvaluationShows(cards: seq<Card>)
    requires |cards| == 5
    ensures Shows(EvaluateFive(cards), cards)
  {
    hide EvaluateSorted, SingleCards, Runs;
    SortByRankSorts(cards);
    SortedShows(SortByRank(cards));
  }
}
