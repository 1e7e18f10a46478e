/** The checks on five sorted cards as they are run: loops over the cards and over a map from rank to count. */
module HandChecks {
  import opened Util
  import opened Cards
  import opened HandRanking
  import opened HandOrder

  // ----- loops over one hand -----

  method CalculateHandValue(rank: HandRank, significant: seq<Card>) returns (value: nat)
    requires |significant| <= 5
    ensures value == HandValue(rank, Ranks(significant))
  {
    hide Pow100, CardPart, PartFrom;
    value := rank.Number() * RANK_WEIGHT;
    PartFromStart(significant);
    for i := 0 to |significant|
      invariant value + PartFrom(significant, i) == HandValue(rank, Ranks(significant))
    {
      PartFromStep(significant, i);
      value := value + significant[i].rank * Pow100(4 - i);
    }
    PartFromEnd(significant);
  }

  /** What the cards from position `i` on add to the value. */
  ghost function PartFrom(cards: seq<Card>, i: nat): nat
    requires i <= |cards| <= 5
  {
    if i == |cards| then 0 else CardPart(Ranks(cards[i..]), 4 - i)
  }

  lemma PartFromStart(cards: seq<Card>)
    requires |cards| <= 5
    ensures PartFrom(cards, 0) == CardPart(Ranks(cards), 4)
  {
    assert cards[0..] == cards;
  }

  lemma PartFromEnd(cards: seq<Card>)
    requires |cards| <= 5
    ensures PartFrom(cards, |cards|) == 0
  {
  }

  lemma PartFromStep(cards: seq<Card>, i: nat)
    requires i < |cards| <= 5
    ensures PartFrom(cards, i) == cards[i].rank * Pow100(4 - i) + PartFrom(cards, i + 1)
  {
    hide Pow100;
    assert Ranks(cards[i..])[1..] == Ranks(cards[i + 1..]);
  }

  /** How often each rank occurs. */
  method GetRankCounts(cards: seq<Card>) returns (counts: map<nat, nat>)
    ensures forall r :: r in counts <==> Count(cards, r) > 0
    ensures forall r :: r in counts ==> counts[r] == Count(cards, r)
  {
    counts := map[];
    for i := 0 to |cards|
      invariant forall r :: r in counts <==> Count(cards[..i], r) > 0
      invariant forall r :: r in counts ==> counts[r] == Count(cards[..i], r)
    {
      assert cards[..i + 1] == cards[..i] + [cards[i]];
      forall r: nat
        ensures Count(cards[..i + 1], r) == Count(cards[..i], r) + if r == cards[i].rank then 1 else 0
      {
        CountAppend(cards[..i], cards[i], r);
      }
      var rank := cards[i].rank;
      counts := counts[rank := (if rank in counts then counts[rank] else 0) + 1];
    }
    assert cards[..|cards|] == cards;
  }

  lemma {:induction false} CountAppend(cards: seq<Card>, c: Card, r: nat)
    ensures Count(cards + [c], r) == Count(cards, r) + if r == c.rank then 1 else 0
  {
    if cards == [] {
      assert cards + [c] == [c];
      CountOfOne([c], r);
    } else {
      assert (cards + [c])[1..] == cards[1..] + [c];
      CountAppend(cards[1..], c, r);
    }
  }

  /** Five consecutive ranks, or the wheel. */
  method IsStraightHand(s: seq<Card>) returns (r: bool)
    requires |s| == 5
    ensures r == IsStraight(s)
  {
    var i := 1;
    while i < 5
      invariant 1 <= i <= 5
      invariant forall k :: 1 <= k < i ==> s[k].rank == s[k - 1].rank - 1
    {
      if s[i].rank as int != s[i - 1].rank - 1 {
        break;
      }
      if i == 4 {
        return true;
      }
      i := i + 1;
    }
    return IsWheel(s);
  }

  method IsFlushHand(s: seq<Card>) returns (r: bool)
    requires s != []
    ensures r == IsFlush(s)
  {
    for i := 0 to |s|
      invariant forall k :: 0 <= k < i ==> s[k].suit == s[0].suit
    {
      if s[i].suit != s[0].suit {
        assert s[i] in s && s[0] in s;
        return false;
      }
    }
    return true;
  }

  // ----- searching the counts -----

  method FindRank(s: seq<Card>, rank: nat) returns (c: Card)
    requires Count(s, rank) > 0
    ensures c in s && c.rank == rank
  {
    CountedIsHeld(s, rank);
    var i := 0;
    while s[i].rank != rank
      invariant i < |s| && forall k :: 0 <= k < i ==> s[k].rank != rank
      decreases |s| - i
    {
      assert exists k :: 0 <= k < |s| && s[k].rank == rank;
      i := i + 1;
    }
    c := s[i];
  }

  /** A card whose rank has this count, whichever such rank the map yields first. */
  method FindCounted(s: seq<Card>, n: nat) returns (r: Option<Card>)
    requires n > 0
    ensures r.Some? ==> r.value in s && Count(s, r.value.rank) == n
    ensures r.None? ==> forall c :: c in s ==> Count(s, c.rank) != n
  {
    var counts := GetRankCounts(s);
    var left := counts.Keys;
    while left != {}
      invariant left <= counts.Keys
      invariant forall rank :: rank in counts && rank !in left ==> counts[rank] != n
      decreases |left|
    {
      var rank :| rank in left;
      left := left - {rank};
      if counts[rank] == n {
        var c := FindRank(s, rank);
        return Some(c);
      }
    }
    forall c | c in s
      ensures Count(s, c.rank) != n
    {
      CountPositive(s, c);
      var rank: nat := c.rank;
      assert rank in counts;
    }
    return None;
  }

  lemma {:induction false} CountWithin(s: seq<Card>, rank: nat)
    ensures Count(s, rank) <= |s|
  {
    if s != [] {
      CountWithin(s[1..], rank);
    }
  }

  /** Among five cards only one rank can occur three or four times. */
  lemma OneRankOfMany(s: seq<Card>, n: nat, a: nat, b: nat)
    requires |s| == 5 && n >= 3 && Count(s, a) == n && Count(s, b) == n
    ensures a == b
  {
    CountWithout(s, a, b);
    CountWithin(Without(s, a), b);
  }

  lemma OnePairRank(s: seq<Card>, a: Card, b: Card)
    requires |s| == 5 && CheckTwoPair(s).None?
    requires a in s && b in s && Count(s, a.rank) == 2 && Count(s, b.rank) == 2
    ensures a.rank == b.rank
  {
    hide CheckTwoPair, Count;
    TwoPairIff(s);
  }

  /** In whatever order the counts are searched, the rank found is the one the first counted card has. */
  lemma AnyOrderFinds(s: seq<Card>, n: nat, c: Card)
    requires |s| == 5 && c in s && Count(s, c.rank) == n
    requires n >= 3 || (n == 2 && CheckTwoPair(s).None?)
    ensures FirstCounted(s, s, n).Some? && FirstCounted(s, s, n).value.rank == c.rank
  {
    hide CheckTwoPair, Count;
    var first := FirstCounted(s, s, n);
    if n >= 3 {
      OneRankOfMany(s, n, first.value.rank, c.rank);
    } else {
      OnePairRank(s, first.value, c);
    }
  }

  // ----- the checks -----

  method CheckRoyalFlushHand(s: seq<Card>) returns (r: Option<Evaluation>)
    requires |s| == 5
    ensures r == CheckRoyalFlush(s)
  {
    hide HandValue, IsFlush;
    var flush := IsFlushHand(s);
    if flush && Ranks(s) == [14, 13, 12, 11, 10] {
      var value := CalculateHandValue(RoyalFlush, s);
      return Some(Evaluation(RoyalFlush, s, [], value));
    }
    return None;
  }

  /** The evaluation of a straight, the wheel sorted with the ace last and counted by its five. */
  method StraightResult(rank: HandRank, s: seq<Card>) returns (r: Evaluation)
    requires |s| == 5
    ensures r == StraightEvaluation(rank, s)
  {
    hide HandValue;
    if IsWheel(s) {
      var five := Card(Hearts, 5);
      var value := CalculateHandValue(rank, [five]);
      assert Ranks([five]) == [5];
      return Evaluation(rank, s[1..] + [s[0]], [], value);
    }
    var value := CalculateHandValue(rank, [s[0]]);
    assert Ranks([s[0]]) == [s[0].rank];
    return Evaluation(rank, s, [], value);
  }

  method CheckStraightFlushHand(s: seq<Card>) returns (r: Option<Evaluation>)
    requires |s| == 5
    ensures r == CheckStraightFlush(s)
  {
    hide IsFlush, IsStraight, StraightEvaluation;
    var flush := IsFlushHand(s);
    var straight := IsStraightHand(s);
    if flush && straight {
      var e := StraightResult(StraightFlush, s);
      return Some(e);
    }
    return None;
  }

  method CheckFourOfAKindHand(s: seq<Card>) returns (r: Option<Evaluation>)
    requires |s| == 5
    ensures r == CheckFourOfAKind(s)
  {
    hide HandValue, Count;
    var four := FindCounted(s, 4);
    if four.None? {
      return None;
    }
    AnyOrderFinds(s, 4, four.value);
    var kicker := Without(s, four.value.rank)[0];
    var value := CalculateHandValue(FourOfAKind, [four.value, kicker]);
    assert Ranks([four.value, kicker]) == [four.value.rank, kicker.rank];
    return Some(Evaluation(FourOfAKind, s, [kicker], value));
  }

  /** The three and the two of a full house, from one pass over the counts. */
  method GetFullHouse(s: seq<Card>) returns (trips: Option<Card>, pair: Option<Card>)
    ensures trips.Some? ==> trips.value in s && Count(s, trips.value.rank) == 3
    ensures pair.Some? ==> pair.value in s && Count(s, pair.value.rank) == 2
    ensures trips.None? ==> forall c :: c in s ==> Count(s, c.rank) != 3
    ensures pair.None? ==> forall c :: c in s ==> Count(s, c.rank) != 2
  {
    hide Count;
    trips, pair := None, None;
    var counts := GetRankCounts(s);
    var left := counts.Keys;
    while left != {}
      invariant left <= counts.Keys
      invariant trips.Some? ==> trips.value in s && Count(s, trips.value.rank) == 3
      invariant pair.Some? ==> pair.value in s && Count(s, pair.value.rank) == 2
      invariant trips.None? ==> forall rank :: rank in counts && rank !in left ==> counts[rank] != 3
      invariant pair.None? ==> forall rank :: rank in counts && rank !in left ==> counts[rank] != 2
      decreases |left|
    {
      var rank :| rank in left;
      left := left - {rank};
      if counts[rank] == 3 {
        var c := FindRank(s, rank);
        trips := Some(c);
      } else if counts[rank] == 2 {
        var c := FindRank(s, rank);
        pair := Some(c);
      }
    }
    EveryRankCounted(s, counts);
  }

  lemma EveryRankCounted(s: seq<Card>, counts: map<nat, nat>)
    requires forall r :: r in counts <==> Count(s, r) > 0
    ensures forall c :: c in s ==> var rank: nat := c.rank; rank in counts
  {
    forall c | c in s
      ensures var rank: nat := c.rank; rank in counts
    {
      CountPositive(s, c);
    }
  }

  lemma FullHouseHasOnePair(s: seq<Card>, c: Card)
    requires |s| == 5 && c in s && Count(s, c.rank) == 3
    ensures forall a, b :: a in s && b in s && Count(s, a.rank) == 2 && Count(s, b.rank) == 2 ==> a.rank == b.rank
  {
    hide Count;
    forall a, b | a in s && b in s && Count(s, a.rank) == 2 && Count(s, b.rank) == 2
      ensures a.rank == b.rank
    {
      CountWithout(s, c.rank, a.rank);
      CountWithout(s, c.rank, b.rank);
      var rest := Without(s, c.rank);
      CountWithout(rest, a.rank, b.rank);
      CountWithin(Without(rest, a.rank), b.rank);
    }
  }

  method CheckFullHouseHand(s: seq<Card>) returns (r: Option<Evaluation>)
    requires |s| == 5
    ensures r == CheckFullHouse(s)
  {
    hide HandValue, Count;
    var trips, pair := GetFullHouse(s);
    if trips.None? || pair.None? {
      return None;
    }
    AnyOrderFinds(s, 3, trips.value);
    FullHouseHasOnePair(s, trips.value);
    var value := CalculateHandValue(FullHouse, [trips.value, pair.value]);
    assert Ranks([trips.value, pair.value]) == [trips.value.rank, pair.value.rank];
    return Some(Evaluation(FullHouse, s, [], value));
  }

  method CheckFlushHand(s: seq<Card>) returns (r: Option<Evaluation>)
    requires |s| == 5
    ensures r == CheckFlush(s)
  {
    hide HandValue, IsFlush;
    var flush := IsFlushHand(s);
    if flush {
      var value := CalculateHandValue(Flush, s);
      return Some(Evaluation(Flush, s, s[1..], value));
    }
    return None;
  }

  method CheckStraightHand(s: seq<Card>) returns (r: Option<Evaluation>)
    requires |s| == 5
    ensures r == CheckStraight(s)
  {
    hide IsStraight, StraightEvaluation;
    var straight := IsStraightHand(s);
    if straight {
      var e := StraightResult(Straight, s);
      return Some(e);
    }
    return None;
  }

  method CheckThreeOfAKindHand(s: seq<Card>) returns (r: Option<Evaluation>)
    requires |s| == 5
    ensures r == CheckThreeOfAKind(s)
  {
    hide HandValue, Count;
    var three := FindCounted(s, 3);
    if three.None? {
      return None;
    }
    AnyOrderFinds(s, 3, three.value);
    var kickers := Without(s, three.value.rank);
    assert Ranks([three.value] + kickers) == [three.value.rank as nat] + Ranks(kickers);
    var value := CalculateHandValue(ThreeOfAKind, [three.value] + kickers);
    return Some(Evaluation(ThreeOfAKind, s, kickers, value));
  }

  // ----- two pairs -----

  /** One card for each rank that occurs twice, in whatever order the ranks come. */
  ghost predicate Paired(s: seq<Card>, pairs: seq<Card>, done: set<nat>) {
    && (forall k :: 0 <= k < |pairs| ==>
          pairs[k] in s && Count(s, pairs[k].rank) == 2 && (var rank: nat := pairs[k].rank; rank in done))
    && (forall i, j :: 0 <= i < j < |pairs| ==> pairs[i].rank != pairs[j].rank)
    && (forall c :: c in s && Count(s, c.rank) == 2 && (var rank: nat := c.rank; rank in done)
                    ==> exists k :: 0 <= k < |pairs| && pairs[k].rank == c.rank)
  }

  method GetPairs(s: seq<Card>) returns (pairs: seq<Card>)
    ensures exists done: set<nat> :: Paired(s, pairs, done) && forall c :: c in s ==> (var rank: nat := c.rank; rank in done)
  {
    hide Count;
    pairs := [];
    var counts := GetRankCounts(s);
    var left := counts.Keys;
    while left != {}
      invariant left <= counts.Keys
      invariant Paired(s, pairs, counts.Keys - left)
      decreases |left|
    {
      var rank :| rank in left;
      ghost var done := counts.Keys - left;
      left := left - {rank};
      assert counts.Keys - left == done + {rank};
      if counts[rank] == 2 {
        var c := FindRank(s, rank);
        PairedPush(s, pairs, done, c);
        pairs := pairs + [c];
      }
    }
    EveryRankCounted(s, counts);
    assert Paired(s, pairs, counts.Keys - left);
  }

  lemma PairedPush(s: seq<Card>, pairs: seq<Card>, done: set<nat>, c: Card)
    requires Paired(s, pairs, done) && c in s && Count(s, c.rank) == 2
    requires var rank: nat := c.rank; rank !in done
    ensures var rank: nat := c.rank; Paired(s, pairs + [c], done + {rank})
  {
    hide Count;
    var rank: nat := c.rank;
    var after := pairs + [c];
    forall d | d in s && Count(s, d.rank) == 2 && (var r: nat := d.rank; r in done + {rank})
      ensures exists k :: 0 <= k < |after| && after[k].rank == d.rank
    {
      if d.rank == c.rank {
        assert after[|pairs|].rank == d.rank;
      } else {
        var k :| 0 <= k < |pairs| && pairs[k].rank == d.rank;
        assert after[k].rank == d.rank;
      }
    }
  }

  /** Two pairs leave one card, so a third pair does not fit and the ranks found are the ones the first search finds. */
  lemma PairsFound(s: seq<Card>, pairs: seq<Card>, done: set<nat>)
    requires |s| == 5 && Descending(s) && Paired(s, pairs, done)
    requires forall c :: c in s ==> (var rank: nat := c.rank; rank in done)
    ensures |pairs| == 2 <==> CheckTwoPair(s).Some?
    ensures |pairs| == 2 ==>
              var (high, low) := if pairs[0].rank > pairs[1].rank then (pairs[0], pairs[1]) else (pairs[1], pairs[0]);
              && FirstCounted(s, s, 2).Some? && FirstCounted(s, s, 2).value.rank == high.rank
              && FirstCounted(s, Without(s, high.rank), 2).Some?
              && FirstCounted(s, Without(s, high.rank), 2).value.rank == low.rank
  {
    hide CheckTwoPair, Count, HasTwoPairs;
    TwoPairIff(s);
    PairsAreListed(s, pairs, done);
    if |pairs| >= 2 {
      var a, b := pairs[0], pairs[1];
      TwoPairRanks(s, if a.rank > b.rank then a else b, if a.rank > b.rank then b else a);
    }
  }

  lemma PairsAreListed(s: seq<Card>, pairs: seq<Card>, done: set<nat>)
    requires |s| == 5 && Paired(s, pairs, done)
    requires forall c :: c in s ==> (var rank: nat := c.rank; rank in done)
    ensures |pairs| <= 2
    ensures |pairs| == 2 <==> HasTwoPairs(s)
  {
    hide HasTwoPairs, Count, Paired;
    AtMostTwoPairs(s, pairs, done);
    if HasTwoPairs(s) {
      BothPairsListed(s, pairs, done);
    }
  }

  lemma AtMostTwoPairs(s: seq<Card>, pairs: seq<Card>, done: set<nat>)
    requires |s| == 5 && Paired(s, pairs, done)
    ensures |pairs| <= 2
    ensures |pairs| == 2 ==> HasTwoPairs(s)
  {
    hide Count;
    if |pairs| >= 2 {
      var a, b := pairs[0], pairs[1];
      assert a in s && b in s && a.rank != b.rank;
      if |pairs| >= 3 {
        ThirdPairDoesNotFit(s, a.rank, b.rank, pairs[2].rank);
      }
    }
  }

  lemma BothPairsListed(s: seq<Card>, pairs: seq<Card>, done: set<nat>)
    requires Paired(s, pairs, done) && HasTwoPairs(s)
    requires forall c :: c in s ==> (var rank: nat := c.rank; rank in done)
    ensures |pairs| >= 2
  {
    hide Count;
    var c, d :| c in s && d in s && c.rank != d.rank && Count(s, c.rank) == 2 && Count(s, d.rank) == 2;
    var i :| 0 <= i < |pairs| && pairs[i].rank == c.rank;
    var j :| 0 <= j < |pairs| && pairs[j].rank == d.rank;
    assert i != j;
  }

  lemma ThirdPairDoesNotFit(s: seq<Card>, a: nat, b: nat, c: nat)
    requires |s| == 5 && a != b && Count(s, a) == 2 && Count(s, b) == 2 && c != a && c != b
    ensures Count(s, c) <= 1
  {
    hide Count;
    CountWithout(s, a, b);
    CountWithout(s, a, c);
    CountWithout(Without(s, a), b, c);
    CountWithin(Without(Without(s, a), b), c);
  }

  lemma TwoPairRanks(s: seq<Card>, high: Card, low: Card)
    requires |s| == 5 && Descending(s) && high in s && low in s && high.rank > low.rank
    requires Count(s, high.rank) == 2 && Count(s, low.rank) == 2
    ensures FirstCounted(s, s, 2).Some? && FirstCounted(s, s, 2).value.rank == high.rank
    ensures FirstCounted(s, Without(s, high.rank), 2).Some?
    ensures FirstCounted(s, Without(s, high.rank), 2).value.rank == low.rank
  {
    hide Count;
    FirstCountedIsHighest(s, s, 2);
    var first := FirstCounted(s, s, 2).value;
    if first.rank != high.rank {
      ThirdPairDoesNotFit(s, high.rank, low.rank, first.rank);
    }
    assert low in Without(s, high.rank);
    var second := FirstCounted(s, Without(s, high.rank), 2).value;
    if second.rank != low.rank {
      ThirdPairDoesNotFit(s, high.rank, low.rank, second.rank);
    }
  }

  method CheckTwoPairHand(s: seq<Card>) returns (r: Option<Evaluation>)
    requires |s| == 5 && Descending(s)
    ensures r == CheckTwoPair(s)
  {
    hide CheckTwoPair, Count, Without;
    var pairs := GetPairs(s);
    ghost var done: set<nat> :| Paired(s, pairs, done) && forall c :: c in s ==> (var rank: nat := c.rank; rank in done);
    PairsFound(s, pairs, done);
    if |pairs| != 2 {
      return None;
    }
    var high, low := pairs[0], pairs[1];
    if low.rank > high.rank {
      high, low := low, high;
    }
    var e := TwoPairResult(s, high, low);
    return Some(e);
  }

  method TwoPairResult(s: seq<Card>, high: Card, low: Card) returns (e: Evaluation)
    requires |s| == 5 && FirstCounted(s, s, 2).Some? && FirstCounted(s, s, 2).value.rank == high.rank
    requires FirstCounted(s, Without(s, high.rank), 2).Some?
    requires FirstCounted(s, Without(s, high.rank), 2).value.rank == low.rank
    ensures CheckTwoPair(s) == Some(e)
  {
    hide HandValue, Count, FirstCounted, Without;
    CountWithout(s, high.rank, low.rank);
    var kicker := Without(Without(s, high.rank), low.rank)[0];
    var value := CalculateHandValue(TwoPair, [high, low, kicker]);
    assert Ranks([high, low, kicker]) == [high.rank, low.rank, kicker.rank];
    return Evaluation(TwoPair, s, [kicker], value);
  }

  /** Run only when the cards hold no two pairs; with two, either might be found. */
  method CheckOnePairHand(s: seq<Card>) returns (r: Option<Evaluation>)
    requires |s| == 5
    ensures CheckTwoPair(s).None? ==> r == CheckOnePair(s)
    ensures r.None? <==> CheckOnePair(s).None?
  {
    hide HandValue, Count, CheckTwoPair;
    var pair := FindCounted(s, 2);
    if pair.None? {
      return None;
    }
    if CheckTwoPair(s).None? {
      AnyOrderFinds(s, 2, pair.value);
    }
    var kickers := Without(s, pair.value.rank);
    assert Ranks([pair.value] + kickers) == [pair.value.rank as nat] + Ranks(kickers);
    var value := CalculateHandValue(OnePair, [pair.value] + kickers);
    return Some(Evaluation(OnePair, s, kickers, value));
  }

  method CheckHighCardHand(s: seq<Card>) returns (r: Evaluation)
    requires |s| == 5
    ensures r == CheckHighCard(s)
  {
    hide HandValue;
    var value := CalculateHandValue(HighCard, s);
    return Evaluation(HighCard, s, s[1..], value);
  }

  // ----- the cascade -----

  method EvaluateSortedHand(s: seq<Card>) returns (e: Evaluation)
    requires |s| == 5 && Descending(s)
    ensures e == EvaluateSorted(s)
  {
    hide CheckRoyalFlush, CheckStraightFlush, CheckFourOfAKind, CheckFullHouse, CheckFlush, CheckStraight,
         CheckThreeOfAKind, CheckTwoPair, CheckOnePair, CheckHighCard, Descending;
    var r := CheckRoyalFlushHand(s);
    if r.Some? { return r.value; }
    r := CheckStraightFlushHand(s);
    if r.Some? { return r.value; }
    r := CheckFourOfAKindHand(s);
    if r.Some? { return r.value; }
    r := CheckFullHouseHand(s);
    if r.Some? { return r.value; }
    r := CheckFlushHand(s);
    if r.Some? { return r.value; }
    r := CheckStraightHand(s);
    if r.Some? { return r.value; }
    r := CheckThreeOfAKindHand(s);
    if r.Some? { return r.value; }
    r := CheckTwoPairHand(s);
    if r.Some? { return r.value; }
    r := CheckOnePairHand(s);
    if r.Some? { return r.value; }
    e := CheckHighCardHand(s);
  }
}
