/** What the checks mean: the categories as properties of the cards, and values as lexicographic order. */
module HandOrder {
  import opened Util
  import opened Cards
  import opened HandRanking

  // ----- the categories, independent of card order -----

  ghost predicate HasCount(cards: seq<Card>, n: nat) {
    exists c :: c in cards && Count(cards, c.rank) == n
  }

  ghost predicate HasTwoPairs(cards: seq<Card>) {
    exists c, d :: c in cards && d in cards && c.rank != d.rank
                && Count(cards, c.rank) == 2 && Count(cards, d.rank) == 2
  }

  /** The ranks of a straight to `high`; the ace counts as one below the two. */
  function RunRanks(high: nat): seq<nat>
    requires 5 <= high
  {
    if high == 5 then [14, 5, 4, 3, 2] else [high, high - 1, high - 2, high - 3, high - 4]
  }

  ghost predicate RunsTo(cards: seq<Card>, high: nat) {
    5 <= high <= 14 && multiset(Ranks(cards)) == multiset(RunRanks(high))
  }

  /** What it takes for five cards to make each category, whatever else they make. */
  ghost predicate Makes(cards: seq<Card>, rank: HandRank) {
    match rank
    case RoyalFlush => IsFlush(cards) && RunsTo(cards, 14)
    case StraightFlush => IsFlush(cards) && exists h :: RunsTo(cards, h)
    case FourOfAKind => HasCount(cards, 4)
    case FullHouse => HasCount(cards, 3) && HasCount(cards, 2)
    case Flush => IsFlush(cards)
    case Straight => exists h :: RunsTo(cards, h)
    case ThreeOfAKind => HasCount(cards, 3)
    case TwoPair => HasTwoPairs(cards)
    case OnePair => HasCount(cards, 2)
    case HighCard => true
  }

  // ----- order does not matter -----

  /** How often a rank occurs is the sum over its four cards. */
  lemma {:induction false} CountBySuit(cards: seq<Card>, rank: Rank)
    ensures Count(cards, rank)
         == multiset(cards)[Card(Hearts, rank)] + multiset(cards)[Card(Diamonds, rank)]
          + multiset(cards)[Card(Clubs, rank)] + multiset(cards)[Card(Spades, rank)]
  {
    if cards != [] {
      CountBySuit(cards[1..], rank);
      assert cards == [cards[0]] + cards[1..];
      assert multiset(cards) == multiset{cards[0]} + multiset(cards[1..]);
      assert cards[0] == Card(cards[0].suit, cards[0].rank);
      match cards[0].suit {
        case Hearts =>
        case Diamonds =>
        case Clubs =>
        case Spades =>
      }
    }
  }

  lemma {:induction false} CountOfNoRank(cards: seq<Card>, rank: nat)
    requires !(2 <= rank <= 14)
    ensures Count(cards, rank) == 0
  {
    if cards != [] {
      CountOfNoRank(cards[1..], rank);
    }
  }

  lemma CountIgnoresOrder(cards: seq<Card>, other: seq<Card>, rank: nat)
    requires multiset(cards) == multiset(other)
    ensures Count(cards, rank) == Count(other, rank)
  {
    if 2 <= rank <= 14 {
      CountBySuit(cards, rank);
      CountBySuit(other, rank);
    } else {
      CountOfNoRank(cards, rank);
      CountOfNoRank(other, rank);
    }
  }

  lemma {:induction false} CountIsMultiplicity(cards: seq<Card>, rank: nat)
    ensures Count(cards, rank) == multiset(Ranks(cards))[rank]
  {
    if cards != [] {
      CountIsMultiplicity(cards[1..], rank);
      assert Ranks(cards) == [cards[0].rank as nat] + Ranks(cards[1..]);
    }
  }

  lemma RanksIgnoreOrder(cards: seq<Card>, other: seq<Card>)
    requires multiset(cards) == multiset(other)
    ensures multiset(Ranks(cards)) == multiset(Ranks(other))
  {
    forall r: nat
      ensures multiset(Ranks(cards))[r] == multiset(Ranks(other))[r]
    {
      CountIgnoresOrder(cards, other, r);
      CountIsMultiplicity(cards, r);
      CountIsMultiplicity(other, r);
    }
  }

  lemma SameMembers(cards: seq<Card>, other: seq<Card>)
    requires multiset(cards) == multiset(other)
    ensures forall c :: c in cards <==> c in other
  {
    forall c
      ensures c in cards <==> c in other
    {
      assert c in cards <==> c in multiset(cards);
      assert c in other <==> c in multiset(other);
    }
  }

  lemma CountsIgnoreOrder(cards: seq<Card>, other: seq<Card>)
    requires multiset(cards) == multiset(other)
    ensures forall n :: HasCount(cards, n) ==> HasCount(other, n)
    ensures HasTwoPairs(cards) ==> HasTwoPairs(other)
  {
    SameMembers(cards, other);
    forall r: nat
      ensures Count(cards, r) == Count(other, r)
    {
      CountIgnoresOrder(cards, other, r);
    }
  }

  lemma MakesIgnoresOrder(cards: seq<Card>, other: seq<Card>, rank: HandRank)
    requires multiset(cards) == multiset(other)
    ensures Makes(cards, rank) == Makes(other, rank)
  {
    hide HasCount, HasTwoPairs;
    SameMembers(cards, other);
    RanksIgnoreOrder(cards, other);
    CountsIgnoreOrder(cards, other);
    CountsIgnoreOrder(other, cards);
    assert forall h :: RunsTo(cards, h) == RunsTo(other, h);
  }

  // ----- descending sequences -----

  ghost predicate DescendingRanks(rs: seq<nat>) {
    forall i, j :: 0 <= i < j < |rs| ==> rs[i] >= rs[j]
  }

  lemma TailMultiset(xs: seq<nat>)
    requires xs != []
    ensures multiset(xs[1..]) == multiset(xs) - multiset{xs[0]}
  {
    assert xs == [xs[0]] + xs[1..];
  }

  lemma SameFirst(xs: seq<nat>, ys: seq<nat>)
    requires DescendingRanks(xs) && DescendingRanks(ys)
    requires multiset(xs) == multiset(ys) && xs != [] && ys != []
    ensures xs[0] == ys[0]
  {
    assert xs[0] in multiset(ys) && ys[0] in multiset(xs);
    assert xs[0] in ys && ys[0] in xs;
  }

  lemma {:induction false} DescendingIsUnique(xs: seq<nat>, ys: seq<nat>)
    requires DescendingRanks(xs) && DescendingRanks(ys)
    requires multiset(xs) == multiset(ys)
    ensures xs == ys
  {
    assert |xs| == |multiset(xs)| == |multiset(ys)| == |ys|;
    if xs != [] {
      SameFirst(xs, ys);
      TailMultiset(xs);
      TailMultiset(ys);
      DescendingIsUnique(xs[1..], ys[1..]);
      assert xs == [xs[0]] + xs[1..] && ys == [ys[0]] + ys[1..];
    }
  }

  // ----- the checks on sorted cards -----

  lemma StraightIsRun(s: seq<Card>)
    requires |s| == 5 && IsStraight(s)
    ensures IsWheel(s) || s[0].rank >= 6
    ensures RunsTo(s, if IsWheel(s) then 5 else s[0].rank)
  {
    if !IsWheel(s) {
      assert s[1].rank == s[0].rank - 1;
      assert s[2].rank == s[1].rank - 1;
      assert s[3].rank == s[2].rank - 1;
      assert s[4].rank == s[3].rank - 1;
    }
    assert Ranks(s) == RunRanks(if IsWheel(s) then 5 else s[0].rank);
  }

  lemma RunIsStraight(s: seq<Card>, h: nat)
    requires |s| == 5 && Descending(s) && RunsTo(s, h)
    ensures IsStraight(s) && Ranks(s) == RunRanks(h)
  {
    hide RunRanks, IsStraight;
    RunDescends(h);
    DescendingIsUnique(Ranks(s), RunRanks(h));
    RanksAreRun(s, h);
  }

  lemma RunDescends(h: nat)
    requires 5 <= h
    ensures DescendingRanks(RunRanks(h))
  {
  }

  lemma RanksAreRun(s: seq<Card>, h: nat)
    requires |s| == 5 && 5 <= h && Ranks(s) == RunRanks(h)
    ensures IsStraight(s)
  {
    if h != 5 {
      assert s[0].rank == h && s[1].rank == h - 1 && s[2].rank == h - 2 && s[3].rank == h - 3 && s[4].rank == h - 4 by {
        assert s[0].rank == Ranks(s)[0] && s[1].rank == Ranks(s)[1] && s[2].rank == Ranks(s)[2]
            && s[3].rank == Ranks(s)[3] && s[4].rank == Ranks(s)[4];
      }
    }
  }

  lemma StraightIffRun(s: seq<Card>)
    requires |s| == 5 && Descending(s)
    ensures IsStraight(s) <==> exists h :: RunsTo(s, h)
  {
    hide RunsTo, IsStraight;
    if IsStraight(s) {
      StraightIsRun(s);
    }
    if h :| RunsTo(s, h) {
      RunIsStraight(s, h);
    }
  }

  lemma RoyalIffRun(s: seq<Card>)
    requires |s| == 5 && Descending(s)
    ensures IsRoyal(s) <==> IsFlush(s) && RunsTo(s, 14)
  {
    hide IsFlush;
    if RunsTo(s, 14) {
      RunDescends(14);
      DescendingIsUnique(Ranks(s), RunRanks(14));
    }
  }

  lemma CountedIff(s: seq<Card>, n: nat)
    ensures FirstCounted(s, s, n).Some? <==> HasCount(s, n)
  {
  }

  lemma TwoPairIff(s: seq<Card>)
    requires |s| == 5
    ensures CheckTwoPair(s).Some? <==> HasTwoPairs(s)
  {
    if HasTwoPairs(s) {
      var c, d :| c in s && d in s && c.rank != d.rank && Count(s, c.rank) == 2 && Count(s, d.rank) == 2;
      var high := FirstCounted(s, s, 2).value;
      var other := if c.rank == high.rank then d else c;
      assert other in Without(s, high.rank);
    }
  }

  /** What the cascade answers, given which checks succeed. */
  ghost predicate Highest(cards: seq<Card>, rank: HandRank) {
    && Makes(cards, rank)
    && forall r: HandRank :: r.Number() > rank.Number() ==> !Makes(cards, r)
  }

  function CheckOf(s: seq<Card>, rank: HandRank): Option<Evaluation>
    requires |s| == 5
  {
    match rank
    case RoyalFlush => CheckRoyalFlush(s)
    case StraightFlush => CheckStraightFlush(s)
    case FourOfAKind => CheckFourOfAKind(s)
    case FullHouse => CheckFullHouse(s)
    case Flush => CheckFlush(s)
    case Straight => CheckStraight(s)
    case ThreeOfAKind => CheckThreeOfAKind(s)
    case TwoPair => CheckTwoPair(s)
    case OnePair => CheckOnePair(s)
    case HighCard => Some(CheckHighCard(s))
  }

  lemma CheckNamesItsRank(s: seq<Card>, rank: HandRank)
    requires |s| == 5
    ensures CheckOf(s, rank).Some? ==> CheckOf(s, rank).value.rank == rank
  {
    hide IsStraight, IsRoyal, IsFlush, IsWheel, HandValue;
  }

  lemma CascadeTakesHighest(s: seq<Card>)
    requires |s| == 5
    ensures CheckOf(s, EvaluateSorted(s).rank) == Some(EvaluateSorted(s))
    ensures forall r: HandRank :: r.Number() > EvaluateSorted(s).rank.Number() ==> CheckOf(s, r) == None
  {
    hide CheckRoyalFlush, CheckStraightFlush, CheckFourOfAKind, CheckFullHouse, CheckFlush, CheckStraight,
         CheckThreeOfAKind, CheckTwoPair, CheckOnePair, CheckHighCard;
    forall r
      ensures CheckOf(s, r).Some? ==> CheckOf(s, r).value.rank == r
    {
      CheckNamesItsRank(s, r);
    }
    assert CheckOf(s, RoyalFlush) == CheckRoyalFlush(s);
    assert CheckOf(s, StraightFlush) == CheckStraightFlush(s);
    assert CheckOf(s, FourOfAKind) == CheckFourOfAKind(s);
    assert CheckOf(s, FullHouse) == CheckFullHouse(s);
    assert CheckOf(s, Flush) == CheckFlush(s);
    assert CheckOf(s, Straight) == CheckStraight(s);
    assert CheckOf(s, ThreeOfAKind) == CheckThreeOfAKind(s);
    assert CheckOf(s, TwoPair) == CheckTwoPair(s);
    assert CheckOf(s, OnePair) == CheckOnePair(s);
    assert CheckOf(s, HighCard) == Some(CheckHighCard(s));
  }

  lemma CheckIffMakes(s: seq<Card>, rank: HandRank)
    requires |s| == 5 && Descending(s)
    ensures CheckOf(s, rank).Some? <==> Makes(s, rank)
  {
    hide CheckTwoPair, IsStraight, IsRoyal, IsFlush, RunsTo, HasCount, HasTwoPairs, HandValue, Without;
    match rank {
      case RoyalFlush => RoyalIffRun(s);
      case StraightFlush => StraightIffRun(s);
      case FourOfAKind => CountedIff(s, 4);
      case FullHouse => CountedIff(s, 3); CountedIff(s, 2);
      case Flush =>
      case Straight => StraightIffRun(s);
      case ThreeOfAKind => CountedIff(s, 3);
      case TwoPair => TwoPairIff(s);
      case OnePair => CountedIff(s, 2);
      case HighCard =>
    }
  }

  lemma SortedIsHighest(s: seq<Card>)
    requires |s| == 5 && Descending(s)
    ensures Highest(s, EvaluateSorted(s).rank)
  {
    hide CheckOf, EvaluateSorted, Makes, Descending;
    CascadeTakesHighest(s);
    forall r
      ensures CheckOf(s, r).Some? <==> Makes(s, r)
    {
      CheckIffMakes(s, r);
    }
  }

  /** The cascade answers exactly the highest category the five cards make. */
  lemma ClassificationIsExact(cards: seq<Card>, rank: HandRank)
    requires |cards| == 5
    ensures EvaluateFive(cards).rank == rank <==> Highest(cards, rank)
  {
    hide EvaluateSorted, Makes;
    SortByRankSorts(cards);
    var s := SortByRank(cards);
    SortedIsHighest(s);
    forall r
      ensures Makes(cards, r) == Makes(s, r)
    {
      MakesIgnoresOrder(cards, s, r);
    }
    NumbersDiffer(rank, EvaluateFive(cards).rank);
  }

  lemma NumbersDiffer(a: HandRank, b: HandRank)
    ensures a == b || a.Number() < b.Number() || b.Number() < a.Number()
  {
  }

  // ----- the significant ranks -----

  /** The distinct ranks of the cards, the more frequent first, and the higher first among equally frequent. */
  ghost predicate Grouped(cards: seq<Card>, ranks: seq<nat>) {
    && (forall k :: 0 <= k < |ranks| ==> Count(cards, ranks[k]) > 0)
    && (forall c :: c in cards ==> c.rank as nat in ranks)
    && (forall i, j :: 0 <= i < j < |ranks|
          ==> || Count(cards, ranks[i]) > Count(cards, ranks[j])
              || (Count(cards, ranks[i]) == Count(cards, ranks[j]) && ranks[i] > ranks[j]))
  }

  /** The ranks that decide between two hands of this category, most important first. */
  ghost predicate Decides(cards: seq<Card>, rank: HandRank, ranks: seq<nat>) {
    match rank
    case Straight => |ranks| == 1 && RunsTo(cards, ranks[0])
    case StraightFlush => |ranks| == 1 && RunsTo(cards, ranks[0])
    case RoyalFlush => DescendingRanks(ranks) && multiset(ranks) == multiset(Ranks(cards))
    case Flush => DescendingRanks(ranks) && multiset(ranks) == multiset(Ranks(cards))
    case HighCard => DescendingRanks(ranks) && multiset(ranks) == multiset(Ranks(cards))
    case _ => Grouped(cards, ranks)
  }

  lemma GroupedIgnoresOrder(cards: seq<Card>, other: seq<Card>, ranks: seq<nat>)
    requires multiset(cards) == multiset(other)
    ensures Grouped(cards, ranks) ==> Grouped(other, ranks)
  {
    SameMembers(cards, other);
    forall r: nat
      ensures Count(cards, r) == Count(other, r)
    {
      CountIgnoresOrder(cards, other, r);
    }
  }

  lemma DecidesIgnoresOrder(cards: seq<Card>, other: seq<Card>, rank: HandRank, ranks: seq<nat>)
    requires multiset(cards) == multiset(other)
    ensures Decides(cards, rank, ranks) ==> Decides(other, rank, ranks)
  {
    hide Grouped;
    RanksIgnoreOrder(cards, other);
    GroupedIgnoresOrder(cards, other, ranks);
  }

  /** The ranks the checks hand to the value calculation. */
  function KeyRanks(s: seq<Card>, rank: HandRank): seq<nat>
    requires |s| == 5 && CheckOf(s, rank).Some?
  {
    match rank
    case Straight => [if IsWheel(s) then 5 else s[0].rank]
    case StraightFlush => [if IsWheel(s) then 5 else s[0].rank]
    case FourOfAKind =>
      var four := FirstCounted(s, s, 4).value.rank;
      [four, Without(s, four)[0].rank]
    case FullHouse => [FirstCounted(s, s, 3).value.rank, FirstCounted(s, s, 2).value.rank]
    case ThreeOfAKind =>
      var three := FirstCounted(s, s, 3).value.rank;
      [three as nat] + Ranks(Without(s, three))
    case TwoPair =>
      var high := FirstCounted(s, s, 2).value.rank;
      var others := Without(s, high);
      var low := FirstCounted(s, others, 2).value.rank;
      CountWithout(s, high, low);
      [high, low, Without(others, low)[0].rank]
    case OnePair =>
      var pair := FirstCounted(s, s, 2).value.rank;
      [pair as nat] + Ranks(Without(s, pair))
    case _ => Ranks(s)
  }

  /** How many ranks decide within a category. */
  function KeyLength(rank: HandRank): nat {
    match rank
    case Straight => 1
    case StraightFlush => 1
    case FourOfAKind => 2
    case FullHouse => 2
    case ThreeOfAKind => 3
    case TwoPair => 3
    case OnePair => 4
    case _ => 5
  }

  lemma ValueUsesKey(s: seq<Card>, rank: HandRank)
    requires |s| == 5 && CheckOf(s, rank).Some?
    ensures |KeyRanks(s, rank)| == KeyLength(rank)
    ensures CheckOf(s, rank).value.value == HandValue(rank, KeyRanks(s, rank))
  {
    hide IsStraight, IsRoyal, IsFlush, IsWheel, HandValue;
  }

  lemma {:induction false} WithoutDescends(s: seq<Card>, rank: nat)
    requires Descending(s)
    ensures Descending(Without(s, rank))
  {
    if s != [] {
      WithoutDescends(s[1..], rank);
      var rest := Without(s[1..], rank);
      assert forall c :: c in rest ==> c in s[1..] && c.rank <= s[0].rank;
    }
  }

  lemma {:induction false} FirstCountedIsHighest(s: seq<Card>, rest: seq<Card>, n: nat)
    requires Descending(rest) && FirstCounted(s, rest, n).Some?
    ensures forall c :: c in rest && Count(s, c.rank) == n ==> c.rank <= FirstCounted(s, rest, n).value.rank
  {
    assert rest == [rest[0]] + rest[1..];
    if Count(s, rest[0].rank) != n {
      FirstCountedIsHighest(s, rest[1..], n);
    }
  }

  lemma {:induction false} CountPositive(cards: seq<Card>, c: Card)
    requires c in cards
    ensures Count(cards, c.rank) > 0
  {
    if cards[0] != c {
      CountPositive(cards[1..], c);
    }
  }

  /** The cards left after taking one rank out occur as often as before. */
  lemma RestCounts(s: seq<Card>, rank: nat)
    ensures forall c :: c in Without(s, rank) ==> Count(s, c.rank) == Count(Without(s, rank), c.rank)
  {
    forall c | c in Without(s, rank)
      ensures Count(s, c.rank) == Count(Without(s, rank), c.rank)
    {
      CountWithout(s, rank, c.rank);
    }
  }

  lemma CountOfOne(cards: seq<Card>, r: nat)
    requires |cards| == 1
    ensures Count(cards, r) == if cards[0].rank == r then 1 else 0
  {
    assert Count(cards[1..], r) == 0;
  }

  lemma CountOfTwo(cards: seq<Card>, r: nat)
    requires |cards| == 2
    ensures Count(cards, r) == (if cards[0].rank == r then 1 else 0) + (if cards[1].rank == r then 1 else 0)
  {
    CountOfOne(cards[1..], r);
  }

  lemma CountOfThree(cards: seq<Card>, r: nat)
    requires |cards| == 3
    ensures Count(cards, r) == (if cards[0].rank == r then 1 else 0) + (if cards[1].rank == r then 1 else 0)
                             + (if cards[2].rank == r then 1 else 0)
  {
    CountOfTwo(cards[1..], r);
  }

  lemma FourGrouped(s: seq<Card>)
    requires |s| == 5 && CheckOf(s, FourOfAKind).Some?
    ensures Grouped(s, KeyRanks(s, FourOfAKind))
  {
    var four := FirstCounted(s, s, 4).value.rank;
    var rest := Without(s, four);
    RestCounts(s, four);
    CountOfOne(rest, rest[0].rank);
    assert rest[0] in rest;
  }

  lemma FullHouseGrouped(s: seq<Card>)
    requires |s| == 5 && CheckOf(s, FullHouse).Some?
    ensures Grouped(s, KeyRanks(s, FullHouse))
  {
    hide Count, Without;
    ThreeAndTwoAreAll(s, FirstCounted(s, s, 3).value.rank, FirstCounted(s, s, 2).value.rank);
  }

  lemma ThreeAndTwoAreAll(s: seq<Card>, three: nat, two: nat)
    requires |s| == 5 && Count(s, three) == 3 && Count(s, two) == 2
    ensures forall c :: c in s ==> c.rank == three || c.rank == two
  {
    hide Count;
    CountWithout(s, three, two);
    var none := Without(Without(s, three), two);
    assert none == [];
    forall c | c in s
      ensures c.rank == three || c.rank == two
    {
      assert c.rank == three || c.rank == two || c in none;
    }
  }

  /** Kickers that all differ are each counted once and stand in strictly descending order. */
  ghost predicate SingleKickers(s: seq<Card>, rest: seq<Card>) {
    && (forall k :: 0 <= k < |rest| ==> Count(s, rest[k].rank) == 1)
    && (forall i, j :: 0 <= i < j < |rest| ==> rest[i].rank > rest[j].rank)
  }

  lemma EveryRankListed(s: seq<Card>, top: Rank)
    ensures forall c :: c in s ==> c.rank as nat in [top as nat] + Ranks(Without(s, top))
  {
    hide Count;
    var rest := Without(s, top);
    var ranks := [top as nat] + Ranks(rest);
    forall c | c in s
      ensures c.rank as nat in ranks
    {
      if c.rank == top {
        assert ranks[0] == c.rank;
      } else {
        var k :| 0 <= k < |rest| && rest[k] == c;
        assert ranks[k + 1] == c.rank;
      }
    }
  }

  lemma GroupedWithKickers(s: seq<Card>, top: Rank)
    requires Count(s, top) >= 2 && SingleKickers(s, Without(s, top))
    ensures Grouped(s, [top as nat] + Ranks(Without(s, top)))
  {
    hide Count, Without;
    EveryRankListed(s, top);
    var rest := Without(s, top);
    var ranks := [top as nat] + Ranks(rest);
    assert forall k :: 0 < k < |ranks| ==> ranks[k] == rest[k - 1].rank;
  }

  lemma ThreeGrouped(s: seq<Card>)
    requires |s| == 5 && Descending(s) && CheckOf(s, ThreeOfAKind).Some? && !HasCount(s, 2)
    ensures Grouped(s, KeyRanks(s, ThreeOfAKind))
  {
    hide Grouped, HandValue;
    var three := FirstCounted(s, s, 3).value.rank;
    ThreeKickers(s, three);
    GroupedWithKickers(s, three);
  }

  lemma ThreeKickers(s: seq<Card>, three: Rank)
    requires |s| == 5 && Descending(s) && Count(s, three) == 3 && !HasCount(s, 2)
    ensures SingleKickers(s, Without(s, three))
  {
    hide Count, Without;
    var rest := Without(s, three);
    WithoutDescends(s, three);
    RestCounts(s, three);
    assert rest[0] in rest && rest[1] in rest;
    CountOfTwo(rest, rest[0].rank);
    CountOfTwo(rest, rest[1].rank);
  }

  lemma PairGrouped(s: seq<Card>)
    requires |s| == 5 && Descending(s) && CheckOf(s, OnePair).Some? && !HasCount(s, 3) && !HasTwoPairs(s)
    ensures Grouped(s, KeyRanks(s, OnePair))
  {
    hide Grouped, HandValue;
    var two := FirstCounted(s, s, 2).value;
    PairKickers(s, two);
    GroupedWithKickers(s, two.rank);
  }

  lemma PairKickers(s: seq<Card>, two: Card)
    requires |s| == 5 && Descending(s) && !HasCount(s, 3) && !HasTwoPairs(s)
    requires two in s && Count(s, two.rank) == 2
    ensures SingleKickers(s, Without(s, two.rank))
  {
    hide Count, Without, HasCount, HasTwoPairs;
    var rest := Without(s, two.rank);
    WithoutDescends(s, two.rank);
    RestCounts(s, two.rank);
    forall k | 0 <= k < 3
      ensures Count(s, rest[k].rank) == 1
    {
      assert rest[k] in rest;
      CountOfThree(rest, rest[k].rank);
      CountOfKicker(s, two, rest[k]);
    }
    CountOfThree(rest, rest[0].rank);
    CountOfThree(rest, rest[1].rank);
    assert rest[0] in rest && rest[1] in rest;
  }

  lemma CountOfKicker(s: seq<Card>, pair: Card, kicker: Card)
    requires !HasCount(s, 3) && !HasTwoPairs(s)
    requires pair in s && kicker in s && pair.rank != kicker.rank && Count(s, pair.rank) == 2
    ensures Count(s, kicker.rank) != 2 && Count(s, kicker.rank) != 3
  {
  }

  lemma TwoPairGrouped(s: seq<Card>)
    requires |s| == 5 && Descending(s) && CheckOf(s, TwoPair).Some?
    ensures Grouped(s, KeyRanks(s, TwoPair))
  {
    hide Grouped, HandValue, Without, Count;
    var high := FirstCounted(s, s, 2).value;
    var low := FirstCounted(s, Without(s, high.rank), 2).value;
    FirstCountedIsHighest(s, s, 2);
    TwoPairKicker(s, high.rank, low.rank);
  }

  lemma TwoPairKicker(s: seq<Card>, high: Rank, low: Rank)
    requires |s| == 5 && low < high && Count(s, high) == 2 && Count(s, low) == 2
    ensures |Without(Without(s, high), low)| == 1
    ensures Grouped(s, [high as nat, low, Without(Without(s, high), low)[0].rank])
  {
    hide Without, Count;
    var others := Without(s, high);
    CountWithout(s, high, low);
    var rest := Without(others, low);
    assert rest[0] in rest && rest[0] in others;
    RestCounts(s, high);
    RestCounts(others, low);
    CountOfOne(rest, rest[0].rank);
    forall c | c in s
      ensures c.rank == high || c.rank == low || c.rank == rest[0].rank
    {
      assert c.rank == high || c in others;
      assert c.rank == high || c.rank == low || c in rest;
    }
    forall c: Card | c in s
      ensures c.rank as nat in [high as nat, low, rest[0].rank]
    {
      var ranks := [high as nat, low, rest[0].rank];
      assert ranks[0] == high && ranks[1] == low && ranks[2] == rest[0].rank;
    }
  }

  lemma RunDecides(s: seq<Card>, rank: HandRank)
    requires |s| == 5 && CheckOf(s, rank).Some? && (rank == Straight || rank == StraightFlush)
    ensures Decides(s, rank, KeyRanks(s, rank))
  {
    hide RunsTo, IsFlush, IsWheel;
    StraightIsRun(s);
  }

  lemma AllRanksDecide(s: seq<Card>, rank: HandRank)
    requires |s| == 5 && Descending(s) && CheckOf(s, rank).Some?
    requires rank == RoyalFlush || rank == Flush || rank == HighCard
    ensures Decides(s, rank, KeyRanks(s, rank))
  {
    hide CheckOf, Grouped, RunsTo;
  }

  lemma KeyDecides(s: seq<Card>, rank: HandRank)
    requires |s| == 5 && Descending(s) && Highest(s, rank) && CheckOf(s, rank).Some?
    ensures Decides(s, rank, KeyRanks(s, rank))
  {
    hide KeyRanks, CheckOf, Grouped, HasCount, HasTwoPairs, Descending, RunsTo;
    match rank {
      case Straight => RunDecides(s, rank);
      case StraightFlush => RunDecides(s, rank);
      case FourOfAKind => FourGrouped(s);
      case FullHouse => FullHouseGrouped(s);
      case ThreeOfAKind =>
        assert !Makes(s, FullHouse);
        ThreeGrouped(s);
      case TwoPair => TwoPairGrouped(s);
      case OnePair =>
        assert !Makes(s, ThreeOfAKind) && !Makes(s, TwoPair);
        PairGrouped(s);
      case _ => AllRanksDecide(s, rank);
    }
  }

  /** Every evaluated hand's value encodes ranks that decide its category, a fixed number of them per category. */
  lemma ValueEncodesKey(cards: seq<Card>) returns (ranks: seq<nat>)
    requires |cards| == 5
    ensures var e := EvaluateFive(cards);
            && Decides(cards, e.rank, ranks)
            && |ranks| == KeyLength(e.rank)
            && e.value == HandValue(e.rank, ranks)
  {
    hide Makes, CheckOf, EvaluateSorted, KeyRanks, Decides, HandValue;
    SortByRankSorts(cards);
    var s := SortByRank(cards);
    var e := EvaluateFive(cards);
    SortedIsHighest(s);
    CascadeTakesHighest(s);
    KeyDecides(s, e.rank);
    ValueUsesKey(s, e.rank);
    ranks := KeyRanks(s, e.rank);
    DecidesIgnoresOrder(s, cards, e.rank, ranks);
  }

  // ----- the ranks that decide are determined -----

  /** Frequency first, then rank, as one number. */
  function Weight(cards: seq<Card>, rank: nat): nat {
    Count(cards, rank) * 100 + rank
  }

  ghost predicate Heaviest(cards: seq<Card>, ranks: seq<nat>) {
    forall i, j :: 0 <= i < j < |ranks| ==> Weight(cards, ranks[i]) > Weight(cards, ranks[j])
  }

  lemma {:induction false} HeaviestIsUnique(cards: seq<Card>, xs: seq<nat>, ys: seq<nat>)
    requires Heaviest(cards, xs) && Heaviest(cards, ys)
    requires forall r :: r in xs <==> r in ys
    ensures xs == ys
  {
    hide Weight;
    if xs == [] {
      assert forall k :: 0 <= k < |ys| ==> ys[k] in xs;
    } else {
      assert xs[0] in ys && ys[0] in xs by {
        assert xs[0] in xs;
        assert ys[0] in ys;
      }
      assert xs[0] == ys[0];
      SameTails(cards, xs, ys);
      HeaviestIsUnique(cards, xs[1..], ys[1..]);
      assert xs == [xs[0]] + xs[1..] && ys == [ys[0]] + ys[1..];
    }
  }

  lemma SameTails(cards: seq<Card>, xs: seq<nat>, ys: seq<nat>)
    requires Heaviest(cards, xs) && Heaviest(cards, ys)
    requires forall r :: r in xs <==> r in ys
    requires xs != [] && ys != [] && xs[0] == ys[0]
    ensures forall r :: r in xs[1..] <==> r in ys[1..]
  {
    hide Weight;
    TailMembers(cards, xs);
    TailMembers(cards, ys);
  }

  lemma TailMembers(cards: seq<Card>, xs: seq<nat>)
    requires Heaviest(cards, xs) && xs != []
    ensures forall r :: r in xs[1..] <==> r in xs && r != xs[0]
  {
    hide Weight;
    assert xs == [xs[0]] + xs[1..];
    assert forall k :: 0 <= k < |xs[1..]| ==> xs[1..][k] == xs[k + 1];
  }

  lemma GroupedIsHeaviest(cards: seq<Card>, ranks: seq<nat>)
    requires Grouped(cards, ranks)
    ensures Heaviest(cards, ranks)
    ensures forall r :: r in ranks <==> exists c :: c in cards && c.rank as nat == r
    ensures forall k :: 0 <= k < |ranks| ==> 2 <= ranks[k] <= 14
  {
    forall k | 0 <= k < |ranks|
      ensures 2 <= ranks[k] <= 14
      ensures exists c :: c in cards && c.rank as nat == ranks[k]
    {
      if !(2 <= ranks[k] <= 14) {
        CountOfNoRank(cards, ranks[k]);
      }
      CountedIsHeld(cards, ranks[k]);
    }
  }

  lemma {:induction false} CountedIsHeld(cards: seq<Card>, rank: nat)
    requires Count(cards, rank) > 0
    ensures exists c :: c in cards && c.rank as nat == rank
  {
    if cards[0].rank == rank {
      assert cards[0] in cards;
    } else {
      CountedIsHeld(cards[1..], rank);
      var c :| c in cards[1..] && c.rank as nat == rank;
      assert c in cards;
    }
  }

  /** A hand has only one sequence of deciding ranks. */
  lemma DecidingRanksAreUnique(cards: seq<Card>, rank: HandRank, xs: seq<nat>, ys: seq<nat>)
    requires Decides(cards, rank, xs) && Decides(cards, rank, ys)
    ensures xs == ys
  {
    hide Grouped, RunsTo, DescendingRanks;
    match rank {
      case Straight => OneRun(cards, xs[0], ys[0]);
      case StraightFlush => OneRun(cards, xs[0], ys[0]);
      case RoyalFlush => DescendingIsUnique(xs, ys);
      case Flush => DescendingIsUnique(xs, ys);
      case HighCard => DescendingIsUnique(xs, ys);
      case _ =>
        GroupedIsHeaviest(cards, xs);
        GroupedIsHeaviest(cards, ys);
        HeaviestIsUnique(cards, xs, ys);
    }
  }

  lemma OneRun(cards: seq<Card>, g: nat, h: nat)
    requires RunsTo(cards, g) && RunsTo(cards, h)
    ensures g == h
  {
    hide RunRanks;
    RunDescends(g);
    RunDescends(h);
    DescendingIsUnique(RunRanks(g), RunRanks(h));
    RunStarts(g);
    RunStarts(h);
  }

  lemma RunStarts(h: nat)
    requires 5 <= h
    ensures |RunRanks(h)| == 5 && RunRanks(h)[0] == (if h == 5 then 14 else h)
    ensures RunRanks(h)[1] == if h == 5 then 5 else h - 1
  {
  }

  // ----- values in lexicographic order -----

  ghost predicate Lower(xs: seq<nat>, ys: seq<nat>)
    requires |xs| == |ys|
  {
    xs != [] && (xs[0] < ys[0] || (xs[0] == ys[0] && Lower(xs[1..], ys[1..])))
  }

  ghost predicate Digits(xs: seq<nat>) {
    forall k :: 0 <= k < |xs| ==> xs[k] < 100
  }

  lemma {:induction false} CardPartBound(xs: seq<nat>, e: nat)
    requires |xs| <= e + 1 && Digits(xs)
    ensures CardPart(xs, e) < 100 * Pow100(e)
    decreases |xs|
  {
    hide Pow100;
    PowPositive(e);
    if xs != [] {
      LeadingDigit(xs[0], Pow100(e));
      if |xs| > 1 {
        PowStep(e);
        CardPartBound(xs[1..], e - 1);
      }
    }
  }

  lemma {:induction false} PowPositive(e: nat)
    ensures Pow100(e) > 0
  {
    if e > 0 {
      PowPositive(e - 1);
    }
  }

  lemma PowStep(e: nat)
    requires e > 0
    ensures Pow100(e) == 100 * Pow100(e - 1)
  {
  }

  lemma LeadingDigit(d: nat, p: nat)
    requires d < 100
    ensures d * p <= 99 * p
  {
  }

  /** Base-100 numbers compare as their digits do. */
  lemma {:induction false} CardPartOrder(xs: seq<nat>, ys: seq<nat>, e: nat)
    requires |xs| == |ys| <= e + 1 && Digits(xs) && Digits(ys)
    ensures CardPart(xs, e) < CardPart(ys, e) <==> Lower(xs, ys)
    ensures CardPart(xs, e) == CardPart(ys, e) <==> xs == ys
    decreases |xs|
  {
    hide Pow100;
    if xs != [] {
      assert xs == [xs[0]] + xs[1..] && ys == [ys[0]] + ys[1..];
      if |xs| > 1 {
        PowStep(e);
        CardPartBound(xs[1..], e - 1);
        CardPartBound(ys[1..], e - 1);
        CardPartOrder(xs[1..], ys[1..], e - 1);
      } else {
        PowPositive(e);
      }
      if xs[0] < ys[0] {
        MultipleGap(xs[0], ys[0], Pow100(e));
      } else if ys[0] < xs[0] {
        MultipleGap(ys[0], xs[0], Pow100(e));
      }
    }
  }

  lemma DecidingRanksAreDigits(cards: seq<Card>, rank: HandRank, ranks: seq<nat>)
    requires Decides(cards, rank, ranks)
    ensures Digits(ranks)
  {
    match rank {
      case Straight =>
      case StraightFlush =>
      case RoyalFlush => MembersAreRanks(cards, ranks);
      case Flush => MembersAreRanks(cards, ranks);
      case HighCard => MembersAreRanks(cards, ranks);
      case _ => GroupedIsHeaviest(cards, ranks);
    }
  }

  lemma MembersAreRanks(cards: seq<Card>, ranks: seq<nat>)
    requires multiset(ranks) == multiset(Ranks(cards))
    ensures Digits(ranks)
  {
    forall k | 0 <= k < |ranks|
      ensures ranks[k] < 100
    {
      assert ranks[k] in multiset(Ranks(cards));
      assert ranks[k] in Ranks(cards);
    }
  }

  /** The category dominates, and the value stays within the integers a double represents exactly. */
  lemma ValueBounds(rank: HandRank, ranks: seq<nat>)
    requires |ranks| <= 5 && Digits(ranks)
    ensures CardPart(ranks, 4) < RANK_WEIGHT
    ensures rank.Number() * RANK_WEIGHT <= HandValue(rank, ranks) < (rank.Number() + 1) * RANK_WEIGHT
    ensures HandValue(rank, ranks) < 0x20_0000_0000_0000
  {
    CardPartBound(ranks, 4);
    assert Pow100(4) == 100_000_000 by {
      PowStep(4); PowStep(3); PowStep(2); PowStep(1);
    }
  }

  /**
   * Comparing values is comparing categories and then, within a category, the deciding ranks one by one; values
   * are equal only when both are.
   */
  lemma ValueIsOrderEmbedding(cards: seq<Card>, xs: seq<nat>, other: seq<Card>, ys: seq<nat>)
    requires |cards| == 5 && |other| == 5
    ensures var e, f := EvaluateFive(cards), EvaluateFive(other);
            Decides(cards, e.rank, xs) && Decides(other, f.rank, ys) ==>
              && (e.rank == f.rank ==> |xs| == |ys|)
              && (e.value < f.value
                  <==> e.rank.Number() < f.rank.Number() || (e.rank == f.rank && Lower(xs, ys)))
              && (e.value == f.value <==> e.rank == f.rank && xs == ys)
  {
    hide Decides, HandValue, EvaluateSorted, SortByRank, CardPart, Lower;
    var e, f := EvaluateFive(cards), EvaluateFive(other);
    if Decides(cards, e.rank, xs) && Decides(other, f.rank, ys) {
      var us := ValueEncodesKey(cards);
      DecidingRanksAreUnique(cards, e.rank, xs, us);
      DecidingRanksAreDigits(cards, e.rank, xs);
      var vs := ValueEncodesKey(other);
      DecidingRanksAreUnique(other, f.rank, ys, vs);
      DecidingRanksAreDigits(other, f.rank, ys);
      EncodingOrder(e.rank, xs, f.rank, ys);
    }
  }

  lemma EncodingOrder(r: HandRank, xs: seq<nat>, q: HandRank, ys: seq<nat>)
    requires |xs| == KeyLength(r) && |ys| == KeyLength(q) && Digits(xs) && Digits(ys)
    ensures HandValue(r, xs) < HandValue(q, ys)
       <==> r.Number() < q.Number() || (r == q && Lower(xs, ys))
    ensures HandValue(r, xs) == HandValue(q, ys) <==> r == q && xs == ys
  {
    hide CardPart, Lower;
    ValueBounds(r, xs);
    ValueBounds(q, ys);
    NumbersDiffer(r, q);
    if r == q {
      CardPartOrder(xs, ys, 4);
    }
  }

  /** The same five cards in any order evaluate to the same category and value. */
  lemma ValueIgnoresOrder(cards: seq<Card>, other: seq<Card>)
    requires |cards| == 5 && |other| == 5 && multiset(cards) == multiset(other)
    ensures EvaluateFive(cards).rank == EvaluateFive(other).rank
    ensures EvaluateFive(cards).value == EvaluateFive(other).value
  {
    hide Decides, HandValue, EvaluateSorted, SortByRank, Makes;
    var rank := EvaluateFive(cards).rank;
    ClassificationIsExact(cards, rank);
    forall r
      ensures Makes(cards, r) == Makes(other, r)
    {
      MakesIgnoresOrder(cards, other, r);
    }
    ClassificationIsExact(other, rank);
    var xs := ValueEncodesKey(cards);
    DecidesIgnoresOrder(cards, other, rank, xs);
    var ys := ValueEncodesKey(other);
    DecidingRanksAreUnique(other, rank, xs, ys);
  }

  lemma WheelRuns(cards: seq<Card>)
    requires |cards| == 5 && multiset(Ranks(cards)) == multiset([14, 5, 4, 3, 2])
    ensures RunsTo(cards, 5) && !RunsTo(cards, 14)
  {
    assert RunsTo(cards, 5);
    if RunsTo(cards, 14) {
      OneRun(cards, 5, 14);
    }
  }

  lemma WheelRanksDiffer(cards: seq<Card>, n: nat)
    requires |cards| == 5 && multiset(Ranks(cards)) == multiset([14, 5, 4, 3, 2])
    requires n >= 2
    ensures !HasCount(cards, n)
  {
    forall c | c in cards
      ensures Count(cards, c.rank) <= 1
    {
      CountIsMultiplicity(cards, c.rank);
    }
  }

  /** The wheel is the straight that counts as five-high. */
  lemma WheelIsFiveHigh(cards: seq<Card>)
    requires |cards| == 5 && multiset(Ranks(cards)) == multiset([14, 5, 4, 3, 2])
    ensures Decides(cards, Straight, [5]) && Decides(cards, StraightFlush, [5])
    ensures EvaluateFive(cards).rank == if IsFlush(cards) then StraightFlush else Straight
  {
    hide EvaluateFive, IsFlush, RunsTo, HasCount, HasTwoPairs;
    WheelRuns(cards);
    WheelRanksDiffer(cards, 3);
    WheelRanksDiffer(cards, 4);
    ClassificationIsExact(cards, if IsFlush(cards) then StraightFlush else Straight);
  }
}
