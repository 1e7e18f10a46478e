/** Five-card hands: the check functions of `HandEvaluator`, their numeric value, and what they mean. */
module HandRanking {
  import opened Util
  import opened Cards

  datatype HandRank =
    | HighCard | OnePair | TwoPair | ThreeOfAKind | Straight | Flush | FullHouse | FourOfAKind | StraightFlush | RoyalFlush
  {
    function Number(): nat {
      match this
      case HighCard => 1
      case OnePair => 2
      case TwoPair => 3
      case ThreeOfAKind => 4
      case Straight => 5
      case Flush => 6
      case FullHouse => 7
      case FourOfAKind => 8
      case StraightFlush => 9
      case RoyalFlush => 10
    }
  }

  datatype Evaluation = Evaluation(rank: HandRank, cards: seq<Card>, kickers: seq<Card>, value: nat)

  function Ranks(cards: seq<Card>): (rs: seq<nat>)
    ensures |rs| == |cards|
    ensures forall k :: 0 <= k < |cards| ==> rs[k] == cards[k].rank
  {
    seq(|cards|, k requires 0 <= k < |cards| => cards[k].rank)
  }

  // ----- the numeric value -----

  function Pow100(e: nat): nat {
    if e == 0 then 1 else 100 * Pow100(e - 1)
  }

  /** The significant ranks as digits in base 100, the first at position `e`. */
  function CardPart(ranks: seq<nat>, e: nat): nat
    requires |ranks| <= e + 1
    decreases ranks
  {
    if ranks == [] then 0
    else ranks[0] * Pow100(e) + if |ranks| == 1 then 0 else CardPart(ranks[1..], e - 1)
  }

  const RANK_WEIGHT: nat := 10_000_000_000

  function HandValue(rank: HandRank, significant: seq<nat>): nat
    requires |significant| <= 5
  {
    rank.Number() * RANK_WEIGHT + CardPart(significant, 4)
  }

  // ----- sorting and counting -----

  function InsertByRank(c: Card, sorted: seq<Card>): seq<Card> {
    if sorted == [] || c.rank >= sorted[0].rank then [c] + sorted
    else [sorted[0]] + InsertByRank(c, sorted[1..])
  }

  /** Stable sort by descending rank. */
  function SortByRank(cards: seq<Card>): seq<Card> {
    if cards == [] then [] else InsertByRank(cards[0], SortByRank(cards[1..]))
  }

  function Count(cards: seq<Card>, rank: nat): nat {
    if cards == [] then 0 else (if cards[0].rank == rank then 1 else 0) + Count(cards[1..], rank)
  }

  /** The first card of `rest` whose rank occurs exactly `n` times in `cards`. */
  function FirstCounted(cards: seq<Card>, rest: seq<Card>, n: nat): (c: Option<Card>)
    ensures c.Some? ==> c.value in rest && Count(cards, c.value.rank) == n
    ensures c.None? ==> forall d :: d in rest ==> Count(cards, d.rank) != n
  {
    if rest == [] then None
    else if Count(cards, rest[0].rank) == n then Some(rest[0])
    else
      assert rest == [rest[0]] + rest[1..];
      FirstCounted(cards, rest[1..], n)
  }

  /** The cards of other ranks, in order. */
  function Without(cards: seq<Card>, rank: nat): (rest: seq<Card>)
    ensures |rest| == |cards| - Count(cards, rank)
    ensures forall c :: c in rest <==> c in cards && c.rank != rank
  {
    if cards == [] then []
    else
      assert cards == [cards[0]] + cards[1..];
      (if cards[0].rank == rank then [] else [cards[0]]) + Without(cards[1..], rank)
  }

  lemma {:induction false} CountWithout(cards: seq<Card>, rank: nat, other: nat)
    ensures Count(Without(cards, rank), other) == if other == rank then 0 else Count(cards, other)
  {
    if cards != [] {
      CountWithout(cards[1..], rank, other);
      var rest := Without(cards[1..], rank);
      if cards[0].rank == rank {
        assert Without(cards, rank) == rest;
      } else {
        assert Without(cards, rank)[1..] == rest;
      }
    }
  }

  // ----- the checks, on cards sorted by descending rank -----

  predicate IsFlush(cards: seq<Card>) {
    forall c, d :: c in cards && d in cards ==> c.suit == d.suit
  }

  predicate IsRoyal(s: seq<Card>)
    requires |s| == 5
  {
    IsFlush(s) && Ranks(s) == [14, 13, 12, 11, 10]
  }

  predicate IsWheel(s: seq<Card>)
    requires |s| == 5
  {
    Ranks(s) == [14, 5, 4, 3, 2]
  }

  predicate IsStraight(s: seq<Card>)
    requires |s| == 5
  {
    (forall k :: 1 <= k < 5 ==> s[k].rank == s[k - 1].rank - 1) || IsWheel(s)
  }

  function CheckRoyalFlush(s: seq<Card>): Option<Evaluation>
    requires |s| == 5
  {
    if IsRoyal(s) then Some(Evaluation(RoyalFlush, s, [], HandValue(RoyalFlush, Ranks(s)))) else None
  }

  /** A straight counts by its highest card, the wheel by its five. */
  function StraightEvaluation(rank: HandRank, s: seq<Card>): Evaluation
    requires |s| == 5
  {
    if IsWheel(s) then Evaluation(rank, s[1..] + [s[0]], [], HandValue(rank, [5]))
    else Evaluation(rank, s, [], HandValue(rank, [s[0].rank]))
  }

  function CheckStraightFlush(s: seq<Card>): Option<Evaluation>
    requires |s| == 5
  {
    if IsFlush(s) && IsStraight(s) then Some(StraightEvaluation(StraightFlush, s)) else None
  }

  function CheckFourOfAKind(s: seq<Card>): Option<Evaluation>
    requires |s| == 5
  {
    match FirstCounted(s, s, 4)
    case None => None
    case Some(four) =>
      var kicker := Without(s, four.rank)[0];
      Some(Evaluation(FourOfAKind, s, [kicker], HandValue(FourOfAKind, [four.rank, kicker.rank])))
  }

  function CheckFullHouse(s: seq<Card>): Option<Evaluation>
    requires |s| == 5
  {
    match (FirstCounted(s, s, 3), FirstCounted(s, s, 2))
    case (Some(trips), Some(pair)) =>
      Some(Evaluation(FullHouse, s, [], HandValue(FullHouse, [trips.rank, pair.rank])))
    case _ => None
  }

  function CheckFlush(s: seq<Card>): Option<Evaluation>
    requires |s| == 5
  {
    if IsFlush(s) then Some(Evaluation(Flush, s, s[1..], HandValue(Flush, Ranks(s)))) else None
  }

  function CheckStraight(s: seq<Card>): Option<Evaluation>
    requires |s| == 5
  {
    if IsStraight(s) then Some(StraightEvaluation(Straight, s)) else None
  }

  function CheckThreeOfAKind(s: seq<Card>): Option<Evaluation>
    requires |s| == 5
  {
    match FirstCounted(s, s, 3)
    case None => None
    case Some(three) =>
      var kickers := Without(s, three.rank);
      Some(Evaluation(ThreeOfAKind, s, kickers, HandValue(ThreeOfAKind, [three.rank as nat] + Ranks(kickers))))
  }

  function CheckTwoPair(s: seq<Card>): Option<Evaluation>
    requires |s| == 5
  {
    match FirstCounted(s, s, 2)
    case None => None
    case Some(high) =>
      var others := Without(s, high.rank);
      match FirstCounted(s, others, 2)
      case None => None
      case Some(low) =>
        CountWithout(s, high.rank, low.rank);
        var kicker := Without(others, low.rank)[0];
        Some(Evaluation(TwoPair, s, [kicker], HandValue(TwoPair, [high.rank, low.rank, kicker.rank])))
  }

  function CheckOnePair(s: seq<Card>): Option<Evaluation>
    requires |s| == 5
  {
    match FirstCounted(s, s, 2)
    case None => None
    case Some(pair) =>
      var kickers := Without(s, pair.rank);
      Some(Evaluation(OnePair, s, kickers, HandValue(OnePair, [pair.rank as nat] + Ranks(kickers))))
  }

  function CheckHighCard(s: seq<Card>): Evaluation
    requires |s| == 5
  {
    Evaluation(HighCard, s, s[1..], HandValue(HighCard, Ranks(s)))
  }

  function OrElse(first: Option<Evaluation>, second: Option<Evaluation>): Option<Evaluation> {
    if first.Some? then first else second
  }

  /** The first check that succeeds, from the highest category to the lowest. */
  function EvaluateSorted(s: seq<Card>): Evaluation
    requires |s| == 5
  {
    match
      OrElse(CheckRoyalFlush(s),
      OrElse(CheckStraightFlush(s),
      OrElse(CheckFourOfAKind(s),
      OrElse(CheckFullHouse(s),
      OrElse(CheckFlush(s),
      OrElse(CheckStraight(s),
      OrElse(CheckThreeOfAKind(s),
      OrElse(CheckTwoPair(s), CheckOnePair(s)))))))))
    case Some(e) => e
    case None => CheckHighCard(s)
  }

  lemma {:induction false} SortByRankSorts(cards: seq<Card>)
    ensures multiset(SortByRank(cards)) == multiset(cards)
    ensures |SortByRank(cards)| == |cards|
    ensures Descending(SortByRank(cards))
  {
    if cards != [] {
      SortByRankSorts(cards[1..]);
      InsertByRankKeeps(cards[0], SortByRank(cards[1..]));
      assert cards == [cards[0]] + cards[1..];
    }
  }

  ghost predicate Descending(cards: seq<Card>) {
    forall i, j :: 0 <= i < j < |cards| ==> cards[i].rank >= cards[j].rank
  }

  lemma {:induction false} InsertByRankKeeps(c: Card, sorted: seq<Card>)
    requires Descending(sorted)
    ensures Descending(InsertByRank(c, sorted))
    ensures multiset(InsertByRank(c, sorted)) == multiset(sorted) + multiset{c}
    ensures |InsertByRank(c, sorted)| == |sorted| + 1
  {
    if sorted != [] && c.rank < sorted[0].rank {
      InsertByRankKeeps(c, sorted[1..]);
      assert sorted == [sorted[0]] + sorted[1..];
      HighestFirst(sorted, c, InsertByRank(c, sorted[1..]));
    }
  }

  lemma HighestFirst(sorted: seq<Card>, c: Card, tail: seq<Card>)
    requires sorted != [] && Descending(sorted) && c.rank < sorted[0].rank
    requires Descending(tail) && multiset(tail) == multiset(sorted[1..]) + multiset{c}
    ensures Descending([sorted[0]] + tail)
  {
    forall k | 0 <= k < |tail|
      ensures sorted[0].rank >= tail[k].rank
    {
      assert tail[k] in multiset(tail);
      assert tail[k] == c || tail[k] in sorted[1..];
    }
  }

  function EvaluateFive(cards: seq<Card>): Evaluation
    requires |cards| == 5
  {
    SortByRankSorts(cards);
    EvaluateSorted(SortByRank(cards))
  }
}
