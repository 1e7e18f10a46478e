/** Showdowns and finished rounds: who is paid, when a pot is stranded, and where the next street starts. */
module Showdowns {
  import opened Util
  import opened Players
  import opened PotLayers
  import opened PotShares
  import opened Tables
  import opened Rounds
  import opened Decks
  import opened HandRanking
  import opened HandEvaluator
  import opened Hands
  import opened Payouts

  /** The hand is over and the stacks hold every chip; whoever is left can be dealt in again. */
  ghost predicate Ended(e: Engine, chips: nat) {
    && !e.running
    && Sum(Stacks(e.table.seats)) == chips
    && UniqueIds(e.table.seats)
    && |e.table.seats| <= 10
    && (forall k :: 0 <= k < |e.table.seats| ==> e.table.seats[k].stack > 0)
  }

  /** Some folded player put in more than every player still in the hand, and contributions differ. */
  ghost predicate Stranded(seats: seq<Seat>) {
    |LevelSet(seats)| >= 2 && !UnfoldedHoldsTop(seats)
  }

  // ----- one player left -----

  lemma LastPlayerTakesAll(e: Engine)
    requires UniqueIds(e.table.seats) && |e.table.seats| <= 10 && |InHand(e.table.seats)| == 1
    ensures DetermineWinners(e).1 == Accepted
    ensures Ended(DetermineWinners(e).0, ChipsInPlay(e.table))
  {
    hide CompleteHand, Credited;
    var t := e.table;
    var id := InHand(t.seats)[0];
    InHandIsSeated(t.seats);
    CreditedSum(t.seats, id, PotTotal(t.ledger.pots));
    var credited := Credited(t.seats, id, PotTotal(t.ledger.pots));
    CreditedIds(t.seats, id, PotTotal(t.ledger.pots));
    CompleteHandKeepsStacks(e.(table := t.(seats := credited)));
  }

  lemma CreditedIds(seats: seq<Seat>, id: PlayerId, amount: nat)
    requires UniqueIds(seats)
    ensures UniqueIds(Credited(seats, id, amount)) && |Credited(seats, id, amount)| == |seats|
  {
  }

  // ----- several players left -----

  /** Everyone still in the hand has been evaluated. */
  ghost predicate AllEvaluated(seats: seq<Seat>, evaluations: map<PlayerId, Evaluation>) {
    forall k :: 0 <= k < |seats| && !seats[k].folded ==> seats[k].id in evaluations && evaluations[seats[k].id].value > 0
  }

  lemma {:induction false} ContendersAreInHand(seats: seq<Seat>, evaluations: map<PlayerId, Evaluation>)
    requires AllEvaluated(seats, evaluations)
    ensures forall id :: id in InHand(seats) <==> exists c :: c in Contenders(seats, evaluations) && c.player == id
    ensures Contenders(seats, evaluations) == [] <==> InHand(seats) == []
  {
    if seats != [] {
      var rest := seats[1..];
      assert forall k :: 0 <= k < |rest| ==> rest[k] == seats[k + 1];
      ContendersAreInHand(rest, evaluations);
      var later := Contenders(rest, evaluations);
      if !seats[0].folded {
        var first := Contender(seats[0].id, evaluations[seats[0].id].value);
        assert Contenders(seats, evaluations) == [first] + later;
        assert InHand(seats) == [seats[0].id] + InHand(rest);
        assert forall c :: c in [first] + later <==> c == first || c in later;
      } else {
        assert Contenders(seats, evaluations) == later;
        assert InHand(seats) == InHand(rest);
      }
    }
  }

  /** With every hand evaluated a pot goes unpaid only when nobody may win it. */
  lemma RecipientsAtShowdown(pot: Pot, contenders: seq<Contender>, ids: seq<PlayerId>)
    requires forall id :: id in ids <==> exists c :: c in contenders && c.player == id
    requires forall id :: id in pot.eligible ==> id in ids
    ensures Recipients(pot, contenders, Some(ids)) == [] <==> pot.eligible == []
    ensures forall id :: id in Recipients(pot, contenders, Some(ids)) ==> id in ids
  {
    BestIsEmptyIff(contenders, pot.eligible);
    if pot.eligible != [] {
      var id := pot.eligible[0];
      assert id in pot.eligible && id in ids;
      var c :| c in contenders && c.player == id;
      assert Best(contenders, pot.eligible) != [];
    }
    forall id | id in Recipients(pot, contenders, Some(ids))
      ensures id in ids
    {
      RecipientsAreEligible(pot, contenders, Some(ids), id);
    }
  }

  ghost predicate PotUnclaimed(pots: seq<Pot>) {
    exists k :: 0 <= k < |pots| && pots[k].amount > 0 && pots[k].eligible == []
  }

  ghost predicate EligibleInHand(pots: seq<Pot>, ids: seq<PlayerId>) {
    forall k, id :: 0 <= k < |pots| && id in pots[k].eligible ==> id in ids
  }

  lemma ShowdownThrowsIff(pots: seq<Pot>, contenders: seq<Contender>, ids: seq<PlayerId>)
    requires forall id :: id in ids <==> exists c :: c in contenders && c.player == id
    requires EligibleInHand(pots, ids)
    ensures Simulate(pots, contenders, Some(ids)).NoRecipient? <==> PotUnclaimed(pots)
    ensures Simulate(pots, contenders, Some(ids)).Distributed?
        ==> forall s :: s in Simulate(pots, contenders, Some(ids)).shares ==> s.player in ids
  {
    hide Recipients, SimulateFrom;
    forall k | 0 <= k < |pots|
      ensures Recipients(pots[k], contenders, Some(ids)) == [] <==> pots[k].eligible == []
      ensures forall id :: id in Recipients(pots[k], contenders, Some(ids)) ==> id in ids
    {
      RecipientsAtShowdown(pots[k], contenders, ids);
    }
    SimulateThrowsIff(pots, contenders, Some(ids), |pots|);
    if Simulate(pots, contenders, Some(ids)).Distributed? {
      forall s | s in Simulate(pots, contenders, Some(ids)).shares
        ensures s.player in ids
      {
        SimulatePaysRecipients(pots, contenders, Some(ids), |pots|, s);
      }
    }
  }

  /** A showdown pays every pot in full unless one of them has nobody to win it, and then it throws. */
  lemma ShowdownPays(e: Engine)
    requires UniqueIds(e.table.seats) && |e.table.seats| <= 10 && |InHand(e.table.seats)| >= 2
    requires AllEvaluated(e.table.seats, e.evaluations)
    requires EligibleInHand(e.table.ledger.pots, InHand(e.table.seats))
    ensures var (after, outcome) := DetermineWinners(e);
            && (outcome.Failed? <==> PotUnclaimed(e.table.ledger.pots))
            && (outcome.Failed? ==> outcome.failure.PotWithoutRecipient? && after == e)
            && (!outcome.Failed? ==> outcome == Accepted && Ended(after, ChipsInPlay(e.table)))
  {
    hide CompleteHand, SimulateFrom, PotUnclaimed, EligibleInHand, Contenders, InHand;
    var t := e.table;
    var ids := InHand(t.seats);
    var contenders := Contenders(t.seats, e.evaluations);
    ContendersAreInHand(t.seats, e.evaluations);
    ShowdownThrowsIff(t.ledger.pots, contenders, ids);
    match Simulate(t.ledger.pots, contenders, Some(ids)) {
      case NoRecipient(_) =>
      case Distributed(shares) =>
        SharesAreSeated(t.seats, shares, e.evaluations);
        SeatsPaidSum(t.seats, shares, e.evaluations);
        SimulatePaysAll(t.ledger.pots, contenders, Some(ids));
        CompleteHandKeepsStacks(e.(table := t.(seats := SeatsPaid(t.seats, shares, e.evaluations))));
    }
  }

  lemma SharesAreSeated(seats: seq<Seat>, shares: seq<Share>, evaluations: map<PlayerId, Evaluation>)
    requires AllEvaluated(seats, evaluations)
    requires forall s :: s in shares ==> s.player in InHand(seats)
    ensures forall s :: s in shares ==> SeatOf(seats, s.player) < |seats| && s.player in evaluations
  {
    InHandIsSeated(seats);
    forall s | s in shares
      ensures s.player in evaluations
    {
      PaidUpIff(seats, 0, s.player);
      var seat :| seat in seats && seat.id == s.player && !seat.folded;
      var k :| 0 <= k < |seats| && seats[k] == seat;
    }
  }

  // ----- side pots at the showdown -----

  /** The same players with the same cards, the same chips behind and in the pots, and the same folds. */
  ghost predicate SameStakes(seats: seq<Seat>, other: seq<Seat>) {
    && |seats| == |other|
    && forall k :: 0 <= k < |seats|
         ==> && seats[k].id == other[k].id && seats[k].folded == other[k].folded
             && seats[k].total == other[k].total && seats[k].stack == other[k].stack && seats[k].hole == other[k].hole
  }

  lemma {:induction false} SameInHand(seats: seq<Seat>, other: seq<Seat>)
    requires SameStakes(seats, other)
    ensures InHand(seats) == InHand(other)
  {
    if seats != [] {
      assert SameStakes(seats[1..], other[1..]);
      SameInHand(seats[1..], other[1..]);
    }
  }

  lemma SameLevels(seats: seq<Seat>, other: seq<Seat>)
    requires SameStakes(seats, other)
    ensures forall x :: x in LevelSet(seats) ==> x in LevelSet(other)
  {
    forall x | x in LevelSet(seats)
      ensures x in LevelSet(other)
    {
      var s :| s in seats && s.total == x;
      var k :| 0 <= k < |seats| && seats[k] == s;
      assert other[k] in other;
    }
  }

  lemma SameStranded(seats: seq<Seat>, other: seq<Seat>)
    requires SameStakes(seats, other)
    ensures Stranded(seats) == Stranded(other)
  {
    SameLevels(seats, other);
    SameLevels(other, seats);
    assert LevelSet(seats) == LevelSet(other);
    SameTop(seats, other);
    SameTop(other, seats);
  }

  lemma SameTop(seats: seq<Seat>, other: seq<Seat>)
    requires SameStakes(seats, other)
    ensures UnfoldedHoldsTop(seats) ==> UnfoldedHoldsTop(other)
  {
    if w :| 0 <= w < |seats| && !seats[w].folded && forall k :: 0 <= k < |seats| ==> seats[k].total <= seats[w].total {
      assert !other[w].folded && forall k :: 0 <= k < |other| ==> other[k].total <= other[w].total;
    }
  }

  lemma SidePotsEligible(pots: seq<Pot>, seats: seq<Seat>)
    ensures EligibleInHand(SidePots(pots, seats), InHand(seats))
  {
    if |PaidUp(seats, 0)| >= 2 && |LevelSet(seats)| >= 2 {
      var layered := SidePots(pots, seats);
      LayerMeaning(pots, seats, 0);
      forall k, id | 0 <= k < |layered| && id in layered[k].eligible
        ensures id in InHand(seats)
      {
        LayerMeaning(pots, seats, k);
        PaidUpIff(seats, 0, id);
      }
    }
  }

  lemma UnclaimedIffStranded(pots: seq<Pot>, seats: seq<Seat>)
    requires |InHand(seats)| >= 2
    ensures PotUnclaimed(SidePots(pots, seats)) <==> Stranded(seats)
  {
    hide SidePots, UnfoldedHoldsTop, LevelSet;
    EveryPotHasAClaimant(pots, seats);
  }

  lemma EvaluationsCover(t: Table)
    requires CanEvaluate(t) && UniqueIds(t.seats)
    ensures AllEvaluated(t.seats, Evaluations(t))
  {
    hide BestHand;
    forall k | 0 <= k < |t.seats| && !t.seats[k].folded
      ensures t.seats[k].id in Evaluations(t) && Evaluations(t)[t.seats[k].id].value > 0
    {
      PaidUpIff(t.seats, 0, t.seats[k].id);
      assert t.seats[k] in t.seats;
      SeatOfUnique(t.seats, k);
      BestHandIsPositive(t.seats[k].hole + t.board);
    }
  }

  /** Closing the river: the pots just layered are paid in full, unless a folded player's chips are out of reach. */
  lemma RiverPays(e: Engine)
    requires e.running && e.table.phase == River && CardsLaid(e.table, e.deck)
    requires UniqueIds(e.table.seats) && InHand(e.table.seats) != []
    requires exists pots :: e.table.ledger.pots == SidePots(pots, e.table.seats)
    ensures CanEvaluate(AdvancePhase(e.table))
    ensures var (after, outcome) := StartShowdown(e);
            && (outcome.Failed? <==> |InHand(e.table.seats)| >= 2 && Stranded(e.table.seats))
            && (outcome.Failed? ==> outcome.failure.PotWithoutRecipient? && after == Shown(e))
            && (!outcome.Failed? ==> outcome == Accepted && Ended(after, ChipsInPlay(e.table)))
  {
    hide CardsLaid, DetermineWinners, Evaluations, AdvancePhase, SidePots, InHand, Stranded, PotUnclaimed, EligibleInHand;
    RiverCanBeEvaluated(e);
    AdvanceSeats(e.table);
    var t := AdvancePhase(e.table);
    SameInHand(e.table.seats, t.seats);
    assert Stacks(t.seats) == Stacks(e.table.seats);
    var shown := e.(table := t, evaluations := e.evaluations + Evaluations(t));
    AtMostTen(t, e.deck);
    EvaluationsCover(t);
    if |InHand(t.seats)| == 1 {
      LastPlayerTakesAll(shown);
    } else {
      var pots :| e.table.ledger.pots == SidePots(pots, e.table.seats);
      SidePotsEligible(pots, e.table.seats);
      UnclaimedIffStranded(pots, e.table.seats);
      ShowdownPays(shown);
    }
  }

  lemma AtMostTen(t: Table, d: DeckState)
    requires CardsLaid(t, d)
    ensures |t.seats| <= 10
  {
  }
}
