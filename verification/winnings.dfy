/** Player by player: what everyone's stack is after a hand, and whose cards won it. */
module Winnings {
  import opened Util
  import opened Players
  import opened PotLayers
  import opened PotShares
  import opened Tables
  import opened Betting
  import opened HandRanking
  import opened HandEvaluator
  import opened Hands
  import opened Payouts
  import opened Showdowns

  /** The player's chips at the table; nothing for a player who has left. */
  function StackOf(seats: seq<Seat>, id: PlayerId): nat {
    var i := SeatOf(seats, id);
    if i == |seats| then 0 else seats[i].stack
  }

  lemma StackAt(seats: seq<Seat>, k: nat)
    requires UniqueIds(seats) && k < |seats|
    ensures StackOf(seats, seats[k].id) == seats[k].stack
  {
    SeatOfUnique(seats, k);
  }

  lemma {:induction false} SurvivingStack(seats: seq<Seat>, id: PlayerId)
    requires UniqueIds(seats)
    ensures StackOf(Surviving(seats), id) == StackOf(seats, id)
  {
    if seats != [] {
      var rest := seats[1..];
      assert forall k :: 0 <= k < |rest| ==> rest[k] == seats[k + 1];
      SurvivingStack(rest, id);
      if seats[0].stack > 0 {
        var survivors := Surviving(seats);
        assert survivors[1..] == Surviving(rest);
      } else {
        assert Surviving(seats) == Surviving(rest);
        if seats[0].id == id {
          NotSeatedTwice(seats);
        }
      }
    }
  }

  lemma NotSeatedTwice(seats: seq<Seat>)
    requires UniqueIds(seats) && seats != []
    ensures StackOf(seats[1..], seats[0].id) == 0
  {
    var rest := seats[1..];
    assert forall k :: 0 <= k < |rest| ==> rest[k] == seats[k + 1] && rest[k].id != seats[0].id;
  }

  /** Ending a hand leaves every player the same chips, and those without any leave. */
  lemma StackAfterHand(e: Engine, k: nat)
    requires UniqueIds(e.table.seats) && k < |e.table.seats|
    ensures StackOf(CompleteHand(e).table.seats, e.table.seats[k].id) == e.table.seats[k].stack
  {
    hide CompleteHand, Surviving, StackOf;
    var seats := SeatsForNewRound(e.table.seats);
    CompleteHandKeepsStacks(e);
    assert UniqueIds(seats);
    SurvivingStack(seats, seats[k].id);
    StackAt(seats, k);
  }

  /** When everyone else has folded, the one player left takes all the pots and nobody else's stack changes. */
  lemma LastPlayerIsPaid(e: Engine, k: nat)
    requires UniqueIds(e.table.seats) && |InHand(e.table.seats)| == 1 && k < |e.table.seats|
    ensures StackOf(DetermineWinners(e).0.table.seats, e.table.seats[k].id)
         == e.table.seats[k].stack + if e.table.seats[k].folded then 0 else PotTotal(e.table.ledger.pots)
  {
    hide CompleteHand, StackOf, PotTotal, InHand;
    var t := e.table;
    var id := InHand(t.seats)[0];
    OnlyOneInHand(t.seats, k);
    var credited := Credited(t.seats, id, PotTotal(t.ledger.pots));
    CreditedIds(t.seats, id, PotTotal(t.ledger.pots));
    StackAfterHand(e.(table := t.(seats := credited)), k);
  }

  lemma OnlyOneInHand(seats: seq<Seat>, k: nat)
    requires UniqueIds(seats) && |InHand(seats)| == 1 && k < |seats|
    ensures SeatOf(seats, InHand(seats)[0]) < |seats|
    ensures SeatOf(seats, InHand(seats)[0]) == k <==> !seats[k].folded
  {
    hide PaidUp;
    var id := InHand(seats)[0];
    InHandIsSeated(seats);
    PaidUpIff(seats, 0, id);
    PaidUpIff(seats, 0, seats[k].id);
    assert id in InHand(seats);
    assert seats[k] in seats;
    if !seats[k].folded {
      assert seats[k].id in InHand(seats);
      SeatOfUnique(seats, k);
    } else {
      var s :| s in seats && s.id == id && !s.folded;
      var j :| 0 <= j < |seats| && seats[j] == s;
      SeatOfUnique(seats, j);
    }
  }

  // ----- showdowns -----

  /** The shares a showdown hands out. */
  function ShowdownShares(e: Engine): Distribution {
    Simulate(e.table.ledger.pots, Contenders(e.table.seats, e.evaluations), Some(InHand(e.table.seats)))
  }

  lemma SharesStayInHand(e: Engine, shares: seq<Share>)
    requires AllEvaluated(e.table.seats, e.evaluations)
    requires EligibleInHand(e.table.ledger.pots, InHand(e.table.seats))
    requires ShowdownShares(e) == Distributed(shares)
    ensures forall s :: s in shares ==> s.player in InHand(e.table.seats)
  {
    hide Simulate, InHand, Contenders, EligibleInHand;
    ContendersAreInHand(e.table.seats, e.evaluations);
    ShowdownThrowsIff(e.table.ledger.pots, Contenders(e.table.seats, e.evaluations), InHand(e.table.seats));
  }

  /** At a showdown every player still in the hand gets exactly their shares, and a folded player nothing. */
  lemma ShowdownIsPaid(e: Engine, shares: seq<Share>, k: nat)
    requires UniqueIds(e.table.seats) && |InHand(e.table.seats)| >= 2 && k < |e.table.seats|
    requires AllEvaluated(e.table.seats, e.evaluations)
    requires EligibleInHand(e.table.ledger.pots, InHand(e.table.seats))
    requires ShowdownShares(e) == Distributed(shares)
    ensures StackOf(DetermineWinners(e).0.table.seats, e.table.seats[k].id)
         == e.table.seats[k].stack + if e.table.seats[k].folded then 0 else Won(shares, e.table.seats[k].id)
  {
    hide CompleteHand, StackOf, Simulate, InHand, Contenders, EligibleInHand;
    var t := e.table;
    SharesStayInHand(e, shares);
    ContendersAreInHand(t.seats, e.evaluations);
    var paid := SeatsPaid(t.seats, shares, e.evaluations);
    StackAfterHand(e.(table := t.(seats := paid)), k);
    if t.seats[k].folded {
      FoldedWinNothing(t.seats, shares, k);
    }
  }

  lemma FoldedWinNothing(seats: seq<Seat>, shares: seq<Share>, k: nat)
    requires UniqueIds(seats) && k < |seats| && seats[k].folded
    requires forall s :: s in shares ==> s.player in InHand(seats)
    ensures Won(shares, seats[k].id) == 0
  {
    PaidUpIff(seats, 0, seats[k].id);
    WonBound(shares, seats[k].id);
  }

  lemma {:induction false} ContenderIff(seats: seq<Seat>, evaluations: map<PlayerId, Evaluation>, c: Contender)
    requires AllEvaluated(seats, evaluations)
    ensures c in Contenders(seats, evaluations)
       <==> exists k :: 0 <= k < |seats| && !seats[k].folded && c == Contender(seats[k].id, evaluations[seats[k].id].value)
  {
    if seats != [] {
      var rest := seats[1..];
      assert forall k :: 0 <= k < |rest| ==> rest[k] == seats[k + 1];
      ContenderIff(rest, evaluations, c);
      assert forall k :: 0 < k < |seats| ==> seats[k] == rest[k - 1];
    }
  }

  lemma {:induction false} ContendersDistinct(seats: seq<Seat>, evaluations: map<PlayerId, Evaluation>)
    requires UniqueIds(seats) && AllEvaluated(seats, evaluations)
    ensures DistinctPlayers(Contenders(seats, evaluations))
  {
    if seats != [] {
      var rest := seats[1..];
      assert forall k :: 0 <= k < |rest| ==> rest[k] == seats[k + 1];
      ContendersDistinct(rest, evaluations);
      var later := Contenders(rest, evaluations);
      forall j | 0 <= j < |later|
        ensures later[j].player != seats[0].id
      {
        ContenderIff(rest, evaluations, later[j]);
      }
    }
  }

  ghost predicate EligibleOnce(pots: seq<Pot>) {
    forall k :: 0 <= k < |pots| ==> NoDuplicates(pots[k].eligible)
  }

  /** The player may win the pot, and nobody else who may is evaluated higher. */
  ghost predicate HoldsBest(e: Engine, pot: Pot, w: nat)
    requires w < |e.table.seats| && AllEvaluated(e.table.seats, e.evaluations)
  {
    var seats := e.table.seats;
    && !seats[w].folded && seats[w].id in pot.eligible
    && forall k :: 0 <= k < |seats| && !seats[k].folded && seats[k].id in pot.eligible
         ==> e.evaluations[seats[k].id].value <= e.evaluations[seats[w].id].value
  }

  /** Each pot gives one share to every player who holds the best hand among those it names, and none to anyone else. */
  lemma SharesGoToBestHands(e: Engine, shares: seq<Share>, p: nat, w: nat)
    requires UniqueIds(e.table.seats) && AllEvaluated(e.table.seats, e.evaluations)
    requires EligibleInHand(e.table.ledger.pots, InHand(e.table.seats)) && EligibleOnce(e.table.ledger.pots)
    requires p < |e.table.ledger.pots| && w < |e.table.seats|
    ensures ShowdownShares(e) == Distributed(shares)
        ==> SharesTo(shares, e.table.seats[w].id, p) == if HoldsBest(e, e.table.ledger.pots[p], w) then 1 else 0
  {
    hide Recipients, SimulateFrom, InHand, Contenders, Best, HoldsBest;
    if ShowdownShares(e) == Distributed(shares) {
      var t := e.table;
      var contenders := Contenders(t.seats, e.evaluations);
      SharesMatchRecipients(t.ledger.pots, contenders, Some(InHand(t.seats)), |t.ledger.pots|, t.seats[w].id, p);
      var ids := Recipients(t.ledger.pots[p], contenders, Some(InHand(t.seats)));
      ContendersDistinct(t.seats, e.evaluations);
      RecipientsDistinct(t.ledger.pots[p], contenders, Some(InHand(t.seats)));
      NoDuplicatesIff(ids);
      RecipientIffBest(e, t.ledger.pots[p], w);
    }
  }

  lemma RecipientIffBest(e: Engine, pot: Pot, w: nat)
    requires UniqueIds(e.table.seats) && AllEvaluated(e.table.seats, e.evaluations) && w < |e.table.seats|
    requires forall i :: i in pot.eligible ==> i in InHand(e.table.seats)
    ensures e.table.seats[w].id in Recipients(pot, Contenders(e.table.seats, e.evaluations), Some(InHand(e.table.seats)))
       <==> HoldsBest(e, pot, w)
  {
    hide Best, Contenders, PaidUp;
    var seats := e.table.seats;
    var id := seats[w].id;
    var contenders := Contenders(seats, e.evaluations);
    RecipientIffUnbeaten(e, pot, id);
    BestIff(contenders, pot.eligible, id);
    PaidUpIff(seats, 0, id);
    if id in Best(contenders, pot.eligible) {
      var c :| c in contenders && c.player == id
               && forall d :: d in contenders && d.player in pot.eligible ==> d.strength <= c.strength;
      ContenderIff(seats, e.evaluations, c);
      forall k | 0 <= k < |seats| && !seats[k].folded && seats[k].id in pot.eligible
        ensures e.evaluations[seats[k].id].value <= e.evaluations[id].value
      {
        ContenderIff(seats, e.evaluations, Contender(seats[k].id, e.evaluations[seats[k].id].value));
      }
    }
    if HoldsBest(e, pot, w) {
      var c := Contender(id, e.evaluations[id].value);
      ContenderIff(seats, e.evaluations, c);
      forall d | d in contenders && d.player in pot.eligible
        ensures d.strength <= c.strength
      {
        ContenderIff(seats, e.evaluations, d);
      }
    }
  }

  lemma RecipientIffUnbeaten(e: Engine, pot: Pot, id: PlayerId)
    requires AllEvaluated(e.table.seats, e.evaluations)
    requires forall i :: i in pot.eligible ==> i in InHand(e.table.seats)
    ensures var contenders := Contenders(e.table.seats, e.evaluations);
            id in Recipients(pot, contenders, Some(InHand(e.table.seats))) <==> id in Best(contenders, pot.eligible)
  {
    hide Best, Contenders, InHand;
    var contenders := Contenders(e.table.seats, e.evaluations);
    ContendersAreInHand(e.table.seats, e.evaluations);
    RecipientsAtShowdown(pot, contenders, InHand(e.table.seats));
    BestIsEmptyIff(contenders, pot.eligible);
    if pot.eligible != [] {
      var i := pot.eligible[0];
      assert i in pot.eligible;
      var c :| c in contenders && c.player == i;
      assert Best(contenders, pot.eligible) != [];
    }
  }

  /** A river whose pots have just been layered. */
  ghost predicate Closing(e: Engine, pots: seq<Pot>) {
    && e.table.phase == River && CardsLaid(e.table, e.deck) && UniqueIds(e.table.seats)
    && e.table.ledger.pots == SidePots(pots, e.table.seats)
  }

  /** What the showdown after the river hands out. */
  ghost function RiverShares(e: Engine, pots: seq<Pot>): Distribution
    requires Closing(e, pots)
  {
    RiverCanBeEvaluated(e);
    ShowdownShares(Shown(e))
  }

  lemma SidePotsNameOnce(pots: seq<Pot>, seats: seq<Seat>)
    requires UniqueIds(seats)
    ensures EligibleOnce(SidePots(pots, seats))
  {
    if |PaidUp(seats, 0)| >= 2 && |LevelSet(seats)| >= 2 {
      var levels := Sorted(LevelSet(seats));
      assert levels[0] in LevelSet(seats);
      forall k | 0 <= k < |SidePots(pots, seats)|
        ensures NoDuplicates(SidePots(pots, seats)[k].eligible)
      {
        LayersLength(seats, levels, 0, true);
        LayerAt(seats, levels, 0, true, k);
        PaidUpDistinct(seats, levels[k]);
      }
    } else {
      PaidUpDistinct(seats, 0);
    }
  }

  /** The player may win the pot, and holds five cards at least as good as anyone else who may. */
  ghost predicate BestCards(t: Table, pot: Pot, w: nat)
    requires w < |t.seats| && CanEvaluate(t)
  {
    && !t.seats[w].folded && t.seats[w].id in pot.eligible
    && forall k :: 0 <= k < |t.seats| && !t.seats[k].folded && t.seats[k].id in pot.eligible
         ==> BestHand(t.seats[k].hole + t.board).value <= BestHand(t.seats[w].hole + t.board).value
  }

  lemma RiverIsEvaluated(e: Engine, pots: seq<Pot>)
    requires Closing(e, pots)
    ensures CanEvaluate(e.table)
    ensures forall k :: 0 <= k < |e.table.seats| ==> |e.table.seats[k].hole + e.table.board| == 7
  {
    hide CardsLaid;
    forall k | 0 <= k < |e.table.seats|
      ensures |e.table.seats[k].hole + e.table.board| == 7
    {
      SevenCards(e.table, e.deck, k);
    }
  }

  /**
   * At the end of the river each pot goes to the best cards: a player gets one share of it exactly when the player
   * may win it and holds, in seven cards, five at least as good as anyone else who may -- otherwise none.
   */
  lemma BestCardsWin(e: Engine, pots: seq<Pot>, shares: seq<Share>, p: nat, w: nat)
    requires Closing(e, pots) && p < |e.table.ledger.pots| && w < |e.table.seats|
    ensures CanEvaluate(e.table)
    ensures RiverShares(e, pots) == Distributed(shares)
        ==> SharesTo(shares, e.table.seats[w].id, p) == if BestCards(e.table, e.table.ledger.pots[p], w) then 1 else 0
  {
    hide CardsLaid, AdvancePhase, SidePots, PaidUp, ShowdownShares, BestHand, EligibleInHand, AllEvaluated, CanEvaluate,
         EligibleOnce, HoldsBest, BestCards;
    RiverIsEvaluated(e, pots);
    RiverCanBeEvaluated(e);
    AdvanceSeats(e.table);
    SameInHand(e.table.seats, Shown(e).table.seats);
    ShownIsEvaluated(e);
    SidePotsEligible(pots, e.table.seats);
    SidePotsNameOnce(pots, e.table.seats);
    if RiverShares(e, pots) == Distributed(shares) {
      SharesGoToBestHands(Shown(e), shares, p, w);
      BestIsBestCards(e, e.table.ledger.pots[p], w);
    }
  }

  lemma BestIsBestCards(e: Engine, pot: Pot, w: nat)
    requires CanEvaluate(e.table) && CanEvaluate(AdvancePhase(e.table)) && UniqueIds(e.table.seats) && w < |e.table.seats|
    requires AdvancePhase(e.table).seats == SeatsForNewRound(e.table.seats)
    requires AllEvaluated(Shown(e).table.seats, Shown(e).evaluations)
    ensures HoldsBest(Shown(e), pot, w) <==> BestCards(e.table, pot, w)
  {
    hide AdvancePhase, BestHand, AllEvaluated, Shown;
    ShownSeats(e);
    forall k | 0 <= k < |e.table.seats| && !e.table.seats[k].folded
      ensures e.table.seats[k].id in Shown(e).evaluations
      ensures Shown(e).evaluations[e.table.seats[k].id] == BestHand(e.table.seats[k].hole + e.table.board)
    {
      ShownEvaluation(e, k);
    }
  }

  lemma ShownSeats(e: Engine)
    requires CanEvaluate(AdvancePhase(e.table))
    ensures Shown(e).table.seats == AdvancePhase(e.table).seats
  {
    hide AdvancePhase, Evaluations;
  }

  /** And nobody takes more than what each player put in up to the winner's own contribution. */
  lemma NobodyTakesMoreThanMatched(e: Engine, pots: seq<Pot>, shares: seq<Share>, w: nat)
    requires Closing(e, pots) && LedgerSound(e.table.ledger, e.table.seats)
    requires w < |e.table.seats| && !e.table.seats[w].folded && e.table.seats[w].total > 0
    ensures RiverShares(e, pots) == Distributed(shares) && |InHand(e.table.seats)| >= 2
        ==> Won(shares, e.table.seats[w].id) <= Sum(Matched(e.table.seats, 0, e.table.seats[w].total))
  {
    hide AdvancePhase, SidePots, PaidUp, Simulate, Contenders, LevelSet, CanEvaluate, Evaluations, CardsLaid;
    if RiverShares(e, pots) == Distributed(shares) && |InHand(e.table.seats)| >= 2 {
      var t := e.table;
      RiverCanBeEvaluated(e);
      SidePotsIdempotent(pots, t.seats);
      AdvanceSeats(t);
      SameInHand(t.seats, Shown(e).table.seats);
      WonAtMostMatched(t.ledger.pots, t.seats, Contenders(Shown(e).table.seats, Shown(e).evaluations),
                       Some(InHand(Shown(e).table.seats)), w);
    }
  }

  lemma ShownIsEvaluated(e: Engine)
    requires CanEvaluate(AdvancePhase(e.table)) && UniqueIds(AdvancePhase(e.table).seats)
    ensures AllEvaluated(Shown(e).table.seats, Shown(e).evaluations)
  {
    hide AdvancePhase, Evaluations;
    EvaluationsCover(AdvancePhase(e.table));
  }

  lemma ShownEvaluation(e: Engine, k: nat)
    requires CanEvaluate(AdvancePhase(e.table)) && UniqueIds(e.table.seats)
    requires k < |e.table.seats| && !e.table.seats[k].folded && |e.table.seats[k].hole + e.table.board| >= 5
    ensures e.table.seats[k].id in Shown(e).evaluations
    ensures Shown(e).evaluations[e.table.seats[k].id] == BestHand(e.table.seats[k].hole + e.table.board)
  {
    hide AdvancePhase, BestHand;
    AdvanceSeats(e.table);
    var t := AdvancePhase(e.table);
    PaidUpIff(t.seats, 0, t.seats[k].id);
    assert t.seats[k] in t.seats;
    SeatOfUnique(t.seats, k);
  }
}
