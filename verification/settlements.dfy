/** From the action that ends a hand to everyone's chips afterwards. */
module Settlements {
  import opened Util
  import opened Players
  import opened PotLayers
  import opened PotShares
  import opened Tables
  import opened Betting
  import opened Rounds
  import opened Hands
  import opened Payouts
  import opened Showdowns
  import opened Play
  import opened Winnings
  import opened OddChips

  // ----- hands that reach a showdown -----

  /** The engine once the remaining streets have been dealt and the pots layered for the last time. */
  ghost function Runout(e: Engine): Engine
    requires CardsLaid(e.table, e.deck)
    decreases StreetsLeft(e.table.phase)
  {
    var settled := e.(table := CreateSidePots(e.table));
    if StreetsLeft(e.table.phase) >= 2 then
      StreetsAreDealt(settled);
      Runout(DealStreet(settled, StreetCards(e.table.phase)))
    else settled
  }

  /** The river of the same hand, and what closing the round makes of it. */
  ghost predicate RunsOutTo(e: Engine, c: Engine)
    requires e.running ==> CardsLaid(e.table, e.deck)
  {
    && Closing(c, c.table.ledger.pots) && c.running && Sound(c.table)
    && SameStakes(e.table.seats, c.table.seats)
    && CanEvaluate(AdvancePhase(c.table)) && CompleteRound(e) == DetermineWinners(Shown(c))
  }

  lemma {:induction false} RunsOut(e: Engine)
    requires e.running && Sound(e.table) && RoundComplete(e.table.seats) && CardsLaid(e.table, e.deck)
    requires StreetsLeft(e.table.phase) >= 1 && ReachesShowdown(e.table)
    ensures RunsOutTo(e, Runout(e))
    decreases StreetsLeft(e.table.phase)
  {
    hide SidePots, Sound, Settled, CardsLaid, Awaiting, SomeoneCanAct, InHand, DealStreet, RoundComplete, SameStakes,
         Unbet, ChipsInPlay, DetermineWinners, CanEvaluate, AdvancePhase, Closing, CompleteRound, Shown;
    CompleteIsSettled(e.table);
    if e.table.phase == River {
      RiverRunsOut(e);
    } else {
      StreetIsDealt(e);
      StreetThenRest(e);
      var next := DealStreet(e.(table := CreateSidePots(e.table)), StreetCards(e.table.phase));
      SameInHand(e.table.seats, next.table.seats);
      NobodyAbleIsComplete(next.table.seats);
      RunsOut(next);
      SameStakesThrough(e.table.seats, next.table.seats, Runout(next).table.seats);
      RunoutStep(e);
    }
  }

  lemma RunoutStep(e: Engine)
    requires CardsLaid(e.table, e.deck) && StreetsLeft(e.table.phase) >= 2
    ensures var settled := e.(table := CreateSidePots(e.table));
            && StreetCards(e.table.phase) + 1 <= |settled.deck.cards|
            && var next := DealStreet(settled, StreetCards(e.table.phase));
               CardsLaid(next.table, next.deck) && Runout(e) == Runout(next)
  {
    hide CardsLaid, SidePots, AdvancePhase;
    var settled := e.(table := CreateSidePots(e.table));
    CardsIgnoreLedger(e.table, settled.table, e.deck);
    StreetsAreDealt(settled);
  }

  lemma SameStakesThrough(a: seq<Seat>, b: seq<Seat>, c: seq<Seat>)
    requires SameStakes(a, b) && SameStakes(b, c)
    ensures SameStakes(a, c)
  {
  }

  lemma RiverRunsOut(e: Engine)
    requires e.running && Sound(e.table) && CardsLaid(e.table, e.deck) && e.table.phase == River
    ensures RunsOutTo(e, Runout(e))
  {
    hide SidePots, CardsLaid, SeatsSound, LedgerSound, DetermineWinners, CanEvaluate, AdvancePhase, Shown;
    SidePotsKeepSound(e.table);
    SoundIsUnique(e.table);
    var settled := e.(table := CreateSidePots(e.table));
    CardsIgnoreLedger(e.table, settled.table, e.deck);
    SidePotsIdempotent(e.table.ledger.pots, e.table.seats);
    RiverCanBeEvaluated(settled);
    assert Runout(e) == settled;
    assert StartShowdown(settled) == DetermineWinners(Shown(settled));
  }

  lemma PaidInShares(e: Engine)
    requires |InHand(e.table.seats)| >= 2 && AllEvaluated(e.table.seats, e.evaluations)
    ensures !DetermineWinners(e).1.Failed? ==> ShowdownShares(e).Distributed?
  {
    hide Simulate, CompleteHand, InHand, Contenders;
    ContendersAreInHand(e.table.seats, e.evaluations);
  }

  /**
   * An action that forces a showdown with no chips out of reach ends the hand, and leaves every player the chips behind
   * plus the shares of the final river. `BestCardsWin` and `NobodyTakesMoreThanMatched` say whose those are.
   */
  lemma ShowdownSettles(e: Engine, a: Action, k: nat)
    requires Live(e) && Validate(e.table, a) == None && k < |e.table.seats|
    ensures e.table.ledger.pots != [] && CardsLaid(e.table, e.deck) && |Act(e.table, a).seats| == |e.table.seats|
    ensures ForcesShowdown(e.table, a) && !Stranded(Act(e.table, a).seats) ==>
              && CardsLaid(Act(e.table, a), e.deck)
              && var acted, c := Act(e.table, a).seats, Runout(e.(table := Act(e.table, a)));
                 && Closing(c, c.table.ledger.pots) && LedgerSound(c.table.ledger, c.table.seats)
                 && SameStakes(acted, c.table.seats)
                 && RiverShares(c, c.table.ledger.pots).Distributed?
                 && StackOf(ProcessAction(e, a).0.table.seats, acted[k].id)
                    == acted[k].stack
                       + if acted[k].folded then 0 else Won(RiverShares(c, c.table.ledger.pots).shares, acted[k].id)
  {
    hide Live, Stuck, CardsLaid, Act, Validate, Stranded, ProcessAction, Runout, Closing, InHand, SameStakes, StackOf, Won;
    LiveHasPots(e);
    ActedIsSound(e, a);
    if ForcesShowdown(e.table, a) && !Stranded(Act(e.table, a).seats) {
      ActedStreets(e, a);
      RunsOut(e.(table := Act(e.table, a)));
      ActionStep(e, a);
      SettledByShares(e, a, k);
    }
  }

  /**
   * Chip for chip and by the cards alone: after such an action a player holds the chips behind and, from each pot of
   * the final river they hold the best cards for, an even part and perhaps a chip left over.
   */
  lemma ShowdownPaysByCards(e: Engine, a: Action, k: nat)
    requires Live(e) && Validate(e.table, a) == None && k < |e.table.seats|
    ensures e.table.ledger.pots != [] && CardsLaid(e.table, e.deck) && |Act(e.table, a).seats| == |e.table.seats|
    ensures ForcesShowdown(e.table, a) && !Stranded(Act(e.table, a).seats) ==>
              && CardsLaid(Act(e.table, a), e.deck)
              && var acted, c := Act(e.table, a).seats, Runout(e.(table := Act(e.table, a)));
                 && |c.table.seats| == |acted| && CanEvaluate(c.table)
                 && StackOf(ProcessAction(e, a).0.table.seats, acted[k].id)
                    == acted[k].stack + Sum(WinnersPortions(c.table, k))
  {
    hide Live, CardsLaid, Act, Validate, Stranded, ProcessAction, Runout, Closing, StackOf, Won, RiverShares, CanEvaluate,
         WinnersPortions, ForcesShowdown;
    ShowdownSettles(e, a, k);
    if ForcesShowdown(e.table, a) && !Stranded(Act(e.table, a).seats) {
      var c := Runout(e.(table := Act(e.table, a)));
      var pots := c.table.ledger.pots;
      WonByCards(c, pots, RiverShares(c, pots).shares, k);
      if Act(e.table, a).seats[k].folded {
        FoldedAreDueNothing(c.table, k);
      }
    }
  }

  lemma FoldedAreDueNothing(t: Table, k: nat)
    requires k < |t.seats| && t.seats[k].folded && CanEvaluate(t)
    ensures Sum(WinnersPortions(t, k)) == 0
  {
    hide CanEvaluate;
    SumOfZeros(WinnersPortions(t, k));
  }

  lemma ActedStreets(e: Engine, a: Action)
    requires Live(e) && Validate(e.table, a) == None && e.table.ledger.pots != []
    ensures StreetsLeft(Act(e.table, a).phase) >= 1
  {
    hide Act, Validate;
    ActKeepsPhase(e.table, a);
  }

  lemma SettledByShares(e: Engine, a: Action, k: nat)
    requires e.running && e.table.ledger.pots != [] && CardsLaid(e.table, e.deck) && Validate(e.table, a) == None
    requires var acted := e.(table := Act(e.table, a));
             && CardsLaid(acted.table, acted.deck) && RoundComplete(acted.table.seats) && k < |acted.table.seats|
             && |InHand(acted.table.seats)| >= 2 && RunsOutTo(acted, Runout(acted))
    requires !ProcessAction(e, a).1.Failed?
    ensures var acted, c := Act(e.table, a).seats, Runout(e.(table := Act(e.table, a)));
            && LedgerSound(c.table.ledger, c.table.seats)
            && RiverShares(c, c.table.ledger.pots).Distributed?
            && StackOf(ProcessAction(e, a).0.table.seats, acted[k].id)
               == acted[k].stack
                  + if acted[k].folded then 0 else Won(RiverShares(c, c.table.ledger.pots).shares, acted[k].id)
  {
    hide CardsLaid, Act, Validate, Runout, InHand, SeatsSound, LedgerSound, RoundComplete, CompleteRound, DetermineWinners,
         StackOf, Won, AdvancePhase, Shown, ShowdownShares, CanEvaluate, SidePots, EligibleInHand, AllEvaluated;
    var c := Runout(e.(table := Act(e.table, a)));
    AdvanceSeats(c.table);
    ShownSeats(c);
    ShownIsEvaluated(c);
    SameInHand(Act(e.table, a).seats, c.table.seats);
    SameInHand(c.table.seats, Shown(c).table.seats);
    SidePotsEligible(c.table.ledger.pots, c.table.seats);
    ShownLedger(c);
    EndsAtShowdown(e, a, Shown(c));
    PaidInShares(Shown(c));
    ShowdownIsPaid(Shown(c), ShowdownShares(Shown(c)).shares, k);
  }

  lemma ShownLedger(e: Engine)
    requires CanEvaluate(AdvancePhase(e.table))
    ensures Shown(e).table.ledger == e.table.ledger
  {
    hide AdvancePhase, Evaluations;
    AdvanceSeats(e.table);
  }

  lemma EndsAtShowdown(e: Engine, a: Action, shown: Engine)
    requires e.running && e.table.ledger.pots != [] && CardsLaid(e.table, e.deck) && Validate(e.table, a) == None
    requires CardsLaid(Act(e.table, a), e.deck) && RoundComplete(Act(e.table, a).seats)
    requires CompleteRound(e.(table := Act(e.table, a))) == DetermineWinners(shown)
    ensures ProcessAction(e, a).1.Failed? <==> DetermineWinners(shown).1.Failed?
    ensures !ProcessAction(e, a).1.Failed? ==> ProcessAction(e, a) == DetermineWinners(shown)
  {
    hide CardsLaid, Act, Validate, RoundComplete, CompleteRound, Simulate, CompleteHand, InHand, Contenders;
  }

  // ----- hands won by folds -----

  /** When an action leaves one player, that player gains exactly the pots and nobody else's chips change. */
  lemma FoldsSettle(e: Engine, a: Action, k: nat)
    requires Live(e) && Validate(e.table, a) == None && k < |e.table.seats|
    ensures e.table.ledger.pots != [] && CardsLaid(e.table, e.deck) && |Act(e.table, a).seats| == |e.table.seats|
    ensures |InHand(Act(e.table, a).seats)| == 1 ==>
              && ProcessAction(e, a).1 == Accepted && !ProcessAction(e, a).0.running
              && var t := Act(e.table, a);
                 StackOf(ProcessAction(e, a).0.table.seats, t.seats[k].id)
                 == t.seats[k].stack + if t.seats[k].folded then 0 else PotTotal(t.ledger.pots)
  {
    hide Live, CardsLaid, Act, Validate, InHand, StackOf, PotTotal, DetermineWinners, RoundComplete, CompleteRound, Sound;
    LiveHasPots(e);
    ActedIsSound(e, a);
    ActedStreets(e, a);
    var acted := e.(table := Act(e.table, a));
    if |InHand(acted.table.seats)| == 1 {
      if RoundComplete(acted.table.seats) {
        ClosedForOne(acted, k);
      } else {
        SoundIsUnique(acted.table);
        LastPlayerIsPaid(acted, k);
        LastPlayerTakesAll(acted);
        EndedIsStopped(DetermineWinners(acted).0, ChipsInPlay(acted.table));
      }
    }
  }

  /** Closing the round for one player: the next street may still be dealt, and then the pots are paid. */
  lemma ClosedForOne(e: Engine, k: nat)
    requires e.running && Sound(e.table) && RoundComplete(e.table.seats) && CardsLaid(e.table, e.deck)
    requires StreetsLeft(e.table.phase) >= 1 && |InHand(e.table.seats)| == 1 && k < |e.table.seats|
    ensures var (closed, outcome) := CompleteRound(e);
            var (after, paid) := if closed.running then DetermineWinners(closed) else (closed, outcome);
            && outcome == Accepted && paid == Accepted && !after.running
            && (closed.running ==> HandOver(closed.table))
            && StackOf(after.table.seats, e.table.seats[k].id)
               == e.table.seats[k].stack + if e.table.seats[k].folded then 0 else PotTotal(e.table.ledger.pots)
  {
    hide SidePots, Sound, Settled, CardsLaid, Awaiting, SomeoneCanAct, InHand, DealStreet, RoundComplete, SameStakes,
         Unbet, ChipsInPlay, DetermineWinners, CanEvaluate, AdvancePhase, Closing, CompleteRound, Shown, PotTotal, StackOf;
    CompleteIsSettled(e.table);
    if e.table.phase == River {
      RiverRunsOut(e);
      var c := Runout(e);
      ShownStakes(e, c);
      OnePlayerPaid(e, Shown(c), k);
    } else {
      StreetIsDealt(e);
      StreetThenRest(e);
      var next := DealStreet(e.(table := CreateSidePots(e.table)), StreetCards(e.table.phase));
      SoundIsUnique(next.table);
      AtMostTen(next.table, next.deck);
      SoundPots(e.table, next.table);
      OnePlayerPaid(e, next, k);
    }
  }

  lemma ShownStakes(e: Engine, c: Engine)
    requires e.running ==> CardsLaid(e.table, e.deck)
    requires Sound(e.table) && RunsOutTo(e, c)
    ensures SameStakes(e.table.seats, Shown(c).table.seats)
    ensures PotTotal(Shown(c).table.ledger.pots) == PotTotal(e.table.ledger.pots)
    ensures UniqueIds(Shown(c).table.seats) && |Shown(c).table.seats| <= 10
  {
    hide CardsLaid, SeatsSound, LedgerSound, CompleteRound, DetermineWinners, AdvancePhase, Evaluations, CanEvaluate,
         SidePots;
    AdvanceSeats(c.table);
    ShownSeats(c);
    ShownLedger(c);
    SoundIsUnique(c.table);
    AtMostTen(c.table, c.deck);
    SoundPots(e.table, c.table);
  }

  lemma SoundPots(t: Table, u: Table)
    requires Sound(t) && Sound(u) && SameStakes(t.seats, u.seats)
    ensures PotTotal(t.ledger.pots) == PotTotal(u.ledger.pots)
  {
    assert Totals(t.seats) == Totals(u.seats);
  }

  lemma OnePlayerPaid(e: Engine, last: Engine, k: nat)
    requires SameStakes(e.table.seats, last.table.seats) && |InHand(e.table.seats)| == 1 && k < |e.table.seats|
    requires UniqueIds(last.table.seats) && |last.table.seats| <= 10
    requires PotTotal(last.table.ledger.pots) == PotTotal(e.table.ledger.pots)
    ensures HandOver(last.table)
    ensures var (after, outcome) := DetermineWinners(last);
            && outcome == Accepted && !after.running
            && StackOf(after.table.seats, e.table.seats[k].id)
               == e.table.seats[k].stack + if e.table.seats[k].folded then 0 else PotTotal(e.table.ledger.pots)
  {
    hide InHand, DetermineWinners, PotTotal, StackOf;
    SameInHand(e.table.seats, last.table.seats);
    LastPlayerIsPaid(last, k);
    LastPlayerTakesAll(last);
  }
}
