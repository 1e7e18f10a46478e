/** Accepted actions, finished rounds and new streets, on the whole table. */
module Rounds {
  import opened Util
  import opened Players
  import opened PotLayers
  import opened Tables
  import opened Betting

  /** All the chips at the table while a hand runs, in stacks and in pots. */
  function ChipsInPlay(t: Table): nat {
    Sum(Stacks(t.seats)) + PotTotal(t.ledger.pots)
  }

  lemma SoundIsUnique(t: Table)
    requires Sound(t)
    ensures UniqueIds(t.seats) && t.ledger.pots != [] && |t.seats| >= 2
  {
  }

  // ----- the ledger -----

  lemma PotTotalAfterAdd(l: Ledger, id: PlayerId, amount: nat)
    requires l.pots != []
    ensures PotTotal(AddBet(l, id, amount).pots) == PotTotal(l.pots) + amount
    ensures AddBet(l, id, amount).pots != []
  {
    var after := AddBet(l, id, amount).pots;
    assert Amounts(after) == Amounts(l.pots)[0 := l.pots[0].amount + amount];
    SumUpdate(Amounts(l.pots), 0, l.pots[0].amount + amount);
  }

  /** Chips that leave a stack are exactly those that enter the ledger under the player's id. */
  lemma PaymentKeepsLedger(l: Ledger, seats: seq<Seat>, after: seq<Seat>, i: nat, amount: nat)
    requires LedgerSound(l, seats) && UniqueIds(seats)
    requires i < |seats| == |after| && amount <= seats[i].stack
    requires after[i].id == seats[i].id
    requires after[i].total == seats[i].total + amount && after[i].stack == seats[i].stack - amount
    requires forall k :: 0 <= k < |seats| && k != i
               ==> after[k].id == seats[k].id && after[k].total == seats[k].total && after[k].stack == seats[k].stack
    ensures LedgerSound(AddBet(l, seats[i].id, amount), after)
    ensures Sum(Stacks(after)) == Sum(Stacks(seats)) - amount
  {
    PotTotalAfterAdd(l, seats[i].id, amount);
    assert Totals(after) == Totals(seats)[i := seats[i].total + amount];
    SumUpdate(Totals(seats), i, seats[i].total + amount);
    assert Stacks(after) == Stacks(seats)[i := seats[i].stack - amount];
    SumUpdate(Stacks(seats), i, seats[i].stack - amount);
    SumAtLeast(Stacks(seats), i);
  }

  lemma SameChips(before: seq<Seat>, after: seq<Seat>, l: Ledger)
    requires |before| == |after|
    requires forall k :: 0 <= k < |before|
               ==> after[k].id == before[k].id && after[k].total == before[k].total && after[k].stack == before[k].stack
    ensures Sum(Stacks(after)) == Sum(Stacks(before)) && Sum(Totals(after)) == Sum(Totals(before))
    ensures LedgerSound(l, before) ==> LedgerSound(l, after)
  {
    assert Stacks(after) == Stacks(before);
    assert Totals(after) == Totals(before);
  }

  // ----- one accepted action -----

  lemma BetKeepsSound(t: Table, i: nat, w: nat)
    requires Sound(t) && i < |t.seats| && FairWager(t.seats, i, w)
    ensures Sound(ProcessBet(t, i, w))
    ensures ChipsInPlay(ProcessBet(t, i, w)) == ChipsInPlay(t)
  {
    hide SeatsAfterBet, AddBet, EarlierRoundsMatched, ActedHaveMatched, HighestBet;
    BetKeepsSeats(t.seats, i, w);
    OthersAfterBet(t.seats, i, w);
    var after := SeatsAfterBet(t.seats, i, w);
    PaymentKeepsLedger(t.ledger, t.seats, after, i, w);
    PotTotalAfterAdd(t.ledger, t.seats[i].id, w);
    SumAtLeast(Stacks(t.seats), i);
  }

  lemma AppliedKeepsSound(t: Table, a: Action)
    requires Sound(t) && Validate(t, a) == None
    ensures Sound(Applied(t, a))
    ensures ChipsInPlay(Applied(t, a)) == ChipsInPlay(t)
  {
    hide SeatsAfterBet, AddBet, EarlierRoundsMatched, ActedHaveMatched, HighestBet;
    var i := SeatOf(t.seats, a.player);
    match a.kind {
      case Fold =>
        FoldKeepsSeats(t.seats, i);
        SameChips(t.seats, Applied(t, a).seats, t.ledger);
      case Check =>
        CheckKeepsSeats(t.seats, i);
        SameChips(t.seats, Applied(t, a).seats, t.ledger);
      case _ =>
        AcceptedWager(t, i, a);
        BetKeepsSound(t, i, Wager(t, t.seats[i], a));
    }
  }

  /** How the action leaves the actor and everyone else. */
  lemma AppliedSeats(t: Table, a: Action)
    requires t.ledger.pots != [] && Validate(t, a) == None
    ensures var i := SeatOf(t.seats, a.player);
            var after := Applied(t, a);
            && i < |t.seats| == |after.seats|
            && after.toAct == t.toAct && after.phase == t.phase && after.board == t.board
            && after.bigBlind == t.bigBlind && after.dealer == t.dealer
            && after.seats[i].acted
            && (forall k :: 0 <= k < |t.seats| ==>
                  after.seats[k].id == t.seats[k].id && after.seats[k].hole == t.seats[k].hole)
            && (forall k :: 0 <= k < |t.seats| && k != i ==>
                  && after.seats[k].CanAct() == t.seats[k].CanAct()
                  && after.seats[k].folded == t.seats[k].folded
                  && after.seats[k].total == t.seats[k].total
                  && after.seats[k].stack == t.seats[k].stack)
            && ((forall k :: 0 <= k < |t.seats| && k != i ==> after.seats[k].acted == t.seats[k].acted)
                || (forall k :: 0 <= k < |t.seats| && k != i && after.seats[k].CanAct() ==> !after.seats[k].acted))
            && Act(t, a) == SetNext(after)
  {
    hide SeatsAfterBet, AddBet, HighestBet;
    var i := SeatOf(t.seats, a.player);
    if a.kind != Fold && a.kind != Check {
      AcceptedWager(t, i, a);
      OthersAfterBet(t.seats, i, Wager(t, t.seats[i], a));
    }
  }

  lemma KeptTurnIsOrdered(t: Table, a: Action)
    requires TurnKept(t) && Validate(t, a) == None
    ensures t.toAct == Some(a.player) && SeatOf(t.seats, a.player) < |t.seats|
    ensures TurnOrder(t.seats, SeatOf(t.seats, a.player))
  {
    hide HighestBet;
  }

  /**
   * Every accepted action keeps the table sound and every chip on it, and leaves either a complete round or the
   * turn with a player who can act and has not acted since the last raise.
   */
  lemma AcceptedActionKeepsPlay(t: Table, a: Action)
    requires Sound(t) && TurnKept(t) && Validate(t, a) == None
    ensures Sound(Act(t, a))
    ensures ChipsInPlay(Act(t, a)) == ChipsInPlay(t)
    ensures RoundComplete(Act(t, a).seats) || Awaiting(Act(t, a))
  {
    hide SetNext, Applied, Act, SeatsSound, RoundComplete;
    KeptTurnIsOrdered(t, a);
    AppliedKeepsSound(t, a);
    AppliedSeats(t, a);
    var after := Applied(t, a);
    SetNextChangesTurnOnly(after);
    NextIsAwaited(t, after, SeatOf(t.seats, a.player));
  }

  // ----- between rounds -----

  lemma SidePotsKeepSound(t: Table)
    requires Sound(t)
    ensures Sound(CreateSidePots(t))
    ensures ChipsInPlay(CreateSidePots(t)) == ChipsInPlay(t)
  {
    hide SidePots;
    SidePotsConserve(t.ledger.pots, t.seats);
  }

  lemma NewRoundKeepsMatching(seats: seq<Seat>)
    requires SeatsSound(seats) && Settled(seats)
    ensures EarlierRoundsMatched(SeatsForNewRound(seats))
  {
    var r := SeatsForNewRound(seats);
    forall i, j | 0 <= i < |r| && 0 <= j < |r| && !r[i].folded && !r[j].folded && (r[i].CanAct() || r[i].bet > 0)
      ensures r[j].Prior() <= r[i].Prior()
    {
      assert seats[i].CanAct();
      assert seats[j].bet <= seats[i].bet;
      assert seats[j].Prior() <= seats[i].Prior();
    }
  }

  lemma NewRoundKeepsAble(seats: seq<Seat>)
    ensures SomeoneCanAct(SeatsForNewRound(seats)) == SomeoneCanAct(seats)
  {
    var r := SeatsForNewRound(seats);
    if k :| 0 <= k < |seats| && seats[k].CanAct() {
      assert r[k].CanAct();
    }
    if k :| 0 <= k < |r| && r[k].CanAct() {
      assert seats[k].CanAct();
    }
  }

  lemma NewRoundKeepsSeats(seats: seq<Seat>)
    requires SeatsSound(seats) && Settled(seats)
    ensures SeatsSound(SeatsForNewRound(seats))
    ensures forall k :: 0 <= k < |seats| ==> !SeatsForNewRound(seats)[k].acted
    ensures SomeoneCanAct(SeatsForNewRound(seats)) == SomeoneCanAct(seats)
    ensures Settled(SeatsForNewRound(seats))
  {
    hide EarlierRoundsMatched, SomeoneCanAct;
    NewRoundKeepsMatching(seats);
    NewRoundKeepsAble(seats);
  }

  lemma FreshRoundIsAwaited(t: Table)
    requires SeatsSound(t.seats) && SomeoneCanAct(t.seats)
    requires forall k :: 0 <= k < |t.seats| ==> !t.seats[k].acted
    ensures Awaiting(SetNext(t))
  {
    var start := StartPosition(t);
    SomeoneAbleIsFound(t.seats, start);
    FirstAbleIsFirst(t.seats, start, 0);
    SeatOfUnique(t.seats, FirstAble(t.seats, start, 0).value);
  }

  /** Whoever had the turn before, a new street belongs to the first able player from its opener. */
  lemma NextStreetOpens(t: Table)
    requires UniqueIds(t.seats) && SomeoneCanAct(t.seats) && t.phase != HandComplete
    ensures var after := AdvancePhase(t);
            && after.seats != [] && after.phase == NextPhase(t.phase) && after.dealer == t.dealer
            && TurnFrom(after, StreetOpener(after))
  {
    hide SetNext, TurnFrom, SomeoneCanAct;
    var reset := t.(seats := SeatsForNewRound(t.seats), toAct := None, phase := NextPhase(t.phase),
                    minimumRaise := t.bigBlind, lastRaise := t.bigBlind);
    NewRoundKeepsAble(t.seats);
    SetNextChangesTurnOnly(reset);
    TurnOnNewStreet(reset);
  }

  lemma SoundIdsUnique(seats: seq<Seat>)
    requires SeatsSound(seats)
    ensures UniqueIds(seats) && |seats| >= 2
  {
  }

  /** A new street starts with fresh bets, and with someone to act whenever anybody can. */
  lemma AdvanceKeepsSound(t: Table)
    requires Sound(t) && Settled(t.seats) && t.phase != HandComplete
    ensures var after := AdvancePhase(t);
            && Sound(after) && Settled(after.seats)
            && ChipsInPlay(after) == ChipsInPlay(t)
            && after.phase == NextPhase(t.phase) && after.minimumRaise == t.bigBlind
            && after.seats == SeatsForNewRound(t.seats)
            && after.lastRaise == t.bigBlind && after.bigBlind == t.bigBlind && after.dealer == t.dealer
            && (if SomeoneCanAct(t.seats) then Awaiting(after) && TurnFrom(after, StreetOpener(after))
                else after.toAct == None)
  {
    hide SetNext, SeatsSound, Settled, HighestBet, TurnFrom, Awaiting;
    var reset := t.(seats := SeatsForNewRound(t.seats), toAct := None, phase := NextPhase(t.phase),
                    minimumRaise := t.bigBlind, lastRaise := t.bigBlind);
    NewRoundKeepsSeats(t.seats);
    SoundIdsUnique(reset.seats);
    SameChips(t.seats, reset.seats, t.ledger);
    SetNextChangesTurnOnly(reset);
    if SomeoneCanAct(t.seats) {
      TurnOnNewStreet(reset);
      FreshRoundIsAwaited(reset);
    } else {
      NobodyToAct(reset);
    }
  }

  lemma NobodyToAct(t: Table)
    requires !SomeoneCanAct(t.seats)
    ensures SetNext(t).toAct == None
  {
  }
}
