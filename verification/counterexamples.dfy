/** Concrete play for which the code does not keep what its interface suggests. */
module Counterexamples {
  import opened Util
  import opened Cards
  import opened Players
  import opened PotLayers
  import opened Tables
  import opened Betting
  import opened Rounds
  import opened Offers
  import opened Decks
  import opened Hands
  import opened Showdowns
  import opened Play
  import opened Runs
  import opened Games
  import opened Throws

  function Waiting(id: PlayerId, stack: nat): Seat {
    Seat(id, stack, 0, 0, false, false, false, [])
  }

  /** Three players with these stacks between hands, blinds 10 and 20, the button last in seat 2, a turn left over. */
  ghost predicate Three(e: Engine, a: nat, b: nat, c: nat, left: PlayerId) {
    var t := e.table;
    && !e.running && |t.seats| == 3 && (forall k :: 0 <= k < 3 ==> t.seats[k].id == k)
    && t.seats[0].stack == a && t.seats[1].stack == b && t.seats[2].stack == c
    && t.dealer == 2 && t.toAct == Some(left) && t.smallBlind == 10 && t.bigBlind == 20
  }

  /** Two short stacks and a big blind with chips to spare. */
  ghost predicate ShortStacks(e: Engine, order: seq<Card>) {
    Three(e, 5, 5, 100, 1) && Ready(e, order)
  }

  /** Equal stacks, and the turn left over with the new dealer, so that the big blind acts first. */
  ghost predicate EqualStacks(e: Engine, order: seq<Card>) {
    Three(e, 100, 100, 100, 0) && Ready(e, order)
  }

  /** A table of three after some earlier hand. */
  function Table3(a: nat, b: nat, c: nat, left: PlayerId): Engine {
    Engine(Table([Waiting(0, a), Waiting(1, b), Waiting(2, c)], [], EMPTY_LEDGER, HandComplete, Some(left),
                 2, 1, 2, 10, 20, 20, 20),
           DeckState([], []), map[], false)
  }

  function Table2(a: nat, b: nat): Engine {
    Engine(Table([Waiting(0, a), Waiting(1, b)], [], EMPTY_LEDGER, HandComplete, None, 1, 0, 1, 10, 20, 20, 20),
           DeckState([], []), map[], false)
  }

  lemma SuchTablesExist()
    ensures ShortStacks(Table3(5, 5, 100, 1), FullDeck()) && EqualStacks(Table3(100, 100, 100, 0), FullDeck())
    ensures HeadsUp(Table2(10, 20), FullDeck())
  {
    hide FullDeck;
  }

  /** Seat `k` is still in the hand, with this stack and all it has put in put in this round. */
  ghost predicate At(t: Table, k: nat, stack: nat, bet: nat, acted: bool) {
    && k < |t.seats|
    && var s := t.seats[k];
       s.id == k && s.stack == stack && s.bet == bet && s.total == bet && s.acted == acted && !s.folded
       && (s.allIn <==> stack == 0)
  }

  ghost predicate FoldedAt(t: Table, k: nat, bet: nat) {
    k < |t.seats| && t.seats[k].id == k && t.seats[k].folded && t.seats[k].bet == bet && t.seats[k].total == bet
  }

  lemma SeatOfThree(t: Table, k: nat)
    requires |t.seats| == 3 && k < 3
    requires forall j :: 0 <= j < 3 ==> t.seats[j].id == j
    ensures SeatOf(t.seats, k) == k
  {
    SeatOfUnique(t.seats, k);
  }

  /** The turn goes to the next seat that can act. */
  lemma TurnGoesTo(t: Table, from: nat, to: nat)
    requires |t.seats| == 3 && from < 3 && to < 3 && t.toAct == Some(from)
    requires forall j :: 0 <= j < 3 ==> t.seats[j].id == j
    requires t.seats[to].CanAct()
    requires forall j :: 0 <= j < 3 && Ahead(3, (from + 1) % 3, j) < Ahead(3, (from + 1) % 3, to) ==> !t.seats[j].CanAct()
    ensures SetNext(t) == t.(toAct := Some(to))
  {
    hide FirstAble;
    SeatOfThree(t, from);
    assert StartPosition(t) == (from + 1) % 3;
    FirstAbleIsFirst(t.seats, (from + 1) % 3, 0);
    SomeoneAbleIsFound(t.seats, (from + 1) % 3);
    var k := FirstAble(t.seats, (from + 1) % 3, 0).value;
    assert k == to;
  }

  lemma ThreeSeated(e: Engine, order: seq<Card>, a: nat, b: nat, c: nat, left: PlayerId)
    requires Three(e, a, b, c, left) && a > 0 && b > 0 && c > 0 && |order| == 52
    ensures var t := Seated(e.table, order);
            && |t.seats| == 3 && At(t, 0, a, 0, false) && At(t, 1, b, 0, false) && At(t, 2, c, 0, false)
            && t.smallBlindSeat == 1 && t.bigBlindSeat == 2 && t.toAct == Some(left)
            && t.smallBlind == 10 && t.bigBlind == 20 && t.ledger == EMPTY_LEDGER && t.phase == PreFlop
  {
    hide HoleCards;
    SeatedSeats(e.table, order);
  }

  /** The small blind is all-in, and the turn skips from the big blind to seat 0. */
  lemma ShortStacksStarted(e: Engine, order: seq<Card>)
    requires ShortStacks(e, order)
    ensures var t := StartHand(e, order).table;
            && |t.seats| == 3 && At(t, 0, 5, 0, false) && At(t, 1, 0, 5, false) && At(t, 2, 80, 20, false)
            && t.toAct == Some(0)
  {
    hide Seated, SetNext, AddBet, Deal, FullDeck;
    ThreeSeated(e, order, 5, 5, 100, 1);
    var t := Seated(e.table, order);
    PotTotalAfterAdd(t.ledger, t.seats[1].id, 5);
    var small := ProcessBlind(t, 1, 5);
    var big := ProcessBlind(small, 2, 20);
    assert PostBlinds(t) == SetNext(big);
    TurnGoesTo(big, 1, 2);
    TurnGoesTo(SetNext(big), 2, 0);
  }

  const ALL_IN: Action := Action(AllIn, 0, None)
  const FREE_FOLD: Action := Action(Fold, 2, None)

  lemma HighestIsBlind(t: Table)
    requires |t.seats| == 3 && At(t, 2, 80, 20, false)
    requires forall k :: 0 <= k < 3 ==> t.seats[k].bet <= 20
    ensures HighestBet(t.seats) == 20
  {
    HighestIs(t.seats, 20);
  }

  /** Seat 0 goes all-in for less than the blind, which leaves the big blind nothing to call. */
  lemma AllInForLess(t: Table)
    requires |t.seats| == 3 && At(t, 0, 5, 0, false) && At(t, 1, 0, 5, false) && At(t, 2, 80, 20, false)
    requires t.toAct == Some(0) && t.ledger.pots != []
    ensures Validate(t, ALL_IN) == None
    ensures var after := Act(t, ALL_IN);
            && |after.seats| == 3 && At(after, 0, 0, 5, true) && At(after, 1, 0, 5, false) && At(after, 2, 80, 20, false)
            && after.toAct == Some(2) && !RoundComplete(after.seats) && |InHand(after.seats)| == 3
  {
    hide SetNext, AddBet, HighestBet;
    SeatOfThree(t, 0);
    HighestIsBlind(t);
    var after := Applied(t, ALL_IN);
    OthersAfterBet(t.seats, 0, 5);
    TurnGoesTo(after, 0, 2);
    assert after.seats[2].CanAct() && !after.seats[2].acted;
    EveryoneInHand(after.seats);
  }

  /** The big blind folds though checking is free. */
  lemma FoldForNothing(t: Table)
    requires |t.seats| == 3 && At(t, 0, 0, 5, true) && At(t, 1, 0, 5, false) && At(t, 2, 80, 20, false)
    requires t.toAct == Some(2) && t.ledger.pots != []
    ensures Validate(t, FREE_FOLD) == None && !IsOffered(t, FREE_FOLD)
    ensures ForcesShowdown(t, FREE_FOLD) && Stranded(Act(t, FREE_FOLD).seats) && !SomeoneCanAct(Act(t, FREE_FOLD).seats)
  {
    hide SetNext, HighestBet, LevelSet, InHand, SomeoneCanAct;
    SeatOfThree(t, 2);
    HighestIsBlind(t);
    AcceptedIffOffered(t, FREE_FOLD);
    var after := Applied(t, FREE_FOLD);
    SetNextChangesTurnOnly(after);
    InHandAfterFold(t.seats, 2);
    EveryoneInHand(t.seats);
    TwoLevels(after.seats, 5);
    NobodyLeftToAct(after.seats);
  }

  lemma NobodyLeftToAct(seats: seq<Seat>)
    requires |seats| == 3 && seats[0].stack == 0 && seats[1].stack == 0 && seats[2].folded
    ensures !SomeoneCanAct(seats) && RoundComplete(seats)
  {
  }

  lemma TwoLevels(seats: seq<Seat>, low: nat)
    requires 0 < low < 20
    requires |seats| == 3 && seats[0].total == low && seats[1].total == low && seats[2].total == 20
    ensures |LevelSet(seats)| == 2
  {
    assert forall s :: s in seats <==> s == seats[0] || s == seats[1] || s == seats[2];
    assert seats[0] in seats && seats[2] in seats;
    assert LevelSet(seats) == {low, 20};
  }

  /**
   * The validator accepts a fold that is never offered, and here it makes the showdown throw: the folded player
   * has put in more than anyone left, so the top side pot has no one to win it. Nobody is left to act, so nothing
   * that is called afterwards changes the engine, which stays running.
   */
  lemma FreeFoldStrandsChips(e: Engine, order: seq<Card>, events: seq<Event>)
    requires ShortStacks(e, order)
    ensures var started := StartHand(e, order);
            && Live(started) && started.table.ledger.pots != []
            && ProcessAction(started, ALL_IN).1 == Accepted
            && var next := ProcessAction(started, ALL_IN).0;
               && Live(next) && next.table.ledger.pots != []
               && Validate(next.table, FREE_FOLD) == None && !IsOffered(next.table, FREE_FOLD)
               && ProcessAction(next, FREE_FOLD).1.Failed?
               && ProcessAction(next, FREE_FOLD).0.running
               && Finally(ProcessAction(next, FREE_FOLD).0, events) == ProcessAction(next, FREE_FOLD).0
  {
    hide Live, Stuck, StartHand, ProcessAction, At, ForcesShowdown, Stranded, FullDeck, ALL_IN, FREE_FOLD, Finally,
         SomeoneCanAct, SameStakes, InHand, Ended;
    var started := StartHand(e, order);
    StartedHandIsLive(e, order);
    LiveHasPots(started);
    ShortStacksStarted(e, order);
    AllInForLess(started.table);
    ActedInOpenRound(started, ALL_IN);
    var next := ProcessAction(started, ALL_IN).0;
    LiveHasPots(next);
    FoldForNothing(next.table);
    ActionStep(next, FREE_FOLD);
    var after := ProcessAction(next, FREE_FOLD).0;
    RunningHasPots(after);
    DeadHandsStayDead(after, events);
  }

  /** An action after which two or more are in the hand and someone is still to act. */
  lemma ActedInOpenRound(e: Engine, a: Action)
    requires Live(e) && e.table.ledger.pots != [] && Validate(e.table, a) == None
    requires !RoundComplete(Act(e.table, a).seats) && |InHand(Act(e.table, a).seats)| >= 2
    ensures ProcessAction(e, a) == (e.(table := Act(e.table, a)), Accepted) && Live(ProcessAction(e, a).0)
    ensures Act(e.table, a).phase == e.table.phase
  {
    hide Validate, Act, RoundComplete, InHand, DetermineWinners, Ended;
    OpenStep(e, a);
    ActedIsSound(e, a);
    ActKeepsPhase(e.table, a);
  }

  // ----- a throw with players still to act -----

  const CALL: Action := Action(Call, 0, None)
  const CHECK: Action := Action(Check, 1, None)

  lemma EqualStacksStarted(e: Engine, order: seq<Card>)
    requires EqualStacks(e, order)
    ensures var t := StartHand(e, order).table;
            && |t.seats| == 3 && At(t, 0, 100, 0, false) && At(t, 1, 90, 10, false) && At(t, 2, 80, 20, false)
            && t.toAct == Some(2) && t.phase == PreFlop
  {
    hide Seated, SetNext, AddBet, Deal, FullDeck;
    ThreeSeated(e, order, 100, 100, 100, 0);
    var t := Seated(e.table, order);
    PotTotalAfterAdd(t.ledger, t.seats[1].id, 10);
    var small := ProcessBlind(t, 1, 10);
    var big := ProcessBlind(small, 2, 20);
    assert PostBlinds(t) == SetNext(big);
    TurnGoesTo(big, 0, 1);
    TurnGoesTo(SetNext(big), 1, 2);
    SetNextChangesTurnOnly(big);
    SetNextChangesTurnOnly(SetNext(big));
  }

  lemma BigBlindFolds(t: Table)
    requires |t.seats| == 3 && At(t, 0, 100, 0, false) && At(t, 1, 90, 10, false) && At(t, 2, 80, 20, false)
    requires t.toAct == Some(2) && t.ledger.pots != []
    ensures Validate(t, FREE_FOLD) == None
    ensures var after := Act(t, FREE_FOLD);
            && |after.seats| == 3 && At(after, 0, 100, 0, false) && At(after, 1, 90, 10, false) && FoldedAt(after, 2, 20)
            && after.toAct == Some(0) && !RoundComplete(after.seats) && |InHand(after.seats)| == 2
  {
    hide SetNext, HighestBet, InHand;
    SeatOfThree(t, 2);
    var after := Applied(t, FREE_FOLD);
    TurnGoesTo(after, 2, 0);
    assert after.seats[0].CanAct() && !after.seats[0].acted;
    EveryoneInHand(t.seats);
    InHandAfterFold(t.seats, 2);
  }

  lemma ButtonCalls(t: Table)
    requires |t.seats| == 3 && At(t, 0, 100, 0, false) && At(t, 1, 90, 10, false) && FoldedAt(t, 2, 20)
    requires t.toAct == Some(0) && t.ledger.pots != [] && |InHand(t.seats)| == 2
    ensures Validate(t, CALL) == None
    ensures var after := Act(t, CALL);
            && |after.seats| == 3 && At(after, 0, 90, 10, true) && At(after, 1, 90, 10, false) && FoldedAt(after, 2, 20)
            && after.toAct == Some(1) && !RoundComplete(after.seats) && |InHand(after.seats)| == 2
  {
    hide SetNext, AddBet, HighestBet, InHand;
    SeatOfThree(t, 0);
    HighestIs(t.seats, 10) by {
      assert t.seats[1].bet == 10;
    }
    var after := Applied(t, CALL);
    OthersAfterBet(t.seats, 0, 10);
    TurnGoesTo(after, 0, 1);
    assert after.seats[1].CanAct() && !after.seats[1].acted;
    InHandByFolds(t.seats, after.seats);
  }

  lemma SmallBlindChecks(t: Table)
    requires |t.seats| == 3 && At(t, 0, 90, 10, true) && At(t, 1, 90, 10, false) && FoldedAt(t, 2, 20)
    requires t.toAct == Some(1) && t.ledger.pots != [] && |InHand(t.seats)| == 2 && t.phase == PreFlop
    ensures Validate(t, CHECK) == None
    ensures var after := Act(t, CHECK);
            && RoundComplete(after.seats) && |InHand(after.seats)| == 2 && SomeoneCanAct(after.seats)
            && Stranded(after.seats) && after.phase == PreFlop
  {
    hide SetNext, HighestBet, InHand, LevelSet;
    SeatOfThree(t, 1);
    HighestIs(t.seats, 10) by {
      assert t.seats[1].bet == 10;
    }
    var after := Applied(t, CHECK);
    SetNextChangesTurnOnly(after);
    assert after.seats[0].CanAct();
    InHandByFolds(t.seats, after.seats);
    TwoLevels(after.seats, 10);
  }

  /** The big blind folds with nothing to call, the button calls, the small blind checks. */
  function FoldCallCheck(order: seq<Card>): seq<Event> {
    [HandStarted(order), ActionTaken(FREE_FOLD), ActionTaken(CALL), ActionTaken(CHECK)]
  }

  /** The hand is then on the flop with the folded blind's chips out of reach and players to act. */
  lemma EqualStacksOnTheFlop(e: Engine, order: seq<Card>)
    requires EqualStacks(e, order)
    ensures var flop := Finally(e, FoldCallCheck(order)); Live(flop) && Checkable(flop) && Stranded(flop.table.seats)
  {
    hide Live, Stuck, StartHand, ProcessAction, At, FoldedAt, Stranded, FullDeck, FREE_FOLD, CALL, CHECK, SomeoneCanAct,
         SameStakes, InHand, Ended, Sound, CardsLaid, Awaiting, Unbet, Validate, Act, RoundComplete, Finally, FoldCallCheck,
         Three;
    var started := StartHand(e, order);
    StartedHandIsLive(e, order);
    LiveHasPots(started);
    EqualStacksStarted(e, order);
    BigBlindFolds(started.table);
    ActedInOpenRound(started, FREE_FOLD);
    var folded := started.(table := Act(started.table, FREE_FOLD));
    LiveHasPots(folded);
    ButtonCalls(folded.table);
    ActedInOpenRound(folded, CALL);
    var called := folded.(table := Act(folded.table, CALL));
    LiveHasPots(called);
    SmallBlindChecks(called.table);
    var flop := ProcessAction(called, CHECK).0;
    StrandedStreet(called, CHECK);
    FourEvents(e, order, started, folded, called, flop);
  }

  lemma StrandedStreet(e: Engine, a: Action)
    requires Live(e) && e.table.ledger.pots != [] && Validate(e.table, a) == None && CardsLaid(e.table, e.deck)
    requires var t := Act(e.table, a);
             && RoundComplete(t.seats) && |InHand(t.seats)| == 2 && SomeoneCanAct(t.seats) && Stranded(t.seats)
             && t.phase == PreFlop
    ensures var flop := ProcessAction(e, a).0; Live(flop) && Checkable(flop) && Stranded(flop.table.seats)
  {
    hide Live, Stuck, ProcessAction, Stranded, SomeoneCanAct, SameStakes, InHand, Ended, Sound, CardsLaid, Awaiting, Unbet,
         Validate, Act, Thrown;
    ClosingStep(e, a);
    var flop := ProcessAction(e, a).0;
    SameInHand(Act(e.table, a).seats, flop.table.seats);
    SameStranded(Act(e.table, a).seats, flop.table.seats);
  }

  lemma FinallyStep(e: Engine, event: Event, rest: seq<Event>)
    ensures Finally(e, [event] + rest) == Finally(After(e, event), rest)
  {
    hide Step;
    assert ([event] + rest)[1..] == rest;
  }

  lemma FourEvents(e: Engine, order: seq<Card>, started: Engine, folded: Engine, called: Engine, flop: Engine)
    requires Ready(e, order) && started == StartHand(e, order)
    requires After(started, ActionTaken(FREE_FOLD)) == folded && After(folded, ActionTaken(CALL)) == called
    requires After(called, ActionTaken(CHECK)) == flop
    ensures flop == Finally(e, FoldCallCheck(order))
  {
    hide StartHand, FullDeck, ProcessAction, Finally, Usable, FREE_FOLD, CALL, CHECK;
    HandIsStarted(e, order);
    FinallyStep(called, ActionTaken(CHECK), []);
    FinallyStep(folded, ActionTaken(CALL), [ActionTaken(CHECK)]);
    FinallyStep(started, ActionTaken(FREE_FOLD), [ActionTaken(CALL)] + [ActionTaken(CHECK)]);
    FinallyStep(e, HandStarted(order), [ActionTaken(FREE_FOLD)] + ([ActionTaken(CALL)] + [ActionTaken(CHECK)]));
    NoEvents(flop);
    assert [ActionTaken(CHECK)] + [] == [ActionTaken(CHECK)];
    assert [HandStarted(order)] + ([ActionTaken(FREE_FOLD)] + ([ActionTaken(CALL)] + [ActionTaken(CHECK)]))
        == FoldCallCheck(order);
  }

  lemma HandIsStarted(e: Engine, order: seq<Card>)
    requires Ready(e, order)
    ensures After(e, HandStarted(order)) == StartHand(e, order)
  {
    hide StartHand, FullDeck;
  }

  lemma NoEvents(e: Engine)
    ensures Finally(e, []) == e
  {
  }

  /**
   * From there the players check the hand down. The last check of the river throws for a pot nobody may win, and the
   * engine is still running with players to act; they check again, and the last of those checks throws because there
   * is no street left to close -- and so does every check after it.
   */
  lemma CheckedDownThrowsTwice(e: Engine, order: seq<Card>) returns (n: nat, m: nat)
    requires EqualStacks(e, order)
    ensures var flop := Finally(e, FoldCallCheck(order));
            && PotThrowAt(flop, n) && Stuck(Past(flop, n))
            && PhaseThrowAt(Past(flop, n), m) && Jammed(Past(Past(flop, n), m))
  {
    hide Live, Stuck, Past, PotThrowAt, PhaseThrowAt, Checkable, Jammed, Stranded, Finally, FullDeck;
    EqualStacksOnTheFlop(e, order);
    var flop := Finally(e, FoldCallCheck(order));
    n := StrandedCheckDown(flop);
    m := StuckCheckDown(Past(flop, n));
  }

  // ----- nobody left to act -----

  /** Two players the blinds of 10 and 20 put all-in. */
  ghost predicate HeadsUp(e: Engine, order: seq<Card>) {
    && Ready(e, order) && |e.table.seats| == 2 && e.table.dealer == 1
    && e.table.seats[0].stack == 10 && e.table.seats[1].stack == 20
    && e.table.smallBlind == 10 && e.table.bigBlind == 20
  }

  /** The hand starts, and then nothing that is called ever changes it. */
  lemma HeadsUpStalls(e: Engine, order: seq<Card>, events: seq<Event>)
    requires HeadsUp(e, order)
    ensures var started := StartHand(e, order);
            Live(started) && started.table.toAct == None && Finally(started, events) == started
  {
    hide Live, Stuck, StartHand, HoleCards, Finally, SomeoneCanAct, FullDeck;
    var started := StartHand(e, order);
    StartedHandIsLive(e, order);
    SeatedSeats(e.table, order);
    var t := Seated(e.table, order);
    assert t.smallBlindSeat == 0 && t.bigBlindSeat == 1;
    StartedHandCanBePlayed(e, order);
    DeadHandsStayDead(started, events);
  }

  // ----- a stake of nothing -----

  /** One pot, and a player who put nothing in may win it. */
  lemma NoStakeStillEligible(pots: seq<Pot>)
    requires PotTotal(pots) == 5
    ensures var seats := [Waiting(0, 0).(total := 5), Waiting(1, 9)];
            && EligibleTotal(SidePots(pots, seats), 1) == 5
            && Sum(Matched(seats, 0, 0)) == 0
  {
    var seats := [Waiting(0, 0).(total := 5), Waiting(1, 9)];
    assert Totals(seats) == [5, 0] && Totals(seats)[1..] == [0];
    SumOne(0);
    assert seats[0] in seats && seats[1] in seats;
    assert LevelSet(seats) == {5};
    MatchedShareUnlayered(pots, seats, 1);
  }
}
