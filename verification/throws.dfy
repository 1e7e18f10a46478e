/** Play after a showdown has thrown: when calls throw again, and why such a hand need not end. */
module Throws {
  import opened Util
  import opened Players
  import opened Tables
  import opened Betting
  import opened Rounds
  import opened Offers
  import opened Hands
  import opened Showdowns
  import opened Play
  import opened Games

  /** The invalid-phase exception is thrown exactly when a round is completed after a showdown has thrown. */
  lemma InvalidPhaseIff(e: Engine, a: Action)
    requires Live(e) || Stuck(e)
    ensures CardsLaid(e.table, e.deck) && e.table.ledger.pots != []
    ensures ProcessAction(e, a).1 == Failed(InvalidPhase)
       <==> Stuck(e) && Validate(e.table, a) == None && RoundComplete(Act(e.table, a).seats)
  {
    hide Live, Stuck, ProcessAction, CardsLaid, Validate, Act, RoundComplete, Thrown, NewRound, Ended, Continues,
         ForcesShowdown, Stranded, InHand, ChipsInPlay;
    RunningHasPots(e);
    if Validate(e.table, a) != None {
      RefusalChangesNothing(e, a);
    } else if Stuck(e) {
      StuckStep(e, a);
    } else {
      ActionStep(e, a);
    }
  }

  // ----- hands that never change again -----

  /** With nobody able to act, no action and no new player makes any difference. */
  lemma {:induction false} DeadHandsStayDead(e: Engine, events: seq<Event>)
    requires Live(e) || Stuck(e)
    requires !SomeoneCanAct(e.table.seats)
    ensures Finally(e, events) == e
    decreases events
  {
    hide Live, Stuck, ProcessAction, SomeoneCanAct, CardsLaid;
    if events != [] {
      RunningHasPots(e);
      if events[0].ActionTaken? {
        NobodyActsNothingHappens(e, events[0].action);
      }
      assert After(e, events[0]) == e;
      DeadHandsStayDead(e, events[1..]);
    }
  }

  // ----- hands that throw for ever -----

  /** The player to act checks. */
  function CheckOf(e: Engine): Action
    requires e.table.toAct.Some?
  {
    Action(Check, e.table.toAct.value, None)
  }

  /** Stuck with every bet matched and the turn with a player who can act. */
  ghost predicate Jammed(e: Engine) {
    Stuck(e) && RoundComplete(e.table.seats) && e.table.toAct.Some? && OwnTurn(e.table, e.table.toAct.value)
  }

  /** Nobody is ever behind once the round is complete, so the player to act may check. */
  lemma CheckIsValid(e: Engine)
    requires Stuck(e) && e.table.toAct.Some? && OwnTurn(e.table, e.table.toAct.value)
    requires RoundComplete(e.table.seats) || Unbet(e.table.seats)
    ensures Validate(e.table, CheckOf(e)) == None
  {
    hide CardsLaid, LedgerSound;
    var i := SeatOf(e.table.seats, e.table.toAct.value);
    if RoundComplete(e.table.seats) {
      CompleteIffAllActed(e.table.seats);
      ActedMeansHighest(e.table.seats, i);
    } else {
      UnbetIsZero(e.table.seats);
    }
  }

  lemma UnbetIsZero(seats: seq<Seat>)
    requires Unbet(seats)
    ensures HighestBet(seats) == 0
  {
  }

  /** A check changes one flag, and the turn passes to someone able. */
  lemma CheckedSeats(t: Table, a: Action)
    requires t.ledger.pots != [] && Validate(t, a) == None && a.kind == Check && UniqueIds(t.seats)
    ensures var i, after := SeatOf(t.seats, a.player), Act(t, a);
            && i < |t.seats| && after.seats == t.seats[i := AfterCheck(t.seats[i])]
            && SomeoneCanAct(after.seats)
            && after.toAct.Some? && OwnTurn(after, after.toAct.value)
  {
    hide HighestBet, FirstAble;
    var i := SeatOf(t.seats, a.player);
    var checked := Applied(t, a);
    assert checked.seats[i].CanAct();
    var start := StartPosition(checked);
    SomeoneAbleIsFound(checked.seats, start);
    FirstAbleIsFirst(checked.seats, start, 0);
    SeatOfUnique(checked.seats, FirstAble(checked.seats, start, 0).value);
  }

  lemma CheckKeepsComplete(t: Table, a: Action)
    requires Sound(t) && Validate(t, a) == None && a.kind == Check && RoundComplete(t.seats)
    ensures RoundComplete(Act(t, a).seats)
  {
    hide SeatsSound, SetNext, HighestBet;
    SoundIsUnique(t);
    SetNextChangesTurnOnly(Applied(t, a));
  }

  /** The throw leaves every stack as it was and the turn with someone able. */
  lemma ThrownIsJammed(e: Engine, a: Action)
    requires Stuck(e) && Validate(e.table, a) == None && a.kind == Check && RoundComplete(Act(e.table, a).seats)
    requires e.table.ledger.pots != [] && CardsLaid(e.table, e.deck)
    ensures Jammed(ProcessAction(e, a).0)
    ensures Stacks(ProcessAction(e, a).0.table.seats) == Stacks(e.table.seats)
  {
    hide Stuck, CardsLaid, Sound, RoundComplete, Act, Thrown, CompleteRound, SetNext, Validate;
    RunningHasPots(e);
    StuckActed(e, a);
    StuckStep(e, a);
    CheckedSeats(e.table, a);
    var acted := e.(table := Act(e.table, a));
    ShowdownCannotClose(acted);
    ActKeepsCards(e.table, e.deck, a);
    assert ProcessAction(e, a).0 == acted.(table := CreateSidePots(acted.table));
  }

  /** A check is then accepted by the validator, throws, and leaves the engine jammed as before, chip for chip. */
  lemma JammedThrowsAgain(e: Engine)
    requires Jammed(e)
    ensures CardsLaid(e.table, e.deck) && e.table.ledger.pots != [] && Validate(e.table, CheckOf(e)) == None
    ensures var (after, outcome) := ProcessAction(e, CheckOf(e));
            && outcome == Failed(InvalidPhase) && Jammed(after)
            && Stacks(after.table.seats) == Stacks(e.table.seats)
  {
    hide Stuck, ProcessAction, CardsLaid, Sound, RoundComplete, Act, Thrown, Ended, InHand, ChipsInPlay;
    RunningHasPots(e);
    CheckIsValid(e);
    CheckKeepsComplete(e.table, CheckOf(e));
    StuckStep(e, CheckOf(e));
    ThrownIsJammed(e, CheckOf(e));
  }

  // ----- checking a hand down -----

  /** The engine after the player to act has checked `n` times over. */
  ghost function CheckedDown(e: Engine, n: nat): Engine
    decreases n
  {
    if n == 0 || e.table.toAct.None? then e
    else CheckedDown(After(e, ActionTaken(CheckOf(e))), n - 1)
  }

  /** Each of the first `n` checks is accepted. */
  ghost predicate ChecksAccepted(e: Engine, n: nat)
    decreases n
  {
    n > 0 ==>
      && e.table.toAct.Some? && Answer(e, ActionTaken(CheckOf(e))) == Some(Accepted)
      && ChecksAccepted(After(e, ActionTaken(CheckOf(e))), n - 1)
  }

  /** The engine after one more check. */
  ghost function Past(e: Engine, n: nat): Engine {
    var last := CheckedDown(e, n);
    if last.table.toAct.None? then last else After(last, ActionTaken(CheckOf(last)))
  }

  /** The first `n` checks are accepted, and the next one throws for a pot nobody may win. */
  ghost predicate PotThrowAt(e: Engine, n: nat) {
    var last := CheckedDown(e, n);
    && ChecksAccepted(e, n) && last.table.toAct.Some?
    && var answer := Answer(last, ActionTaken(CheckOf(last)));
       answer.Some? && answer.value.Failed? && answer.value.failure.PotWithoutRecipient?
  }

  /** The first `n` checks are accepted, and the next one throws because no street is left to close. */
  ghost predicate PhaseThrowAt(e: Engine, n: nat) {
    var last := CheckedDown(e, n);
    && ChecksAccepted(e, n) && last.table.toAct.Some?
    && Answer(last, ActionTaken(CheckOf(last))) == Some(Failed(InvalidPhase))
  }

  /** Nobody has bet in this round, two or more are in the hand, and a player is to act. */
  ghost predicate Checkable(e: Engine) {
    (Live(e) || Stuck(e)) && Awaiting(e.table) && Unbet(e.table.seats) && |InHand(e.table.seats)| >= 2
  }

  lemma CheckableCheck(e: Engine)
    requires Checkable(e)
    ensures e.table.toAct.Some? && e.table.ledger.pots != [] && CardsLaid(e.table, e.deck) && UniqueIds(e.table.seats)
    ensures Validate(e.table, CheckOf(e)) == None
    ensures var after := Act(e.table, CheckOf(e));
            && SameStakes(e.table.seats, after.seats) && Unbet(after.seats) && SomeoneCanAct(after.seats)
            && |InHand(after.seats)| >= 2 && after.phase == e.table.phase
  {
    hide Live, Stuck, CardsLaid, TurnOrder, SetNext, InHand, SomeoneCanAct;
    RunningHasPots(e);
    UnbetIsZero(e.table.seats);
    var a := CheckOf(e);
    CheckedSeats(e.table, a);
    SameInHand(e.table.seats, Act(e.table, a).seats);
    ActKeepsPhase(e.table, a);
  }

  /**
   * A live hand with a folded player's chips out of everyone's reach, checked down: every check is accepted until the
   * one that closes the last street throws, and then players are still to act in an engine that is stuck.
   */
  lemma {:induction false} StrandedCheckDown(e: Engine) returns (n: nat)
    requires Live(e) && Checkable(e) && Stranded(e.table.seats)
    ensures PotThrowAt(e, n) && Stuck(Past(e, n)) && Checkable(Past(e, n))
    decreases Budget(e)
  {
    hide Live, Stuck, ProcessAction, CardsLaid, Validate, Act, SameStakes, Unbet, InHand, SomeoneCanAct, Ended, Awaiting,
         Stranded, ChipsInPlay, Sound, RoundComplete, Budget;
    CheckableCheck(e);
    var a := CheckOf(e);
    AcceptedEvent(e, a);
    var acted := e.(table := Act(e.table, a));
    SameStranded(e.table.seats, acted.table.seats);
    ActionStep(e, a);
    var (after, outcome) := ProcessAction(e, a);
    StillCheckable(e, acted, after, outcome);
    if outcome.Failed? {
      n := 0;
    } else {
      CheckedHandGoesOn(e, a);
      SameStranded(e.table.seats, after.table.seats);
      BudgetDecreases(e, a);
      var m := StrandedCheckDown(after);
      n := m + 1;
    }
  }

  lemma AcceptedEvent(e: Engine, a: Action)
    requires Live(e) || Stuck(e)
    ensures CardsLaid(e.table, e.deck) && e.table.ledger.pots != []
    ensures Step(e, ActionTaken(a)) == (ProcessAction(e, a).0, Some(ProcessAction(e, a).1))
  {
    hide Live, Stuck, ProcessAction;
    RunningHasPots(e);
  }

  /** A stranded hand in which nobody folds does not end. */
  lemma CheckedHandGoesOn(e: Engine, a: Action)
    requires Live(e) && Validate(e.table, a) == None && e.table.ledger.pots != [] && CardsLaid(e.table, e.deck)
    requires |InHand(Act(e.table, a).seats)| >= 2 && Stranded(Act(e.table, a).seats)
    requires !ProcessAction(e, a).1.Failed?
    ensures ProcessAction(e, a).1 == Accepted && ProcessAction(e, a).0.running
  {
    hide Live, ProcessAction, Act, Validate, Stranded, Continues, NewRound, Thrown, Ended, InHand, ForcesShowdown;
    ActionStep(e, a);
  }

  lemma StillCheckable(e: Engine, acted: Engine, after: Engine, outcome: Outcome)
    requires UniqueIds(e.table.seats)
    requires SameStakes(e.table.seats, acted.table.seats) && Unbet(acted.table.seats) && SomeoneCanAct(acted.table.seats)
    requires |InHand(acted.table.seats)| >= 2
    ensures NewRound(acted, after) && (Live(after) || Stuck(after)) ==> Checkable(after)
    ensures after == acted && (Live(after) || Stuck(after)) && Awaiting(after.table) ==> Checkable(after)
    ensures NewRound(acted, after) || after == acted ==> SameStakes(e.table.seats, after.table.seats)
  {
    hide Live, Stuck, InHand, Sound, CardsLaid, SomeoneCanAct, Awaiting;
    if NewRound(acted, after) {
      SameInHand(acted.table.seats, after.table.seats);
    }
  }

  /** A stuck hand checked round once more: every check is accepted until the last one throws the other exception. */
  lemma {:induction false} StuckCheckDown(e: Engine) returns (n: nat)
    requires Stuck(e) && Checkable(e)
    ensures PhaseThrowAt(e, n) && Jammed(Past(e, n))
    decreases Budget(e)
  {
    hide Live, Stuck, ProcessAction, CardsLaid, Validate, Act, SameStakes, Unbet, InHand, SomeoneCanAct, Ended, Awaiting,
         ChipsInPlay, Sound, RoundComplete, Budget, Thrown;
    CheckableCheck(e);
    var a := CheckOf(e);
    AcceptedEvent(e, a);
    var acted := e.(table := Act(e.table, a));
    StuckStep(e, a);
    var (after, outcome) := ProcessAction(e, a);
    if outcome.Failed? {
      ThrownIsJammed(e, a);
      n := 0;
    } else {
      StillCheckable(e, acted, after, outcome);
      BudgetDecreases(e, a);
      var m := StuckCheckDown(after);
      n := m + 1;
    }
  }

  /** However often the players go on checking, every check throws and no chip moves. */
  lemma {:induction false} JammedForEver(e: Engine, n: nat)
    requires Jammed(e)
    ensures Jammed(CheckedDown(e, n)) && Stacks(CheckedDown(e, n).table.seats) == Stacks(e.table.seats)
    ensures var last := CheckedDown(e, n); Answer(last, ActionTaken(CheckOf(last))) == Some(Failed(InvalidPhase))
    decreases n
  {
    hide Live, Stuck, RoundComplete, OwnTurn, ProcessAction;
    AcceptedEvent(e, CheckOf(e));
    JammedThrowsAgain(e);
    if n > 0 {
      JammedForEver(After(e, ActionTaken(CheckOf(e))), n - 1);
    }
  }
}
