/** Runs of events at a table: conservation, termination, and play that never strands a chip. */
module Games {
  import opened Util
  import opened Cards
  import opened Players
  import opened PotLayers
  import opened Tables
  import opened Betting
  import opened Rounds
  import opened Offers
  import opened Hands
  import opened Showdowns
  import opened Play
  import opened Runs

  // ----- every hand ends -----

  /** `k` streets, `s` of `chips` chips, `p` of `n` players, most important first, as one number. */
  function Ranked(k: nat, chips: nat, s: nat, n: nat, p: nat): nat {
    (k * (chips + 1) + s) * (n + 1) + p
  }

  /** Streets left, then chips left in the stacks, then players left to act. */
  function Budget(e: Engine): nat {
    Ranked(StreetsLeft(e.table.phase), ChipsInPlay(e.table), Sum(Stacks(e.table.seats)), |e.table.seats|,
           Sum(Pending(e.table.seats)))
  }

  lemma FewPending(seats: seq<Seat>)
    ensures Sum(Pending(seats)) <= |seats|
  {
    SumOfFlags(Pending(seats));
  }

  lemma RankedByFirst(x: nat, y: nat, n: nat, q: nat, p: nat)
    requires x < y && q <= n
    ensures x * (n + 1) + q < y * (n + 1) + p
  {
    MultipleGap(x, y, n + 1);
  }

  lemma FewerStreets(k: nat, l: nat, chips: nat, s: nat, r: nat, n: nat, p: nat, q: nat)
    requires l < k && r <= chips && q <= n
    ensures Ranked(l, chips, r, n, q) < Ranked(k, chips, s, n, p)
  {
    MultipleGap(l, k, chips + 1);
    RankedByFirst(l * (chips + 1) + r, k * (chips + 1) + s, n, q, p);
  }

  lemma FewerChips(k: nat, chips: nat, s: nat, r: nat, n: nat, p: nat, q: nat)
    requires r < s && q <= n
    ensures Ranked(k, chips, r, n, q) < Ranked(k, chips, s, n, p)
  {
    RankedByFirst(k * (chips + 1) + r, k * (chips + 1) + s, n, q, p);
  }

  lemma FewerToAct(k: nat, chips: nat, s: nat, n: nat, p: nat, q: nat)
    requires q < p
    ensures Ranked(k, chips, s, n, q) < Ranked(k, chips, s, n, p)
  {
  }

  lemma RankedAtLeast(k: nat, chips: nat, s: nat, n: nat, p: nat)
    ensures Ranked(k, chips, s, n, p) >= p
  {
    var x := k * (chips + 1) + s;
    assert x * (n + 1) >= 0;
  }

  /** Every accepted action that leaves the hand running uses up some of the budget, after a throw as before one. */
  lemma BudgetDecreases(e: Engine, a: Action)
    requires (Live(e) || Stuck(e)) && Validate(e.table, a) == None
    ensures e.table.ledger.pots != []
    ensures var (after, outcome) := ProcessAction(e, a);
            outcome == Accepted && after.running ==> Budget(after) < Budget(e)
  {
    hide Live, Stuck, ProcessAction, Sound, CardsLaid, InHand, Act, Validate, Stranded, ForcesShowdown, SameStakes, Ended,
         ChipsInPlay, Awaiting, Ranked, RoundComplete, TurnKept, Unbet;
    RunningHasPots(e);
    RunningKeepsTurn(e, a);
    AcceptedActionKeepsPlay(e.table, a);
    var (after, outcome) := ProcessAction(e, a);
    if outcome == Accepted && after.running {
      if Live(e) {
        LiveIsAwaiting(e, a);
        ActionStep(e, a);
      } else {
        StuckStep(e, a);
      }
      if after == e.(table := Act(e.table, a)) {
        LessOnTheStreet(e, a);
      } else {
        LessByStreet(e, after);
      }
    }
  }

  lemma RunningHasPots(e: Engine)
    requires Live(e) || Stuck(e)
    ensures e.running && e.table.ledger.pots != [] && CardsLaid(e.table, e.deck) && Sound(e.table)
    ensures UniqueIds(e.table.seats) && |e.table.seats| <= 10
  {
    hide LedgerSound;
    LedgerIsKept(e);
  }

  lemma LedgerIsKept(e: Engine)
    requires Live(e) || Stuck(e)
    ensures e.table.ledger.pots != []
  {
  }

  lemma RunningKeepsTurn(e: Engine, a: Action)
    requires (Live(e) || Stuck(e)) && Validate(e.table, a) == None
    ensures Sound(e.table) && TurnKept(e.table)
  {
  }

  lemma LessByStreet(e: Engine, after: Engine)
    requires StreetsLeft(after.table.phase) < StreetsLeft(e.table.phase)
    requires ChipsInPlay(after.table) == ChipsInPlay(e.table) && |after.table.seats| == |e.table.seats|
    ensures Budget(after) < Budget(e)
  {
    hide ChipsInPlay, Ranked;
    FewPending(after.table.seats);
    StacksWithinChips(after.table);
    FewerStreets(StreetsLeft(e.table.phase), StreetsLeft(after.table.phase), ChipsInPlay(e.table),
                 Sum(Stacks(e.table.seats)), Sum(Stacks(after.table.seats)), |e.table.seats|,
                 Sum(Pending(e.table.seats)), Sum(Pending(after.table.seats)));
  }

  /** An action that leaves its round open costs chips or leaves fewer players to act. */
  lemma LessOnTheStreet(e: Engine, a: Action)
    requires Sound(e.table) && TurnKept(e.table) && Validate(e.table, a) == None
    requires ChipsInPlay(Act(e.table, a)) == ChipsInPlay(e.table)
    requires !Awaiting(e.table) ==> !RoundComplete(Act(e.table, a).seats)
    ensures Budget(e.(table := Act(e.table, a))) < Budget(e)
  {
    hide Sound, Act, Validate, ChipsInPlay, Awaiting, Ranked, RoundComplete;
    SoundIsUnique(e.table);
    var after := Act(e.table, a);
    FewPending(after.seats);
    ActKeepsPhase(e.table, a);
    if Awaiting(e.table) {
      ActionMakesProgress(e.table, a);
    } else {
      ReopeningCosts(e.table, a);
    }
    var k, chips, n := StreetsLeft(e.table.phase), ChipsInPlay(e.table), |e.table.seats|;
    if Sum(Stacks(after.seats)) < Sum(Stacks(e.table.seats)) {
      FewerChips(k, chips, Sum(Stacks(e.table.seats)), Sum(Stacks(after.seats)), n,
                 Sum(Pending(e.table.seats)), Sum(Pending(after.seats)));
    } else {
      FewerToAct(k, chips, Sum(Stacks(e.table.seats)), n, Sum(Pending(e.table.seats)), Sum(Pending(after.seats)));
    }
  }

  lemma StacksWithinChips(t: Table)
    ensures Sum(Stacks(t.seats)) <= ChipsInPlay(t)
  {
  }

  lemma AwaitingIsPending(t: Table)
    requires Awaiting(t)
    ensures Sum(Pending(t.seats)) >= 1
  {
    SumAtLeast(Pending(t.seats), SeatOf(t.seats, t.toAct.value));
  }

  // ----- events at a table -----

  /** What can be done to the engine: seat a player, deal a hand from a shuffled deck, or process an action. */
  datatype Event = PlayerSeated(id: PlayerId, chips: nat) | HandStarted(order: seq<Card>) | ActionTaken(action: Action)

  /** What the engine needs to run a call at all; every state reached keeps it. */
  ghost predicate Usable(e: Engine) {
    |e.table.seats| <= 10 && (e.running ==> CardsLaid(e.table, e.deck) && e.table.ledger.pots != [])
  }

  /** A hand is started between hands, from two players on and from a full deck; anything else may come at any time. */
  ghost predicate Possible(e: Engine, event: Event) {
    && Usable(e)
    && match event
       case HandStarted(order) =>
         !e.running && |e.table.seats| >= 2 && |order| == 52 && multiset(order) == multiset(FullDeck())
       case _ => true
  }

  predicate Joins(e: Engine, id: PlayerId, chips: nat) {
    !e.running && SeatingFor(e.table, NewSeat(id, chips)) == Welcome
  }

  /** The engine after an event, and how the call ended; an impossible event is no call and changes nothing. */
  ghost function Step(e: Engine, event: Event): (Engine, Option<Outcome>) {
    if !Possible(e, event) then (e, None)
    else
      match event
      case PlayerSeated(id, chips) => (SeatPlayer(e, id, chips), if Joins(e, id, chips) then Some(Accepted) else None)
      case HandStarted(order) => (StartHand(e, order), Some(Accepted))
      case ActionTaken(action) => var (after, outcome) := ProcessAction(e, action); (after, Some(outcome))
  }

  ghost function After(e: Engine, event: Event): Engine {
    Step(e, event).0
  }

  ghost function Answer(e: Engine, event: Event): Option<Outcome> {
    Step(e, event).1
  }

  ghost function Finally(e: Engine, events: seq<Event>): Engine
    decreases events
  {
    if events == [] then e else Finally(After(e, events[0]), events[1..])
  }

  /** The chips an event brings to the table. */
  function BoughtBy(e: Engine, event: Event): nat {
    if event.PlayerSeated? && Joins(e, event.id, event.chips) then event.chips else 0
  }

  ghost function BoughtIn(e: Engine, events: seq<Event>): nat
    decreases events
  {
    if events == [] then 0 else BoughtBy(e, events[0]) + BoughtIn(After(e, events[0]), events[1..])
  }

  // ----- every chip is kept -----

  /** All the chips: in the stacks between hands, in stacks and pots during one, even after a call has thrown. */
  ghost predicate Keeps(e: Engine, chips: nat) {
    if e.running then (Live(e) || Stuck(e)) && ChipsInPlay(e.table) == chips else Ended(e, chips)
  }

  lemma KeepsIsUsable(e: Engine, chips: nat)
    requires Keeps(e, chips)
    ensures Usable(e)
  {
    hide Live, Stuck, CardsLaid;
    if e.running {
      RunningHasPots(e);
    }
  }

  /** One call, whether it is accepted, refused or throws, keeps every chip. */
  lemma StepConserves(e: Engine, event: Event, chips: nat)
    requires Keeps(e, chips)
    ensures Keeps(After(e, event), chips + BoughtBy(e, event))
  {
    hide Live, Stuck, Usable, ProcessAction, StartHand, SeatPlayer, Ended, ChipsInPlay, Joins;
    KeepsIsUsable(e, chips);
    if Possible(e, event) {
      match event {
        case PlayerSeated(id, bought) => SeatingConserves(e, id, bought, chips);
        case HandStarted(order) => HandConserves(e, order, chips);
        case ActionTaken(a) =>
          UsableToAct(e);
          ActionConserves(e, a, chips);
      }
    }
  }

  lemma UsableToAct(e: Engine)
    requires Usable(e)
    ensures e.running ==> CardsLaid(e.table, e.deck) && e.table.ledger.pots != []
  {
  }

  lemma SeatingConserves(e: Engine, id: PlayerId, bought: nat, chips: nat)
    requires Keeps(e, chips)
    ensures Keeps(SeatPlayer(e, id, bought), chips + if Joins(e, id, bought) then bought else 0)
  {
    hide Live, Stuck, ChipsInPlay;
    if Joins(e, id, bought) {
      var seats := e.table.seats;
      var after := seats + [NewSeat(id, bought)];
      assert SeatPlayer(e, id, bought).table.seats == after;
      assert Stacks(after) == Stacks(seats) + [bought];
      SumConcat(Stacks(seats), [bought]);
      SumOne(bought);
    }
  }

  lemma HandConserves(e: Engine, order: seq<Card>, chips: nat)
    requires Keeps(e, chips) && Possible(e, HandStarted(order))
    ensures Keeps(StartHand(e, order), chips)
  {
    hide Live, Stuck, StartHand, ChipsInPlay, FullDeck, SameStakes;
    EndedIsReady(e, order, chips);
    StartedHandIsLive(e, order);
    RunningHasPots(StartHand(e, order));
  }

  lemma EndedIsReady(e: Engine, order: seq<Card>, chips: nat)
    requires Ended(e, chips) && Possible(e, HandStarted(order))
    ensures Ready(e, order) && Sum(Stacks(e.table.seats)) == chips
  {
  }

  lemma ActionConserves(e: Engine, a: Action, chips: nat)
    requires Keeps(e, chips)
    requires e.running ==> CardsLaid(e.table, e.deck) && e.table.ledger.pots != []
    ensures Keeps(ProcessAction(e, a).0, chips)
  {
    hide Live, Stuck, ProcessAction, Ended, Act, Validate, Stranded, ForcesShowdown, SameStakes, ChipsInPlay, NewRound,
         CardsLaid, InHand, RoundComplete, Continues;
    if !e.running {
      StoppedChangesNothing(e, a);
    } else if Validate(e.table, a) != None {
      RefusalChangesNothing(e, a);
    } else if Live(e) {
      ActionStep(e, a);
      LiveOutcomeKeeps(e, a, chips);
    } else {
      StuckStep(e, a);
      StuckOutcomeKeeps(e, a, chips);
    }
  }

  lemma LiveOutcomeKeeps(e: Engine, a: Action, chips: nat)
    requires Live(e) && Validate(e.table, a) == None && ChipsInPlay(e.table) == chips
    requires e.table.ledger.pots != [] && CardsLaid(e.table, e.deck)
    ensures Keeps(ProcessAction(e, a).0, chips)
  {
    hide Live, Stuck, ProcessAction, Ended, Act, Validate, Stranded, ForcesShowdown, SameStakes, ChipsInPlay, NewRound,
         CardsLaid, InHand;
    ActionStep(e, a);
    var (after, outcome) := ProcessAction(e, a);
    if outcome.Failed? || after.running {
      assert Live(after) || Stuck(after);
      RunningHasPots(after);
    } else {
      EndedIsStopped(after, chips);
    }
  }

  lemma StuckOutcomeKeeps(e: Engine, a: Action, chips: nat)
    requires Stuck(e) && Validate(e.table, a) == None && ChipsInPlay(e.table) == chips
    requires e.table.ledger.pots != [] && CardsLaid(e.table, e.deck)
    ensures Keeps(ProcessAction(e, a).0, chips)
  {
    hide Live, Stuck, ProcessAction, Ended, Act, Validate, SameStakes, ChipsInPlay, CardsLaid, InHand, RoundComplete;
    StuckStep(e, a);
    var (after, outcome) := ProcessAction(e, a);
    if outcome.Failed? || after.running {
      RunningHasPots(after);
    } else {
      EndedIsStopped(after, chips);
    }
  }

  lemma RefusalChangesNothing(e: Engine, a: Action)
    requires e.running && Validate(e.table, a) != None && CardsLaid(e.table, e.deck) && e.table.ledger.pots != []
    ensures ProcessAction(e, a) == (e, Rejected(Validate(e.table, a).value))
  {
  }

  lemma StoppedChangesNothing(e: Engine, a: Action)
    requires !e.running
    ensures ProcessAction(e, a) == (e, NotRunning)
  {
  }

  /**
   * Over any sequence of calls -- seating players, hands, actions accepted, refused or throwing -- the chips only ever
   * move between stacks and pots.
   */
  lemma {:induction false} GamesConserve(e: Engine, events: seq<Event>, chips: nat)
    requires Keeps(e, chips)
    ensures Keeps(Finally(e, events), chips + BoughtIn(e, events))
    decreases events
  {
    hide Keeps, Step;
    if events != [] {
      StepConserves(e, events[0], chips);
      GamesConserve(After(e, events[0]), events[1..], chips + BoughtBy(e, events[0]));
    }
  }

  lemma NewEngineKeeps(smallBlind: nat, bigBlind: nat)
    ensures Keeps(NewEngine(smallBlind, bigBlind), 0)
  {
    assert Stacks(NewEngine(smallBlind, bigBlind).table.seats) == [];
  }

  /** From the constructor on, whatever is called, the table holds exactly what its players brought to it. */
  lemma TablesConserve(smallBlind: nat, bigBlind: nat, events: seq<Event>)
    ensures Keeps(Finally(NewEngine(smallBlind, bigBlind), events), BoughtIn(NewEngine(smallBlind, bigBlind), events))
  {
    hide Keeps, NewEngine;
    NewEngineKeeps(smallBlind, bigBlind);
    GamesConserve(NewEngine(smallBlind, bigBlind), events, 0);
  }

  // ----- every run of accepted actions ends -----

  /** Consecutive actions, each accepted. */
  ghost predicate Plays(e: Engine, actions: seq<Action>)
    decreases actions
  {
    actions != [] ==>
      Answer(e, ActionTaken(actions[0])) == Some(Accepted) && Plays(After(e, ActionTaken(actions[0])), actions[1..])
  }

  /** A run of accepted actions is no longer than the budget it started with, even after a throw. */
  lemma {:induction false} HandsTerminate(e: Engine, actions: seq<Action>)
    requires Live(e) || Stuck(e)
    ensures Plays(e, actions) ==> |actions| <= Budget(e)
    decreases actions
  {
    hide Live, Stuck, Step, Budget, Keeps;
    if actions != [] && Plays(e, actions) {
      var after := After(e, ActionTaken(actions[0]));
      AcceptedStep(e, actions[0]);
      if after.running {
        HandsTerminate(after, actions[1..]);
      } else {
        StoppedPlaysNothing(after, actions[1..]);
        assert actions[1..] == [];
      }
    }
  }

  lemma StoppedPlaysNothing(e: Engine, actions: seq<Action>)
    requires !e.running
    ensures Plays(e, actions) ==> actions == []
  {
    if actions != [] {
      StoppedChangesNothing(e, actions[0]);
    }
  }

  lemma AcceptedStep(e: Engine, a: Action)
    requires (Live(e) || Stuck(e)) && Answer(e, ActionTaken(a)) == Some(Accepted)
    ensures var after := After(e, ActionTaken(a));
            && Budget(e) >= 1
            && (after.running ==> (Live(after) || Stuck(after)) && Budget(after) < Budget(e))
  {
    hide Live, Stuck, ProcessAction, CardsLaid, Validate, Budget, Act, Stranded, ForcesShowdown, SameStakes, NewRound, Ended;
    RunningHasPots(e);
    AcceptedIsValid(e, a);
    var after := After(e, ActionTaken(a));
    assert (after, Accepted) == ProcessAction(e, a);
    ActionConserves(e, a, ChipsInPlay(e.table));
    BudgetDecreases(e, a);
    if !after.running {
      EndingHasBudget(e, a);
    }
  }

  lemma AcceptedIsValid(e: Engine, a: Action)
    requires CardsLaid(e.table, e.deck) && e.table.ledger.pots != []
    ensures ProcessAction(e, a).1 == Accepted ==> Validate(e.table, a) == None
  {
  }

  /** A hand is only ever ended by a player who still had to act. */
  lemma EndingHasBudget(e: Engine, a: Action)
    requires (Live(e) || Stuck(e)) && Validate(e.table, a) == None
    requires e.table.ledger.pots != [] && CardsLaid(e.table, e.deck)
    requires ProcessAction(e, a).1 == Accepted && !ProcessAction(e, a).0.running
    ensures Budget(e) >= 1
  {
    hide Live, Stuck, ProcessAction, Sound, CardsLaid, ChipsInPlay, Ranked, Awaiting, RoundComplete, Act, Validate, InHand,
         Ended, Thrown, Pending;
    if Awaiting(e.table) {
      AwaitingIsPending(e.table);
      RankedAtLeast(StreetsLeft(e.table.phase), ChipsInPlay(e.table), Sum(Stacks(e.table.seats)), |e.table.seats|,
                    Sum(Pending(e.table.seats)));
    } else {
      RunningKeepsTurn(e, a);
      StuckNotLive(e, a);
      StuckStep(e, a);
      AcceptedActionKeepsPlay(e.table, a);
      LessOnTheStreet(e, a);
    }
  }

  lemma StuckNotLive(e: Engine, a: Action)
    requires (Live(e) || Stuck(e)) && Validate(e.table, a) == None && !Awaiting(e.table)
    ensures Stuck(e)
  {
  }

  // ----- offered play -----

  /** The player to act takes an offered action, or the one forced on a player who runs out of time. */
  ghost predicate Fair(e: Engine, event: Event) {
    match event
    case PlayerSeated(_, _) => true
    case HandStarted(_) => Possible(e, event)
    case ActionTaken(a) =>
      e.running && e.table.toAct == Some(a.player)
      && (IsOffered(e.table, a) || ForceAction(e.table, a.player) == Some(a))
  }

  ghost predicate FairGame(e: Engine, events: seq<Event>)
    decreases events
  {
    events != [] ==> Fair(e, events[0]) && FairGame(After(e, events[0]), events[1..])
  }

  /** No hand is refused, no action is refused, and no call throws. */
  ghost predicate AllServed(e: Engine, events: seq<Event>)
    decreases events
  {
    events != [] ==>
      && (!events[0].PlayerSeated? ==> Answer(e, events[0]) == Some(Accepted))
      && AllServed(After(e, events[0]), events[1..])
  }

  /** Between hands, or in a hand in which nobody who folded has put in more than everyone still in it. */
  ghost predicate TopInHand(e: Engine) {
    e.running ==> Live(e) && UnfoldedHoldsTop(e.table.seats)
  }

  lemma FairActionIsAccepted(e: Engine, a: Action)
    requires Live(e) && TopInHand(e) && Fair(e, ActionTaken(a))
    ensures Validate(e.table, a) == None && e.table.ledger.pots != []
    ensures UnfoldedHoldsTop(Act(e.table, a).seats)
  {
    hide Sound, Applied, SetNext;
    LiveHasPots(e);
    LiveHasTurn(e, a);
    OfferedKeepsTop(e.table, a);
    SetNextChangesTurnOnly(Applied(e.table, a));
  }

  lemma LiveHasTurn(e: Engine, a: Action)
    requires Live(e) && e.table.toAct == Some(a.player)
    ensures OwnTurn(e.table, a.player)
  {
    hide Sound, CardsLaid;
  }

  /** A fair step is never refused, never throws, and leaves the largest contribution in the hand. */
  lemma FairStep(e: Engine, event: Event, chips: nat)
    requires Keeps(e, chips) && TopInHand(e) && Fair(e, event)
    ensures !event.PlayerSeated? ==> Answer(e, event) == Some(Accepted)
    ensures TopInHand(After(e, event))
  {
    hide Live, Stuck, ProcessAction, StartHand, Ended, Act, ForcesShowdown, SameStakes, ChipsInPlay, UnfoldedHoldsTop,
         CardsLaid, InHand, FullDeck, NewRound, Thrown, SeatingFor, IsOffered, ForceAction;
    KeepsIsUsable(e, chips);
    match event {
      case PlayerSeated(_, _) =>
      case HandStarted(order) =>
        EndedIsReady(e, order, chips);
        StartedHandIsLive(e, order);
      case ActionTaken(a) =>
        FairActionIsAccepted(e, a);
        FairActionStep(e, a);
    }
  }

  lemma FairActionStep(e: Engine, a: Action)
    requires Live(e) && Validate(e.table, a) == None && e.table.ledger.pots != [] && CardsLaid(e.table, e.deck)
    requires UnfoldedHoldsTop(Act(e.table, a).seats)
    ensures ProcessAction(e, a).1 == Accepted
    ensures TopInHand(ProcessAction(e, a).0)
  {
    hide Live, Stuck, ProcessAction, Ended, Act, Validate, ForcesShowdown, SameStakes, ChipsInPlay, UnfoldedHoldsTop,
         CardsLaid, InHand, Thrown;
    ActionStep(e, a);
    var after := ProcessAction(e, a).0;
    if after.running && after != e.(table := Act(e.table, a)) {
      SameTop(Act(e.table, a).seats, after.table.seats);
    }
  }

  /**
   * If only offered and forced actions are taken, nothing is refused and no call ever throws: every hand that ends
   * has paid out all its chips, and every hand in between still holds them.
   */
  lemma {:induction false} FairGamesNeverFail(e: Engine, events: seq<Event>, chips: nat)
    requires Keeps(e, chips) && TopInHand(e) && FairGame(e, events)
    ensures AllServed(e, events)
    ensures Keeps(Finally(e, events), chips + BoughtIn(e, events)) && TopInHand(Finally(e, events))
    decreases events
  {
    hide Keeps, Step, Fair, TopInHand;
    if events != [] {
      FairStep(e, events[0], chips);
      StepConserves(e, events[0], chips);
      FairGamesNeverFail(After(e, events[0]), events[1..], chips + BoughtBy(e, events[0]));
    }
  }

  /** The same from the constructor on. */
  lemma FairTablesNeverFail(smallBlind: nat, bigBlind: nat, events: seq<Event>)
    requires FairGame(NewEngine(smallBlind, bigBlind), events)
    ensures AllServed(NewEngine(smallBlind, bigBlind), events)
  {
    hide Keeps;
    NewEngineKeeps(smallBlind, bigBlind);
    FairGamesNeverFail(NewEngine(smallBlind, bigBlind), events, 0);
  }
}
