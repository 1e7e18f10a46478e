/** The engine that drives hands in place; every method is proved against its function on engine values. */
module GameEngines {
  import opened Util
  import opened Cards
  import opened Players
  import opened PotLayers
  import opened PotShares
  import opened Tables
  import opened Decks
  import opened HandRanking
  import opened HandEvaluator
  import opened Hands
  import opened Moves
  import opened Play
  import opened Runs
  import opened Games
  import opened GameStates
  import ActionValidators

  class GameEngine {
    const gameState: GameState
    const deck: Deck
    var handEvaluations: map<PlayerId, Evaluation>
    var gameRunning: bool

    /** While a hand runs its cards are laid out and it is not marked complete. */
    ghost predicate Valid()
      reads this, gameState, gameState.players, gameState.potManager, deck
    {
      && gameState.Valid()
      && (gameRunning ==> CardsLaid(gameState.View(), deck.View()) && gameState.currentPhase != HandComplete)
    }

    ghost function View(): Engine
      reads this, gameState, gameState.players, gameState.potManager, deck
    {
      Engine(gameState.View(), deck.View(), handEvaluations, gameRunning)
    }

    constructor (smallBlind: nat, bigBlind: nat)
      ensures Valid() && fresh(gameState) && fresh(gameState.potManager) && fresh(deck)
      ensures View() == NewEngine(smallBlind, bigBlind)
      ensures Keeps(View(), 0)
    {
      hide Keeps;
      NewEngineKeeps(smallBlind, bigBlind);
      gameState := new GameState(smallBlind, bigBlind);
      deck := new Deck();
      handEvaluations, gameRunning := map[], false;
    }

    // ----- a new hand -----

    method DealHoleCards()
      requires gameState.Valid() && |gameState.players| * 2 <= |deck.cards|
      modifies deck, gameState.players
      ensures gameState.Valid()
      ensures var t := old(gameState.View());
              gameState.View() == t.(seats := SeatsDealt(t.seats, HoleCards(old(deck.cards), |t.seats|)))
      ensures deck.View() == Deal(old(deck.View()), |gameState.players| * 2)
    {
      hide Deal;
      var players := gameState.players;
      var holeCards := deck.DealHoleCards(|players|);
      for i := 0 to |players|
        invariant deck.View() == Deal(old(deck.View()), |players| * 2)
        invariant forall k :: 0 <= k < i ==> players[k].View() == old(players[k].View()).(hole := holeCards.value[k])
        invariant forall k :: i <= k < |players| ==> players[k].View() == old(players[k].View())
      {
        var hand := holeCards.value[i];
        assert hand == [hand[0], hand[1]];
        players[i].DealHoleCards([hand[0], hand[1]]);
      }
      assert Seats(players) == SeatsDealt(old(Seats(players)), holeCards.value);
    }

    /** A fresh, shuffled deck and two cards for everyone; `order` is the deck as shuffled. */
    method BeginHand() returns (ghost order: seq<Card>)
      requires gameState.Valid() && |gameState.players| >= 2
      modifies deck, gameState`currentPhase, gameState`communityCards, gameState`minimumRaise, gameState`dealerPosition,
               gameState`smallBlindPosition, gameState`bigBlindPosition, gameState.players, gameState.potManager
      ensures gameState.Valid()
      ensures |order| == 52 && multiset(order) == multiset(FullDeck())
      ensures gameState.View() == Seated(old(gameState.View()), order)
      ensures deck.View() == Deal(DeckState(order, []), 2 * |gameState.players|)
    {
      hide Tables.StartNewHand, Deal, SeatsDealt, HoleCards;
      gameState.StartNewHand();
      order := ShuffledDeck();
      DealHoleCards();
    }

    /** Blinds are posted, and with three or more players the turn passes once more. */
    method PostBlinds()
      requires gameState.Valid() && gameState.smallBlindPosition < |gameState.players|
      requires gameState.bigBlindPosition < |gameState.players|
      modifies gameState`currentPlayerToAct, gameState.players, gameState.potManager
      ensures gameState.Valid()
      ensures var posted := Tables.PostBlinds(old(gameState.View()));
              gameState.View() == if |gameState.players| > 2 then SetNext(posted) else posted
    {
      hide Tables.PostBlinds, SetNext;
      var posted := ActionValidators.ProcessBlindPosting(gameState);
      if |gameState.players| > 2 {
        gameState.SetNextPlayerToAct();
      }
    }

    /** Deals a hand. `false` stands for the exception with fewer than two players. */
    method StartHand() returns (ok: bool, ghost order: seq<Card>)
      requires Valid()
      modifies this, deck, gameState`currentPhase, gameState`communityCards, gameState`minimumRaise,
               gameState`dealerPosition, gameState`smallBlindPosition, gameState`bigBlindPosition,
               gameState`currentPlayerToAct, gameState.players, gameState.potManager
      ensures Valid()
      ensures ok == (|gameState.players| >= 2)
      ensures !ok ==> View() == old(View())
      ensures ok ==> |order| == 52 && multiset(order) == multiset(FullDeck())
      ensures ok ==> View() == Hands.StartHand(old(View()), order)
      ensures !old(gameRunning) ==> forall chips: nat :: Keeps(old(View()), chips) ==> Keeps(View(), chips)
    {
      hide Seated, Tables.PostBlinds, SetNext, Deal, CardsLaid, Keeps;
      if |gameState.players| < 2 {
        return false, [];
      }
      ghost var e := View();
      gameRunning := true;
      order := BeginHand();
      handEvaluations := map[];
      SeatedFields(e, order);
      StartedCards(e, order);
      PostBlinds();
      ok := true;
      StartKeeps(e, order);
    }

    method ShuffledDeck() returns (ghost order: seq<Card>)
      modifies deck
      ensures deck.View() == DeckState(order, [])
      ensures |order| == 52 && multiset(order) == multiset(FullDeck())
    {
      deck.Reset();
      deck.Shuffle();
      order := deck.cards;
      assert |order| == |multiset(order)| == |multiset(FullDeck())| == |FullDeck()|;
    }

    // ----- streets -----

    /** Burns a card and deals the street: three cards for the flop, one for the turn or the river. */
    method DealStreet(count: nat)
      requires gameState.Valid() && count + 1 <= |deck.cards|
      modifies deck, gameState`communityCards, gameState`currentPhase, gameState`currentPlayerToAct,
               gameState`minimumRaise, gameState`lastRaiseAmount, gameState.players
      ensures gameState.Valid()
      ensures View() == Hands.DealStreet(old(View()), count)
    {
      hide AdvancePhase, Top, Deal;
      var cards := deck.DealStreet(count);
      gameState.DealCommunityCards(cards.value);
      var ok := gameState.AdvancePhase();
    }

    method EvaluateHands()
      requires gameState.Valid() && CanEvaluate(gameState.View())
      modifies this`handEvaluations
      ensures handEvaluations == old(handEvaluations) + Evaluations(gameState.View())
    {
      hide BestHand, Evaluations, EvaluatedUpTo;
      ghost var t := gameState.View();
      NothingEvaluated(t, handEvaluations);
      for i := 0 to |gameState.players|
        invariant handEvaluations == old(handEvaluations) + EvaluatedUpTo(t, i)
      {
        var player := gameState.players[i];
        EvaluatedStep(t, i);
        if !player.isFolded {
          var evaluation := EvaluateHand(player.holeCards, gameState.communityCards);
          handEvaluations := handEvaluations[player.id := evaluation.evaluation];
        }
      }
      EvaluatedAll(t);
    }

    /** The showdown begins: the hands of everyone left are evaluated. */
    method ShowHands()
      requires Valid() && CardsLaid(gameState.View(), deck.View()) && gameState.currentPhase == River
      requires CanEvaluate(AdvancePhase(gameState.View()))
      modifies this`handEvaluations, gameState`currentPhase, gameState`currentPlayerToAct, gameState`minimumRaise,
               gameState`lastRaiseAmount, gameState.players
      ensures gameState.Valid() && CardsLaid(gameState.View(), deck.View()) && gameState.currentPhase == Showdown
      ensures View() == Shown(old(View()))
    {
      hide AdvancePhase, CardsLaid, Evaluations, CanEvaluate;
      RiverCanBeEvaluated(View());
      ShowdownAfterRiver(gameState.View());
      var ok := gameState.AdvancePhase();
      EvaluateHands();
    }

    method StartShowdown() returns (outcome: Outcome)
      requires Valid() && CardsLaid(gameState.View(), deck.View()) && gameState.currentPhase == River
      requires CanEvaluate(AdvancePhase(gameState.View()))
      modifies this, gameState, gameState.players
      ensures Valid()
      ensures (View(), outcome) == Hands.StartShowdown(old(View()))
      ensures forall p :: p in gameState.players ==> p in old(gameState.players)
    {
      hide AdvancePhase, CardsLaid, Shown, Hands.DetermineWinners, CanEvaluate;
      ShowHands();
      ghost var shown := View();
      outcome := DetermineWinners();
      FailedShowdownChangesNothing(shown);
    }

    /** One pass of the loop below. */
    method CloseStreet() returns (outcome: Outcome)
      requires Valid() && gameRunning
      modifies this, deck, gameState, gameState.players, gameState.potManager
      ensures Valid()
      ensures (View(), outcome) == Hands.CloseStreet(old(View()))
      ensures forall p :: p in gameState.players ==> p in old(gameState.players)
    {
      hide CardsLaid, Hands.DealStreet, Hands.StartShowdown, SidePots, CanEvaluate, AdvancePhase;
      ghost var e := View();
      ghost var settled := e.(table := Tables.CreateSidePots(e.table));
      CardsIgnoreLedger(e.table, settled.table, e.deck);
      CloseStreetAdvances(e);
      gameState.CreateSidePots();
      assert View() == settled;
      match gameState.currentPhase {
        case PreFlop =>
          StreetsAreDealt(settled);
          DealStreet(3);
          outcome := Accepted;
        case Flop =>
          StreetsAreDealt(settled);
          DealStreet(1);
          outcome := Accepted;
        case Turn =>
          StreetsAreDealt(settled);
          DealStreet(1);
          outcome := Accepted;
        case River =>
          RiverCanBeEvaluated(settled);
          outcome := StartShowdown();
        case _ =>
          outcome := Failed(InvalidPhase);
      }
    }

    /** Closes the betting round, and runs the remaining streets while nobody can act. */
    method CompleteBettingRound() returns (outcome: Outcome)
      requires Valid() && gameRunning
      modifies this, deck, gameState, gameState.players, gameState.potManager
      ensures Valid()
      ensures (View(), outcome) == CompleteRound(old(View()))
      ensures forall p :: p in gameState.players ==> p in old(gameState.players)
    {
      hide CardsLaid, Hands.CloseStreet, SomeoneCanAct, HandOver;
      var shouldContinue := true;
      outcome := Accepted;
      while shouldContinue && gameRunning
        invariant Valid()
        invariant outcome == Accepted
        invariant if shouldContinue then CompleteRound(View()) == CompleteRound(old(View()))
                  else (View(), outcome) == CompleteRound(old(View()))
        invariant forall p :: p in gameState.players ==> p in old(gameState.players)
        decreases shouldContinue && gameRunning, StreetsLeft(gameState.currentPhase)
      {
        CloseStreetAdvances(View());
        assert forall k :: 0 <= k < |gameState.players| ==> gameState.players[k] in old(gameState.players);
        outcome := CloseStreet();
        if outcome != Accepted {
          return;
        }
        var able := gameState.AnyoneCanAct();
        var over := gameState.IsHandComplete();
        shouldContinue := !able && !over;
      }
    }

    // ----- actions -----

    /** How the call ends is the outcome; whichever way, the engine is left as the function on values says. */
    method ProcessAction(action: Action) returns (outcome: Outcome)
      requires Valid()
      modifies this, deck, gameState, gameState.players, gameState.potManager
      ensures Valid()
      ensures (View(), outcome) == Hands.ProcessAction(old(View()), action)
      ensures forall p :: p in gameState.players ==> p in old(gameState.players)
      ensures forall chips: nat :: Keeps(old(View()), chips) ==> Keeps(View(), chips)
    {
      ActionKeeps(View(), action);
      outcome := RunAction(action);
    }

    method RunAction(action: Action) returns (outcome: Outcome)
      requires Valid()
      modifies this, deck, gameState, gameState.players, gameState.potManager
      ensures Valid()
      ensures (View(), outcome) == Hands.ProcessAction(old(View()), action)
      ensures forall p :: p in gameState.players ==> p in old(gameState.players)
    {
      hide CardsLaid, Act, Validate, RoundComplete, CompleteRound, HandOver, Hands.DetermineWinners;
      if !gameRunning {
        return NotRunning;
      }
      ghost var t := gameState.View();
      var error := ActionValidators.ValidateAction(gameState, action);
      if error.Some? {
        return Rejected(error.value);
      }
      ActKeepsCards(t, deck.View(), action);
      ActKeepsPhase(t, action);
      ActionValidators.ProcessAction(gameState, action);
      outcome := CloseRoundIfComplete();
      if outcome != Accepted {
        return;
      }
      assert forall k :: 0 <= k < |gameState.players| ==> gameState.players[k] in old(gameState.players);
      outcome := PayIfOver();
    }

    method CloseRoundIfComplete() returns (outcome: Outcome)
      requires Valid() && gameRunning
      modifies this, deck, gameState, gameState.players, gameState.potManager
      ensures Valid()
      ensures (View(), outcome)
           == if RoundComplete(old(gameState.View()).seats) then CompleteRound(old(View())) else (old(View()), Accepted)
      ensures forall p :: p in gameState.players ==> p in old(gameState.players)
    {
      hide CardsLaid, RoundComplete, CompleteRound;
      outcome := Accepted;
      var complete := gameState.IsBettingRoundComplete();
      if complete {
        outcome := CompleteBettingRound();
      }
    }

    method PayIfOver() returns (outcome: Outcome)
      requires Valid()
      modifies this`gameRunning, gameState, gameState.players
      ensures Valid()
      ensures (View(), outcome)
           == if old(gameRunning) && HandOver(old(gameState.View())) then Hands.DetermineWinners(old(View()))
              else (old(View()), Accepted)
      ensures forall p :: p in gameState.players ==> p in old(gameState.players)
    {
      hide CardsLaid, HandOver, Hands.DetermineWinners;
      outcome := Accepted;
      if gameRunning {
        var over := gameState.IsHandComplete();
        if over {
          FailedShowdownChangesNothing(View());
          outcome := DetermineWinners();
        }
      }
    }

    /** Acts for a player who ran out of time. */
    method ForcePlayerAction(id: PlayerId) returns (outcome: Outcome)
      requires Valid()
      modifies this, deck, gameState, gameState.players, gameState.potManager
      ensures Valid()
      ensures var e := old(View());
              (View(), outcome)
              == if !e.running then (e, NotRunning)
                 else match ForceAction(e.table, id)
                      case None => (e, Rejected(PlayerNotFound))
                      case Some(action) => Hands.ProcessAction(e, action)
      ensures Live(old(View())) && old(View()).table.toAct == Some(id)
          ==> && (outcome == Accepted || outcome.Failed?)
              && (gameRunning ==> var before := old(View()).table.seats;
                                  TimedOut(before, View().table.seats, SeatOf(before, id)))
    {
      hide CardsLaid, ForceAction, Hands.ProcessAction, Live, TimedOut;
      if Live(View()) && View().table.toAct == Some(id) {
        ForcedCallMovesNothing(View(), id);
      }
      if !gameRunning {
        return NotRunning;
      }
      var action := ActionValidators.GetForceAction(gameState, id);
      if action.None? {
        return Rejected(PlayerNotFound);
      }
      outcome := ProcessAction(action.value);
    }

    /** Seats a new player between hands; `None` stands for the exception while a hand runs. */
    method AddPlayer(id: PlayerId, chipStack: nat) returns (seated: Option<Seating>)
      requires Valid()
      modifies gameState`players, gameState`smallBlindPosition, gameState`bigBlindPosition
      ensures Valid()
      ensures seated == if gameRunning then None else Some(SeatingFor(old(gameState.View()), NewSeat(id, chipStack)))
      ensures View() == SeatPlayer(old(View()), id, chipStack)
      ensures forall chips: nat :: Keeps(old(View()), chips)
                ==> Keeps(View(), chips + if seated == Some(Welcome) then chipStack else 0)
    {
      hide CardsLaid, Tables.AddPlayer, SeatingFor, Keeps;
      SeatingKeeps(View(), id, chipStack);
      if gameRunning {
        return None;
      }
      var player := new Player(id, chipStack);
      var r := gameState.AddPlayer(player);
      seated := Some(r);
    }

    // ----- payout -----

    method DetermineWinners() returns (outcome: Outcome)
      requires gameState.Valid() && gameState.currentPhase != HandComplete
      modifies this`gameRunning, gameState, gameState.players
      ensures gameState.Valid()
      ensures (View(), outcome) == Hands.DetermineWinners(old(View()))
      ensures forall p :: p in gameState.players ==> p in old(gameState.players)
    {
      hide Hands.CompleteHand, Credited, SeatsSplit, SeatsPaid, Contenders, Simulate, InHand;
      var ids := gameState.PlayersInHand();
      if |ids| == 1 {
        PayLastPlayer(ids[0]);
        CompleteHand();
        return Accepted;
      }
      var contenders := ContendersInHand();
      if |contenders| == 0 && |ids| > 0 {
        DistributeToRemainingPlayers(|ids|);
        CompleteHand();
        return Accepted;
      }
      var simulated := gameState.potManager.SimulateDistribution(contenders, Some(ids));
      if simulated.NoRecipient? {
        return Failed(PotWithoutRecipient(simulated.pot));
      }
      PayWinners(simulated.shares);
      CompleteHand();
      outcome := Accepted;
    }

    method PayLastPlayer(id: PlayerId)
      requires gameState.Valid()
      modifies gameState.players
      ensures gameState.Valid()
      ensures var t := old(gameState.View());
              gameState.View() == t.(seats := Credited(t.seats, id, PotTotal(t.ledger.pots)))
    {
      hide PotTotal, SeatOf;
      ghost var t := gameState.View();
      var totalWinnings := gameState.potManager.GetTotalPotAmount();
      var i := gameState.FindPlayer(id);
      assert totalWinnings == PotTotal(t.ledger.pots);
      if i < |gameState.players| {
        Credit(i, totalWinnings);
      }
    }

    method Credit(i: nat, amount: nat)
      requires gameState.Valid() && i < |gameState.players|
      modifies gameState.players
      ensures gameState.Valid()
      ensures var t := old(gameState.View());
              gameState.View() == t.(seats := t.seats[i := t.seats[i].(stack := t.seats[i].stack + amount)])
    {
      ghost var seats := Seats(gameState.players);
      gameState.players[i].AddChips(amount);
      assert Seats(gameState.players) == seats[i := seats[i].(stack := seats[i].stack + amount)];
    }

    /** The players still in the hand whose evaluated strength is positive. */
    method ContendersInHand() returns (contenders: seq<Contender>)
      ensures contenders == Contenders(Seats(gameState.players), handEvaluations)
    {
      hide Contenders;
      contenders := [];
      ghost var seats := Seats(gameState.players);
      for i := 0 to |gameState.players|
        invariant contenders + Contenders(seats[i..], handEvaluations) == Contenders(seats, handEvaluations)
      {
        var player := gameState.players[i];
        ContendersStep(seats, handEvaluations, i);
        var strength := if player.id in handEvaluations then handEvaluations[player.id].value else 0;
        if !player.isFolded && strength > 0 {
          contenders := contenders + [Contender(player.id, strength)];
        }
      }
      NoContenders(seats[|gameState.players|..], handEvaluations);
    }

    /** The pots split evenly when no hand was evaluated. */
    method DistributeToRemainingPlayers(count: nat)
      requires gameState.Valid() && count > 0
      modifies gameState.players
      ensures gameState.Valid()
      ensures var t := old(gameState.View());
              gameState.View() == t.(seats := SeatsSplit(t.seats, PotTotal(t.ledger.pots), count, 0))
    {
      hide PotTotal, SeatsSplit;
      var totalWinnings := gameState.potManager.GetTotalPotAmount();
      var baseAmount := totalWinnings / count;
      var remainder := totalWinnings % count;
      AddPortions(totalWinnings, count, baseAmount, remainder);
    }

    /** Every unfolded player in seat order gets the base amount, the first ones a chip of the remainder. */
    method AddPortions(ghost total: nat, ghost count: nat, baseAmount: nat, remainder: nat)
      requires gameState.Valid() && count > 0 && baseAmount == total / count && remainder == total % count
      modifies gameState.players
      ensures gameState.Valid()
      ensures var t := old(gameState.View()); gameState.View() == t.(seats := SeatsSplit(t.seats, total, count, 0))
    {
      hide SeatsSplit;
      var players := gameState.players;
      ghost var seats := Seats(players);
      ghost var split := SeatsSplit(seats, total, count, 0);
      SplitLength(seats, total, count, 0);
      var index := 0;
      for i := 0 to |players|
        invariant SeatsSplit(seats[i..], total, count, index) == split[i..]
        invariant forall k :: 0 <= k < i ==> players[k].View() == split[k]
        invariant forall k :: i <= k < |players| ==> players[k].View() == seats[k]
      {
        SplitStep(seats, split, total, count, index, i);
        if !players[i].isFolded {
          players[i].AddChips(baseAmount + if index < remainder then 1 else 0);
          index := index + 1;
        }
      }
      assert Seats(players) == split;
    }

    /** Totals per winner, and then the chips. */
    method PayWinners(distributions: seq<Share>)
      requires gameState.Valid()
      modifies gameState.players
      ensures gameState.Valid()
      ensures var t := old(gameState.View());
              gameState.View() == t.(seats := SeatsPaid(t.seats, distributions, handEvaluations))
    {
      var winnerTotals := WinnerTotals(distributions);
      PayTotals(winnerTotals);
      assert Seats(gameState.players) == SeatsPaid(old(Seats(gameState.players)), distributions, handEvaluations);
    }

    method PayTotals(winnerTotals: map<PlayerId, nat>)
      requires gameState.Valid()
      modifies gameState.players
      ensures forall k :: 0 <= k < |gameState.players| ==>
        gameState.players[k].View() == AfterPay(old(gameState.players[k].View()), winnerTotals, {}, handEvaluations)
    {
      var players := gameState.players;
      ghost var seats := Seats(players);
      var unpaid := winnerTotals.Keys;
      while unpaid != {}
        invariant unpaid <= winnerTotals.Keys
        invariant forall k :: 0 <= k < |players|
                    ==> players[k].View() == AfterPay(seats[k], winnerTotals, unpaid, handEvaluations)
        decreases |unpaid|
      {
        var id :| id in unpaid;
        unpaid := unpaid - {id};
        PayWinner(id, winnerTotals[id]);
      }
    }

    /** One winner's chips, if the player is seated and was evaluated. */
    method PayWinner(id: PlayerId, amount: nat)
      requires gameState.Valid()
      modifies gameState.players
      ensures forall k :: 0 <= k < |gameState.players| ==>
        gameState.players[k].View()
        == if gameState.players[k].id == id && id in handEvaluations
           then old(gameState.players[k].View()).(stack := old(gameState.players[k].chipStack) + amount)
           else old(gameState.players[k].View())
    {
      var i := gameState.FindPlayer(id);
      if i < |gameState.players| && id in handEvaluations {
        gameState.players[i].AddChips(amount);
      }
    }

    /** Ends the hand and sends away the players who have no chips left. */
    method CompleteHand()
      requires gameState.Valid() && gameState.currentPhase != HandComplete
      modifies this`gameRunning, gameState, gameState.players
      ensures gameState.Valid()
      ensures View() == Hands.CompleteHand(old(View()))
      ensures forall p :: p in gameState.players ==> p in old(gameState.players)
    {
      hide AdvancePhase, RemovePlayers, Busted;
      var ok := gameState.AdvancePhase();
      gameRunning := false;
      var bustedPlayers := BustedPlayers();
      RemoveAll(bustedPlayers);
    }

    method BustedPlayers() returns (ids: seq<PlayerId>)
      ensures ids == Busted(Seats(gameState.players))
    {
      ids := [];
      ghost var seats := Seats(gameState.players);
      for i := 0 to |gameState.players|
        invariant ids + Busted(seats[i..]) == Busted(seats)
      {
        assert seats[i..][1..] == seats[i + 1..];
        if gameState.players[i].chipStack <= 0 {
          ids := ids + [gameState.players[i].id];
        }
      }
    }

    method RemoveAll(ids: seq<PlayerId>)
      requires gameState.Valid()
      modifies gameState
      ensures gameState.Valid()
      ensures gameState.View() == RemovePlayers(old(gameState.View()), ids)
      ensures forall p :: p in gameState.players ==> p in old(gameState.players)
    {
      hide Tables.RemovePlayer;
      for i := 0 to |ids|
        invariant gameState.Valid()
        invariant RemovePlayers(gameState.View(), ids[i..]) == RemovePlayers(old(gameState.View()), ids)
        invariant forall p :: p in gameState.players ==> p in old(gameState.players)
      {
        assert ids[i..][1..] == ids[i + 1..];
        var found := gameState.RemovePlayer(ids[i]);
      }
    }
  }

  // ----- chips -----

  lemma ActionKeeps(e: Engine, a: Action)
    requires e.running ==> CardsLaid(e.table, e.deck) && e.table.ledger.pots != []
    ensures forall chips: nat :: Keeps(e, chips) ==> Keeps(Hands.ProcessAction(e, a).0, chips)
  {
    hide CardsLaid, Keeps, Hands.ProcessAction;
    forall chips: nat | Keeps(e, chips)
      ensures Keeps(Hands.ProcessAction(e, a).0, chips)
    {
      ActionConserves(e, a, chips);
    }
  }

  lemma StartKeeps(e: Engine, order: seq<Card>)
    requires 2 <= |e.table.seats| <= 10 && |order| == 52 && multiset(order) == multiset(FullDeck())
    ensures !e.running ==> forall chips: nat :: Keeps(e, chips) ==> Keeps(Hands.StartHand(e, order), chips)
  {
    hide Keeps, FullDeck, Hands.StartHand;
    if !e.running {
      forall chips: nat | Keeps(e, chips)
        ensures Keeps(Hands.StartHand(e, order), chips)
      {
        HandConserves(e, order, chips);
      }
    }
  }

  lemma SeatingKeeps(e: Engine, id: PlayerId, bought: nat)
    ensures forall chips: nat :: Keeps(e, chips)
              ==> Keeps(SeatPlayer(e, id, bought),
                        chips + if !e.running && SeatingFor(e.table, NewSeat(id, bought)) == Welcome then bought else 0)
  {
    hide Keeps;
    forall chips: nat | Keeps(e, chips)
      ensures Keeps(SeatPlayer(e, id, bought), chips + if Joins(e, id, bought) then bought else 0)
    {
      SeatingConserves(e, id, bought, chips);
    }
  }

  // ----- showdowns -----

  lemma ShowdownAfterRiver(t: Table)
    requires t.phase == River
    ensures AdvancePhase(t).phase == Showdown
  {
    hide SetNext;
    SetNextChangesTurnOnly(t.(seats := SeatsForNewRound(t.seats), toAct := None, phase := Showdown,
                              minimumRaise := t.bigBlind, lastRaise := t.bigBlind));
  }

  lemma FailedShowdownChangesNothing(e: Engine)
    ensures Hands.DetermineWinners(e).1 != Accepted ==> Hands.DetermineWinners(e).0 == e
  {
    hide Simulate, Contenders, InHand, Hands.CompleteHand;
  }

  // ----- evaluations -----

  /** The evaluations of the unfolded players among the first `n` seats. */
  ghost function EvaluatedUpTo(t: Table, n: nat): map<PlayerId, Evaluation>
    requires CanEvaluate(t) && n <= |t.seats|
  {
    if n == 0 then map[]
    else if t.seats[n - 1].folded then EvaluatedUpTo(t, n - 1)
    else EvaluatedUpTo(t, n - 1)[t.seats[n - 1].id := BestHand(t.seats[n - 1].hole + t.board)]
  }

  lemma NothingEvaluated(t: Table, evaluations: map<PlayerId, Evaluation>)
    requires CanEvaluate(t)
    ensures evaluations + EvaluatedUpTo(t, 0) == evaluations
  {
  }

  lemma EvaluatedStep(t: Table, i: nat)
    requires CanEvaluate(t) && i < |t.seats|
    ensures EvaluatedUpTo(t, i + 1)
         == if t.seats[i].folded then EvaluatedUpTo(t, i)
            else EvaluatedUpTo(t, i)[t.seats[i].id := BestHand(t.seats[i].hole + t.board)]
  {
  }

  lemma {:induction false} EvaluatedKeys(t: Table, n: nat)
    requires CanEvaluate(t) && n <= |t.seats| && UniqueIds(t.seats)
    ensures forall id :: id in EvaluatedUpTo(t, n) <==> exists k :: 0 <= k < n && !t.seats[k].folded && t.seats[k].id == id
    ensures forall k :: 0 <= k < n && !t.seats[k].folded
              ==> EvaluatedUpTo(t, n)[t.seats[k].id] == BestHand(t.seats[k].hole + t.board)
  {
    hide BestHand;
    if n > 0 {
      EvaluatedKeys(t, n - 1);
    }
  }

  lemma EvaluatedAll(t: Table)
    requires CanEvaluate(t) && UniqueIds(t.seats)
    ensures EvaluatedUpTo(t, |t.seats|) == Evaluations(t)
  {
    hide BestHand;
    var all, n := EvaluatedUpTo(t, |t.seats|), |t.seats|;
    EvaluatedKeys(t, n);
    forall id
      ensures id in all <==> id in Evaluations(t)
      ensures id in all ==> all[id] == Evaluations(t)[id]
    {
      PaidUpIff(t.seats, 0, id);
      if id in InHand(t.seats) {
        var s :| s in t.seats && s.id == id && !s.folded;
        var k :| 0 <= k < n && t.seats[k] == s;
        SeatOfUnique(t.seats, k);
      }
      if k :| 0 <= k < n && !t.seats[k].folded && t.seats[k].id == id {
        assert t.seats[k] in t.seats;
      }
    }
  }

  // ----- contenders -----

  lemma ContendersStep(seats: seq<Seat>, evaluations: map<PlayerId, Evaluation>, i: nat)
    requires i < |seats|
    ensures var s := seats[i];
            var strength := if s.id in evaluations then evaluations[s.id].value else 0;
            Contenders(seats[i..], evaluations)
            == (if !s.folded && strength > 0 then [Contender(s.id, strength)] else [])
               + Contenders(seats[i + 1..], evaluations)
  {
    assert seats[i..][1..] == seats[i + 1..];
  }

  lemma NoContenders(seats: seq<Seat>, evaluations: map<PlayerId, Evaluation>)
    requires seats == []
    ensures Contenders(seats, evaluations) == []
  {
  }

  // ----- the even split -----

  lemma {:induction false} SplitLength(seats: seq<Seat>, amount: nat, count: nat, position: nat)
    requires count > 0
    ensures |SeatsSplit(seats, amount, count, position)| == |seats|
  {
    hide Portion;
    if seats != [] {
      SplitLength(seats[1..], amount, count, if seats[0].folded then position else position + 1);
    }
  }

  lemma SplitStep(seats: seq<Seat>, split: seq<Seat>, amount: nat, count: nat, position: nat, i: nat)
    requires count > 0 && i < |seats| == |split|
    requires SeatsSplit(seats[i..], amount, count, position) == split[i..]
    ensures var next := if seats[i].folded then position else position + 1;
            && SeatsSplit(seats[i + 1..], amount, count, next) == split[i + 1..]
            && split[i] == if seats[i].folded then seats[i]
                           else seats[i].(stack := seats[i].stack + amount / count
                                                   + if position < amount % count then 1 else 0)
  {
    assert seats[i..][1..] == seats[i + 1..];
    assert split[i..][1..] == split[i + 1..];
  }

  // ----- totals -----

  /** A seat once every winner not in `unpaid` has been paid. */
  function AfterPay(s: Seat, totals: map<PlayerId, nat>, unpaid: set<PlayerId>,
                    evaluations: map<PlayerId, Evaluation>): Seat
  {
    if s.id in totals && s.id !in unpaid && s.id in evaluations then s.(stack := s.stack + totals[s.id]) else s
  }

  method WinnerTotals(distributions: seq<Share>) returns (totals: map<PlayerId, nat>)
    ensures forall id :: Won(distributions, id) == if id in totals then totals[id] else 0
  {
    totals := map[];
    for i := 0 to |distributions|
      invariant forall id :: Won(distributions[..i], id) == if id in totals then totals[id] else 0
    {
      var d := distributions[i];
      assert distributions[..i + 1] == distributions[..i] + [d];
      forall id: PlayerId
        ensures Won(distributions[..i + 1], id) == Won(distributions[..i], id) + if id == d.player then d.amount else 0
      {
        WonConcat(distributions[..i], [d], id);
        assert [d][1..] == [];
      }
      var currentTotal := if d.player in totals then totals[d.player] else 0;
      totals := totals[d.player := currentTotal + d.amount];
    }
    assert distributions[..|distributions|] == distributions;
  }
}
