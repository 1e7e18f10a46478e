/** Validating, offering and applying actions on the game state. */
module ActionValidators {
  import opened Util
  import opened Players
  import opened Tables
  import opened Betting
  import opened Rounds
  import opened Offers
  import opened Moves
  import opened Raises
  import opened GameStates

  /** `None` when the action is accepted, otherwise the error it throws. */
  method ValidateAction(gameState: GameState, action: Action) returns (error: Option<ActionError>)
    ensures error == Validate(gameState.View(), action)
  {
    hide HighestBet, SomeoneHasBet;
    var i := gameState.FindPlayer(action.player);
    if i == |gameState.players| {
      return Some(PlayerNotFound);
    }
    var player := gameState.players[i];
    if gameState.currentPlayerToAct != Some(action.player) {
      return Some(NotYourTurn);
    }
    if !player.CanAct() {
      return Some(CannotAct);
    }
    hide ValidateKind;
    error := ValidateByKind(gameState, player, action);
  }

  /** The check for the kind of action, by a player who may act. */
  method ValidateByKind(gameState: GameState, player: Player, action: Action) returns (error: Option<ActionError>)
    ensures error == ValidateKind(gameState.View(), player.View(), action)
  {
    hide ValidateKind;
    match action.kind {
      case Fold => error := ValidateFold(gameState, player, action);
      case Check => error := ValidateCheck(gameState, player, action);
      case Call => error := ValidateCall(gameState, player, action);
      case Bet => error := ValidateBet(gameState, player, action);
      case Raise => error := ValidateRaise(gameState, player, action);
      case AllIn => error := ValidateAllIn(gameState, player, action);
    }
  }

  method ValidateFold(gameState: GameState, player: Player, action: Action) returns (error: Option<ActionError>)
    requires action.kind == Fold
    ensures error == ValidateKind(gameState.View(), player.View(), action)
  {
    error := None;
  }

  method ValidateCheck(gameState: GameState, player: Player, action: Action) returns (error: Option<ActionError>)
    requires action.kind == Check
    ensures error == ValidateKind(gameState.View(), player.View(), action)
  {
    hide HighestBet;
    var currentBet := gameState.GetCurrentBet();
    var callAmount := currentBet - player.currentBet;
    error := if callAmount > 0 then Some(BetToCall) else None;
  }

  method ValidateCall(gameState: GameState, player: Player, action: Action) returns (error: Option<ActionError>)
    requires action.kind == Call
    ensures error == ValidateKind(gameState.View(), player.View(), action)
  {
    hide HighestBet;
    var currentBet := gameState.GetCurrentBet();
    var callAmount := currentBet - player.currentBet;
    if callAmount == 0 {
      return Some(NothingToCall);
    }
    if action.amount.Some? && action.amount.value != callAmount {
      return Some(WrongCallAmount);
    }
    if callAmount > player.chipStack {
      return Some(CannotAffordCall);
    }
    return None;
  }

  method ValidateBet(gameState: GameState, player: Player, action: Action) returns (error: Option<ActionError>)
    requires action.kind == Bet
    ensures error == ValidateKind(gameState.View(), player.View(), action)
  {
    hide HighestBet, SomeoneHasBet;
    var currentBet := gameState.GetCurrentBet();
    if currentBet > 0 {
      return Some(AlreadyBet);
    }
    var betting := gameState.AnyoneHasBet();
    if betting {
      return Some(BettingOccurred);
    }
    if action.amount.None? {
      return Some(BetAmountRequired);
    }
    var minBet := gameState.bigBlindAmount;
    if action.amount.value < minBet {
      return Some(BetTooSmall);
    }
    if action.amount.value > player.chipStack {
      return Some(CannotAffordBet);
    }
    return None;
  }

  method ValidateRaise(gameState: GameState, player: Player, action: Action) returns (error: Option<ActionError>)
    requires action.kind == Raise
    ensures error == ValidateKind(gameState.View(), player.View(), action)
  {
    hide HighestBet;
    var currentBet := gameState.GetCurrentBet();
    if currentBet == 0 {
      return Some(NothingToRaise);
    }
    if action.amount.None? {
      return Some(RaiseAmountRequired);
    }
    var minRaise := currentBet + gameState.minimumRaise;
    var maxRaise := player.chipStack + player.currentBet;
    if action.amount.value < minRaise && action.amount.value < maxRaise {
      return Some(RaiseTooSmall);
    }
    if action.amount.value > maxRaise {
      return Some(RaiseTooLarge);
    }
    return None;
  }

  method ValidateAllIn(gameState: GameState, player: Player, action: Action) returns (error: Option<ActionError>)
    requires action.kind == AllIn
    ensures error == ValidateKind(gameState.View(), player.View(), action)
  {
    if player.chipStack == 0 {
      return Some(NoChips);
    }
    if player.isAllIn {
      return Some(AlreadyAllIn);
    }
    return None;
  }

  /** There is an offer, and each is accepted with any amount it covers. */
  ghost predicate OffersHold(t: Table, id: PlayerId, offers: seq<Offer>) {
    && offers != []
    && forall k, a: Action :: 0 <= k < |offers| && a.player == id && Covers(offers[k], a) ==> Validate(t, a) == None
  }

  lemma OwnOffersHold(t: Table, id: PlayerId)
    ensures OwnTurn(t, id) ==> OffersHold(t, id, PossibleActions(t, id))
  {
    hide OffersFor, Validate, PossibleActions;
    if OwnTurn(t, id) {
      SomethingIsOffered(t, id);
      forall k, a: Action | 0 <= k < |PossibleActions(t, id)| && a.player == id && Covers(PossibleActions(t, id)[k], a)
        ensures Validate(t, a) == None
      {
        assert IsOffered(t, a);
        OfferedIsAccepted(t, a);
      }
    }
  }

  /** For a player who can act, the list holds a raise exactly when raising is open, and then with its exact bounds. */
  ghost predicate RaiseListed(t: Table, id: PlayerId, offers: seq<Offer>) {
    var i := SeatOf(t.seats, id);
    i < |t.seats| && t.seats[i].CanAct() ==>
      var s, top := t.seats[i], HighestBet(t.seats);
      && ((exists k :: 0 <= k < |offers| && offers[k].kind == Raise) <==> RaiseOpen(t, s, top))
      && (RaiseOpen(t, s, top) ==> RaiseTo(t, s, top) in offers)
  }

  lemma OwnRaiseListed(t: Table, id: PlayerId)
    ensures RaiseListed(t, id, PossibleActions(t, id))
  {
    hide PossibleActions, HighestBet, RaiseOpen;
    TopOf(t.seats);
    var i := SeatOf(t.seats, id);
    if i < |t.seats| && t.seats[i].CanAct() {
      RaiseOfferedIff(t, id, HighestBet(t.seats));
      RaiseOfferIs(t, id, HighestBet(t.seats));
    }
  }

  method GetPossibleActions(gameState: GameState, id: PlayerId) returns (actions: seq<Offer>)
    ensures actions == PossibleActions(gameState.View(), id)
    ensures OwnTurn(gameState.View(), id) ==> OffersHold(gameState.View(), id, actions)
    ensures RaiseListed(gameState.View(), id, actions)
  {
    hide OffersFor, IsOffered, RaiseListed;
    OwnOffersHold(gameState.View(), id);
    OwnRaiseListed(gameState.View(), id);
    actions := [];
    var i := gameState.FindPlayer(id);
    if i == |gameState.players| || !gameState.players[i].CanAct() {
      return;
    }
    actions := OffersTo(gameState, gameState.players[i]);
  }

  /** The list built up for a player who can act. */
  method OffersTo(gameState: GameState, player: Player) returns (actions: seq<Offer>)
    ensures actions == OffersFor(gameState.View(), player.View())
  {
    hide HighestBet, SomeoneHasBet, MayRaise;
    actions := [];
    var currentBet := gameState.GetCurrentBet();
    var callAmount := Max(0, currentBet - player.currentBet);
    if callAmount > 0 {
      actions := actions + [Offer(Fold, None, None)];
    }
    if callAmount == 0 {
      actions := actions + [Offer(Check, None, None)];
    } else if callAmount <= player.chipStack {
      actions := actions + [Offer(Call, Some(callAmount), Some(callAmount))];
    }
    var lifts := BetOrRaise(gameState, player, currentBet);
    actions := actions + lifts;
    if player.chipStack > 0 && !player.isAllIn {
      actions := actions + [Offer(AllIn, Some(player.chipStack), Some(player.chipStack))];
    }
  }

  /** The bet or the raise on offer, if any. */
  method BetOrRaise(gameState: GameState, player: Player, currentBet: nat) returns (actions: seq<Offer>)
    requires currentBet == HighestBet(gameState.View().seats)
    ensures actions == LiftOffers(gameState.View(), player.View())
  {
    hide HighestBet, SomeoneHasBet;
    actions := [];
    var betting := gameState.AnyoneHasBet();
    if currentBet == 0 && !betting {
      var minBet := gameState.bigBlindAmount;
      var maxBet := player.chipStack;
      if maxBet >= minBet {
        actions := actions + [Offer(Bet, Some(minBet), Some(maxBet))];
      }
    } else if currentBet > 0 {
      var canRaise :=
        || (currentBet > player.currentBet && gameState.lastRaiseAmount >= gameState.minimumRaise)
        || (currentBet == player.currentBet && player.currentBet == gameState.bigBlindAmount && !player.hasActed);
      if canRaise {
        var minRaise := currentBet + gameState.minimumRaise;
        var maxRaise := player.chipStack + player.currentBet;
        if maxRaise > currentBet {
          actions := actions + [Offer(Raise, Some(Min(minRaise, maxRaise)), Some(maxRaise))];
        }
      }
    }
  }

  /** What the player owes to stay in; nothing for an unknown player. */
  method GetCallAmount(gameState: GameState, id: PlayerId) returns (amount: nat)
    ensures var i := SeatOf(Seats(gameState.players), id);
            amount == (if i == |gameState.players| then 0 else CallAmount(gameState.View(), gameState.View().seats[i]))
  {
    hide HighestBet;
    var i := gameState.FindPlayer(id);
    if i == |gameState.players| {
      return 0;
    }
    var currentBet := gameState.GetCurrentBet();
    amount := Max(0, currentBet - gameState.players[i].currentBet);
  }

  /** `None` stands for the exception thrown for an unknown player. */
  method GetForceAction(gameState: GameState, id: PlayerId) returns (action: Option<Action>)
    ensures action == ForceAction(gameState.View(), id)
    ensures var t := gameState.View();
            OwnTurn(t, id) ==>
              && action.Some? && action.value.player == id
              && action.value.kind == (if Behind(t.seats, SeatOf(t.seats, id)) then Fold else Check)
              && Validate(t, action.value) == None
  {
    hide HighestBet, Validate, Behind;
    if OwnTurn(gameState.View(), id) {
      ForcedByTheBet(gameState.View(), id);
    }
    var i := gameState.FindPlayer(id);
    if i == |gameState.players| {
      return None;
    }
    var callAmount := GetCallAmount(gameState, id);
    if callAmount == 0 {
      action := Some(Action(Check, id, None));
    } else {
      action := Some(Action(Fold, id, None));
    }
  }

  /** `false` stands for the exception thrown when the blind seats do not exist. */
  method ProcessBlindPosting(gameState: GameState) returns (ok: bool)
    requires gameState.Valid()
    modifies gameState`currentPlayerToAct, gameState.players, gameState.potManager
    ensures gameState.Valid()
    ensures var t := old(gameState.View());
            && ok == (t.smallBlindSeat < |t.seats| && t.bigBlindSeat < |t.seats|)
            && (ok ==> gameState.View() == PostBlinds(t))
            && (!ok ==> gameState.View() == t)
  {
    hide ProcessBlind, SetNext;
    if gameState.smallBlindPosition >= |gameState.players| || gameState.bigBlindPosition >= |gameState.players| {
      return false;
    }
    PostBlind(gameState, gameState.smallBlindPosition, gameState.smallBlindAmount);
    PostBlind(gameState, gameState.bigBlindPosition, gameState.bigBlindAmount);
    gameState.SetNextPlayerToAct();
    ok := true;
  }

  /** One player posts a blind, or the whole stack when it is smaller. */
  method PostBlind(gameState: GameState, i: nat, blind: nat)
    requires gameState.Valid() && i < |gameState.players|
    modifies gameState.players, gameState.potManager
    ensures gameState.Valid()
    ensures gameState.View()
         == ProcessBlind(old(gameState.View()), i, Min(blind, old(gameState.View()).seats[i].stack))
    ensures gameState.View()
         == old(gameState.View()).(seats := gameState.View().seats, ledger := gameState.View().ledger)
  {
    hide AddBet, AfterBlind;
    var player := gameState.players[i];
    UniqueSeat(gameState, i);
    var amount := Min(blind, player.chipStack);
    var found := gameState.ProcessBlind(player.id, amount);
  }

  lemma UniqueSeat(gameState: GameState, i: nat)
    requires gameState.Valid() && i < |gameState.players|
    ensures SeatOf(Seats(gameState.players), gameState.players[i].id) == i
  {
    SeatOfUnique(Seats(gameState.players), i);
  }

  /** Applies an action that has been validated. */
  method ProcessAction(gameState: GameState, action: Action)
    requires gameState.Valid()
    requires Validate(gameState.View(), action) == None
    modifies gameState`minimumRaise, gameState`lastRaiseAmount, gameState`currentPlayerToAct,
             gameState.players, gameState.potManager
    ensures gameState.Valid()
    ensures gameState.View() == Act(old(gameState.View()), action)
    ensures Sound(old(gameState.View()))
        ==> Sound(gameState.View()) && ChipsInPlay(gameState.View()) == ChipsInPlay(old(gameState.View()))
    ensures var t := old(gameState.View());
            MovedBy(t.seats, gameState.View().seats, SeatOf(t.seats, action.player), HighestBet(t.seats), action)
  {
    hide Applied, SetNext, Validate, Sound, ChipsInPlay, HighestBet, MovedBy;
    ghost var t := gameState.View();
    TopOf(t.seats);
    ActionMoves(t, action, HighestBet(t.seats));
    if Sound(t) {
      ActKeepsSound(t, action);
    }
    Apply(gameState, action);
    gameState.SetNextPlayerToAct();
  }

  /** What the action does before the turn passes. */
  method Apply(gameState: GameState, action: Action)
    requires gameState.Valid()
    requires Validate(gameState.View(), action) == None
    modifies gameState`minimumRaise, gameState`lastRaiseAmount, gameState.players, gameState.potManager
    ensures gameState.Valid()
    ensures gameState.View() == Applied(old(gameState.View()), action)
  {
    hide ProcessBet, ValidateKind, Wager, AfterFold, AfterCheck;
    var i := gameState.FindPlayer(action.player);
    match action.kind {
      case Fold => FoldBy(gameState, i);
      case Check => CheckBy(gameState, i);
      case _ =>
        var amount := AmountFor(gameState, i, action);
        gameState.BetBy(i, amount);
    }
  }

  method FoldBy(gameState: GameState, i: nat)
    requires gameState.Valid() && i < |gameState.players|
    modifies gameState.players
    ensures gameState.Valid()
    ensures var t := old(gameState.View()); gameState.View() == t.(seats := t.seats[i := AfterFold(t.seats[i])])
  {
    hide AfterFold;
    ghost var seats := Seats(gameState.players);
    gameState.players[i].Fold();
    assert Seats(gameState.players) == seats[i := AfterFold(seats[i])];
  }

  method CheckBy(gameState: GameState, i: nat)
    requires gameState.Valid() && i < |gameState.players|
    modifies gameState.players
    ensures gameState.Valid()
    ensures var t := old(gameState.View()); gameState.View() == t.(seats := t.seats[i := AfterCheck(t.seats[i])])
  {
    hide AfterCheck;
    ghost var seats := Seats(gameState.players);
    gameState.players[i].Check();
    assert Seats(gameState.players) == seats[i := AfterCheck(seats[i])];
  }

  /** The chips a validated call, bet, raise or all-in moves. */
  method AmountFor(gameState: GameState, i: nat, action: Action) returns (amount: nat)
    requires i < |gameState.players| && gameState.players[i].id == action.player
    requires i == SeatOf(Seats(gameState.players), action.player)
    requires Validate(gameState.View(), action) == None && action.kind != Fold && action.kind != Check
    ensures amount == Wager(gameState.View(), gameState.View().seats[i], action)
  {
    hide HighestBet;
    AcceptedWager(gameState.View(), i, action);
    var player := gameState.players[i];
    match action.kind {
      case Call => amount := GetCallAmount(gameState, action.player);
      case Bet => amount := action.amount.value;
      case Raise => amount := action.amount.value - player.currentBet;
      case AllIn => amount := player.chipStack;
    }
  }
}
