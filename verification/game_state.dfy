/** The game state the engine updates in place; every method is proved against its function on table values. */
module GameStates {
  import opened Util
  import opened Cards
  import opened Players
  import opened PotLayers
  import opened PotManagers
  import opened Tables
  import opened Betting
  import opened Rounds

  class GameState {
    var players: seq<Player>
    var communityCards: seq<Card>
    const potManager: PotManager
    var currentPhase: Phase
    var currentPlayerToAct: Option<PlayerId>
    var dealerPosition: nat
    var smallBlindPosition: nat
    var bigBlindPosition: nat
    const smallBlindAmount: nat
    const bigBlindAmount: nat
    var minimumRaise: nat
    var lastRaiseAmount: int

    ghost predicate Valid()
      reads this, players, potManager
    {
      && (forall i, j :: 0 <= i < |players| && 0 <= j < |players| && players[i].id == players[j].id ==> i == j)
      && |players| <= 10
      && potManager.pots != []
    }

    ghost function View(): Table
      reads this, players, potManager
    {
      Table(Seats(players), communityCards, potManager.View(), currentPhase, currentPlayerToAct,
            dealerPosition, smallBlindPosition, bigBlindPosition, smallBlindAmount, bigBlindAmount,
            minimumRaise, lastRaiseAmount)
    }

    constructor (smallBlind: nat, bigBlind: nat)
      ensures Valid() && fresh(potManager)
      ensures View() == Table([], [], EMPTY_LEDGER, PreFlop, None, 0, 0, 0, smallBlind, bigBlind, bigBlind, bigBlind)
    {
      players, communityCards := [], [];
      potManager := new PotManager();
      currentPhase, currentPlayerToAct := PreFlop, None;
      dealerPosition, smallBlindPosition, bigBlindPosition := 0, 0, 0;
      smallBlindAmount, bigBlindAmount := smallBlind, bigBlind;
      minimumRaise, lastRaiseAmount := bigBlind, bigBlind;
    }

    // ----- queries -----

    method FindPlayer(id: PlayerId) returns (i: nat)
      ensures i == SeatOf(Seats(players), id)
    {
      i := 0;
      while i < |players|
        invariant i <= |players|
        invariant forall k :: 0 <= k < i ==> players[k].id != id
      {
        if players[i].id == id {
          return;
        }
        i := i + 1;
      }
    }

    method GetCurrentBet() returns (highest: nat)
      ensures highest == HighestBet(Seats(players))
    {
      highest := 0;
      ghost var seats := Seats(players);
      for i := 0 to |players|
        invariant forall k :: 0 <= k < i && !seats[k].folded ==> seats[k].bet <= highest
        invariant highest == 0 || exists k :: 0 <= k < i && !seats[k].folded && seats[k].bet == highest
      {
        assert seats[i] == players[i].View();
        if !players[i].isFolded && players[i].currentBet > highest {
          highest := players[i].currentBet;
        }
      }
      HighestIs(seats, highest);
    }

    method AnyoneCanAct() returns (r: bool)
      ensures r == SomeoneCanAct(Seats(players))
    {
      ghost var seats := Seats(players);
      for i := 0 to |players|
        invariant forall k :: 0 <= k < i ==> !seats[k].CanAct()
      {
        if players[i].CanAct() {
          assert seats[i].CanAct();
          return true;
        }
      }
      return false;
    }

    method AnyoneHasBet() returns (r: bool)
      ensures r == SomeoneHasBet(Seats(players))
    {
      ghost var seats := Seats(players);
      for i := 0 to |players|
        invariant forall k :: 0 <= k < i ==> seats[k].bet == 0
      {
        if players[i].currentBet > 0 {
          assert seats[i].bet > 0;
          return true;
        }
      }
      return false;
    }

    method IsBettingRoundComplete() returns (r: bool)
      ensures r == RoundComplete(Seats(players))
    {
      ghost var seats := Seats(players);
      var first: Option<nat> := None;
      for i := 0 to |players|
        invariant first == None ==> forall k :: 0 <= k < i ==> !seats[k].CanAct()
        invariant first.Some? ==> exists k :: 0 <= k < i && seats[k].CanAct() && seats[k].bet == first.value
        invariant forall k :: 0 <= k < i && seats[k].CanAct() ==> first == Some(seats[k].bet) && seats[k].acted
      {
        if players[i].CanAct() {
          assert seats[i].CanAct() && seats[i].bet == players[i].currentBet;
          if !players[i].hasActed || (first.Some? && first.value != players[i].currentBet) {
            return false;
          }
          first := Some(players[i].currentBet);
        }
      }
      return true;
    }

    method PlayersInHand() returns (ids: seq<PlayerId>)
      ensures ids == InHand(Seats(players))
    {
      ids := PlayersPaidUp(players, 0);
    }

    method IsHandComplete() returns (r: bool)
      ensures r == HandOver(View())
    {
      var inHand := PlayersInHand();
      r := |inHand| <= 1 || currentPhase == HandComplete;
    }

    // ----- turn order -----

    /** The seat from which the search for the next player starts. */
    method SearchStart() returns (start: nat)
      requires players != []
      ensures start == StartPosition(View())
    {
      var n := |players|;
      if currentPlayerToAct.Some? {
        var i := FindPlayer(currentPlayerToAct.value);
        start := if i == n then 0 else (i + 1) % n;
      } else if currentPhase == PreFlop {
        var blindsPosted := AnyoneHasBet();
        start := if blindsPosted && n == 2 then smallBlindPosition % n else (bigBlindPosition + 1) % n;
      } else {
        start := if n == 2 then dealerPosition % n else (dealerPosition + 1) % n;
      }
    }

    method FindAble(start: nat) returns (found: Option<nat>)
      requires start < |players|
      ensures found == FirstAble(Seats(players), start, 0)
      ensures found.Some? ==> found.value < |players|
    {
      ghost var seats := Seats(players);
      var n := |players|;
      for i := 0 to n
        invariant FirstAble(seats, start, 0) == FirstAble(seats, start, i)
      {
        SmallRemainder(start + i, n);
        var playerIndex := (start + i) % n;
        if players[playerIndex].CanAct() {
          return Some(playerIndex);
        }
      }
      return None;
    }

    method SetNextPlayerToAct()
      modifies this`currentPlayerToAct
      ensures View() == SetNext(old(View()))
      ensures UniqueIds(Seats(players)) && smallBlindPosition < |players| && bigBlindPosition < |players|
          ==> TurnFound(old(View()), View())
    {
      hide SomeoneCanAct, FirstAble, StartPosition, TurnFound, UniqueIds;
      if UniqueIds(Seats(players)) && smallBlindPosition < |players| && bigBlindPosition < |players| {
        TurnIsFound(View());
      }
      var able := AnyoneCanAct();
      if !able {
        currentPlayerToAct := None;
        return;
      }
      assert players != [] by {
        NobodyAtNoSeats(Seats(players));
      }
      var start := SearchStart();
      var found := FindAble(start);
      currentPlayerToAct := if found.Some? then Some(players[found.value].id) else None;
    }

    // ----- money -----

    /** Everyone else who can act has to respond to a raise. */
    method ReopenOthers(i: nat)
      requires Valid() && i < |players|
      modifies players
      ensures Seats(players) == Reopened(old(Seats(players)), i)
    {
      ghost var seats := Seats(players);
      for k := 0 to |players|
        invariant forall j :: k <= j < |players| ==> players[j].View() == seats[j]
        invariant forall j :: 0 <= j < k ==> players[j].View() == Reopened(seats, i)[j]
      {
        if players[k].id != players[i].id && players[k].CanAct() {
          players[k].hasActed := false;
        }
      }
    }

    /** The player's chips move, and a new highest bet reopens the betting. */
    method PlaceBet(i: nat, amount: nat) returns (currentBet: nat)
      requires Valid() && i < |players|
      modifies players
      ensures currentBet == HighestBet(old(Seats(players)))
      ensures Seats(players) == SeatsAfterBet(old(Seats(players)), i, amount)
    {
      hide HighestBet;
      ghost var seats := Seats(players);
      currentBet := GetCurrentBet();
      players[i].Bet(amount);
      assert Seats(players) == seats[i := AfterBet(seats[i], amount)];
      if players[i].currentBet > currentBet {
        ReopenOthers(i);
      }
    }

    /** `false` stands for the exception thrown for an unknown player. */
    method ProcessBet(id: PlayerId, amount: nat) returns (found: bool)
      requires Valid()
      modifies this`minimumRaise, this`lastRaiseAmount, players, potManager
      ensures Valid()
      ensures found == (SeatOf(old(Seats(players)), id) < |players|)
      ensures !found ==> View() == old(View())
      ensures found ==> View() == Tables.ProcessBet(old(View()), SeatOf(old(Seats(players)), id), amount)
    {
      hide Tables.ProcessBet;
      var i := FindPlayer(id);
      if i == |players| {
        return false;
      }
      BetBy(i, amount);
      found := true;
    }

    method BetBy(i: nat, amount: nat)
      requires Valid() && i < |players|
      modifies this`minimumRaise, this`lastRaiseAmount, players, potManager
      ensures Valid()
      ensures View() == Tables.ProcessBet(old(View()), i, amount)
    {
      hide HighestBet, Tables.AddBet, SeatsAfterBet, AfterBlind;
      ActorAfterBet(Seats(players), i, amount);
      var currentBet := PayBet(i, amount);
      RaiseMinimum(i, currentBet);
    }

    /** The chips move from the player to the pots. */
    method PayBet(i: nat, amount: nat) returns (currentBet: nat)
      requires Valid() && i < |players|
      modifies players, potManager
      ensures Valid()
      ensures currentBet == HighestBet(old(Seats(players)))
      ensures var t := old(View());
              View() == t.(seats := SeatsAfterBet(t.seats, i, amount),
                           ledger := Tables.AddBet(t.ledger, t.seats[i].id, amount))
    {
      hide HighestBet, Tables.AddBet, SeatsAfterBet, AfterBlind;
      currentBet := PlaceBet(i, amount);
      potManager.AddBet(players[i].id, amount);
    }

    /** A player who lifts the highest bet may set a new minimum for the next raise. */
    method RaiseMinimum(i: nat, currentBet: nat)
      requires i < |players|
      modifies this`minimumRaise, this`lastRaiseAmount
      ensures var s, lift := Seats(players)[i], Seats(players)[i].bet - currentBet;
              View() == old(View()).(
                minimumRaise := (if s.total > currentBet then Max(old(minimumRaise), lift) else old(minimumRaise)),
                lastRaise := (if s.total > currentBet then lift else old(lastRaiseAmount)))
    {
      var player := players[i];
      if player.totalBetThisHand > currentBet {
        var raiseAmount := player.currentBet - currentBet;
        minimumRaise := Max(minimumRaise, raiseAmount);
        lastRaiseAmount := raiseAmount;
      }
    }

    method ProcessBlind(id: PlayerId, amount: nat) returns (found: bool)
      requires Valid()
      modifies players, potManager
      ensures Valid()
      ensures found == (SeatOf(old(Seats(players)), id) < |players|)
      ensures !found ==> View() == old(View())
      ensures found ==> View() == Tables.ProcessBlind(old(View()), SeatOf(old(Seats(players)), id), amount)
    {
      hide AddBet, AfterBlind, SeatOf;
      ghost var t := View();
      var i := FindPlayer(id);
      if i == |players| {
        return false;
      }
      players[i].PostBlind(amount);
      assert Seats(players) == t.seats[i := AfterBlind(t.seats[i], amount)];
      potManager.AddBet(id, amount);
      found := true;
    }

    method CreateSidePots()
      requires Valid()
      modifies potManager
      ensures Valid() && View() == Tables.CreateSidePots(old(View()))
    {
      hide SidePots;
      SidePotsExist(potManager.pots, Seats(players));
      potManager.CreateSidePots(players);
    }

    // ----- hands and streets -----

    method DealCommunityCards(cards: seq<Card>)
      modifies this`communityCards
      ensures View() == old(View()).(board := old(communityCards) + cards)
    {
      communityCards := communityCards + cards;
    }

    method ResetPlayersForNewRound()
      requires Valid()
      modifies players
      ensures Seats(players) == SeatsForNewRound(old(Seats(players)))
    {
      for i := 0 to |players|
        invariant forall k :: 0 <= k < i ==> players[k].View() == ForNewRound(old(players[k].View()))
        invariant forall k :: i <= k < |players| ==> players[k].View() == old(players[k].View())
      {
        players[i].ResetForNewRound();
      }
    }

    method ResetPlayersForNewHand()
      requires Valid()
      modifies players
      ensures Seats(players) == SeatsForNewHand(old(Seats(players)))
    {
      for i := 0 to |players|
        invariant forall k :: 0 <= k < i ==> players[k].View() == ForNewHand(old(players[k].View()))
        invariant forall k :: i <= k < |players| ==> players[k].View() == old(players[k].View())
      {
        players[i].ResetForNewHand();
      }
    }

    /** `false` stands for the exception thrown when the hand is already complete. */
    method AdvancePhase() returns (ok: bool)
      requires Valid()
      modifies this`currentPhase, this`currentPlayerToAct, this`minimumRaise, this`lastRaiseAmount, players
      ensures Valid() && View() == Tables.AdvancePhase(old(View()))
      ensures ok == (old(currentPhase) != HandComplete)
      ensures ok && SomeoneCanAct(old(Seats(players)))
          ==> players != [] && currentPhase == NextPhase(old(currentPhase)) && TurnFrom(View(), StreetOpener(View()))
    {
      hide SetNext, SeatsForNewRound, TurnFrom, SomeoneCanAct, StreetOpener, UniqueIds;
      if currentPhase != HandComplete && SomeoneCanAct(Seats(players)) {
        IdsAreUnique(this);
        NextStreetOpens(View());
      }
      ResetPlayersForNewRound();
      currentPlayerToAct := None;
      ok := MovePhase();
      if !ok {
        return;
      }
      minimumRaise := bigBlindAmount;
      lastRaiseAmount := bigBlindAmount;
      SetNextPlayerToAct();
    }

    /** The next phase, unless the hand is already complete. */
    method MovePhase() returns (ok: bool)
      modifies this`currentPhase
      ensures currentPhase == NextPhase(old(currentPhase)) && ok == (old(currentPhase) != HandComplete)
    {
      ok := true;
      match currentPhase {
        case PreFlop => currentPhase := Flop;
        case Flop => currentPhase := Turn;
        case Turn => currentPhase := River;
        case River => currentPhase := Showdown;
        case Showdown => currentPhase := HandComplete;
        case HandComplete => ok := false;
      }
    }

    method AssignPositions()
      modifies this`smallBlindPosition, this`bigBlindPosition
      ensures View() == Tables.AssignPositions(old(View()))
    {
      var playerCount := |players|;
      if playerCount < 2 {
        return;
      }
      if playerCount == 2 {
        smallBlindPosition := dealerPosition % playerCount;
        bigBlindPosition := (dealerPosition + 1) % playerCount;
      } else {
        smallBlindPosition := (dealerPosition + 1) % playerCount;
        bigBlindPosition := (dealerPosition + 2) % playerCount;
      }
    }

    method MoveDealer()
      modifies this`dealerPosition
      ensures View() == Tables.MoveDealer(old(View()))
    {
      if |players| > 0 {
        dealerPosition := (dealerPosition + 1) % |players|;
      }
    }

    method StartNewHand()
      requires Valid()
      modifies this`currentPhase, this`communityCards, this`minimumRaise, this`dealerPosition,
               this`smallBlindPosition, this`bigBlindPosition, players, potManager
      ensures Valid() && View() == Tables.StartNewHand(old(View()))
    {
      hide Tables.MoveDealer, Tables.AssignPositions, SeatsForNewHand;
      ClearTable();
      MoveDealer();
      AssignPositions();
    }

    /** Everything of the last hand goes, the button and the blinds aside. */
    method ClearTable()
      requires Valid()
      modifies this`currentPhase, this`communityCards, this`minimumRaise, players, potManager
      ensures Valid()
      ensures var t := old(View());
              View() == t.(seats := SeatsForNewHand(t.seats), board := [], ledger := EMPTY_LEDGER,
                           phase := PreFlop, minimumRaise := t.bigBlind)
    {
      hide SeatsForNewHand;
      currentPhase := PreFlop;
      communityCards := [];
      minimumRaise := bigBlindAmount;
      ResetPlayersForNewHand();
      potManager.Reset();
    }

    // ----- seating -----

    method AddPlayer(player: Player) returns (r: Seating)
      requires Valid() && player !in players
      modifies this`players, this`smallBlindPosition, this`bigBlindPosition
      ensures Valid()
      ensures r == SeatingFor(old(View()), player.View())
      ensures View() == Tables.AddPlayer(old(View()), player.View())
      ensures forall p :: p in players ==> p in old(players) || p == player
    {
      hide Tables.AssignPositions, SeatOf;
      if |players| >= 10 {
        return TableFull;
      }
      var i := FindPlayer(player.id);
      if i < |players| {
        return AlreadySeated;
      }
      if player.chipStack == 0 {
        return NoChipsToPlay;
      }
      Append(player);
      AssignPositions();
      r := Welcome;
    }

    method Append(player: Player)
      requires Valid() && player !in players && |players| < 10 && SeatOf(Seats(players), player.id) == |players|
      modifies this`players
      ensures Valid()
      ensures View() == old(View()).(seats := old(Seats(players)) + [player.View()])
      ensures players == old(players) + [player]
    {
      ghost var seats := Seats(players);
      players := players + [player];
      assert Seats(players) == seats + [player.View()];
    }

    /** `false` stands for the exception thrown for an unknown player. */
    method RemovePlayer(id: PlayerId) returns (found: bool)
      requires Valid()
      modifies this`players, this`smallBlindPosition, this`bigBlindPosition
      ensures Valid()
      ensures found == (SeatOf(old(Seats(players)), id) < |old(players)|)
      ensures View() == Tables.RemovePlayer(old(View()), id)
      ensures forall p :: p in players ==> p in old(players)
    {
      hide Tables.AssignPositions;
      var i := FindPlayer(id);
      if i == |players| {
        return false;
      }
      RemoveAt(i);
      AssignPositions();
      found := true;
    }

    method RemoveAt(i: nat)
      requires Valid() && i < |players|
      modifies this`players
      ensures Valid()
      ensures View() == old(View()).(seats := old(Seats(players))[..i] + old(Seats(players))[i + 1..])
      ensures forall p :: p in players ==> p in old(players)
    {
      ghost var seats := Seats(players);
      players := players[..i] + players[i + 1..];
      assert Seats(players) == seats[..i] + seats[i + 1..];
    }
  }

  lemma IdsAreUnique(gameState: GameState)
    requires gameState.Valid()
    ensures UniqueIds(Seats(gameState.players))
  {
  }

  lemma ActorAfterBet(seats: seq<Seat>, i: nat, amount: nat)
    requires i < |seats|
    ensures SeatsAfterBet(seats, i, amount)[i] == AfterBet(seats[i], amount)
  {
  }

  lemma SidePotsExist(pots: seq<Pot>, seats: seq<Seat>)
    ensures SidePots(pots, seats) != []
  {
    if |PaidUp(seats, 0)| >= 2 && |LevelSet(seats)| >= 2 {
      LayerMeaning(pots, seats, 0);
    }
  }

  lemma NobodyAtNoSeats(seats: seq<Seat>)
    ensures SomeoneCanAct(seats) ==> seats != []
  {
  }
}
