/** Which actions are accepted and what each one moves, told by the seats and the amounts named. */
module Moves {
  import opened Util
  import opened Players
  import opened Tables
  import opened Betting
  import opened Rounds
  import opened Offers
  import opened Hands
  import opened Showdowns
  import opened Play

  /** The largest bet of an unfolded player, or nothing when nobody left has bet. */
  ghost predicate TopBet(seats: seq<Seat>, top: nat) {
    && (forall k :: 0 <= k < |seats| && !seats[k].folded ==> seats[k].bet <= top)
    && (top == 0 || exists k :: 0 <= k < |seats| && !seats[k].folded && seats[k].bet == top)
  }

  /** Some unfolded player has bet more. */
  ghost predicate Behind(seats: seq<Seat>, i: nat)
    requires i < |seats|
  {
    exists k :: 0 <= k < |seats| && !seats[k].folded && seats[k].bet > seats[i].bet
  }

  lemma BehindIffBelowTop(seats: seq<Seat>, i: nat, top: nat)
    requires i < |seats| && !seats[i].folded && TopBet(seats, top)
    ensures HighestBet(seats) == top
    ensures Behind(seats, i) <==> seats[i].bet < top
  {
    HighestIs(seats, top);
  }

  // ----- what is accepted -----

  /** The rules of betting: what player `s` may do when the highest bet is `top`. */
  ghost predicate Legal(t: Table, s: Seat, top: nat, a: Action) {
    match a.kind
    case Fold => true
    case AllIn => true
    case Check => s.bet == top
    case Call => s.bet < top <= s.bet + s.stack && (a.amount.Some? ==> s.bet + a.amount.value == top)
    case Bet => (forall k :: 0 <= k < |t.seats| ==> t.seats[k].bet == 0)
                && a.amount.Some? && t.bigBlind <= a.amount.value <= s.stack
    case Raise => top > 0 && a.amount.Some? && a.amount.value <= s.stack + s.bet
                  && (a.amount.value >= top + t.minimumRaise || a.amount.value == s.stack + s.bet)
  }

  /** An action is accepted exactly when it is the player's turn, the player can act, and the rules allow it. */
  lemma AcceptedIffLegal(t: Table, a: Action, top: nat)
    requires TopBet(t.seats, top)
    ensures Validate(t, a) == None
       <==> OwnTurn(t, a.player) && Legal(t, t.seats[SeatOf(t.seats, a.player)], top, a)
  {
    hide HighestBet;
    if OwnTurn(t, a.player) {
      BehindIffBelowTop(t.seats, SeatOf(t.seats, a.player), top);
    }
  }

  /** Who is refused before the kind of action is looked at, and what each kind is refused for, first reason first. */
  lemma RefusedBecause(t: Table, a: Action, top: nat)
    requires TopBet(t.seats, top)
    ensures Validate(t, a) == Some(PlayerNotFound) <==> forall k :: 0 <= k < |t.seats| ==> t.seats[k].id != a.player
    ensures Validate(t, a) == Some(NotYourTurn)
       <==> t.toAct != Some(a.player) && exists k :: 0 <= k < |t.seats| && t.seats[k].id == a.player
    ensures Validate(t, a) == Some(CannotAct)
       <==> t.toAct == Some(a.player) && SeatOf(t.seats, a.player) < |t.seats| && !OwnTurn(t, a.player)
    ensures OwnTurn(t, a.player) && Validate(t, a) != None ==>
              var s, why := t.seats[SeatOf(t.seats, a.player)], Validate(t, a).value;
              match a.kind
              case Fold => false
              case AllIn => false
              case Check => why == BetToCall
              case Call =>
                why == if s.bet == top then NothingToCall
                       else if a.amount.Some? && s.bet + a.amount.value != top then WrongCallAmount
                       else CannotAffordCall
              case Bet =>
                why == if top > 0 then AlreadyBet
                       else if exists k :: 0 <= k < |t.seats| && t.seats[k].bet > 0 then BettingOccurred
                       else if a.amount.None? then BetAmountRequired
                       else if a.amount.value < t.bigBlind then BetTooSmall
                       else CannotAffordBet
              case Raise =>
                why == if top == 0 then NothingToRaise
                       else if a.amount.None? then RaiseAmountRequired
                       else if a.amount.value > s.stack + s.bet then RaiseTooLarge
                       else RaiseTooSmall
  {
    hide HighestBet;
    var i := SeatOf(t.seats, a.player);
    if i < |t.seats| {
      assert t.seats[i].id == a.player;
      if OwnTurn(t, a.player) {
        BehindIffBelowTop(t.seats, i, top);
      }
    }
  }

  // ----- what it moves -----

  /** Nothing about the player changes but, perhaps, having acted. */
  ghost predicate SameButActed(before: Seat, after: Seat) {
    after.(acted := before.acted) == before
  }

  /** The player put chips in: the bet and the total grow by what the stack lost. */
  ghost predicate Paid(before: Seat, after: Seat) {
    && after.id == before.id && after.hole == before.hole && after.folded == before.folded
    && after.stack + after.bet == before.stack + before.bet
    && after.total - after.bet == before.total - before.bet
    && (after.allIn <==> after.stack == 0)
  }

  /** The acting player after the action, when the highest bet was `top`. */
  ghost predicate Moved(before: Seat, after: Seat, top: nat, a: Action) {
    && after.acted
    && match a.kind
       case Fold => after.folded && SameButActed(before, after.(folded := before.folded))
       case Check => SameButActed(before, after)
       case Call => Paid(before, after) && after.bet == top
       case Bet => Paid(before, after) && a.amount == Some(after.bet - before.bet)
       case Raise => Paid(before, after) && a.amount == Some(after.bet)
       case AllIn => Paid(before, after) && after.stack == 0
  }

  /** Only seat `i` moves chips or folds; others have to act again exactly when the highest bet is lifted. */
  ghost predicate MovedBy(before: seq<Seat>, after: seq<Seat>, i: nat, top: nat, a: Action) {
    && i < |before| == |after|
    && Moved(before[i], after[i], top, a)
    && forall k :: 0 <= k < |before| && k != i ==>
         && SameButActed(before[k], after[k])
         && after[k].acted == (before[k].acted && !(before[k].CanAct() && after[i].bet > top))
  }

  /** The chips of an accepted call, bet, raise or all-in take the player's own seat where they should. */
  lemma WagerMoves(t: Table, i: nat, a: Action, top: nat)
    requires i < |t.seats| && t.seats[i].CanAct() && ValidateKind(t, t.seats[i], a) == None
    requires a.kind != Fold && a.kind != Check && TopBet(t.seats, top)
    ensures 0 <= Wager(t, t.seats[i], a)
    ensures Moved(t.seats[i], AfterBet(t.seats[i], Wager(t, t.seats[i], a)), top, a)
  {
    hide HighestBet, SomeoneHasBet, TopBet, Behind;
    BehindIffBelowTop(t.seats, i, top);
    AcceptedWager(t, i, a);
  }

  /**
   * A call matches the highest bet, a bet adds the amount named, a raise raises to it, an all-in moves the whole
   * stack, and nobody else's chips, cards or folds change.
   */
  lemma ActionMoves(t: Table, a: Action, top: nat)
    requires t.ledger.pots != [] && Validate(t, a) == None && TopBet(t.seats, top)
    ensures MovedBy(t.seats, Act(t, a).seats, SeatOf(t.seats, a.player), top, a)
  {
    hide SetNext, SeatsAfterBet, AddBet, HighestBet, TopBet, Behind, ValidateKind, Wager;
    var i := SeatOf(t.seats, a.player);
    BehindIffBelowTop(t.seats, i, top);
    SetNextChangesTurnOnly(Applied(t, a));
    if a.kind != Fold && a.kind != Check {
      hide Moved, AfterBlind;
      WagerMoves(t, i, a, top);
      OthersAfterBet(t.seats, i, Wager(t, t.seats[i], a));
    }
  }

  /** The chips that leave the stack go to the main pot and to the player's contribution, and nowhere else. */
  lemma ChipsGoToMainPot(t: Table, a: Action)
    requires t.ledger.pots != [] && Validate(t, a) == None
    ensures var i, after := SeatOf(t.seats, a.player), Act(t, a);
            var moved := t.seats[i].stack - after.seats[i].stack;
            && |after.ledger.pots| == |t.ledger.pots|
            && after.ledger.pots[0].amount == t.ledger.pots[0].amount + moved
            && (forall k :: 0 < k < |t.ledger.pots| ==> after.ledger.pots[k] == t.ledger.pots[k])
            && Contribution(after.ledger, a.player) == Contribution(t.ledger, a.player) + moved
            && (forall id :: id != a.player ==> Contribution(after.ledger, id) == Contribution(t.ledger, id))
            && (moved > 0 ==> a.player in after.ledger.pots[0].eligible)
  {
    hide SetNext, SeatsAfterBet, HighestBet;
    var i := SeatOf(t.seats, a.player);
    var applied := Applied(t, a);
    SetNextChangesTurnOnly(applied);
    if a.kind != Fold && a.kind != Check {
      AcceptedWager(t, i, a);
      OthersAfterBet(t.seats, i, Wager(t, t.seats[i], a));
    }
  }

  /** The turn goes to the next player, clockwise, who can act. */
  lemma ActionPassesTurn(t: Table, a: Action)
    requires Sound(t) && Validate(t, a) == None && SomeoneCanAct(Act(t, a).seats)
    ensures var i, after := SeatOf(t.seats, a.player), Act(t, a);
            i < |after.seats| && TurnFrom(after, Clockwise(|after.seats|, i, 1))
  {
    hide SetNext, Applied, SeatsSound, TurnFrom, SomeoneCanAct;
    AppliedKeepsSound(t, a);
    AppliedSeats(t, a);
    SoundIsUnique(Applied(t, a));
    SetNextChangesTurnOnly(Applied(t, a));
    ActorHasTurn(t, a);
    TurnAfterPlayer(Applied(t, a), SeatOf(t.seats, a.player));
  }

  lemma ActorHasTurn(t: Table, a: Action)
    requires Validate(t, a) == None
    ensures t.toAct == Some(a.player)
  {
  }

  // ----- running out of time -----

  /** Nobody's chips move, nobody else folds, and the player folds exactly when facing a bet. */
  ghost predicate TimedOut(before: seq<Seat>, after: seq<Seat>, i: nat)
    requires i < |before|
  {
    && |after| == |before|
    && (forall k :: 0 <= k < |before| ==>
          after[k].id == before[k].id && after[k].stack == before[k].stack && after[k].total == before[k].total)
    && (forall k :: 0 <= k < |before| && k != i ==> after[k].folded == before[k].folded)
    && (after[i].folded <==> Behind(before, i))
  }

  lemma TopOf(seats: seq<Seat>)
    ensures TopBet(seats, HighestBet(seats))
  {
  }

  /** On their turn a player who times out folds when facing a bet and checks otherwise. */
  lemma ForcedByTheBet(t: Table, id: PlayerId)
    requires OwnTurn(t, id)
    ensures ForceAction(t, id).Some?
    ensures var a := ForceAction(t, id).value;
            && a.player == id && a.kind == (if Behind(t.seats, SeatOf(t.seats, id)) then Fold else Check)
            && Validate(t, a) == None
  {
    hide HighestBet, Validate, Behind;
    TopOf(t.seats);
    BehindIffBelowTop(t.seats, SeatOf(t.seats, id), HighestBet(t.seats));
    ForcedIsAccepted(t, id);
  }

  /** And taking that action moves no chips. */
  lemma ForcedActionMovesNothing(t: Table, id: PlayerId)
    requires OwnTurn(t, id) && t.ledger.pots != []
    ensures ForceAction(t, id).Some?
    ensures var a := ForceAction(t, id).value;
            && Validate(t, a) == None
            && TimedOut(t.seats, Act(t, a).seats, SeatOf(t.seats, id))
            && (forall k :: 0 <= k < |t.seats| ==> Act(t, a).seats[k].bet == t.seats[k].bet)
            && Act(t, a).ledger == t.ledger
  {
    hide HighestBet, Validate, Act, Behind, ForceAction;
    TopOf(t.seats);
    ForcedByTheBet(t, id);
    var a := ForceAction(t, id).value;
    ActionMoves(t, a, HighestBet(t.seats));
    FlagsKeepLedger(t, a);
  }

  lemma FlagsKeepLedger(t: Table, a: Action)
    requires t.ledger.pots != [] && Validate(t, a) == None && (a.kind == Fold || a.kind == Check)
    ensures Act(t, a).ledger == t.ledger
  {
    hide SetNext, HighestBet;
    SetNextChangesTurnOnly(Applied(t, a));
  }

  /** The engine's own call: unless the hand ends by it, the seats afterwards are those of a player who timed out. */
  lemma ForcedCallMovesNothing(e: Engine, id: PlayerId)
    requires Live(e) && e.table.toAct == Some(id)
    ensures e.running && OwnTurn(e.table, id) && ForceAction(e.table, id).Some?
    ensures CardsLaid(e.table, e.deck) && e.table.ledger.pots != []
    ensures var (after, outcome) := ProcessAction(e, ForceAction(e.table, id).value);
            && (outcome == Accepted || outcome.Failed?)
            && (after.running ==> TimedOut(e.table.seats, after.table.seats, SeatOf(e.table.seats, id)))
  {
    hide Stuck, ProcessAction, Act, Validate, Stranded, ForcesShowdown, Ended, InHand, ForceAction, Behind, ChipsInPlay,
         Live, Sound, CardsLaid;
    LiveHasPots(e);
    LiveTurn(e, id);
    ForcedActionMovesNothing(e.table, id);
    ActionStep(e, ForceAction(e.table, id).value);
    LiveIsRunning(e);
    var (after, outcome) := ProcessAction(e, ForceAction(e.table, id).value);
    if after.running && !outcome.Failed? && after != e.(table := Act(e.table, ForceAction(e.table, id).value)) {
      assert SameStakes(Act(e.table, ForceAction(e.table, id).value).seats, after.table.seats);
    }
    StoppedOrStuck(after, ChipsInPlay(e.table));
  }

  lemma LiveIsRunning(e: Engine)
    requires Live(e)
    ensures e.running && CardsLaid(e.table, e.deck)
  {
  }

  lemma StoppedOrStuck(e: Engine, chips: nat)
    ensures Ended(e, chips) ==> !e.running
  {
  }

  lemma LiveTurn(e: Engine, id: PlayerId)
    requires Live(e) && e.table.toAct == Some(id)
    ensures OwnTurn(e.table, id)
  {
    hide Sound, CardsLaid;
  }
}
