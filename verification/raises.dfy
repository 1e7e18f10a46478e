/** Who may raise: what the last raise is, when a raise is on offer, and with which bounds. */
module Raises {
  import opened Util
  import opened Players
  import opened Tables
  import opened Betting
  import opened Rounds
  import opened Offers
  import opened Moves

  // ----- the last raise -----

  /** An action that puts chips in, or would if the player had any to put in. */
  predicate Pays(a: Action) {
    a.kind != Fold && a.kind != Check
  }

  /**
   * An action that lifts the highest bet becomes the last raise. One that does not lift it leaves the last raise
   * alone, unless it pays and the player's contribution to the whole hand exceeds the round's highest bet: then the
   * last raise is what the player's bet falls short by, zero or less.
   */
  lemma LastRaiseIsLastLift(t: Table, a: Action, top: nat, newTop: nat)
    requires Sound(t) && Validate(t, a) == None
    requires TopBet(t.seats, top) && TopBet(Act(t, a).seats, newTop)
    ensures var i, after := SeatOf(t.seats, a.player), Act(t, a);
            && i < |after.seats|
            && after.minimumRaise == Max(t.minimumRaise, newTop - top)
            && after.lastRaise == (if newTop > top then newTop - top
                                   else if Pays(a) && after.seats[i].total > top then after.seats[i].bet - top
                                   else t.lastRaise)
            && (newTop > top <==> Pays(a) && after.seats[i].bet > top)
            && (Pays(a) && newTop <= top ==> newTop == top)
  {
    hide SetNext, SeatsAfterBet, AddBet, HighestBet, EarlierRoundsMatched, ActedHaveMatched, TopBet, ValidateKind, Wager,
         LedgerSound, SomeoneHasBet;
    SoundIsUnique(t);
    var i := SeatOf(t.seats, a.player);
    var s := t.seats[i];
    SetNextChangesTurnOnly(Applied(t, a));
    TopIsHighest(t.seats, top);
    TopIsHighest(Act(t, a).seats, newTop);
    match a.kind {
      case Fold => HighestAfterFlags(t.seats, i, AfterFold(s));
      case Check => HighestAfterFlags(t.seats, i, AfterCheck(s));
      case _ =>
        AcceptedWager(t, i, a);
        HighestAfterBet(t.seats, i, Wager(t, s, a));
        OthersAfterBet(t.seats, i, Wager(t, s, a));
    }
  }

  lemma TopIsHighest(seats: seq<Seat>, top: nat)
    requires TopBet(seats, top)
    ensures HighestBet(seats) == top
    ensures forall k :: 0 <= k < |seats| && !seats[k].folded ==> seats[k].bet <= top
  {
    HighestIs(seats, top);
  }

  // ----- the raise on offer -----

  ghost predicate RaiseOffered(t: Table, id: PlayerId) {
    exists k :: 0 <= k < |PossibleActions(t, id)| && PossibleActions(t, id)[k].kind == Raise
  }

  /** The raise a player may be offered when the highest bet is `top`: to the minimum, or as far as the stack goes. */
  function RaiseTo(t: Table, s: Seat, top: nat): Offer {
    Offer(Raise, Some(Min(top + t.minimumRaise, s.stack + s.bet)), Some(s.stack + s.bet))
  }

  /**
   * The player can go above the highest bet, and either faces it, the last raise having been a full one, or has not
   * acted and matches a highest bet that is just the big blind.
   */
  ghost predicate RaiseOpen(t: Table, s: Seat, top: nat) {
    && 0 < top < s.stack + s.bet
    && (if s.bet < top then t.lastRaise >= t.minimumRaise else top == t.bigBlind && !s.acted)
  }

  /** A raise is on offer exactly when it is open to the player. */
  lemma RaiseOfferedIff(t: Table, id: PlayerId, top: nat)
    requires SeatOf(t.seats, id) < |t.seats| && t.seats[SeatOf(t.seats, id)].CanAct() && TopBet(t.seats, top)
    ensures RaiseOffered(t, id) <==> RaiseOpen(t, t.seats[SeatOf(t.seats, id)], top)
  {
    hide HighestBet, OffersFor, SomeoneHasBet, TopBet;
    var s := t.seats[SeatOf(t.seats, id)];
    TopIsHighest(t.seats, top);
    if RaiseOffered(t, id) {
      var k :| 0 <= k < |PossibleActions(t, id)| && PossibleActions(t, id)[k].kind == Raise;
      OfferShape(t, s, k);
    }
    if top > 0 && MayRaise(t, s) && s.stack + s.bet > top {
      LiftsInclude(t, s);
      assert RaiseTo(t, s, top) in PossibleActions(t, id);
      assert RaiseTo(t, s, top).kind == Raise;
    }
  }

  /** There is one offer of a kind at most, and a raise on offer has exactly these bounds. */
  lemma RaiseOfferIs(t: Table, id: PlayerId, top: nat)
    requires SeatOf(t.seats, id) < |t.seats| && t.seats[SeatOf(t.seats, id)].CanAct() && TopBet(t.seats, top)
    ensures var offers := PossibleActions(t, id);
            && (forall j, k :: 0 <= j < k < |offers| ==> offers[j].kind != offers[k].kind)
            && (RaiseOffered(t, id) ==> RaiseTo(t, t.seats[SeatOf(t.seats, id)], top) in offers)
  {
    hide HighestBet, SomeoneHasBet, MayRaise, TopBet;
    TopIsHighest(t.seats, top);
  }

  // ----- after an action -----

  /** The player can act, is behind the highest bet, and has chips to go above it. */
  ghost predicate CanRiseAbove(s: Seat, top: nat) {
    s.CanAct() && s.bet < top < s.stack + s.bet
  }

  /**
   * After an action that lifts the highest bet, raising is open to those behind exactly when it lifted it by the
   * minimum raise. After one that does not, it is as open as before, except that a payment beyond the round's highest
   * bet in the whole hand closes it.
   */
  lemma RaiseOfferedAfterAction(t: Table, a: Action, top: nat, newTop: nat, j: nat)
    requires Sound(t) && Validate(t, a) == None
    requires TopBet(t.seats, top) && TopBet(Act(t, a).seats, newTop)
    requires j < |Act(t, a).seats| && CanRiseAbove(Act(t, a).seats[j], newTop)
    ensures var i, after := SeatOf(t.seats, a.player), Act(t, a);
            && i < |after.seats|
            && (RaiseOffered(after, after.seats[j].id) <==>
                  if newTop > top then newTop - top >= t.minimumRaise
                  else if Pays(a) && after.seats[i].total > top then after.seats[i].bet - top >= t.minimumRaise
                  else t.lastRaise >= t.minimumRaise)
  {
    hide Act, TopBet, SeatsSound, Validate, RaiseOffered;
    LastRaiseIsLastLift(t, a, top, newTop);
    ActKeepsSound(t, a);
    SoundIsUnique(Act(t, a));
    SeatOfUnique(Act(t, a).seats, j);
    RaiseOfferedIff(Act(t, a), Act(t, a).seats[j].id, newTop);
  }

  /** After a bet, or a raise by the minimum or more, everyone behind who can is offered a raise on top of it. */
  lemma FullRaiseReopens(t: Table, a: Action, top: nat, j: nat)
    requires Sound(t) && Validate(t, a) == None && TopBet(t.seats, top)
    requires a.kind == Bet || (a.kind == Raise && a.amount.value >= top + t.minimumRaise)
    requires a.amount.value > top
    ensures var after, newTop := Act(t, a), a.amount.value;
            && |after.seats| == |t.seats| && TopBet(after.seats, newTop)
            && after.lastRaise == after.minimumRaise == newTop - top
            && (j < |t.seats| && CanRiseAbove(after.seats[j], newTop) ==>
                  && RaiseOffered(after, after.seats[j].id)
                  && RaiseTo(after, after.seats[j], newTop) in PossibleActions(after, after.seats[j].id))
  {
    hide Act, SeatsSound, RaiseOffered, PossibleActions, HighestBet, TopBet;
    var after := Act(t, a);
    SoundIsUnique(t);
    ActionMoves(t, a, top);
    AcceptedLift(t, a, top);
    TopAfterLift(t.seats, after.seats, SeatOf(t.seats, a.player), top);
    LastRaiseIsLastLift(t, a, top, a.amount.value);
    ActKeepsSound(t, a);
    if j < |t.seats| && CanRiseAbove(after.seats[j], a.amount.value) {
      RaiseOfferedAfterAction(t, a, top, a.amount.value, j);
      OfferedRaiseIs(after, a.amount.value, j);
    }
  }

  /** What was accepted as a bet or a raise lifts the highest bet to its amount. */
  lemma AcceptedLift(t: Table, a: Action, top: nat)
    requires Sound(t) && Validate(t, a) == None && TopBet(t.seats, top)
    requires a.kind == Bet || a.kind == Raise
    ensures a.amount.Some? && SeatOf(t.seats, a.player) < |t.seats|
    ensures a.kind == Bet ==> top == 0 && t.seats[SeatOf(t.seats, a.player)].bet == 0
                              && a.amount.value >= t.minimumRaise
  {
    hide HighestBet, TopBet, SeatsSound, LedgerSound;
    TopIsHighest(t.seats, top);
  }

  lemma TopAfterLift(before: seq<Seat>, after: seq<Seat>, i: nat, top: nat)
    requires i < |before| == |after| && TopBet(before, top)
    requires !after[i].folded && after[i].bet >= top
    requires forall k :: 0 <= k < |before| && k != i ==> SameButActed(before[k], after[k])
    ensures TopBet(after, after[i].bet)
  {
  }

  /** The raise on offer to seat `j` of a sound table. */
  lemma OfferedRaiseIs(t: Table, top: nat, j: nat)
    requires Sound(t) && TopBet(t.seats, top)
    requires j < |t.seats| && t.seats[j].CanAct() && RaiseOffered(t, t.seats[j].id)
    ensures RaiseTo(t, t.seats[j], top) in PossibleActions(t, t.seats[j].id)
  {
    hide PossibleActions, RaiseOffered, TopBet;
    SoundIsUnique(t);
    SeatOfUnique(t.seats, j);
    RaiseOfferIs(t, t.seats[j].id, top);
  }

  /** After an all-in that lifts the highest bet by less than the minimum raise, nobody behind is offered a raise. */
  lemma ShortAllInCloses(t: Table, a: Action, top: nat, newTop: nat, j: nat)
    requires Sound(t) && Validate(t, a) == None && a.kind == AllIn
    requires TopBet(t.seats, top) && TopBet(Act(t, a).seats, newTop)
    requires 0 < newTop - top < t.minimumRaise
    requires j < |Act(t, a).seats| && Act(t, a).seats[j].CanAct() && Act(t, a).seats[j].bet < newTop
    ensures !RaiseOffered(Act(t, a), Act(t, a).seats[j].id)
  {
    hide Act, SeatsSound, RaiseOffered, HighestBet, TopBet, Validate;
    var after := Act(t, a);
    LastRaiseIsLastLift(t, a, top, newTop);
    ActKeepsSound(t, a);
    SoundIsUnique(after);
    SeatOfUnique(after.seats, j);
    RaiseOfferedIff(after, after.seats[j].id, newTop);
  }

  /** A player with the big blind in, nobody having put in more, may raise until having acted. */
  lemma BigBlindOption(t: Table, j: nat)
    requires Sound(t) && t.bigBlind > 0 && TopBet(t.seats, t.bigBlind)
    requires j < |t.seats| && t.seats[j].CanAct() && t.seats[j].bet == t.bigBlind
    ensures RaiseOffered(t, t.seats[j].id) <==> !t.seats[j].acted
    ensures !t.seats[j].acted ==> RaiseTo(t, t.seats[j], t.bigBlind) in PossibleActions(t, t.seats[j].id)
  {
    hide SeatsSound, RaiseOffered, TopBet, PossibleActions;
    SoundIsUnique(t);
    SeatOfUnique(t.seats, j);
    RaiseOfferedIff(t, t.seats[j].id, t.bigBlind);
    if !t.seats[j].acted {
      OfferedRaiseIs(t, t.bigBlind, j);
    }
  }

  /**
   * On a later street a call that leaves players behind takes the raise off their list, since the caller's
   * contribution to the whole hand exceeds the bet called; the validator goes on accepting raises from them.
   */
  lemma LaterCallCloses(t: Table, a: Action, top: nat, j: nat)
    requires Sound(t) && Validate(t, a) == None && a.kind == Call && TopBet(t.seats, top)
    requires SeatOf(t.seats, a.player) < |t.seats| && t.seats[SeatOf(t.seats, a.player)].Prior() > 0 && t.minimumRaise > 0
    requires j < |t.seats| && CanRiseAbove(Act(t, a).seats[j], top) && Act(t, a).toAct == Some(t.seats[j].id)
    ensures var after, all := Act(t, a), t.seats[j].stack + t.seats[j].bet;
            && !RaiseOffered(after, t.seats[j].id)
            && Validate(after, Action(Raise, t.seats[j].id, Some(all))) == None
  {
    hide Act, Sound, RaiseOffered, HighestBet, TopBet, Validate, SeatOf;
    AcceptedSeat(t, a);
    var i := SeatOf(t.seats, a.player);
    SoundIsUnique(t);
    var after := Act(t, a);
    ActionMoves(t, a, top);
    ActKeepsSound(t, a);
    SoundIsUnique(after);
    TopAfterLift(t.seats, after.seats, i, top);
    LastRaiseIsLastLift(t, a, top, top);
    SeatOfUnique(after.seats, j);
    RaiseOfferedIff(after, t.seats[j].id, top);
    RaiseAllAccepted(after, t.seats[j].id, top);
  }

  lemma AcceptedSeat(t: Table, a: Action)
    requires Validate(t, a) == None
    ensures SeatOf(t.seats, a.player) < |t.seats| && t.seats[SeatOf(t.seats, a.player)].CanAct()
  {
    hide HighestBet;
  }

  /** Whoever has the turn may raise with the whole stack once there is a bet. */
  lemma RaiseAllAccepted(t: Table, id: PlayerId, top: nat)
    requires OwnTurn(t, id) && TopBet(t.seats, top) && top > 0
    ensures var s := t.seats[SeatOf(t.seats, id)]; Validate(t, Action(Raise, id, Some(s.stack + s.bet))) == None
  {
    TopIsHighest(t.seats, top);
  }

  // ----- over a first round -----

  ghost predicate FirstRound(seats: seq<Seat>) {
    forall k :: 0 <= k < |seats| ==> seats[k].bet == seats[k].total
  }

  /** The last lift of the list that is one, or where it started when there is none. */
  ghost predicate IsLastLift(last: int, lifts: seq<nat>, start: int) {
    || (last == start && forall k :: 0 <= k < |lifts| ==> lifts[k] == 0)
    || (exists k :: 0 <= k < |lifts| && lifts[k] > 0 && last == lifts[k]
          && forall j :: k < j < |lifts| ==> lifts[j] == 0)
  }

  lemma LastLiftOfCons(last: int, x: nat, xs: seq<nat>, start: int)
    requires IsLastLift(last, xs, if x > 0 then x else start)
    ensures IsLastLift(last, [x] + xs, start)
  {
    var all := [x] + xs;
    assert forall k :: 0 <= k < |xs| ==> all[k + 1] == xs[k];
    assert forall k :: 0 < k < |all| ==> all[k] == xs[k - 1];
    if !(forall k :: 0 <= k < |xs| ==> xs[k] == 0) {
      var k :| 0 <= k < |xs| && xs[k] > 0 && last == xs[k] && forall j :: k < j < |xs| ==> xs[j] == 0;
      assert all[k + 1] > 0;
    } else if x > 0 {
      assert all[0] > 0;
    }
  }

  lemma FirstRoundAction(t: Table, a: Action)
    requires Sound(t) && FirstRound(t.seats) && Validate(t, a) == None
    ensures Sound(Act(t, a)) && FirstRound(Act(t, a).seats)
    ensures Act(t, a).lastRaise == if Lift(t, a) > 0 then Lift(t, a) else t.lastRaise
  {
    hide Act, SeatsSound, HighestBet, TopBet, LedgerSound, Validate, Applied;
    SoundIsUnique(t);
    var top, newTop := HighestBet(t.seats), HighestBet(Act(t, a).seats);
    TopOf(t.seats);
    TopOf(Act(t, a).seats);
    ActionMoves(t, a, top);
    ActKeepsSound(t, a);
    LastRaiseIsLastLift(t, a, top, newTop);
    ActedSeats(t, a);
  }

  lemma ActedSeats(t: Table, a: Action)
    requires t.ledger.pots != [] && Validate(t, a) == None
    ensures Act(t, a).seats == Applied(t, a).seats
  {
    hide SetNext, Applied, Validate;
    SetNextChangesTurnOnly(Applied(t, a));
  }

  lemma {:induction false} LastRaiseOverFirstRound(t: Table, actions: seq<Action>)
    requires Sound(t) && FirstRound(t.seats) && AllAccepted(t, actions)
    ensures IsLastLift(AfterActions(t, actions).lastRaise, Lifts(t, actions), t.lastRaise)
    decreases actions
  {
    hide Sound, Act, Lift, Validate, FirstRound;
    if actions != [] {
      FirstRoundAction(t, actions[0]);
      var next := Act(t, actions[0]);
      LastRaiseOverFirstRound(next, actions[1..]);
      LastLiftOfCons(AfterActions(t, actions).lastRaise, Lift(t, actions[0]), Lifts(next, actions[1..]), t.lastRaise);
    }
  }

  /**
   * Once the first round has seen a bet lifted, a player behind is offered a raise exactly when the latest lift is as
   * large as the minimum raise at the start and as every other lift.
   */
  lemma RaiseOpenInFirstRound(t: Table, actions: seq<Action>, top: nat, last: nat, j: nat)
    requires Sound(t) && FirstRound(t.seats) && AllAccepted(t, actions)
    requires last < |Lifts(t, actions)| && Lifts(t, actions)[last] > 0
    requires forall k :: last < k < |Lifts(t, actions)| ==> Lifts(t, actions)[k] == 0
    requires var now := AfterActions(t, actions);
             TopBet(now.seats, top) && j < |now.seats| && CanRiseAbove(now.seats[j], top)
    ensures var now, lifts := AfterActions(t, actions), Lifts(t, actions);
            RaiseOffered(now, now.seats[j].id) <==>
              && lifts[last] >= t.minimumRaise
              && forall k :: 0 <= k < |lifts| ==> lifts[last] >= lifts[k]
  {
    hide SeatsSound, LedgerSound, RaiseOffered, TopBet, AfterActions, Lifts, AllAccepted;
    var now := AfterActions(t, actions);
    LastRaiseOverFirstRound(t, actions);
    MinimumRaiseOverRound(t, actions);
    SoundIsUnique(now);
    SeatOfUnique(now.seats, j);
    RaiseOfferedIff(now, now.seats[j].id, top);
  }
}
