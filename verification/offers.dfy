/** Offered actions against accepted ones, the minimum raise, and who holds the largest contribution. */
module Offers {
  import opened Util
  import opened Players
  import opened PotLayers
  import opened Tables
  import opened Betting
  import opened Rounds

  // ----- offers and validation -----

  ghost predicate OwnTurn(t: Table, id: PlayerId) {
    && t.toAct == Some(id)
    && SeatOf(t.seats, id) < |t.seats|
    && t.seats[SeatOf(t.seats, id)].CanAct()
  }

  /** Everything offered, at any amount in its range, is accepted. */
  lemma OfferedIsAccepted(t: Table, a: Action)
    requires OwnTurn(t, a.player) && IsOffered(t, a)
    ensures Validate(t, a) == None
  {
    hide HighestBet;
    var offers := PossibleActions(t, a.player);
    var k :| 0 <= k < |offers| && Covers(offers[k], a);
    OfferShape(t, t.seats[SeatOf(t.seats, a.player)], k);
  }

  /** What an entry of the offer list says, by its kind. */
  lemma OfferShape(t: Table, s: Seat, k: nat)
    requires s.CanAct() && k < |OffersFor(t, s)|
    ensures var o, highest := OffersFor(t, s)[k], HighestBet(t.seats);
            && (o.kind == Fold ==> highest > s.bet)
            && (o.kind == Check ==> highest <= s.bet)
            && (o.kind == Call ==> 0 < highest - s.bet <= s.stack
                                   && o.low == Some(highest - s.bet) && o.high == Some(highest - s.bet))
            && (o.kind == Bet ==> highest == 0 && !SomeoneHasBet(t.seats)
                                  && o.low == Some(t.bigBlind) && o.high == Some(s.stack))
            && (o.kind == Raise ==> highest > 0 && MayRaise(t, s) && s.stack + s.bet > highest
                                    && o.low == Some(Min(highest + t.minimumRaise, s.stack + s.bet))
                                    && o.high == Some(s.stack + s.bet))
            && (o.kind == AllIn ==> o.low == Some(s.stack) && o.high == Some(s.stack))
  {
    hide HighestBet, SomeoneHasBet, MayRaise;
  }

  /** Every applicable offer is in the list. */
  lemma OffersInclude(t: Table, s: Seat)
    requires s.CanAct()
    ensures var highest := HighestBet(t.seats);
            && (highest > s.bet ==> Offer(Fold, None, None) in OffersFor(t, s))
            && (highest <= s.bet ==> Offer(Check, None, None) in OffersFor(t, s))
            && ((0 < highest - s.bet <= s.stack)
                ==> Offer(Call, Some(highest - s.bet), Some(highest - s.bet)) in OffersFor(t, s))
            && ((highest == 0 && !SomeoneHasBet(t.seats) && s.stack >= t.bigBlind)
                ==> Offer(Bet, Some(t.bigBlind), Some(s.stack)) in OffersFor(t, s))
            && Offer(AllIn, Some(s.stack), Some(s.stack)) in OffersFor(t, s)
  {
    hide HighestBet, SomeoneHasBet, MayRaise;
  }

  /** A player whose turn it is always has something to do. */
  lemma SomethingIsOffered(t: Table, id: PlayerId)
    requires OwnTurn(t, id)
    ensures exists a: Action :: a.player == id && a.kind != AllIn && IsOffered(t, a)
  {
    hide HighestBet;
    var s := t.seats[SeatOf(t.seats, id)];
    OffersInclude(t, s);
    var kind := if HighestBet(t.seats) > s.bet then Fold else Check;
    var a := Action(kind, id, None);
    assert Offer(kind, None, None) in PossibleActions(t, id);
    assert IsOffered(t, a);
  }

  /** The action taken for a player who times out is accepted. */
  lemma ForcedIsAccepted(t: Table, id: PlayerId)
    requires OwnTurn(t, id)
    ensures ForceAction(t, id).Some?
    ensures Validate(t, ForceAction(t, id).value) == None
  {
    hide HighestBet;
  }

  lemma OfferedBy(t: Table, a: Action, o: Offer)
    requires OwnTurn(t, a.player)
    requires o in OffersFor(t, t.seats[SeatOf(t.seats, a.player)]) && Covers(o, a)
    ensures IsOffered(t, a)
  {
    hide HighestBet, OffersFor;
    assert o in PossibleActions(t, a.player);
  }

  lemma AcceptedIsOffered(t: Table, a: Action)
    requires OwnTurn(t, a.player) && Validate(t, a) == None
    requires a.kind == Check || a.kind == Call || a.kind == Bet
          || (a.kind == Fold && CallAmount(t, t.seats[SeatOf(t.seats, a.player)]) > 0)
    ensures IsOffered(t, a)
  {
    hide HighestBet, OffersFor;
    var s := t.seats[SeatOf(t.seats, a.player)];
    OffersInclude(t, s);
    var toCall := HighestBet(t.seats) - s.bet;
    match a.kind {
      case Call => OfferedBy(t, a, Offer(Call, Some(toCall), Some(toCall)));
      case Bet => OfferedBy(t, a, Offer(Bet, Some(t.bigBlind), Some(s.stack)));
      case _ => OfferedBy(t, a, Offer(a.kind, None, None));
    }
  }

  /**
   * Leaving raises and all-ins aside, the validator accepts exactly what is offered and one thing more: a fold
   * with nothing to call.
   */
  lemma AcceptedIffOffered(t: Table, a: Action)
    requires OwnTurn(t, a.player)
    requires a.kind != Raise && a.kind != AllIn
    ensures (Validate(t, a) == None && !IsOffered(t, a))
       <==> (a.kind == Fold && CallAmount(t, t.seats[SeatOf(t.seats, a.player)]) == 0)
  {
    hide HighestBet, OffersFor;
    var s := t.seats[SeatOf(t.seats, a.player)];
    if Validate(t, a) == None && !(a.kind == Fold && CallAmount(t, s) == 0) {
      AcceptedIsOffered(t, a);
    }
    if a.kind == Fold && IsOffered(t, a) {
      var k :| 0 <= k < |PossibleActions(t, a.player)| && Covers(PossibleActions(t, a.player)[k], a);
      OfferShape(t, s, k);
    }
  }

  lemma LiftsInclude(t: Table, s: Seat)
    requires HighestBet(t.seats) > 0 && MayRaise(t, s) && s.stack + s.bet > HighestBet(t.seats)
    ensures Offer(Raise, Some(Min(HighestBet(t.seats) + t.minimumRaise, s.stack + s.bet)), Some(s.stack + s.bet))
         in OffersFor(t, s)
  {
    hide HighestBet, SomeoneHasBet, MayRaise;
  }

  /** The validator never asks whether a raise may be made: it accepts those not on offer too. */
  lemma AcceptedRaiseOfferedIff(t: Table, a: Action)
    requires OwnTurn(t, a.player) && Validate(t, a) == None && a.kind == Raise
    ensures var s := t.seats[SeatOf(t.seats, a.player)];
            IsOffered(t, a) <==> MayRaise(t, s) && s.stack + s.bet > HighestBet(t.seats)
  {
    hide HighestBet, OffersFor, MayRaise, SomeoneHasBet;
    var s := t.seats[SeatOf(t.seats, a.player)];
    var highest := HighestBet(t.seats);
    if MayRaise(t, s) && s.stack + s.bet > highest {
      LiftsInclude(t, s);
      OfferedBy(t, a, Offer(Raise, Some(Min(highest + t.minimumRaise, s.stack + s.bet)), Some(s.stack + s.bet)));
    }
    if IsOffered(t, a) {
      var k :| 0 <= k < |PossibleActions(t, a.player)| && Covers(PossibleActions(t, a.player)[k], a);
      OfferShape(t, s, k);
    }
  }

  /** An all-in moves the whole stack whatever amount it names, but only that amount is on offer. */
  lemma AcceptedAllInOfferedIff(t: Table, a: Action)
    requires OwnTurn(t, a.player) && Validate(t, a) == None && a.kind == AllIn
    ensures IsOffered(t, a) <==> a.amount.None? || a.amount.value == t.seats[SeatOf(t.seats, a.player)].stack
  {
    hide HighestBet, OffersFor;
    var s := t.seats[SeatOf(t.seats, a.player)];
    OffersInclude(t, s);
    if a.amount.None? || a.amount.value == s.stack {
      OfferedBy(t, a, Offer(AllIn, Some(s.stack), Some(s.stack)));
    }
    if IsOffered(t, a) {
      var k :| 0 <= k < |PossibleActions(t, a.player)| && Covers(PossibleActions(t, a.player)[k], a);
      OfferShape(t, s, k);
    }
  }

  // ----- the largest contribution -----

  /** Another player still in the hand has put in at least as much. */
  ghost predicate MatchedByAnother(seats: seq<Seat>, i: nat)
    requires i < |seats|
  {
    exists j :: 0 <= j < |seats| && j != i && !seats[j].folded && seats[j].total >= seats[i].total
  }

  lemma TopAfterFold(seats: seq<Seat>, i: nat)
    requires UnfoldedHoldsTop(seats) && i < |seats| && !seats[i].folded
    ensures UnfoldedHoldsTop(seats[i := AfterFold(seats[i])]) <==> MatchedByAnother(seats, i)
  {
    var after := seats[i := AfterFold(seats[i])];
    var w :| 0 <= w < |seats| && !seats[w].folded && forall k :: 0 <= k < |seats| ==> seats[k].total <= seats[w].total;
    if MatchedByAnother(seats, i) {
      var j :| 0 <= j < |seats| && j != i && !seats[j].folded && seats[j].total >= seats[i].total;
      var top := if w == i then j else w;
      assert !after[top].folded && forall k :: 0 <= k < |after| ==> after[k].total <= after[top].total;
      assert UnfoldedHoldsTop(after);
    }
    if UnfoldedHoldsTop(after) {
      var v :| 0 <= v < |after| && !after[v].folded && forall k :: 0 <= k < |after| ==> after[k].total <= after[v].total;
      assert after[i].total <= after[v].total;
      assert v != i && !seats[v].folded && seats[v].total >= seats[i].total;
    }
  }

  lemma TopAfterPayment(before: seq<Seat>, after: seq<Seat>, i: nat)
    requires UnfoldedHoldsTop(before) && i < |before| == |after|
    requires !after[i].folded && after[i].total >= before[i].total
    requires forall k :: 0 <= k < |before| && k != i
               ==> after[k].folded == before[k].folded && after[k].total == before[k].total
    ensures UnfoldedHoldsTop(after)
  {
    var w :| 0 <= w < |before| && !before[w].folded && forall k :: 0 <= k < |before| ==> before[k].total <= before[w].total;
    var top := if after[i].total >= after[w].total then i else w;
    assert !after[top].folded && forall k :: 0 <= k < |after| ==> after[k].total <= after[top].total;
  }

  /** An accepted action leaves the largest contribution with an unfolded player, except a fold by its only holder. */
  lemma TopAfterAction(t: Table, a: Action)
    requires Sound(t) && Validate(t, a) == None && UnfoldedHoldsTop(t.seats)
    ensures UnfoldedHoldsTop(Applied(t, a).seats)
       <==> (a.kind == Fold ==> MatchedByAnother(t.seats, SeatOf(t.seats, a.player)))
  {
    hide SeatsAfterBet, AddBet, HighestBet, UnfoldedHoldsTop, MatchedByAnother, SeatsSound;
    var i := SeatOf(t.seats, a.player);
    match a.kind {
      case Fold =>
        TopAfterFold(t.seats, i);
      case Check =>
        TopAfterPayment(t.seats, Applied(t, a).seats, i);
      case _ =>
        AcceptedWager(t, i, a);
        OthersAfterBet(t.seats, i, Wager(t, t.seats[i], a));
        TopAfterPayment(t.seats, Applied(t, a).seats, i);
    }
  }

  /** A player facing a bet has been matched by whoever made it. */
  lemma FacingABetIsMatched(seats: seq<Seat>, i: nat)
    requires SeatsSound(seats) && i < |seats| && !seats[i].folded
    requires HighestBet(seats) > seats[i].bet
    ensures MatchedByAnother(seats, i)
  {
    var j :| 0 <= j < |seats| && !seats[j].folded && seats[j].bet == HighestBet(seats);
    assert seats[i].Prior() <= seats[j].Prior();
  }

  /** Folds that are offered or forced face a bet, so they never strand the largest contribution. */
  lemma OfferedKeepsTop(t: Table, a: Action)
    requires Sound(t) && OwnTurn(t, a.player) && UnfoldedHoldsTop(t.seats)
    requires IsOffered(t, a) || Some(a) == ForceAction(t, a.player)
    ensures Validate(t, a) == None
    ensures UnfoldedHoldsTop(Applied(t, a).seats)
  {
    hide Applied, HighestBet, SeatsSound;
    var i := SeatOf(t.seats, a.player);
    if IsOffered(t, a) {
      OfferedIsAccepted(t, a);
      var k :| 0 <= k < |PossibleActions(t, a.player)| && Covers(PossibleActions(t, a.player)[k], a);
      OfferShape(t, t.seats[i], k);
    } else {
      ForcedIsAccepted(t, a.player);
    }
    if a.kind == Fold {
      FacingABetIsMatched(t.seats, i);
    }
    TopAfterAction(t, a);
  }

  // ----- the minimum raise -----

  /** How far an action lifts the highest bet. */
  function Lift(t: Table, a: Action): nat
    requires t.ledger.pots != [] && Validate(t, a) == None
  {
    Max(0, HighestBet(Applied(t, a).seats) - HighestBet(t.seats))
  }

  lemma HighestAfterBet(seats: seq<Seat>, i: nat, w: nat)
    requires i < |seats| && !seats[i].folded
    ensures HighestBet(SeatsAfterBet(seats, i, w)) == Max(HighestBet(seats), AfterBet(seats[i], w).bet)
  {
    hide SeatsAfterBet, HighestBet;
    OthersAfterBet(seats, i, w);
    var after := SeatsAfterBet(seats, i, w);
    var highest := HighestBet(seats);
    assert after[i].bet == AfterBet(seats[i], w).bet >= seats[i].bet && !after[i].folded;
    if highest > after[i].bet {
      var k :| 0 <= k < |seats| && !seats[k].folded && seats[k].bet == highest;
      assert after[k].bet == highest && !after[k].folded;
      HighestIs(after, highest);
    } else {
      HighestIs(after, after[i].bet);
    }
  }

  lemma HighestAfterFlags(seats: seq<Seat>, i: nat, s: Seat)
    requires i < |seats| && s.bet == seats[i].bet && (seats[i].folded ==> s.folded)
    ensures HighestBet(seats[i := s]) <= HighestBet(seats)
  {
    var after := seats[i := s];
    if HighestBet(after) > 0 {
      var k :| 0 <= k < |after| && !after[k].folded && after[k].bet == HighestBet(after);
      assert !seats[k].folded && seats[k].bet == after[k].bet;
    }
  }

  /** An accepted action raises the minimum raise to its own lift, and never otherwise changes it. */
  lemma MinimumRaiseAfterAction(t: Table, a: Action)
    requires Sound(t) && Validate(t, a) == None
    ensures Applied(t, a).minimumRaise == Max(t.minimumRaise, Lift(t, a))
  {
    hide SeatsAfterBet, AddBet, HighestBet, ValidateKind, Wager, SomeoneHasBet;
    var i := SeatOf(t.seats, a.player);
    var s := t.seats[i];
    match a.kind {
      case Fold => HighestAfterFlags(t.seats, i, AfterFold(s));
      case Check => HighestAfterFlags(t.seats, i, AfterCheck(s));
      case _ =>
        AcceptedWager(t, i, a);
        HighestAfterBet(t.seats, i, Wager(t, s, a));
    }
  }

  /** Consecutive accepted actions of one betting round. */
  ghost predicate AllAccepted(t: Table, actions: seq<Action>)
    decreases actions
  {
    && t.ledger.pots != []
    && (actions != [] ==> Validate(t, actions[0]) == None && AllAccepted(Act(t, actions[0]), actions[1..]))
  }

  ghost function AfterActions(t: Table, actions: seq<Action>): (after: Table)
    requires AllAccepted(t, actions)
    ensures after.ledger.pots != []
    decreases actions
  {
    if actions == [] then t else AfterActions(Act(t, actions[0]), actions[1..])
  }

  ghost function Lifts(t: Table, actions: seq<Action>): seq<nat>
    requires AllAccepted(t, actions)
    decreases actions
  {
    if actions == [] then [] else [Lift(t, actions[0])] + Lifts(Act(t, actions[0]), actions[1..])
  }

  lemma ActKeepsSound(t: Table, a: Action)
    requires Sound(t) && Validate(t, a) == None
    ensures Sound(Act(t, a)) && Act(t, a).minimumRaise == Applied(t, a).minimumRaise
    ensures ChipsInPlay(Act(t, a)) == ChipsInPlay(t)
  {
    hide Applied, SeatsSound, SetNext;
    AppliedKeepsSound(t, a);
    SetNextChangesTurnOnly(Applied(t, a));
  }

  ghost predicate IsMaximum(m: int, xs: seq<nat>, floor: int) {
    && floor <= m
    && (forall k :: 0 <= k < |xs| ==> xs[k] <= m)
    && (m == floor || exists k :: 0 <= k < |xs| && xs[k] == m)
  }

  lemma MaximumOfCons(m: int, x: nat, xs: seq<nat>, floor: int)
    requires IsMaximum(m, xs, Max(floor, x))
    ensures IsMaximum(m, [x] + xs, floor)
  {
    var all := [x] + xs;
    if m != Max(floor, x) {
      var k :| 0 <= k < |xs| && xs[k] == m;
      assert all[k + 1] == m;
    } else {
      assert all[0] == x;
    }
  }

  /** Throughout a round the minimum raise is the largest of its starting value and every lift so far. */
  lemma {:induction false} MinimumRaiseOverRound(t: Table, actions: seq<Action>)
    requires Sound(t) && AllAccepted(t, actions)
    ensures Sound(AfterActions(t, actions))
    ensures IsMaximum(AfterActions(t, actions).minimumRaise, Lifts(t, actions), t.minimumRaise)
    decreases actions
  {
    hide Sound, Act, Lift, Validate;
    if actions != [] {
      var next := Act(t, actions[0]);
      ActKeepsSound(t, actions[0]);
      MinimumRaiseAfterAction(t, actions[0]);
      MinimumRaiseOverRound(next, actions[1..]);
      MaximumOfCons(AfterActions(t, actions).minimumRaise, Lift(t, actions[0]), Lifts(next, actions[1..]), t.minimumRaise);
    }
  }

  /** A raise short of the whole stack lifts the highest bet by at least every lift before it in the round. */
  lemma RaiseClearsEarlierLifts(t: Table, actions: seq<Action>, a: Action)
    requires Sound(t) && AllAccepted(t, actions)
    requires var now := AfterActions(t, actions);
             && Validate(now, a) == None && a.kind == Raise
             && var s := now.seats[SeatOf(now.seats, a.player)]; a.amount.value < s.stack + s.bet
    ensures var lift := Lift(AfterActions(t, actions), a);
            lift >= t.minimumRaise && forall k :: 0 <= k < |Lifts(t, actions)| ==> lift >= Lifts(t, actions)[k]
  {
    hide SeatsAfterBet, AddBet, HighestBet, AfterActions, Lifts;
    MinimumRaiseOverRound(t, actions);
    var now := AfterActions(t, actions);
    var i := SeatOf(now.seats, a.player);
    AcceptedWager(now, i, a);
    HighestAfterBet(now.seats, i, Wager(now, now.seats[i], a));
  }

  // ----- progress -----

  /** One for each player who can act and has not. */
  function Pending(seats: seq<Seat>): (xs: seq<nat>)
    ensures |xs| == |seats|
    ensures forall k :: 0 <= k < |seats| ==> xs[k] == if seats[k].CanAct() && !seats[k].acted then 1 else 0
  {
    seq(|seats|, k requires 0 <= k < |seats| => if seats[k].CanAct() && !seats[k].acted then 1 else 0)
  }

  lemma {:induction false} SumOfFlags(xs: seq<nat>)
    requires forall k :: 0 <= k < |xs| ==> xs[k] <= 1
    ensures Sum(xs) <= |xs|
  {
    if xs != [] {
      SumOfFlags(xs[1..]);
    }
  }

  /** Within a round, an action moves chips out of the stacks or leaves fewer players to act. */
  lemma ActionMakesProgress(t: Table, a: Action)
    requires Sound(t) && Awaiting(t) && Validate(t, a) == None
    ensures var before, after := t.seats, Act(t, a).seats;
            || Sum(Stacks(after)) < Sum(Stacks(before))
            || (Sum(Stacks(after)) == Sum(Stacks(before)) && Sum(Pending(after)) < Sum(Pending(before)))
  {
    hide SeatsAfterBet, AddBet, HighestBet, EarlierRoundsMatched, ActedHaveMatched, SetNext, TurnOrder, SomeoneHasBet,
         BetsWithinTotals;
    var i := SeatOf(t.seats, a.player);
    var s := t.seats[i];
    var after := Applied(t, a);
    SetNextChangesTurnOnly(after);
    var w := Wager(t, s, a);
    if a.kind == Fold || a.kind == Check {
      SameChips(t.seats, after.seats, t.ledger);
      SumStrictlyLess(Pending(after.seats), Pending(t.seats), i);
    } else {
      AcceptedWager(t, i, a);
      OthersAfterBet(t.seats, i, w);
      if w > 0 {
        PaymentKeepsLedger(t.ledger, t.seats, after.seats, i, w);
      } else {
        assert s.bet <= HighestBet(t.seats);
        SameChips(t.seats, after.seats, t.ledger);
        SumStrictlyLess(Pending(after.seats), Pending(t.seats), i);
      }
    }
  }

  /** Once everyone able has acted, only an action that costs chips opens the round again. */
  lemma ReopeningCosts(t: Table, a: Action)
    requires Sound(t) && RoundComplete(t.seats) && Validate(t, a) == None
    requires !RoundComplete(Act(t, a).seats)
    ensures Sum(Stacks(Act(t, a).seats)) < Sum(Stacks(t.seats))
  {
    hide SeatsAfterBet, AddBet, HighestBet, EarlierRoundsMatched, ActedHaveMatched, BetsWithinTotals, AllInIffBroke,
         SetNext, RoundComplete, SomeoneHasBet;
    var i := SeatOf(t.seats, a.player);
    var s := t.seats[i];
    var after := Applied(t, a);
    SetNextChangesTurnOnly(after);
    AppliedKeepsSound(t, a);
    CompleteIffAllActed(t.seats);
    CompleteIffAllActed(after.seats);
    var w := Wager(t, s, a);
    assert s.bet <= HighestBet(t.seats);
    if a.kind != Fold && a.kind != Check {
      AcceptedWager(t, i, a);
      OthersAfterBet(t.seats, i, w);
      if w > 0 {
        PaymentKeepsLedger(t.ledger, t.seats, after.seats, i, w);
      }
    }
  }
}
