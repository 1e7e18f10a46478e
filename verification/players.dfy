/** A seat at the table: the chips and flags of `Player`, as a value and as the object the engine updates. */
module Players {
  import opened Cards

  /** Player ids are strings that the engine only compares for equality. */
  type PlayerId = nat

  datatype Seat = Seat(
    id: PlayerId,
    stack: nat,
    bet: nat,      // put in during this betting round
    total: nat,    // put in during this hand
    acted: bool,
    folded: bool,
    allIn: bool,
    hole: seq<Card>)
  {
    predicate CanAct() {
      !folded && !allIn && stack > 0
    }

    /** What the seat had put in before this betting round. */
    ghost function Prior(): int {
      total - bet
    }
  }

  function AfterBlind(s: Seat, amount: nat): Seat {
    var paid := if amount > s.stack then s.stack else amount;
    s.(stack := s.stack - paid, bet := s.bet + paid, total := s.total + paid,
       allIn := s.allIn || s.stack == paid)
  }

  function AfterBet(s: Seat, amount: nat): Seat {
    AfterBlind(s, amount).(acted := true)
  }

  /** What a bet or a blind takes: the amount, or the whole stack when that is smaller, which puts the player all-in. */
  lemma PaymentIsCapped(s: Seat, amount: nat)
    requires s.allIn ==> s.stack == 0
    ensures AfterBet(s, amount) == AfterBlind(s, amount).(acted := true)
    ensures var after := AfterBlind(s, amount);
            && (amount <= s.stack ==> after.stack == s.stack - amount)
            && (amount >= s.stack ==> after.stack == 0)
            && after.stack + after.bet == s.stack + s.bet && after.stack + after.total == s.stack + s.total
            && (after.allIn <==> after.stack == 0)
            && after.(stack := s.stack, bet := s.bet, total := s.total, allIn := s.allIn) == s
  {
  }

  function AfterFold(s: Seat): Seat {
    s.(folded := true, acted := true)
  }

  function AfterCheck(s: Seat): Seat {
    s.(acted := true)
  }

  function ForNewHand(s: Seat): Seat {
    s.(acted := false, folded := false, allIn := false, bet := 0, total := 0, hole := [])
  }

  function ForNewRound(s: Seat): Seat {
    s.(acted := false, bet := 0)
  }

  /** A player who has just sat down. */
  function NewSeat(id: PlayerId, chips: nat): Seat {
    Seat(id, chips, 0, 0, false, false, false, [])
  }

  class Player {
    const id: PlayerId
    var chipStack: nat
    var currentBet: nat
    var totalBetThisHand: nat
    var hasActed: bool
    var isFolded: bool
    var isAllIn: bool
    var holeCards: seq<Card>

    ghost function View(): Seat
      reads this
    {
      Seat(id, chipStack, currentBet, totalBetThisHand, hasActed, isFolded, isAllIn, holeCards)
    }

    constructor (id: PlayerId, chipStack: nat)
      ensures View() == NewSeat(id, chipStack)
    {
      this.id := id;
      this.chipStack := chipStack;
      currentBet, totalBetThisHand := 0, 0;
      hasActed, isFolded, isAllIn := false, false, false;
      holeCards := [];
    }

    method DealHoleCards(cards: seq<Card>)
      modifies this
      ensures View() == old(View()).(hole := cards)
    {
      holeCards := cards;
    }

    method Bet(amount: nat)
      modifies this
      ensures View() == AfterBet(old(View()), amount)
    {
      var paid := amount;
      if paid > chipStack {
        paid := chipStack;
        isAllIn := true;
      }
      chipStack := chipStack - paid;
      currentBet := currentBet + paid;
      totalBetThisHand := totalBetThisHand + paid;
      hasActed := true;
      if chipStack == 0 {
        isAllIn := true;
      }
    }

    method PostBlind(amount: nat)
      modifies this
      ensures View() == AfterBlind(old(View()), amount)
    {
      var paid := amount;
      if paid > chipStack {
        paid := chipStack;
      }
      chipStack := chipStack - paid;
      currentBet := currentBet + paid;
      totalBetThisHand := totalBetThisHand + paid;
      if chipStack == 0 {
        isAllIn := true;
      }
    }

    method Fold()
      modifies this
      ensures View() == AfterFold(old(View()))
    {
      isFolded := true;
      hasActed := true;
    }

    method Check()
      modifies this
      ensures View() == AfterCheck(old(View()))
    {
      hasActed := true;
    }

    method AddChips(amount: nat)
      modifies this
      ensures View() == old(View()).(stack := old(chipStack) + amount)
    {
      chipStack := chipStack + amount;
    }

    method ResetForNewHand()
      modifies this
      ensures View() == ForNewHand(old(View()))
    {
      hasActed := false;
      isFolded := false;
      isAllIn := false;
      currentBet := 0;
      totalBetThisHand := 0;
      holeCards := [];
    }

    method ResetForNewRound()
      modifies this
      ensures View() == ForNewRound(old(View()))
    {
      hasActed := false;
      currentBet := 0;
    }

    predicate CanAct()
      reads this
      ensures CanAct() == View().CanAct()
    {
      !isFolded && !isAllIn && chipStack > 0
    }
  }

  /** The seats as values, in table order. */
  ghost function Seats(players: seq<Player>): (seats: seq<Seat>)
    reads players
    ensures |seats| == |players|
    ensures forall k :: 0 <= k < |players| ==> seats[k] == players[k].View()
  {
    seq(|players|, k requires 0 <= k < |players| reads players => players[k].View())
  }

  // ----- sums over seats -----

  function Stacks(seats: seq<Seat>): (xs: seq<nat>)
    ensures |xs| == |seats|
    ensures forall k :: 0 <= k < |seats| ==> xs[k] == seats[k].stack
  {
    seq(|seats|, k requires 0 <= k < |seats| => seats[k].stack)
  }

  function Totals(seats: seq<Seat>): (xs: seq<nat>)
    ensures |xs| == |seats|
    ensures forall k :: 0 <= k < |seats| ==> xs[k] == seats[k].total
  {
    seq(|seats|, k requires 0 <= k < |seats| => seats[k].total)
  }

  ghost predicate UniqueIds(seats: seq<Seat>) {
    forall i, j :: 0 <= i < |seats| && 0 <= j < |seats| && seats[i].id == seats[j].id ==> i == j
  }

  /** The position of the first seat with this id; the number of seats when there is none. */
  function SeatOf(seats: seq<Seat>, id: PlayerId): (i: nat)
    ensures i <= |seats|
    ensures i < |seats| ==> seats[i].id == id
    ensures forall j :: 0 <= j < i ==> seats[j].id != id
  {
    if seats == [] then 0
    else if seats[0].id == id then 0
    else
      assert forall j :: 1 <= j < |seats| ==> seats[j] == seats[1..][j - 1];
      1 + SeatOf(seats[1..], id)
  }

  lemma SeatOfUnique(seats: seq<Seat>, i: nat)
    requires UniqueIds(seats) && i < |seats|
    ensures SeatOf(seats, seats[i].id) == i
  {
    var j := SeatOf(seats, seats[i].id);
    assert j <= i;
  }
}
