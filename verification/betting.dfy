/** What every accepted action keeps: matched bets, turn order, the ledger and the minimum raise. */
module Betting {
  import opened Util
  import opened Players
  import opened PotLayers
  import opened Tables

  // ----- the invariant -----

  ghost predicate AllInIffBroke(seats: seq<Seat>) {
    forall k :: 0 <= k < |seats| ==> (seats[k].allIn <==> seats[k].stack == 0)
  }

  ghost predicate BetsWithinTotals(seats: seq<Seat>) {
    forall k :: 0 <= k < |seats| ==> seats[k].bet <= seats[k].total
  }

  /** Whoever can act, or has bet this round, had matched everyone still in the hand before this round. */
  ghost predicate EarlierRoundsMatched(seats: seq<Seat>) {
    forall i, j :: 0 <= i < |seats| && 0 <= j < |seats| && !seats[i].folded && !seats[j].folded
                   && (seats[i].CanAct() || seats[i].bet > 0)
                   ==> seats[j].Prior() <= seats[i].Prior()
  }

  /** Whoever can act and has acted has matched every bet still in the hand, all-in bets included. */
  ghost predicate ActedHaveMatched(seats: seq<Seat>) {
    forall i, j :: 0 <= i < |seats| && 0 <= j < |seats| && seats[i].CanAct() && seats[i].acted && !seats[j].folded
                   ==> seats[j].bet <= seats[i].bet
  }

  ghost predicate SeatsSound(seats: seq<Seat>) {
    && 2 <= |seats|
    && UniqueIds(seats)
    && AllInIffBroke(seats)
    && BetsWithinTotals(seats)
    && EarlierRoundsMatched(seats)
    && ActedHaveMatched(seats)
  }

  function Contribution(l: Ledger, id: PlayerId): nat {
    if id in l.contributions then l.contributions[id] else 0
  }

  /** The pots, the contribution map and the seats' own totals tell the same story. */
  ghost predicate LedgerSound(l: Ledger, seats: seq<Seat>) {
    && l.pots != []
    && PotTotal(l.pots) == Sum(Totals(seats))
    && (forall k :: 0 <= k < |seats| ==> Contribution(l, seats[k].id) == seats[k].total)
    && (forall id :: id in l.contributions ==> exists k :: 0 <= k < |seats| && seats[k].id == id)
  }

  ghost predicate Sound(t: Table) {
    && SeatsSound(t.seats) && LedgerSound(t.ledger, t.seats)
    && t.minimumRaise >= t.bigBlind
    && (SomeoneHasBet(t.seats) || t.minimumRaise == t.bigBlind)
  }

  /** How many places clockwise of `from` seat `k` sits. */
  function Ahead(n: nat, from: nat, k: nat): nat
    requires from < n && k < n
  {
    if k >= from then k - from else k + n - from
  }

  /** Clockwise from `c`, the players yet to act come before all who have acted. */
  ghost predicate TurnOrder(seats: seq<Seat>, c: nat)
    requires c < |seats|
  {
    forall i, j :: 0 <= i < |seats| && 0 <= j < |seats| && seats[i].CanAct() && seats[j].CanAct()
                   && Ahead(|seats|, c, i) < Ahead(|seats|, c, j) && seats[i].acted
                   ==> seats[j].acted
  }

  /** The turn is with a player who can act and has not acted since the last raise. */
  ghost predicate Awaiting(t: Table) {
    && t.toAct.Some?
    && var c := SeatOf(t.seats, t.toAct.value);
       c < |t.seats| && t.seats[c].CanAct() && !t.seats[c].acted && TurnOrder(t.seats, c)
  }

  /** The turn is with the first player, clockwise from seat `first`, who can act. */
  ghost predicate TurnFrom(t: Table, first: nat) {
    && first < |t.seats| && t.toAct.Some?
    && var n, c := |t.seats|, SeatOf(t.seats, t.toAct.value);
       c < n && t.seats[c].CanAct()
       && forall k :: 0 <= k < n && t.seats[k].CanAct() ==> Ahead(n, first, c) <= Ahead(n, first, k)
  }

  /** Where a street after the first begins: left of the button, or with the button when two play. */
  function StreetOpener(t: Table): (first: nat)
    requires t.seats != []
    ensures first < |t.seats|
  {
    if |t.seats| == 2 then t.dealer % 2 else (t.dealer + 1) % |t.seats|
  }

  /** Someone who still has to act has the turn, or everyone able has acted. */
  ghost predicate TurnKept(t: Table) {
    Awaiting(t) || RoundComplete(t.seats)
  }

  /** Everyone still in the hand has matched the bets or is all-in. */
  ghost predicate Settled(seats: seq<Seat>) {
    forall k :: 0 <= k < |seats| && !seats[k].folded ==> seats[k].bet == HighestBet(seats) || seats[k].allIn
  }

  // ----- matched bets -----

  lemma ActedMeansHighest(seats: seq<Seat>, i: nat)
    requires SeatsSound(seats)
    requires i < |seats| && seats[i].CanAct() && seats[i].acted
    ensures seats[i].bet == HighestBet(seats)
  {
    assert seats[i].bet <= HighestBet(seats);
  }

  /** The round-completion test never looks at all-in bets, yet when it holds they are matched too. */
  lemma CompleteRoundIsSettled(seats: seq<Seat>)
    requires SeatsSound(seats)
    requires RoundComplete(seats)
    ensures Settled(seats)
  {
    forall k | 0 <= k < |seats| && !seats[k].folded
      ensures seats[k].bet == HighestBet(seats) || seats[k].allIn
    {
      if seats[k].CanAct() {
        ActedMeansHighest(seats, k);
      }
    }
  }

  /** The round is complete exactly when nobody who can act is yet to act. */
  lemma CompleteIffAllActed(seats: seq<Seat>)
    requires SeatsSound(seats)
    ensures RoundComplete(seats)
       <==> forall k :: 0 <= k < |seats| && seats[k].CanAct() ==> seats[k].acted
  {
    if forall k :: 0 <= k < |seats| && seats[k].CanAct() ==> seats[k].acted {
      forall i, j | 0 <= i < |seats| && 0 <= j < |seats| && seats[i].CanAct() && seats[j].CanAct()
        ensures seats[i].bet == seats[j].bet
      {
        ActedMeansHighest(seats, i);
        ActedMeansHighest(seats, j);
      }
    }
  }

  // ----- one action, on the seats -----

  lemma FoldKeepsSeats(seats: seq<Seat>, i: nat)
    requires SeatsSound(seats) && i < |seats|
    ensures SeatsSound(seats[i := AfterFold(seats[i])])
  {
  }

  lemma CheckKeepsSeats(seats: seq<Seat>, i: nat)
    requires SeatsSound(seats) && i < |seats| && seats[i].CanAct()
    requires seats[i].bet >= HighestBet(seats)
    ensures SeatsSound(seats[i := AfterCheck(seats[i])])
  {
  }

  ghost predicate FairWager(seats: seq<Seat>, i: nat, w: nat)
    requires i < |seats|
  {
    && seats[i].CanAct()
    && w <= seats[i].stack
    && (w == seats[i].stack || seats[i].bet + w >= HighestBet(seats))
  }

  /** What a bet does to the other seats: nothing, or it clears their `acted` flag. */
  lemma OthersAfterBet(seats: seq<Seat>, i: nat, w: nat)
    requires i < |seats|
    ensures var r := SeatsAfterBet(seats, i, w);
            && |r| == |seats| && r[i] == AfterBet(seats[i], w)
            && forall k :: 0 <= k < |seats| && k != i
                 ==> r[k] == if AfterBet(seats[i], w).bet > HighestBet(seats) && seats[k].CanAct()
                             then seats[k].(acted := false) else seats[k]
  {
  }

  lemma BetKeepsMatching(seats: seq<Seat>, i: nat, w: nat)
    requires SeatsSound(seats) && i < |seats| && FairWager(seats, i, w)
    ensures ActedHaveMatched(SeatsAfterBet(seats, i, w))
  {
    hide SeatsAfterBet, EarlierRoundsMatched;
    var r := SeatsAfterBet(seats, i, w);
    OthersAfterBet(seats, i, w);
    forall k, j | 0 <= k < |r| && 0 <= j < |r| && r[k].CanAct() && r[k].acted && !r[j].folded
      ensures r[j].bet <= r[k].bet
    {
      assert seats[j].bet <= HighestBet(seats);
      if k != i {
        ActedMeansHighest(seats, k);
      }
    }
  }

  lemma BetKeepsSeats(seats: seq<Seat>, i: nat, w: nat)
    requires SeatsSound(seats) && i < |seats| && FairWager(seats, i, w)
    ensures SeatsSound(SeatsAfterBet(seats, i, w))
  {
    hide SeatsAfterBet, ActedHaveMatched, HighestBet;
    var r := SeatsAfterBet(seats, i, w);
    OthersAfterBet(seats, i, w);
    BetKeepsMatching(seats, i, w);
    assert r[i].Prior() == seats[i].Prior();
  }

  // ----- turn order -----

  lemma {:induction false} FirstAbleIsFirst(seats: seq<Seat>, start: nat, i: nat)
    requires start < |seats| && i <= |seats|
    ensures var r := FirstAble(seats, start, i);
            && (r.Some? ==>
                  && r.value < |seats| && seats[r.value].CanAct()
                  && i <= Ahead(|seats|, start, r.value)
                  && forall k :: 0 <= k < |seats| && i <= Ahead(|seats|, start, k) < Ahead(|seats|, start, r.value)
                                 ==> !seats[k].CanAct())
            && (r.None? ==> forall k :: 0 <= k < |seats| && i <= Ahead(|seats|, start, k) ==> !seats[k].CanAct())
    decreases |seats| - i
  {
    if i < |seats| {
      var k := Clockwise(|seats|, start, i);
      assert forall j :: 0 <= j < |seats| && Ahead(|seats|, start, j) == i ==> j == k;
      if !seats[k].CanAct() {
        FirstAbleIsFirst(seats, start, i + 1);
      }
    }
  }

  lemma AheadAfterStep(n: nat, i: nat, k: nat)
    requires i < n && k < n
    ensures Ahead(n, (i + 1) % n, k) == if k == i then n - 1 else Ahead(n, i, k) - 1
  {
    assert (i + 1) % n == if i + 1 == n then 0 else i + 1;
  }

  lemma AheadFromLater(n: nat, start: nat, next: nat, k: nat)
    requires start < n && next < n && k < n
    requires Ahead(n, start, next) <= Ahead(n, start, k)
    ensures Ahead(n, next, k) == Ahead(n, start, k) - Ahead(n, start, next)
  {
  }

  /** Passing the turn clockwise keeps the players yet to act ahead of those who have acted. */
  lemma TurnPasses(before: seq<Seat>, after: seq<Seat>, i: nat, next: nat)
    requires i < |before| == |after| && next < |after|
    requires TurnOrder(before, i)
    requires after[i].CanAct() ==> after[i].acted
    requires forall k :: 0 <= k < |after| && k != i ==> after[k].CanAct() == before[k].CanAct()
    requires (forall k :: 0 <= k < |after| && k != i ==> after[k].acted == before[k].acted)
          || (forall k :: 0 <= k < |after| && k != i && after[k].CanAct() ==> !after[k].acted)
    requires FirstAble(after, (i + 1) % |after|, 0) == Some(next)
    ensures TurnOrder(after, next)
  {
    var n := |after|;
    var start := (i + 1) % n;
    FirstAbleIsFirst(after, start, 0);
    forall j, k | 0 <= j < n && 0 <= k < n && after[j].CanAct() && after[k].CanAct()
                  && Ahead(n, next, j) < Ahead(n, next, k) && after[j].acted
      ensures after[k].acted
    {
      AheadFromLater(n, start, next, j);
      AheadFromLater(n, start, next, k);
      AheadAfterStep(n, i, j);
      AheadAfterStep(n, i, k);
    }
  }

  lemma SomeoneAbleIsFound(seats: seq<Seat>, start: nat)
    requires start < |seats| && SomeoneCanAct(seats)
    ensures FirstAble(seats, start, 0).Some?
  {
    FirstAbleIsFirst(seats, start, 0);
  }

  /** Whatever seat the search starts from, the turn goes to the first able player from there. */
  lemma SearchFindsFirst(t: Table)
    requires UniqueIds(t.seats) && SomeoneCanAct(t.seats)
    ensures t.seats != [] && TurnFrom(SetNext(t), StartPosition(t))
  {
    hide StartPosition;
    var start := StartPosition(t);
    SomeoneAbleIsFound(t.seats, start);
    FirstAbleIsFirst(t.seats, start, 0);
    SeatOfUnique(t.seats, FirstAble(t.seats, start, 0).value);
  }

  /** The turn is no one else's: only one able seat is first. */
  lemma TurnFromIsUnique(t: Table, u: Table, first: nat)
    requires TurnFrom(t, first) && TurnFrom(u, first) && t.seats == u.seats
    ensures t.toAct == u.toAct
  {
    var c, d := SeatOf(t.seats, t.toAct.value), SeatOf(u.seats, u.toAct.value);
    assert Ahead(|t.seats|, first, c) == Ahead(|t.seats|, first, d);
  }

  /**
   * Where the search for the next player starts: after whoever had the turn; with nobody's turn before it, a later
   * street starts with its opener, and the first one after the big blind, or heads-up with the small blind once a bet
   * is in. A player who has left is searched for in vain, and the search starts with the first seat.
   */
  ghost predicate SearchStarts(t: Table, first: nat) {
    match t.toAct
    case Some(id) =>
      || (exists k :: 0 <= k < |t.seats| && t.seats[k].id == id && first == Clockwise(|t.seats|, k, 1))
      || ((forall k :: 0 <= k < |t.seats| ==> t.seats[k].id != id) && first == 0)
    case None =>
      if t.phase != PreFlop then t.seats != [] && first == StreetOpener(t)
      else if |t.seats| == 2 && exists k :: 0 <= k < 2 && t.seats[k].bet > 0 then first == t.smallBlindSeat
      else t.bigBlindSeat < |t.seats| && first == Clockwise(|t.seats|, t.bigBlindSeat, 1)
  }

  /** What passing the turn makes of it. */
  ghost predicate TurnFound(t: Table, after: Table) {
    if SomeoneCanAct(t.seats) then exists first :: SearchStarts(t, first) && TurnFrom(after, first)
    else after.toAct == None
  }

  lemma TurnIsFound(t: Table)
    requires UniqueIds(t.seats) && t.smallBlindSeat < |t.seats| && t.bigBlindSeat < |t.seats|
    ensures TurnFound(t, SetNext(t))
  {
    hide TurnFrom;
    if SomeoneCanAct(t.seats) {
      var n := |t.seats|;
      SearchFindsFirst(t);
      SmallRemainder(t.smallBlindSeat, n);
      SmallRemainder(t.bigBlindSeat + 1, n);
      if t.toAct.Some? && SeatOf(t.seats, t.toAct.value) < n {
        SmallRemainder(SeatOf(t.seats, t.toAct.value) + 1, n);
      }
      assert SearchStarts(t, StartPosition(t));
    }
  }

  /** After a player's own turn the search starts with the next seat. */
  lemma TurnAfterPlayer(t: Table, i: nat)
    requires UniqueIds(t.seats) && SomeoneCanAct(t.seats)
    requires i < |t.seats| && t.toAct == Some(t.seats[i].id)
    ensures TurnFrom(SetNext(t), Clockwise(|t.seats|, i, 1))
  {
    hide SetNext, TurnFrom;
    SeatOfUnique(t.seats, i);
    SmallRemainder(i + 1, |t.seats|);
    SearchFindsFirst(t);
  }

  /** With nobody's turn before it, a street after the first starts with its opener. */
  lemma TurnOnNewStreet(t: Table)
    requires UniqueIds(t.seats) && SomeoneCanAct(t.seats) && t.toAct == None && t.phase != PreFlop
    ensures t.seats != [] && TurnFrom(SetNext(t), StreetOpener(t))
  {
    hide SetNext, TurnFrom;
    SearchFindsFirst(t);
  }

  /** With nobody's turn before it, the first street starts after the big blind, or heads-up with the small blind. */
  lemma TurnBeforeFlop(t: Table)
    requires UniqueIds(t.seats) && SomeoneCanAct(t.seats) && t.toAct == None && t.phase == PreFlop
    requires t.smallBlindSeat < |t.seats| && t.bigBlindSeat < |t.seats|
    ensures TurnFrom(SetNext(t),
                     if |t.seats| == 2 && exists k :: 0 <= k < 2 && t.seats[k].bet > 0 then t.smallBlindSeat
                     else Clockwise(|t.seats|, t.bigBlindSeat, 1))
  {
    hide SetNext, TurnFrom;
    SmallRemainder(t.bigBlindSeat + 1, |t.seats|);
    SmallRemainder(t.smallBlindSeat, |t.seats|);
    SearchFindsFirst(t);
  }

  /** After a player acts, either the round is complete or the turn is with someone who still has to act. */
  lemma NextIsAwaited(t: Table, after: Table, i: nat)
    requires SeatsSound(after.seats) && |t.seats| == |after.seats|
    requires t.toAct.Some? && i == SeatOf(t.seats, t.toAct.value) < |t.seats| && TurnOrder(t.seats, i)
    requires after.toAct == t.toAct
    requires forall k :: 0 <= k < |t.seats| ==> after.seats[k].id == t.seats[k].id
    requires after.seats[i].CanAct() ==> after.seats[i].acted
    requires forall k :: 0 <= k < |t.seats| && k != i ==> after.seats[k].CanAct() == t.seats[k].CanAct()
    requires (forall k :: 0 <= k < |t.seats| && k != i ==> after.seats[k].acted == t.seats[k].acted)
          || (forall k :: 0 <= k < |t.seats| && k != i && after.seats[k].CanAct() ==> !after.seats[k].acted)
    ensures RoundComplete(after.seats) || Awaiting(SetNext(after))
  {
    hide RoundComplete, HighestBet, AllInIffBroke, BetsWithinTotals, EarlierRoundsMatched, ActedHaveMatched;
    CompleteIffAllActed(after.seats);
    if !RoundComplete(after.seats) {
      SeatOfUnique(after.seats, i);
      var start := StartPosition(after);
      assert start == (i + 1) % |after.seats|;
      SomeoneAbleIsFound(after.seats, start);
      var next := FirstAble(after.seats, start, 0).value;
      FirstAbleIsFirst(after.seats, start, 0);
      TurnPasses(t.seats, after.seats, i, next);
      SeatOfUnique(after.seats, next);
      NextHasNotActed(after.seats, next);
    }
  }

  lemma NextHasNotActed(seats: seq<Seat>, next: nat)
    requires next < |seats| && seats[next].CanAct() && TurnOrder(seats, next)
    requires exists k :: 0 <= k < |seats| && seats[k].CanAct() && !seats[k].acted
    ensures !seats[next].acted
  {
    var k :| 0 <= k < |seats| && seats[k].CanAct() && !seats[k].acted;
    if k != next {
      assert Ahead(|seats|, next, next) < Ahead(|seats|, next, k);
    }
  }
}
