/** Hands from the first blind to the last chip, and games of many hands. */
module Runs {
  import opened Util
  import opened Cards
  import opened Players
  import opened PotLayers
  import opened Tables
  import opened Betting
  import opened Rounds
  import opened Offers
  import opened Decks
  import opened Hands
  import opened Moves
  import opened Raises
  import opened Play

  // ----- the start of a hand -----

  /** First-round seats: whatever has been put in was put in this round, and nobody has acted or folded. */
  ghost predicate Opening(seats: seq<Seat>) {
    forall k :: 0 <= k < |seats| ==>
      && seats[k].bet == seats[k].total && !seats[k].acted && !seats[k].folded
      && (seats[k].allIn <==> seats[k].stack == 0)
  }

  lemma OpeningIsSound(seats: seq<Seat>)
    requires Opening(seats) && UniqueIds(seats) && |seats| >= 2
    ensures SeatsSound(seats)
  {
  }

  lemma BlindKeepsOpening(t: Table, i: nat, amount: nat)
    requires Opening(t.seats) && UniqueIds(t.seats) && LedgerSound(t.ledger, t.seats)
    requires i < |t.seats| && amount <= t.seats[i].stack
    ensures var after := ProcessBlind(t, i, amount);
            && Opening(after.seats) && UniqueIds(after.seats) && LedgerSound(after.ledger, after.seats)
            && ChipsInPlay(after) == ChipsInPlay(t)
            && after.seats == t.seats[i := AfterBlind(t.seats[i], amount)]
  {
    hide AddBet, LedgerSound;
    LedgerHasPots(t.ledger, t.seats);
    var after := ProcessBlind(t, i, amount);
    PaymentKeepsLedger(t.ledger, t.seats, after.seats, i, amount);
    PotTotalAfterAdd(t.ledger, t.seats[i].id, amount);
    SumAtLeast(Stacks(t.seats), i);
  }

  lemma LedgerHasPots(l: Ledger, seats: seq<Seat>)
    requires LedgerSound(l, seats)
    ensures l.pots != []
  {
  }

  /** The blind a seat owes. */
  function BlindOf(t: Table, k: nat): nat {
    if k == t.smallBlindSeat then t.smallBlind else if k == t.bigBlindSeat then t.bigBlind else 0
  }

  /** Whether the seat keeps chips after posting its blind. */
  predicate KeepsChips(t: Table, k: nat)
    requires k < |t.seats|
  {
    t.seats[k].stack > BlindOf(t, k)
  }

  /** Ready for a new hand: between hands, two to ten players, each with chips. */
  ghost predicate Ready(e: Engine, order: seq<Card>) {
    && !e.running
    && 2 <= |e.table.seats| <= 10
    && UniqueIds(e.table.seats)
    && (forall k :: 0 <= k < |e.table.seats| ==> e.table.seats[k].stack > 0)
    && |order| == 52 && multiset(order) == multiset(FullDeck())
  }

  lemma SeatedSeats(t: Table, order: seq<Card>)
    requires |t.seats| <= 10 && |order| == 52
    ensures var seated := Seated(t, order);
            && |seated.seats| == |t.seats|
            && (forall k :: 0 <= k < |t.seats| ==>
                  seated.seats[k] == Seat(t.seats[k].id, t.seats[k].stack, 0, 0, false, false, false,
                                          HoleCards(order, |t.seats|)[k]))
            && seated == StartNewHand(t).(seats := seated.seats)
  {
    hide HoleCards;
  }

  lemma EmptyLedger(seats: seq<Seat>)
    requires forall k :: 0 <= k < |seats| ==> seats[k].total == 0
    ensures LedgerSound(EMPTY_LEDGER, seats) && PotTotal(EMPTY_LEDGER.pots) == 0
  {
    SumOfZeros(Totals(seats));
    OnePotTotal(Pot(0, [], true));
  }

  lemma NewHandFields(t: Table)
    requires |t.seats| >= 2
    ensures var begun := StartNewHand(t);
            && begun.ledger == EMPTY_LEDGER && begun.phase == PreFlop && begun.minimumRaise == begun.bigBlind
            && begun.bigBlind == t.bigBlind && begun.smallBlind == t.smallBlind
            && begun.smallBlindSeat < |t.seats| && begun.bigBlindSeat < |t.seats|
            && begun.smallBlindSeat != begun.bigBlindSeat
  {
    BlindSeatsDiffer(MoveDealer(t.(seats := SeatsForNewHand(t.seats))));
  }

  lemma SeatedIsOpening(e: Engine, order: seq<Card>)
    requires Ready(e, order)
    ensures var t := Seated(e.table, order);
            && Opening(t.seats) && UniqueIds(t.seats) && LedgerSound(t.ledger, t.seats)
            && |t.seats| == |e.table.seats| && t.phase == PreFlop && t.minimumRaise == t.bigBlind
            && t.bigBlind == e.table.bigBlind && t.smallBlind == e.table.smallBlind
            && t.smallBlindSeat < |t.seats| && t.bigBlindSeat < |t.seats| && t.smallBlindSeat != t.bigBlindSeat
            && ChipsInPlay(t) == Sum(Stacks(e.table.seats))
            && (forall k :: 0 <= k < |t.seats| ==> t.seats[k].stack == e.table.seats[k].stack)
  {
    hide Seated, StartNewHand, HoleCards, LedgerSound;
    var t := Seated(e.table, order);
    SeatedSeats(e.table, order);
    NewHandFields(e.table);
    EmptyLedger(t.seats);
    assert Stacks(t.seats) == Stacks(e.table.seats);
  }

  lemma SeatedHoles(t: Table, order: seq<Card>)
    requires |t.seats| <= 10 && |order| == 52
    ensures var seated := Seated(t, order);
            && |seated.seats| == |t.seats| && seated.board == [] && seated.phase == PreFlop
            && forall k :: 0 <= k < |t.seats| ==> seated.seats[k].hole == HoleCards(order, |t.seats|)[k]
  {
  }

  lemma HolesLaid(t: Table, order: seq<Card>)
    requires |t.seats| <= 10 && |order| == 52 && t.board == [] && t.phase == PreFlop
    requires forall k :: 0 <= k < |t.seats| ==> t.seats[k].hole == HoleCards(order, |t.seats|)[k]
    requires Whole(Deal(DeckState(order, []), 2 * |t.seats|))
    ensures CardsLaid(t, Deal(DeckState(order, []), 2 * |t.seats|))
  {
    hide Whole, HoleCards, Top;
    var n := |t.seats|;
    assert n * 2 == 2 * n;
    assert Deal(DeckState(order, []), 2 * n).dealt == Top(order, 2 * n);
  }

  lemma SeatedCards(e: Engine, order: seq<Card>)
    requires |e.table.seats| <= 10 && |order| == 52 && multiset(order) == multiset(FullDeck())
    ensures CardsLaid(Seated(e.table, order), Deal(DeckState(order, []), 2 * |e.table.seats|))
  {
    hide Seated, Whole, CardsLaid, Deal, HoleCards;
    FreshDeckIsWhole(order);
    DealKeepsWhole(DeckState(order, []), 2 * |e.table.seats|);
    SeatedHoles(e.table, order);
    HolesLaid(Seated(e.table, order), order);
  }

  lemma SeatedFields(e: Engine, order: seq<Card>)
    requires 2 <= |e.table.seats| <= 10 && |order| == 52
    ensures var t := Seated(e.table, order);
            && |t.seats| == |e.table.seats| && t.phase == PreFlop && t.ledger.pots != []
            && t.smallBlindSeat < |t.seats| && t.bigBlindSeat < |t.seats|
  {
    hide StartNewHand, HoleCards, Seated;
    SeatedSeats(e.table, order);
    NewHandFields(e.table);
  }

  lemma PostBlindsKeepsCards(t: Table, d: DeckState)
    requires CardsLaid(t, d)
    requires t.smallBlindSeat < |t.seats| && t.bigBlindSeat < |t.seats| && t.ledger.pots != []
    ensures CardsLaid(PostBlinds(t), d) && PostBlinds(t).phase == t.phase && |PostBlinds(t).seats| == |t.seats|
  {
    hide AddBet, SetNext, CardsLaid;
    PotTotalAfterAdd(t.ledger, t.seats[t.smallBlindSeat].id, Min(t.smallBlind, t.seats[t.smallBlindSeat].stack));
    var small := ProcessBlind(t, t.smallBlindSeat, Min(t.smallBlind, t.seats[t.smallBlindSeat].stack));
    var big := ProcessBlind(small, t.bigBlindSeat, Min(t.bigBlind, small.seats[t.bigBlindSeat].stack));
    SetNextChangesTurnOnly(big);
    PostedCards(t, SetNext(big), d);
  }

  /** Whenever a hand is started, its cards are laid out and no earlier evaluation is left. */
  lemma StartedCards(e: Engine, order: seq<Card>)
    requires 2 <= |e.table.seats| <= 10 && |order| == 52 && multiset(order) == multiset(FullDeck())
    ensures var after := StartHand(e, order);
            && CardsLaid(after.table, after.deck) && after.table.phase == PreFlop
            && after.running && after.evaluations == map[]
  {
    hide Seated, PostBlinds, SetNext, CardsLaid, Deal;
    SeatedCards(e, order);
    SeatedFields(e, order);
    var d := Deal(DeckState(order, []), 2 * |e.table.seats|);
    var posted := PostBlinds(Seated(e.table, order));
    PostBlindsKeepsCards(Seated(e.table, order), d);
    SetNextKeepsCards(posted, d);
    SetNextChangesTurnOnly(posted);
  }

  lemma FreshDeckIsWhole(order: seq<Card>)
    requires multiset(order) == multiset(FullDeck())
    ensures Whole(DeckState(order, []))
  {
  }

  /** The posted blinds keep every chip, and leave someone able to act unless both players are put all-in heads-up. */
  lemma BlindsPosted(e: Engine, order: seq<Card>)
    requires Ready(e, order)
    ensures var seated := Seated(e.table, order);
            && seated.smallBlindSeat < |seated.seats| && seated.bigBlindSeat < |seated.seats| && seated.ledger.pots != []
            && var t := PostBlinds(seated);
            && Opening(t.seats) && UniqueIds(t.seats) && LedgerSound(t.ledger, t.seats)
            && ChipsInPlay(t) == Sum(Stacks(e.table.seats))
            && |t.seats| == |seated.seats|
            && t == seated.(seats := t.seats, ledger := t.ledger, toAct := t.toAct)
            && (forall k :: 0 <= k < |t.seats| ==> t.seats[k].hole == seated.seats[k].hole)
            && (forall k :: 0 <= k < |t.seats| ==> (t.seats[k].CanAct() <==> KeepsChips(seated, k)))
  {
    hide Seated, AddBet, LedgerSound, SetNext;
    var t := Seated(e.table, order);
    SeatedIsOpening(e, order);
    LedgerHasPots(t.ledger, t.seats);
    var s, b := t.smallBlindSeat, t.bigBlindSeat;
    var small := ProcessBlind(t, s, Min(t.smallBlind, t.seats[s].stack));
    BlindKeepsOpening(t, s, Min(t.smallBlind, t.seats[s].stack));
    LedgerHasPots(small.ledger, small.seats);
    BlindKeepsOpening(small, b, Min(t.bigBlind, small.seats[b].stack));
    SetNextChangesTurnOnly(ProcessBlind(small, b, Min(t.bigBlind, small.seats[b].stack)));
  }

  /** A started hand is live and holds every chip the stacks held. */
  lemma StartedHandIsLive(e: Engine, order: seq<Card>)
    requires Ready(e, order)
    ensures var after := StartHand(e, order);
            && Live(after)
            && ChipsInPlay(after.table) == Sum(Stacks(e.table.seats))
            && UnfoldedHoldsTop(after.table.seats)
            && after.table.minimumRaise == after.table.bigBlind
            && |after.table.seats| == |e.table.seats|
            && (after.table.toAct.Some? <==> SomeoneCanAct(after.table.seats))
            && (forall k :: 0 <= k < |after.table.seats|
                  ==> (after.table.seats[k].CanAct() <==> KeepsChips(Seated(e.table, order), k)))
  {
    hide Seated, PostBlinds, SetNext, CardsLaid, SeatsSound, LedgerSound, SomeoneCanAct, Awaiting, Deal, KeepsChips;
    SeatedIsOpening(e, order);
    BlindsPosted(e, order);
    SeatedCards(e, order);
    var seated := Seated(e.table, order);
    var posted := PostBlinds(seated);
    var d := Deal(DeckState(order, []), 2 * |e.table.seats|);
    PostedCards(seated, posted, d);
    OpeningIsSound(posted.seats);
    EveryoneInHand(posted.seats);
    OpeningHasTop(posted.seats);
    StartedTurn(seated, posted);
    SetNextChangesTurnOnly(posted);
    SetNextKeepsCards(posted, d);
    assert StartHand(e, order).table == if |posted.seats| > 2 then SetNext(posted) else posted;
  }

  lemma PostedCards(seated: Table, posted: Table, d: DeckState)
    requires CardsLaid(seated, d) && |posted.seats| == |seated.seats|
    requires posted == seated.(seats := posted.seats, ledger := posted.ledger, toAct := posted.toAct)
    requires forall k :: 0 <= k < |posted.seats| ==> posted.seats[k].hole == seated.seats[k].hole
    ensures CardsLaid(posted, d)
  {
  }

  lemma {:induction false} EveryoneInHand(seats: seq<Seat>)
    requires forall k :: 0 <= k < |seats| ==> !seats[k].folded
    ensures |InHand(seats)| == |seats|
  {
    if seats != [] {
      EveryoneInHand(seats[1..]);
    }
  }

  lemma {:induction false} HasTop(seats: seq<Seat>, n: nat) returns (w: nat)
    requires 0 < n <= |seats|
    ensures w < n && forall k :: 0 <= k < n ==> seats[k].total <= seats[w].total
  {
    if n == 1 {
      w := 0;
    } else {
      w := HasTop(seats, n - 1);
      if seats[n - 1].total > seats[w].total {
        w := n - 1;
      }
    }
  }

  lemma OpeningHasTop(seats: seq<Seat>)
    requires Opening(seats) && seats != []
    ensures UnfoldedHoldsTop(seats)
  {
    var w := HasTop(seats, |seats|);
    assert !seats[w].folded;
  }

  /** The turn after the blinds, and after the extra turn passed when more than two play. */
  lemma StartedTurn(seated: Table, posted: Table)
    requires seated.smallBlindSeat < |seated.seats| && seated.bigBlindSeat < |seated.seats| && seated.ledger.pots != []
    requires posted == PostBlinds(seated)
    requires Opening(posted.seats) && SeatsSound(posted.seats)
    ensures if SomeoneCanAct(posted.seats)
            then Awaiting(posted) && Awaiting(SetNext(posted)) && posted.toAct.Some? && SetNext(posted).toAct.Some?
            else posted.toAct == None && SetNext(posted).toAct == None
  {
    hide SeatsSound, SomeoneCanAct, SetNext, TurnOrder;
    var s, b := seated.smallBlindSeat, seated.bigBlindSeat;
    var small := ProcessBlind(seated, s, Min(seated.smallBlind, seated.seats[s].stack));
    var big := ProcessBlind(small, b, Min(small.bigBlind, small.seats[b].stack));
    assert posted == SetNext(big);
    SetNextChangesTurnOnly(big);
    if SomeoneCanAct(posted.seats) {
      FreshRoundIsAwaited(big);
      FreshRoundIsAwaited(posted);
    } else {
      NobodyToAct(big);
      NobodyToAct(posted);
    }
  }

  /**
   * The hand can be played exactly when three or more are dealt in, or one of two players keeps chips after the
   * blind.
   */
  lemma StartedHandCanBePlayed(e: Engine, order: seq<Card>)
    requires Ready(e, order)
    ensures StartHand(e, order).table.toAct.Some?
       <==> || |e.table.seats| >= 3
            || (exists k :: 0 <= k < 2 && e.table.seats[k].stack > BlindOf(Seated(e.table, order), k))
  {
    hide Seated, StartHand, Live;
    SeatedIsOpening(e, order);
    StartedHandIsLive(e, order);
    var t := Seated(e.table, order);
    var after := StartHand(e, order).table;
    if |t.seats| >= 3 {
      var k := if t.smallBlindSeat != 0 && t.bigBlindSeat != 0 then 0
               else if t.smallBlindSeat != 1 && t.bigBlindSeat != 1 then 1 else 2;
      assert KeepsChips(t, k);
      assert after.seats[k].CanAct();
    } else {
      forall k | 0 <= k < 2
        ensures after.seats[k].CanAct() <==> e.table.seats[k].stack > BlindOf(t, k)
      {
        assert after.seats[k].CanAct() <==> KeepsChips(t, k);
      }
    }
  }

  /** The button moves one seat on; heads-up it posts the small blind, otherwise the next two seats post the blinds. */
  lemma BlindsFollowButton(e: Engine, order: seq<Card>)
    requires Ready(e, order)
    ensures var t, n := StartHand(e, order).table, |e.table.seats|;
            && t.dealer == (e.table.dealer + 1) % n
            && t.smallBlindSeat == (if n == 2 then t.dealer else Clockwise(n, t.dealer, 1))
            && t.bigBlindSeat == Clockwise(n, t.smallBlindSeat, 1)
  {
    hide SetNext, AddBet, HoleCards, SeatsDealt, Deal;
    var t := Seated(e.table, order);
    ButtonAndBlinds(e.table);
    SeatedIsOpening(e, order);
    LedgerHasPots(t.ledger, t.seats);
    var small := ProcessBlind(t, t.smallBlindSeat, Min(t.smallBlind, t.seats[t.smallBlindSeat].stack));
    PotTotalAfterAdd(t.ledger, t.seats[t.smallBlindSeat].id, Min(t.smallBlind, t.seats[t.smallBlindSeat].stack));
    var big := ProcessBlind(small, t.bigBlindSeat, Min(t.bigBlind, small.seats[t.bigBlindSeat].stack));
    SetNextChangesTurnOnly(big);
    SetNextChangesTurnOnly(SetNext(big));
  }

  /** The first search, and what one more pass of the turn does. */
  lemma OpeningTurn(seated: Table) returns (first: nat, c: nat)
    requires seated.smallBlindSeat < |seated.seats| && seated.bigBlindSeat < |seated.seats| && seated.ledger.pots != []
    requires UniqueIds(PostBlinds(seated).seats) && SomeoneCanAct(PostBlinds(seated).seats) && seated.phase == PreFlop
    ensures var posted := PostBlinds(seated);
            && SearchStarts(posted.(toAct := seated.toAct), first) && TurnFrom(posted, first)
            && c < |posted.seats| && posted.toAct == Some(posted.seats[c].id)
            && TurnFrom(SetNext(posted), Clockwise(|posted.seats|, c, 1))
  {
    hide PostBlinds, SetNext, TurnFrom, SearchStarts, SomeoneCanAct;
    var posted := PostBlinds(seated);
    PostedBySearch(seated);
    var big := posted.(toAct := seated.toAct);
    TurnIsFound(big);
    first :| SearchStarts(big, first) && TurnFrom(posted, first);
    c := TurnHolder(posted, first);
    TurnAfterPlayer(posted, c);
  }

  /**
   * Heads-up the hand opens with the first able player the search after the blinds finds; with three or more, one
   * more pass of the turn makes it the next able player after that one.
   */
  lemma FirstToAct(e: Engine, order: seq<Card>) returns (first: nat, c: nat)
    requires Ready(e, order) && StartHand(e, order).table.toAct.Some?
    ensures var t, n := StartHand(e, order).table, |e.table.seats|;
            && |t.seats| == n && c < n && SearchStarts(t.(toAct := e.table.toAct), first)
            && TurnFrom(t.(toAct := Some(t.seats[c].id)), first)
            && (if n == 2 then t.toAct == Some(t.seats[c].id) else TurnFrom(t, Clockwise(n, c, 1)))
  {
    hide Seated, PostBlinds, SetNext, TurnFrom, SearchStarts, SomeoneCanAct, UniqueIds, FullDeck, Deal;
    OpeningIsSearchable(e, order);
    var seated := Seated(e.table, order);
    first, c := OpeningTurn(seated);
    HandOpens(e, order, seated);
    var t := StartHand(e, order).table;
    PostedBySearch(seated);
    assert t.(toAct := e.table.toAct) == PostBlinds(seated).(toAct := e.table.toAct);
  }

  lemma HandOpens(e: Engine, order: seq<Card>, seated: Table)
    requires 2 <= |e.table.seats| <= 10 && |order| == 52 && seated == Seated(e.table, order)
    requires seated.smallBlindSeat < |seated.seats| && seated.bigBlindSeat < |seated.seats| && seated.ledger.pots != []
    ensures var t, posted := StartHand(e, order).table, PostBlinds(seated);
            && t == (if |e.table.seats| > 2 then SetNext(posted) else posted)
            && t == posted.(toAct := t.toAct)
  {
    hide Seated, PostBlinds, SetNext, Deal;
    SetNextChangesTurnOnly(PostBlinds(seated));
  }

  lemma SeatedTurn(t: Table, order: seq<Card>)
    requires 2 <= |t.seats| <= 10 && |order| == 52
    ensures Seated(t, order).toAct == t.toAct
  {
    hide HoleCards;
  }

  /** The dealt table can have its turn searched: distinct players, someone able, blinds in place. */
  lemma OpeningIsSearchable(e: Engine, order: seq<Card>)
    requires Ready(e, order) && StartHand(e, order).table.toAct.Some?
    ensures var seated := Seated(e.table, order);
            && seated.toAct == e.table.toAct && seated.phase == PreFlop && |seated.seats| == |e.table.seats|
            && seated.smallBlindSeat < |seated.seats| && seated.bigBlindSeat < |seated.seats| && seated.ledger.pots != []
            && UniqueIds(PostBlinds(seated).seats) && SomeoneCanAct(PostBlinds(seated).seats)
  {
    hide Seated, PostBlinds, SetNext, Live, SomeoneCanAct, UnfoldedHoldsTop, Opening, LedgerSound, UniqueIds;
    StartedHandIsLive(e, order);
    SeatedIsOpening(e, order);
    SeatedTurn(e.table, order);
    BlindsPosted(e, order);
    SetNextChangesTurnOnly(PostBlinds(Seated(e.table, order)));
  }

  lemma PostedBySearch(t: Table)
    requires t.smallBlindSeat < |t.seats| && t.bigBlindSeat < |t.seats| && t.ledger.pots != []
    ensures PostBlinds(t) == SetNext(PostBlinds(t).(toAct := t.toAct))
    ensures var posted := PostBlinds(t);
            && |posted.seats| == |t.seats| && posted.phase == t.phase
            && posted.smallBlindSeat == t.smallBlindSeat && posted.bigBlindSeat == t.bigBlindSeat
  {
    hide SetNext, AddBet;
    var small := ProcessBlind(t, t.smallBlindSeat, Min(t.smallBlind, t.seats[t.smallBlindSeat].stack));
    PotTotalAfterAdd(t.ledger, t.seats[t.smallBlindSeat].id, Min(t.smallBlind, t.seats[t.smallBlindSeat].stack));
    var big := ProcessBlind(small, t.bigBlindSeat, Min(t.bigBlind, small.seats[t.bigBlindSeat].stack));
    SetNextChangesTurnOnly(big);
    assert big == PostBlinds(t).(toAct := t.toAct);
  }

  lemma TurnHolder(t: Table, first: nat) returns (c: nat)
    requires TurnFrom(t, first)
    ensures c < |t.seats| && t.toAct == Some(t.seats[c].id)
  {
    c := SeatOf(t.seats, t.toAct.value);
  }

  /** The last raise is carried over from the hand before, the minimum raise is not. */
  lemma RaiseCarriedOver(e: Engine, order: seq<Card>)
    requires Ready(e, order)
    ensures var t := StartHand(e, order).table;
            t.lastRaise == e.table.lastRaise && t.minimumRaise == t.bigBlind == e.table.bigBlind
  {
    hide SetNext, HoleCards, SeatsDealt, Deal, PostBlinds;
    var t := Seated(e.table, order);
    SeatedIsOpening(e, order);
    BlindsPosted(e, order);
    SetNextChangesTurnOnly(PostBlinds(t));
  }

  /** A hand opens with raising open to those below the highest blind exactly if that last raise was a big blind or more. */
  lemma OpeningRaises(e: Engine, order: seq<Card>, top: nat, j: nat)
    requires Ready(e, order) && TopBet(StartHand(e, order).table.seats, top)
    requires j < |e.table.seats| == |StartHand(e, order).table.seats|
    requires CanRiseAbove(StartHand(e, order).table.seats[j], top)
    ensures var t := StartHand(e, order).table;
            && FirstRound(t.seats)
            && (RaiseOffered(t, t.seats[j].id) <==> e.table.lastRaise >= e.table.bigBlind)
  {
    hide StartHand, Live, UnfoldedHoldsTop, SomeoneCanAct, KeepsChips, RaiseOffered, TopBet, SeatsSound;
    var t := StartHand(e, order).table;
    StartedHandIsLive(e, order);
    RaiseCarriedOver(e, order);
    LiveIsSound(StartHand(e, order));
    SoundIsUnique(t);
    SeatOfUnique(t.seats, j);
    RaiseOfferedIff(t, t.seats[j].id, top);
    forall k | 0 <= k < |t.seats|
      ensures t.seats[k].bet == t.seats[k].total
    {
      BlindsArePaid(e, order, k);
    }
  }

  lemma LiveIsSound(e: Engine)
    requires Live(e)
    ensures Sound(e.table)
  {
  }

  lemma ButtonAndBlinds(t: Table)
    requires |t.seats| >= 2
    ensures var b, n := StartNewHand(t), |t.seats|;
            && b.dealer == (t.dealer + 1) % n
            && b.smallBlindSeat == (if n == 2 then b.dealer else Clockwise(n, b.dealer, 1))
            && b.bigBlindSeat == Clockwise(n, b.smallBlindSeat, 1)
  {
    var n := |t.seats|;
    var d := (t.dealer + 1) % n;
    SmallRemainder(d, n);
    SmallRemainder(d + 1, n);
    SmallRemainder(d + 2, n);
  }

  /** Each blind seat has paid its blind, or its whole stack when that is smaller, and nobody else has paid anything. */
  lemma BlindsArePaid(e: Engine, order: seq<Card>, k: nat)
    requires Ready(e, order) && k < |e.table.seats|
    ensures var t := StartHand(e, order).table;
            && k < |t.seats|
            && t.seats[k].total == t.seats[k].bet == Min(BlindOf(Seated(e.table, order), k), e.table.seats[k].stack)
            && t.seats[k].stack == e.table.seats[k].stack - t.seats[k].bet
  {
    hide Seated, AddBet, SetNext, Deal, HoleCards, StartNewHand, Opening, LedgerSound, FullDeck;
    var t := Seated(e.table, order);
    SeatedSeats(e.table, order);
    SeatedIsOpening(e, order);
    LedgerHasPots(t.ledger, t.seats);
    PotTotalAfterAdd(t.ledger, t.seats[t.smallBlindSeat].id, Min(t.smallBlind, t.seats[t.smallBlindSeat].stack));
    var small := ProcessBlind(t, t.smallBlindSeat, Min(t.smallBlind, t.seats[t.smallBlindSeat].stack));
    var big := ProcessBlind(small, t.bigBlindSeat, Min(t.bigBlind, small.seats[t.bigBlindSeat].stack));
    SetNextChangesTurnOnly(big);
    SetNextChangesTurnOnly(SetNext(big));
  }

  /** The player to act in a live hand always has an action that will be accepted. */
  lemma PlayCanGoOn(e: Engine)
    requires Live(e) && e.table.toAct.Some?
    ensures exists a: Action :: Validate(e.table, a) == None && IsOffered(e.table, a)
  {
    hide Sound, CardsLaid;
    var id := e.table.toAct.value;
    assert OwnTurn(e.table, id);
    SomethingIsOffered(e.table, id);
    var a: Action :| a.player == id && a.kind != AllIn && IsOffered(e.table, a);
    OfferedIsAccepted(e.table, a);
  }
}
