/** A whole hand as a value: what each operation of `GameEngine` makes of the table, the deck and the payout. */
module Hands {
  import opened Util
  import opened Cards
  import opened Players
  import opened PotLayers
  import opened PotShares
  import opened Tables
  import opened Decks
  import opened HandRanking
  import opened HandEvaluator

  datatype Engine = Engine(table: Table, deck: DeckState, evaluations: map<PlayerId, Evaluation>, running: bool)

  /** How a call ends: normally, refused with nothing changed, or by an exception part of the way through. */
  datatype Outcome = Accepted | NotRunning | Rejected(error: ActionError) | Failed(failure: Failure)

  datatype Failure = InvalidPhase | PotWithoutRecipient(pot: nat)

  // ----- the cards on the table -----

  /** Cards dealt after the hole cards, burned ones included. */
  function DealtBy(p: Phase): nat {
    match p
    case PreFlop => 0
    case Flop => 4
    case Turn => 6
    case _ => 8
  }

  function BoardSize(p: Phase): nat {
    match p
    case PreFlop => 0
    case Flop => 3
    case Turn => 4
    case _ => 5
  }

  /** Where board card `k` stands among the dealt cards, counting from the first burned one. */
  function BoardPlace(k: nat): nat {
    if k < 3 then k + 1 else 2 * k - 1
  }

  /** Where hole card `a` of player `i` stands among the dealt cards. */
  function HolePlace(n: nat, i: nat, a: nat): nat {
    if a == 0 then i else n + i
  }

  /** Everything dealt so far is a hole card, a board card or a burned card, in dealing order. */
  ghost predicate CardsLaid(t: Table, d: DeckState) {
    var n := |t.seats|;
    && n <= 10
    && Whole(d)
    && |d.dealt| == 2 * n + DealtBy(t.phase)
    && (forall k :: 0 <= k < n ==> t.seats[k].hole == [d.dealt[k], d.dealt[n + k]])
    && |t.board| == BoardSize(t.phase)
    && (forall k :: 0 <= k < |t.board| ==> t.board[k] == d.dealt[2 * n + BoardPlace(k)])
  }

  // ----- payout -----

  /** The hand of every player still in it, from hole and board cards together. */
  ghost function Evaluations(t: Table): map<PlayerId, Evaluation>
    requires CanEvaluate(t)
  {
    map id | id in InHand(t.seats) && SeatOf(t.seats, id) < |t.seats| ::
      BestHand(t.seats[SeatOf(t.seats, id)].hole + t.board)
  }

  ghost predicate CanEvaluate(t: Table) {
    forall k :: 0 <= k < |t.seats| ==> |t.seats[k].hole + t.board| >= 5
  }

  /** The players still in the hand with a positive hand value, in table order. */
  function Contenders(seats: seq<Seat>, evaluations: map<PlayerId, Evaluation>): seq<Contender> {
    if seats == [] then []
    else
      var id := seats[0].id;
      var strength := if id in evaluations then evaluations[id].value else 0;
      (if !seats[0].folded && strength > 0 then [Contender(id, strength)] else [])
      + Contenders(seats[1..], evaluations)
  }

  /** Winnings go to players whose hand was evaluated. */
  function SeatsPaid(seats: seq<Seat>, shares: seq<Share>, evaluations: map<PlayerId, Evaluation>): (r: seq<Seat>)
    ensures |r| == |seats|
    ensures forall k :: 0 <= k < |seats|
              ==> r[k] == seats[k].(stack := seats[k].stack
                                            + if seats[k].id in evaluations then Won(shares, seats[k].id) else 0)
  {
    seq(|seats|, k requires 0 <= k < |seats| =>
      seats[k].(stack := seats[k].stack + if seats[k].id in evaluations then Won(shares, seats[k].id) else 0))
  }

  /** The even split used when no hand was evaluated: one portion per unfolded seat, odd chips first. */
  function SeatsSplit(seats: seq<Seat>, amount: nat, count: nat, position: nat): seq<Seat>
    requires count > 0
  {
    if seats == [] then []
    else if seats[0].folded then [seats[0]] + SeatsSplit(seats[1..], amount, count, position)
    else [seats[0].(stack := seats[0].stack + Portion(amount, count, position))]
         + SeatsSplit(seats[1..], amount, count, position + 1)
  }

  function Credited(seats: seq<Seat>, id: PlayerId, amount: nat): seq<Seat> {
    var i := SeatOf(seats, id);
    if i == |seats| then seats else seats[i := seats[i].(stack := seats[i].stack + amount)]
  }

  function Busted(seats: seq<Seat>): seq<PlayerId> {
    if seats == [] then []
    else (if seats[0].stack == 0 then [seats[0].id] else []) + Busted(seats[1..])
  }

  /** The next phase begins, the engine stops, and players without chips leave. */
  function CompleteHand(e: Engine): Engine {
    var advanced := AdvancePhase(e.table);
    e.(table := RemovePlayers(advanced, Busted(advanced.seats)), running := false)
  }

  function DetermineWinners(e: Engine): (r: (Engine, Outcome))
    ensures r.1 == Accepted ==> !r.0.running
  {
    var t := e.table;
    var ids := InHand(t.seats);
    if |ids| == 1 then
      (CompleteHand(e.(table := t.(seats := Credited(t.seats, ids[0], PotTotal(t.ledger.pots))))), Accepted)
    else
      var contenders := Contenders(t.seats, e.evaluations);
      if contenders == [] && ids != [] then
        (CompleteHand(e.(table := t.(seats := SeatsSplit(t.seats, PotTotal(t.ledger.pots), |ids|, 0)))), Accepted)
      else
        match Simulate(t.ledger.pots, contenders, Some(ids))
        case NoRecipient(pot) => (e, Failed(PotWithoutRecipient(pot)))
        case Distributed(shares) =>
          (CompleteHand(e.(table := t.(seats := SeatsPaid(t.seats, shares, e.evaluations)))), Accepted)
  }

  // ----- streets -----

  function DealStreet(e: Engine, count: nat): Engine
    requires count + 1 <= |e.deck.cards|
  {
    e.(table := AdvancePhase(e.table.(board := e.table.board + Top(e.deck.cards, count + 1)[1..])),
       deck := Deal(e.deck, count + 1))
  }

  /** The next phase begins and everyone still in the hand is evaluated. */
  ghost function Shown(e: Engine): Engine
    requires CanEvaluate(AdvancePhase(e.table))
  {
    var t := AdvancePhase(e.table);
    e.(table := t, evaluations := e.evaluations + Evaluations(t))
  }

  ghost function StartShowdown(e: Engine): (r: (Engine, Outcome))
    requires CanEvaluate(AdvancePhase(e.table))
    ensures r.1 == Accepted ==> !r.0.running
  {
    DetermineWinners(Shown(e))
  }

  function StreetsLeft(p: Phase): nat {
    match p
    case PreFlop => 4
    case Flop => 3
    case Turn => 2
    case River => 1
    case _ => 0
  }

  function StreetCards(p: Phase): nat {
    if p == PreFlop then 3 else 1
  }

  /** One pass of the loop that closes a betting round: side pots, and the next street or the showdown. */
  ghost function CloseStreet(e: Engine): (Engine, Outcome)
    requires CardsLaid(e.table, e.deck)
  {
    var settled := e.(table := CreateSidePots(e.table));
    if StreetsLeft(e.table.phase) >= 2 then
      StreetsAreDealt(settled);
      (DealStreet(settled, StreetCards(e.table.phase)), Accepted)
    else if e.table.phase == River then
      RiverCanBeEvaluated(settled);
      StartShowdown(settled)
    else (settled, Failed(InvalidPhase))
  }

  /** Closing a betting round, and every later street as long as nobody can act. */
  ghost function CompleteRound(e: Engine): (Engine, Outcome)
    requires e.running ==> CardsLaid(e.table, e.deck)
    decreases StreetsLeft(e.table.phase)
  {
    if !e.running then (e, Accepted)
    else
      var (next, outcome) := CloseStreet(e);
      CloseStreetAdvances(e);
      if outcome == Accepted && next.running && !SomeoneCanAct(next.table.seats) && !HandOver(next.table)
      then CompleteRound(next)
      else (next, outcome)
  }

  /** Whatever the call ended with, the engine is left as the first component says. */
  ghost function ProcessAction(e: Engine, a: Action): (Engine, Outcome)
    requires e.running ==> CardsLaid(e.table, e.deck) && e.table.ledger.pots != []
  {
    if !e.running then (e, NotRunning)
    else
      match Validate(e.table, a)
      case Some(error) => (e, Rejected(error))
      case None =>
        ActKeepsCards(e.table, e.deck, a);
        var acted := e.(table := Act(e.table, a));
        var (closed, outcome) := if RoundComplete(acted.table.seats) then CompleteRound(acted) else (acted, Accepted);
        if outcome == Accepted && closed.running && HandOver(closed.table) then DetermineWinners(closed)
        else (closed, outcome)
  }

  // ----- a new table -----

  /** The engine as constructed: nobody seated, a fresh deck, no hand. */
  function NewEngine(smallBlind: nat, bigBlind: nat): Engine {
    Engine(Table([], [], EMPTY_LEDGER, PreFlop, None, 0, 0, 0, smallBlind, bigBlind, bigBlind, bigBlind),
           DeckState(FullDeck(), []), map[], false)
  }

  /** Seating a player, which is refused while a hand runs and when the table does not take the player. */
  function SeatPlayer(e: Engine, id: PlayerId, chips: nat): Engine {
    if e.running then e else e.(table := AddPlayer(e.table, NewSeat(id, chips)))
  }

  // ----- a new hand -----

  function SeatsDealt(seats: seq<Seat>, hands: seq<seq<Card>>): (r: seq<Seat>)
    requires |seats| == |hands|
    ensures |r| == |seats|
    ensures forall k :: 0 <= k < |seats| ==> r[k] == seats[k].(hole := hands[k])
  {
    seq(|seats|, k requires 0 <= k < |seats| => seats[k].(hole := hands[k]))
  }

  /** The table with the hand begun and the hole cards dealt, before the blinds. */
  function Seated(t: Table, order: seq<Card>): Table
    requires |t.seats| <= 10 && |order| == 52
  {
    var begun := StartNewHand(t);
    begun.(seats := SeatsDealt(begun.seats, HoleCards(order, |t.seats|)))
  }

  /** `startHand` once the deck has been shuffled into `order`. */
  function StartHand(e: Engine, order: seq<Card>): Engine
    requires 2 <= |e.table.seats| <= 10 && |order| == 52
  {
    var n := |e.table.seats|;
    BlindSeatsDiffer(MoveDealer(e.table.(seats := SeatsForNewHand(e.table.seats))));
    var posted := PostBlinds(Seated(e.table, order));
    Engine(if n > 2 then SetNext(posted) else posted, Deal(DeckState(order, []), 2 * n), map[], true)
  }

  lemma BlindSeatsDiffer(t: Table)
    requires |t.seats| >= 2 && t.dealer < |t.seats|
    ensures var a := AssignPositions(t);
            a.smallBlindSeat < |t.seats| && a.bigBlindSeat < |t.seats| && a.smallBlindSeat != a.bigBlindSeat
  {
    SmallRemainder(t.dealer, |t.seats|);
    SmallRemainder(t.dealer + 1, |t.seats|);
    SmallRemainder(t.dealer + 2, |t.seats|);
  }

  // ----- the cards stay laid out -----

  lemma SetNextKeepsCards(t: Table, d: DeckState)
    requires CardsLaid(t, d)
    ensures CardsLaid(SetNext(t), d)
  {
    hide SomeoneCanAct, FirstAble, StartPosition;
  }

  lemma SameHoleCards(t: Table, seats: seq<Seat>, d: DeckState)
    requires CardsLaid(t, d) && |seats| == |t.seats|
    requires forall k :: 0 <= k < |seats| ==> seats[k].hole == t.seats[k].hole
    ensures CardsLaid(t.(seats := seats), d)
  {
  }

  lemma ActKeepsCards(t: Table, d: DeckState, a: Action)
    requires CardsLaid(t, d) && t.ledger.pots != [] && Validate(t, a) == None
    ensures CardsLaid(Act(t, a), d)
  {
    hide CardsLaid, SetNext, HighestBet, AddBet;
    var after := Applied(t, a);
    SameHoleCards(t, after.seats, d);
    assert CardsLaid(after, d) by {
      CardsIgnoreLedger(t.(seats := after.seats), after, d);
    }
    SetNextKeepsCards(after, d);
  }

  lemma CardsIgnoreLedger(t: Table, after: Table, d: DeckState)
    requires CardsLaid(t, d)
    requires after.seats == t.seats && after.board == t.board && after.phase == t.phase
    ensures CardsLaid(after, d)
  {
  }

  lemma BoardGrows(board: seq<Card>, before: seq<Card>, drawn: seq<Card>, n: nat, p: Phase)
    requires StreetsLeft(p) >= 2 && |drawn| == StreetCards(p) + 1
    requires |before| == 2 * n + DealtBy(p) && |board| == BoardSize(p)
    requires forall k :: 0 <= k < |board| ==> board[k] == before[2 * n + BoardPlace(k)]
    ensures var after, all := board + drawn[1..], before + drawn;
            && |all| == 2 * n + DealtBy(NextPhase(p)) && |after| == BoardSize(NextPhase(p))
            && forall k :: 0 <= k < |after| ==> after[k] == all[2 * n + BoardPlace(k)]
  {
    var after, all := board + drawn[1..], before + drawn;
    assert forall k :: 0 <= k < |board| ==> after[k] == all[2 * n + BoardPlace(k)];
    assert forall k :: |board| <= k < |after| ==> after[k] == drawn[1 + k - |board|];
  }

  /** With at most ten players there are always cards left for the next street, and it goes where it should. */
  lemma StreetsAreDealt(e: Engine)
    requires CardsLaid(e.table, e.deck) && StreetsLeft(e.table.phase) >= 2
    ensures StreetCards(e.table.phase) + 1 <= |e.deck.cards|
    ensures var next := DealStreet(e, StreetCards(e.table.phase));
            && CardsLaid(next.table, next.deck)
            && next.table.phase == NextPhase(e.table.phase)
  {
    hide SetNext, Whole;
    WholeHasNoDuplicates(e.deck);
    var count := StreetCards(e.table.phase);
    DealKeepsWhole(e.deck, count + 1);
    var dealt := Top(e.deck.cards, count + 1);
    var board := e.table.board + dealt[1..];
    var phase := NextPhase(e.table.phase);
    var t := e.table.(board := board, seats := SeatsForNewRound(e.table.seats), phase := phase, toAct := None,
                      minimumRaise := e.table.bigBlind, lastRaise := e.table.bigBlind);
    assert CardsLaid(t, Deal(e.deck, count + 1)) by {
      hide StreetsLeft, StreetCards, DealtBy, BoardSize, BoardPlace;
      BoardGrows(e.table.board, e.deck.dealt, dealt, |t.seats|, e.table.phase);
    }
    SetNextKeepsCards(t, Deal(e.deck, count + 1));
    SetNextChangesTurnOnly(t);
    assert DealStreet(e, count).table == SetNext(t);
  }

  /** A hand that goes on after a street has closed is on a later street, its cards laid out. */
  lemma CloseStreetAdvances(e: Engine)
    requires CardsLaid(e.table, e.deck)
    ensures var (next, outcome) := CloseStreet(e);
            outcome == Accepted && next.running ==>
              && CardsLaid(next.table, next.deck) && next.table.phase == NextPhase(e.table.phase)
              && StreetsLeft(e.table.phase) >= 2
  {
    hide CardsLaid, DealStreet, StartShowdown, SidePots;
    var settled := e.(table := CreateSidePots(e.table));
    CardsIgnoreLedger(e.table, settled.table, e.deck);
    if StreetsLeft(e.table.phase) >= 2 {
      StreetsAreDealt(settled);
    } else if e.table.phase == River {
      RiverCanBeEvaluated(settled);
    }
  }

  /** At the river every player holds seven cards to make a hand from. */
  lemma SevenCards(t: Table, d: DeckState, k: nat)
    requires CardsLaid(t, d) && StreetsLeft(t.phase) <= 1 && k < |t.seats|
    ensures |t.seats[k].hole + t.board| == 7
  {
    TwoHoleCards(t, d, k);
  }

  lemma TwoHoleCards(t: Table, d: DeckState, k: nat)
    requires CardsLaid(t, d) && k < |t.seats|
    ensures |t.seats[k].hole| == 2
    ensures t.seats[k].hole[0] == d.dealt[k] && t.seats[k].hole[1] == d.dealt[|t.seats| + k]
  {
    assert t.seats[k].hole == [d.dealt[k], d.dealt[|t.seats| + k]];
  }

  lemma RiverCanBeEvaluated(e: Engine)
    requires CardsLaid(e.table, e.deck) && e.table.phase == River
    ensures CanEvaluate(AdvancePhase(e.table))
    ensures CardsLaid(AdvancePhase(e.table), e.deck)
  {
    hide SetNext, Whole;
    var t := e.table.(seats := SeatsForNewRound(e.table.seats), phase := Showdown, toAct := None,
                      minimumRaise := e.table.bigBlind, lastRaise := e.table.bigBlind);
    assert CardsLaid(t, e.deck);
    SetNextKeepsCards(t, e.deck);
    SetNextChangesTurnOnly(t);
    assert AdvancePhase(e.table) == SetNext(t);
    forall k | 0 <= k < |AdvancePhase(e.table).seats|
      ensures |AdvancePhase(e.table).seats[k].hole + AdvancePhase(e.table).board| >= 5
    {
      SevenCards(AdvancePhase(e.table), e.deck, k);
    }
  }

  /** No card is in two places: hole cards and board cards are pairwise distinct. */
  lemma NoCardTwice(t: Table, d: DeckState)
    requires CardsLaid(t, d)
    ensures forall k :: 0 <= k < |t.seats| ==> |t.seats[k].hole| == 2
    ensures forall i, j, a, b :: 0 <= i < |t.seats| && 0 <= j < |t.seats| && 0 <= a < 2 && 0 <= b < 2 && (i != j || a != b)
              ==> t.seats[i].hole[a] != t.seats[j].hole[b]
    ensures forall i, a, k :: 0 <= i < |t.seats| && 0 <= a < 2 && 0 <= k < |t.board|
              ==> t.seats[i].hole[a] != t.board[k]
    ensures NoDuplicates(t.board)
  {
    WholeHasNoDuplicates(d);
    DealtHasNoDuplicates(d);
    var n := |t.seats|;
    forall k | 0 <= k < n
      ensures |t.seats[k].hole| == 2
    {
      TwoHoleCards(t, d, k);
    }
    forall i, a | 0 <= i < n && 0 <= a < 2
      ensures t.seats[i].hole[a] == d.dealt[HolePlace(n, i, a)]
    {
      TwoHoleCards(t, d, i);
    }
    forall i, j, a, b | 0 <= i < n && 0 <= j < n && 0 <= a < 2 && 0 <= b < 2 && (i != j || a != b)
      ensures t.seats[i].hole[a] != t.seats[j].hole[b]
    {
      assert HolePlace(n, i, a) != HolePlace(n, j, b);
    }
  }

  lemma DealtHasNoDuplicates(d: DeckState)
    requires NoDuplicates(d.cards + d.dealt)
    ensures NoDuplicates(d.dealt)
  {
    var all := d.cards + d.dealt;
    forall i, j | 0 <= i < j < |d.dealt|
      ensures d.dealt[i] != d.dealt[j]
    {
      assert all[|d.cards| + i] == d.dealt[i] && all[|d.cards| + j] == d.dealt[j];
    }
  }
}
