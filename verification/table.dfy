/** The table as a value: what each operation of `GameState` and `ActionValidator` makes of it. */
module Tables {
  import opened Util
  import opened Cards
  import opened Players
  import opened PotLayers

  datatype Phase = PreFlop | Flop | Turn | River | Showdown | HandComplete

  datatype Ledger = Ledger(pots: seq<Pot>, contributions: map<PlayerId, nat>)

  datatype Table = Table(
    seats: seq<Seat>,
    board: seq<Card>,
    ledger: Ledger,
    phase: Phase,
    toAct: Option<PlayerId>,
    dealer: nat,
    smallBlindSeat: nat,
    bigBlindSeat: nat,
    smallBlind: nat,
    bigBlind: nat,
    minimumRaise: nat,
    lastRaise: int)

  datatype ActionKind = Fold | Check | Call | Bet | Raise | AllIn

  datatype Action = Action(kind: ActionKind, player: PlayerId, amount: Option<int>)

  datatype ActionError =
    | PlayerNotFound | NotYourTurn | CannotAct
    | BetToCall
    | NothingToCall | WrongCallAmount | CannotAffordCall
    | AlreadyBet | BettingOccurred | BetAmountRequired | BetTooSmall | CannotAffordBet
    | NothingToRaise | RaiseAmountRequired | RaiseTooSmall | RaiseTooLarge
    | NoChips | AlreadyAllIn

  // ----- queries -----

  /** The highest bet of the players still in the hand, in this betting round. */
  function HighestBet(seats: seq<Seat>): (b: nat)
    ensures forall k :: 0 <= k < |seats| && !seats[k].folded ==> seats[k].bet <= b
    ensures b == 0 || exists k :: 0 <= k < |seats| && !seats[k].folded && seats[k].bet == b
  {
    if seats == [] then 0
    else
      var rest := HighestBet(seats[1..]);
      assert forall k :: 1 <= k < |seats| ==> seats[k] == seats[1..][k - 1];
      if !seats[0].folded && seats[0].bet > rest then seats[0].bet else rest
  }

  lemma HighestIs(seats: seq<Seat>, b: nat)
    requires forall k :: 0 <= k < |seats| && !seats[k].folded ==> seats[k].bet <= b
    requires b == 0 || exists k :: 0 <= k < |seats| && !seats[k].folded && seats[k].bet == b
    ensures HighestBet(seats) == b
  {
  }

  predicate SomeoneCanAct(seats: seq<Seat>) {
    exists k :: 0 <= k < |seats| && seats[k].CanAct()
  }

  predicate SomeoneHasBet(seats: seq<Seat>) {
    exists k :: 0 <= k < |seats| && seats[k].bet > 0
  }

  /** The ids of the players still in the hand. */
  function InHand(seats: seq<Seat>): seq<PlayerId> {
    PaidUp(seats, 0)
  }

  predicate RoundComplete(seats: seq<Seat>) {
    && (forall i, j :: 0 <= i < |seats| && 0 <= j < |seats| && seats[i].CanAct() && seats[j].CanAct()
                       ==> seats[i].bet == seats[j].bet)
    && forall i :: 0 <= i < |seats| && seats[i].CanAct() ==> seats[i].acted
  }

  predicate HandOver(t: Table) {
    |InHand(t.seats)| <= 1 || t.phase == HandComplete
  }

  // ----- turn order -----

  /** The seat `i` places clockwise of `start`. */
  function Clockwise(n: nat, start: nat, i: nat): (k: nat)
    requires start < n && i <= n
    ensures k < n
  {
    if start + i < n then start + i else start + i - n
  }

  function FirstAble(seats: seq<Seat>, start: nat, i: nat): Option<nat>
    requires start < |seats| && i <= |seats|
    decreases |seats| - i
  {
    if i == |seats| then None
    else if seats[Clockwise(|seats|, start, i)].CanAct() then Some(Clockwise(|seats|, start, i))
    else FirstAble(seats, start, i + 1)
  }

  function StartPosition(t: Table): (start: nat)
    requires t.seats != []
    ensures start < |t.seats|
  {
    var n := |t.seats|;
    match t.toAct
    case Some(id) =>
      var i := SeatOf(t.seats, id);
      if i == n then 0 else (i + 1) % n
    case None =>
      if t.phase == PreFlop then
        if SomeoneHasBet(t.seats) && n == 2 then t.smallBlindSeat % n else (t.bigBlindSeat + 1) % n
      else
        if n == 2 then t.dealer % n else (t.dealer + 1) % n
  }

  function SetNext(t: Table): Table {
    if !SomeoneCanAct(t.seats) then t.(toAct := None)
    else
      match FirstAble(t.seats, StartPosition(t), 0)
      case Some(k) =>
        FirstAbleInRange(t.seats, StartPosition(t), 0);
        t.(toAct := Some(t.seats[k].id))
      case None => t.(toAct := None)
  }

  lemma SetNextChangesTurnOnly(t: Table)
    ensures SetNext(t) == t.(toAct := SetNext(t).toAct)
  {
  }

  lemma {:induction false} FirstAbleInRange(seats: seq<Seat>, start: nat, i: nat)
    requires start < |seats| && i <= |seats|
    ensures FirstAble(seats, start, i).Some? ==> FirstAble(seats, start, i).value < |seats|
    decreases |seats| - i
  {
    if i < |seats| {
      FirstAbleInRange(seats, start, i + 1);
    }
  }

  // ----- money -----

  function AddBet(l: Ledger, id: PlayerId, amount: nat): Ledger
    requires l.pots != []
  {
    var before := if id in l.contributions then l.contributions[id] else 0;
    var main := l.pots[0];
    Ledger(l.pots[0 := main.(amount := main.amount + amount,
                             eligible := if id in main.eligible then main.eligible else main.eligible + [id])],
           l.contributions[id := before + amount])
  }

  /** Everyone else who can still act gets to respond to a bet or raise. */
  function Reopened(seats: seq<Seat>, i: nat): (r: seq<Seat>)
    ensures |r| == |seats|
    ensures forall k :: 0 <= k < |seats|
              ==> r[k] == if k != i && seats[k].CanAct() then seats[k].(acted := false) else seats[k]
  {
    seq(|seats|, k requires 0 <= k < |seats| =>
      if k != i && seats[k].CanAct() then seats[k].(acted := false) else seats[k])
  }

  function SeatsAfterBet(seats: seq<Seat>, i: nat, amount: nat): seq<Seat>
    requires i < |seats|
  {
    var after := AfterBet(seats[i], amount);
    var updated := seats[i := after];
    if after.bet > HighestBet(seats) then Reopened(updated, i) else updated
  }

  function ProcessBet(t: Table, i: nat, amount: nat): Table
    requires i < |t.seats| && t.ledger.pots != []
  {
    var before := HighestBet(t.seats);
    var after := AfterBet(t.seats[i], amount);
    var lift := after.bet - before;
    t.(seats := SeatsAfterBet(t.seats, i, amount),
       ledger := AddBet(t.ledger, t.seats[i].id, amount),
       minimumRaise := if after.total > before then Max(t.minimumRaise, lift) else t.minimumRaise,
       lastRaise := if after.total > before then lift else t.lastRaise)
  }

  function ProcessBlind(t: Table, i: nat, amount: nat): Table
    requires i < |t.seats| && t.ledger.pots != []
  {
    t.(seats := t.seats[i := AfterBlind(t.seats[i], amount)],
       ledger := AddBet(t.ledger, t.seats[i].id, amount))
  }

  function PostBlinds(t: Table): Table
    requires t.smallBlindSeat < |t.seats| && t.bigBlindSeat < |t.seats| && t.ledger.pots != []
  {
    var small := ProcessBlind(t, t.smallBlindSeat, Min(t.smallBlind, t.seats[t.smallBlindSeat].stack));
    var big := ProcessBlind(small, t.bigBlindSeat, Min(t.bigBlind, small.seats[t.bigBlindSeat].stack));
    SetNext(big)
  }

  function CreateSidePots(t: Table): Table {
    t.(ledger := t.ledger.(pots := SidePots(t.ledger.pots, t.seats)))
  }

  // ----- hands and streets -----

  function SeatsForNewRound(seats: seq<Seat>): (r: seq<Seat>)
    ensures |r| == |seats|
    ensures forall k :: 0 <= k < |seats| ==> r[k] == ForNewRound(seats[k])
  {
    seq(|seats|, k requires 0 <= k < |seats| => ForNewRound(seats[k]))
  }

  function SeatsForNewHand(seats: seq<Seat>): (r: seq<Seat>)
    ensures |r| == |seats|
    ensures forall k :: 0 <= k < |seats| ==> r[k] == ForNewHand(seats[k])
  {
    seq(|seats|, k requires 0 <= k < |seats| => ForNewHand(seats[k]))
  }

  function NextPhase(p: Phase): Phase {
    match p
    case PreFlop => Flop
    case Flop => Turn
    case Turn => River
    case River => Showdown
    case Showdown => HandComplete
    case HandComplete => HandComplete
  }

  /** `advancePhase`; from `HandComplete` it throws after resetting the players. */
  function AdvancePhase(t: Table): Table {
    var reset := t.(seats := SeatsForNewRound(t.seats), toAct := None);
    if t.phase == HandComplete then reset
    else SetNext(reset.(phase := NextPhase(t.phase), minimumRaise := t.bigBlind, lastRaise := t.bigBlind))
  }

  /** The blind seats for a dealer button; with fewer than two players nothing changes. */
  function AssignPositions(t: Table): Table {
    var n := |t.seats|;
    if n < 2 then t
    else if n == 2 then t.(smallBlindSeat := t.dealer % n, bigBlindSeat := (t.dealer + 1) % n)
    else t.(smallBlindSeat := (t.dealer + 1) % n, bigBlindSeat := (t.dealer + 2) % n)
  }

  function MoveDealer(t: Table): Table {
    if t.seats == [] then t else t.(dealer := (t.dealer + 1) % |t.seats|)
  }

  /** How seating a player ends. */
  datatype Seating = Welcome | TableFull | AlreadySeated | NoChipsToPlay

  function SeatingFor(t: Table, s: Seat): Seating {
    if |t.seats| >= 10 then TableFull
    else if SeatOf(t.seats, s.id) < |t.seats| then AlreadySeated
    else if s.stack == 0 then NoChipsToPlay
    else Welcome
  }

  function AddPlayer(t: Table, s: Seat): Table {
    if SeatingFor(t, s) == Welcome then AssignPositions(t.(seats := t.seats + [s])) else t
  }

  function RemovePlayer(t: Table, id: PlayerId): Table {
    var i := SeatOf(t.seats, id);
    if i == |t.seats| then t else AssignPositions(t.(seats := t.seats[..i] + t.seats[i + 1..]))
  }

  function RemovePlayers(t: Table, ids: seq<PlayerId>): Table
    decreases ids
  {
    if ids == [] then t else RemovePlayers(RemovePlayer(t, ids[0]), ids[1..])
  }

  const EMPTY_LEDGER: Ledger := Ledger([Pot(0, [], true)], map[])

  function StartNewHand(t: Table): Table {
    AssignPositions(MoveDealer(
      t.(seats := SeatsForNewHand(t.seats), board := [], ledger := EMPTY_LEDGER,
         phase := PreFlop, minimumRaise := t.bigBlind)))
  }

  // ----- actions -----

  /** Why `validateAction` throws, or `None` when it accepts. */
  function Validate(t: Table, a: Action): Option<ActionError> {
    var i := SeatOf(t.seats, a.player);
    if i == |t.seats| then Some(PlayerNotFound)
    else if t.toAct != Some(a.player) then Some(NotYourTurn)
    else if !t.seats[i].CanAct() then Some(CannotAct)
    else ValidateKind(t, t.seats[i], a)
  }

  function ValidateKind(t: Table, s: Seat, a: Action): Option<ActionError> {
    var highest := HighestBet(t.seats);
    match a.kind
    case Fold => None
    case Check =>
      if highest - s.bet > 0 then Some(BetToCall) else None
    case Call =>
      if highest - s.bet == 0 then Some(NothingToCall)
      else if a.amount.Some? && a.amount.value != highest - s.bet then Some(WrongCallAmount)
      else if highest - s.bet > s.stack then Some(CannotAffordCall)
      else None
    case Bet =>
      if highest > 0 then Some(AlreadyBet)
      else if SomeoneHasBet(t.seats) then Some(BettingOccurred)
      else if a.amount.None? then Some(BetAmountRequired)
      else if a.amount.value < t.bigBlind then Some(BetTooSmall)
      else if a.amount.value > s.stack then Some(CannotAffordBet)
      else None
    case Raise =>
      if highest == 0 then Some(NothingToRaise)
      else if a.amount.None? then Some(RaiseAmountRequired)
      else if a.amount.value < highest + t.minimumRaise && a.amount.value < s.stack + s.bet then Some(RaiseTooSmall)
      else if a.amount.value > s.stack + s.bet then Some(RaiseTooLarge)
      else None
    case AllIn =>
      if s.stack == 0 then Some(NoChips)
      else if s.allIn then Some(AlreadyAllIn)
      else None
  }

  /** The chips an accepted call, bet, raise or all-in moves. */
  function Wager(t: Table, s: Seat, a: Action): int {
    match a.kind
    case Fold => 0
    case Check => 0
    case Call => Max(0, HighestBet(t.seats) - s.bet)
    case Bet => if a.amount.Some? then a.amount.value else 0
    case Raise => if a.amount.Some? then a.amount.value - s.bet else 0
    case AllIn => s.stack
  }

  /** What validation guarantees about the chips moved: affordable, and a match or a raise unless it is all-in. */
  lemma AcceptedWager(t: Table, i: nat, a: Action)
    requires i < |t.seats| && t.seats[i].CanAct() && ValidateKind(t, t.seats[i], a) == None
    requires a.kind != Fold && a.kind != Check
    ensures var s, w := t.seats[i], Wager(t, t.seats[i], a);
            && 0 <= w <= s.stack
            && (w == s.stack || s.bet + w >= HighestBet(t.seats))
  {
    assert t.seats[i].bet <= HighestBet(t.seats);
  }

  /** The table after the action and before the turn passes. */
  function Applied(t: Table, a: Action): Table
    requires t.ledger.pots != []
    requires Validate(t, a) == None
  {
    var i := SeatOf(t.seats, a.player);
    match a.kind
    case Fold => t.(seats := t.seats[i := AfterFold(t.seats[i])])
    case Check => t.(seats := t.seats[i := AfterCheck(t.seats[i])])
    case _ =>
      AcceptedWager(t, i, a);
      ProcessBet(t, i, Wager(t, t.seats[i], a))
  }

  function Act(t: Table, a: Action): Table
    requires t.ledger.pots != []
    requires Validate(t, a) == None
  {
    SetNext(Applied(t, a))
  }

  // ----- offers -----

  /** An offered action; `low` and `high` bound its amount where it takes one. */
  datatype Offer = Offer(kind: ActionKind, low: Option<int>, high: Option<int>)

  function CallAmount(t: Table, s: Seat): int {
    Max(0, HighestBet(t.seats) - s.bet)
  }

  predicate MayRaise(t: Table, s: Seat) {
    var highest := HighestBet(t.seats);
    || (highest > s.bet && t.lastRaise >= t.minimumRaise)
    || (highest == s.bet && s.bet == t.bigBlind && !s.acted)
  }

  /** A bet when nothing has been bet, a raise when something has. */
  function LiftOffers(t: Table, s: Seat): seq<Offer> {
    var highest := HighestBet(t.seats);
    var maxRaise := s.stack + s.bet;
    if highest == 0 && !SomeoneHasBet(t.seats) then
      if s.stack >= t.bigBlind then [Offer(Bet, Some(t.bigBlind), Some(s.stack))] else []
    else if highest > 0 && MayRaise(t, s) && maxRaise > highest then
      [Offer(Raise, Some(Min(highest + t.minimumRaise, maxRaise)), Some(maxRaise))]
    else []
  }

  function OffersFor(t: Table, s: Seat): seq<Offer> {
    var toCall := CallAmount(t, s);
    (if toCall > 0 then [Offer(Fold, None, None)] else [])
    + (if toCall == 0 then [Offer(Check, None, None)]
       else if toCall <= s.stack then [Offer(Call, Some(toCall), Some(toCall))] else [])
    + LiftOffers(t, s)
    + (if s.stack > 0 && !s.allIn then [Offer(AllIn, Some(s.stack), Some(s.stack))] else [])
  }

  function PossibleActions(t: Table, id: PlayerId): seq<Offer> {
    var i := SeatOf(t.seats, id);
    if i == |t.seats| || !t.seats[i].CanAct() then [] else OffersFor(t, t.seats[i])
  }

  /** The action taken for a player who runs out of time. */
  function ForceAction(t: Table, id: PlayerId): Option<Action> {
    var i := SeatOf(t.seats, id);
    if i == |t.seats| then None
    else if CallAmount(t, t.seats[i]) == 0 then Some(Action(Check, id, None))
    else Some(Action(Fold, id, None))
  }

  /** An action the offer covers: the same kind, with an amount in range where one is given or needed. */
  predicate Covers(o: Offer, a: Action) {
    && o.kind == a.kind
    && match (o.low, o.high)
       case (Some(low), Some(high)) =>
         (match a.amount
          case Some(v) => low <= v <= high
          case None => a.kind == Call || a.kind == AllIn)
       case _ => true
  }

  predicate IsOffered(t: Table, a: Action) {
    exists k :: 0 <= k < |PossibleActions(t, a.player)| && Covers(PossibleActions(t, a.player)[k], a)
  }
}
