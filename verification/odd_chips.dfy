/** Which share of a pot is a chip larger: the order in which each routine hands out what does not divide. */
module OddChips {
  import opened Util
  import opened Players
  import opened PotLayers
  import opened PotShares
  import opened Tables
  import opened HandRanking
  import opened HandEvaluator
  import opened Hands
  import opened Payouts
  import opened Showdowns
  import opened Winnings

  // ----- the shares of one pot -----

  function OfPot(shares: seq<Share>, pot: nat): seq<Share> {
    if shares == [] then []
    else (if shares[0].pot == pot then [shares[0]] else []) + OfPot(shares[1..], pot)
  }

  lemma {:induction false} OfPotIff(shares: seq<Share>, pot: nat, s: Share)
    ensures s in OfPot(shares, pot) <==> s in shares && s.pot == pot
  {
    if shares != [] {
      OfPotIff(shares[1..], pot, s);
      assert shares == [shares[0]] + shares[1..];
    }
  }

  lemma OfPotCons(s: Share, rest: seq<Share>, pot: nat)
    ensures OfPot([s] + rest, pot) == if s.pot == pot then [s] + OfPot(rest, pot) else OfPot(rest, pot)
  {
    assert ([s] + rest)[1..] == rest;
  }

  lemma {:induction false} OfPotConcat(xs: seq<Share>, ys: seq<Share>, pot: nat)
    ensures OfPot(xs + ys, pot) == OfPot(xs, pot) + OfPot(ys, pot)
  {
    if xs == [] {
      assert xs + ys == ys;
    } else {
      hide OfPot;
      assert xs + ys == [xs[0]] + (xs[1..] + ys) && xs == [xs[0]] + xs[1..];
      OfPotConcat(xs[1..], ys, pot);
      OfPotCons(xs[0], xs[1..] + ys, pot);
      OfPotCons(xs[0], xs[1..], pot);
    }
  }

  lemma {:induction false} OfOnePot(shares: seq<Share>, own: nat, pot: nat)
    requires forall k :: 0 <= k < |shares| ==> shares[k].pot == own
    ensures OfPot(shares, pot) == if pot == own then shares else []
  {
    if shares != [] {
      OfOnePot(shares[1..], own, pot);
    }
  }

  lemma PieceOfPot(amount: nat, ids: seq<PlayerId>, own: nat, pot: nat)
    ensures OfPot(Piece(amount, ids, own), pot) == if pot == own then Piece(amount, ids, own) else []
  {
    OfOnePot(Piece(amount, ids, own), own, pot);
  }

  /** What the shares of one more pot, put after the others, add. */
  lemma PieceAfter(shares: seq<Share>, amount: nat, ids: seq<PlayerId>, own: nat, pot: nat)
    ensures pot != own ==> OfPot(shares + Piece(amount, ids, own), pot) == OfPot(shares, pot)
    ensures pot == own && OfPot(shares, pot) == []
        ==> OfPot(shares + Piece(amount, ids, own), pot) == Piece(amount, ids, own)
  {
    hide OfPot, Piece;
    PieceOfPot(amount, ids, own, pot);
    OfPotConcat(shares, Piece(amount, ids, own), pot);
  }

  lemma {:induction false} SimulateOfPot(pots: seq<Pot>, contenders: seq<Contender>, remaining: Option<seq<PlayerId>>,
                                         n: nat, pot: nat)
    requires n <= |pots|
    ensures SimulateFrom(pots, contenders, remaining, n).Distributed?
        ==> OfPot(SimulateFrom(pots, contenders, remaining, n).shares, pot)
            == if pot < n then Piece(pots[pot].amount, Recipients(pots[pot], contenders, remaining), pot) else []
  {
    hide Recipients, Piece;
    if n > 0 && SimulateFrom(pots, contenders, remaining, n).Distributed? {
      hide OfPot;
      var rest := SimulateFrom(pots, contenders, remaining, n - 1);
      var ids := Recipients(pots[n - 1], contenders, remaining);
      SimulateOfPot(pots, contenders, remaining, n - 1, pot);
      PieceOfPot(pots[n - 1].amount, ids, n - 1, pot);
      OfPotConcat(Piece(pots[n - 1].amount, ids, n - 1), rest.shares, pot);
    }
  }

  lemma {:induction false} DistributeOfPot(pots: seq<Pot>, winners: seq<PotWinner>, n: nat, pot: nat)
    requires n <= |pots|
    ensures OfPot(DistributeUpTo(pots, winners, n), pot)
         == if pot < n then Piece(pots[pot].amount, Ids(WinnersOf(winners, pot)), pot) else []
  {
    hide WinnersOf, Ids, Piece;
    if n > 0 {
      hide OfPot;
      DistributeOfPot(pots, winners, n - 1, pot);
      PieceAfter(DistributeUpTo(pots, winners, n - 1), pots[n - 1].amount, Ids(WinnersOf(winners, n - 1)), n - 1, pot);
    }
  }

  lemma {:induction false} ByPositionOfPot(pots: seq<Pot>, winners: seq<PotWinner>, n: nat, pot: nat)
    requires n <= |pots|
    ensures OfPot(DistributeByPositionUpTo(pots, winners, n), pot)
         == if pot < n then Piece(pots[pot].amount, Ids(ByPosition(WinnersOf(winners, pot))), pot) else []
  {
    hide WinnersOf, ByPosition, Ids, Piece;
    if n > 0 {
      hide OfPot;
      ByPositionOfPot(pots, winners, n - 1, pot);
      PieceAfter(DistributeByPositionUpTo(pots, winners, n - 1), pots[n - 1].amount,
                 Ids(ByPosition(WinnersOf(winners, n - 1))), n - 1, pot);
    }
  }

  ghost predicate AllOfPot(shares: seq<Share>, pot: nat) {
    forall i :: 0 <= i < |shares| ==> shares[i].pot == pot
  }

  ghost predicate Descend(shares: seq<Share>, n: nat) {
    && (forall i :: 0 <= i < |shares| ==> shares[i].pot < n)
    && forall i, j :: 0 <= i < j < |shares| ==> shares[i].pot >= shares[j].pot
  }

  ghost predicate Ascend(shares: seq<Share>, n: nat) {
    && (forall i :: 0 <= i < |shares| ==> shares[i].pot < n)
    && forall i, j :: 0 <= i < j < |shares| ==> shares[i].pot <= shares[j].pot
  }

  lemma OneMorePot(mine: seq<Share>, rest: seq<Share>, n: nat)
    requires AllOfPot(mine, n)
    ensures Descend(rest, n) ==> Descend(mine + rest, n + 1)
    ensures Ascend(rest, n) ==> Ascend(rest + mine, n + 1)
  {
  }

  /** `simulateDistribution` lists the shares of the last pot first. */
  lemma {:induction false} LastPotFirst(pots: seq<Pot>, contenders: seq<Contender>, remaining: Option<seq<PlayerId>>, n: nat)
    requires n <= |pots|
    ensures SimulateFrom(pots, contenders, remaining, n).Distributed?
        ==> Descend(SimulateFrom(pots, contenders, remaining, n).shares, n)
  {
    hide Recipients, Descend, Ascend;
    if n == 0 {
      NoShares();
    } else if SimulateFrom(pots, contenders, remaining, n).Distributed? {
      LastPotFirst(pots, contenders, remaining, n - 1);
      OneMorePot(Piece(pots[n - 1].amount, Recipients(pots[n - 1], contenders, remaining), n - 1),
                 SimulateFrom(pots, contenders, remaining, n - 1).shares, n - 1);
    }
  }

  lemma NoShares()
    ensures Descend([], 0) && Ascend([], 0)
  {
  }

  /** The other two routines list the shares of the first pot first. */
  lemma {:induction false} FirstPotFirst(pots: seq<Pot>, winners: seq<PotWinner>, n: nat)
    requires n <= |pots|
    ensures Ascend(DistributeUpTo(pots, winners, n), n) && Ascend(DistributeByPositionUpTo(pots, winners, n), n)
  {
    hide WinnersOf, ByPosition, Ids, Descend, Ascend;
    if n == 0 {
      NoShares();
    } else {
      FirstPotFirst(pots, winners, n - 1);
      OneMorePot(Piece(pots[n - 1].amount, Ids(WinnersOf(winners, n - 1)), n - 1),
                 DistributeUpTo(pots, winners, n - 1), n - 1);
      OneMorePot(Piece(pots[n - 1].amount, Ids(ByPosition(WinnersOf(winners, n - 1))), n - 1),
                 DistributeByPositionUpTo(pots, winners, n - 1), n - 1);
    }
  }

  // ----- how many are larger -----

  ghost function Below(n: nat): (r: set<nat>)
    ensures |r| == n && forall k: nat :: k in r <==> k < n
  {
    if n == 0 then {} else Below(n - 1) + {n - 1}
  }

  ghost function Larger(of: seq<Share>, base: nat): set<nat> {
    set k | 0 <= k < |of| && of[k].amount > base
  }

  /** The shares of one pot: even portions, as many of them a chip larger as chips are left over. */
  ghost predicate EvenButOdd(of: seq<Share>, amount: nat) {
    of != [] ==>
      && (forall k :: 0 <= k < |of| ==> amount / |of| <= of[k].amount <= amount / |of| + 1)
      && |Larger(of, amount / |of|)| == amount % |of|
  }

  lemma PieceIsEven(amount: nat, ids: seq<PlayerId>, pot: nat)
    ensures EvenButOdd(Piece(amount, ids, pot), amount)
  {
    var of := Piece(amount, ids, pot);
    if ids != [] {
      assert Larger(of, amount / |of|) == Below(amount % |ids|);
    }
  }

  // ----- order -----

  ghost predicate Precedes(order: seq<PlayerId>, p: PlayerId, q: PlayerId) {
    exists i, j :: 0 <= i < j < |order| && order[i] == p && order[j] == q
  }

  /** The players come in the given order. */
  ghost predicate Follows(order: seq<PlayerId>, ids: seq<PlayerId>) {
    && (forall x :: 0 <= x < |ids| ==> ids[x] in order)
    && forall x, y :: 0 <= x < y < |ids| ==> Precedes(order, ids[x], ids[y])
  }

  lemma PrecedesOneWay(order: seq<PlayerId>, i: nat, j: nat)
    requires NoDuplicates(order) && i < |order| && j < |order|
    ensures Precedes(order, order[i], order[j]) <==> i < j
  {
  }

  lemma LaterPrecedes(x: PlayerId, order: seq<PlayerId>, p: PlayerId, q: PlayerId)
    ensures Precedes(order, p, q) ==> Precedes([x] + order, p, q)
    ensures q in order ==> Precedes([x] + order, x, q)
  {
    var longer := [x] + order;
    if i, j :| 0 <= i < j < |order| && order[i] == p && order[j] == q {
      assert longer[i + 1] == p && longer[j + 1] == q;
    }
    if j :| 0 <= j < |order| && order[j] == q {
      assert longer[0] == x && longer[j + 1] == q;
    }
  }

  lemma LaterOrder(x: PlayerId, order: seq<PlayerId>, ids: seq<PlayerId>)
    requires Follows(order, ids)
    ensures Follows([x] + order, ids) && Follows([x] + order, [x] + ids)
  {
    hide Precedes;
    var longer := [x] + order;
    forall p, q
      ensures Precedes(order, p, q) ==> Precedes(longer, p, q)
      ensures q in order ==> Precedes(longer, x, q)
    {
      LaterPrecedes(x, order, p, q);
    }
    assert x in longer && forall q :: q in order ==> q in longer;
  }

  lemma FollowsCons(order: seq<PlayerId>, x: PlayerId, ids: seq<PlayerId>)
    requires Follows(order, ids) && x in order && forall y :: y in ids ==> Precedes(order, x, y)
    ensures Follows(order, [x] + ids)
  {
  }

  lemma {:induction false} AmongFollows(order: seq<PlayerId>, ids: seq<PlayerId>, allowed: seq<PlayerId>)
    requires Follows(order, ids)
    ensures Follows(order, Among(ids, allowed))
  {
    hide Precedes;
    if ids != [] {
      var rest := ids[1..];
      assert forall k :: 0 <= k < |rest| ==> rest[k] == ids[k + 1];
      AmongFollows(order, rest, allowed);
      AmongIff(rest, allowed);
      FollowsCons(order, ids[0], Among(rest, allowed));
    }
  }

  function PlayersOf(contenders: seq<Contender>): (ids: seq<PlayerId>)
    ensures |ids| == |contenders|
    ensures forall k :: 0 <= k < |ids| ==> ids[k] == contenders[k].player
  {
    seq(|contenders|, k requires 0 <= k < |contenders| => contenders[k].player)
  }

  lemma {:induction false} OfStrengthFollows(order: seq<PlayerId>, contenders: seq<Contender>, strength: nat)
    requires Follows(order, PlayersOf(contenders))
    ensures Follows(order, OfStrength(contenders, strength))
  {
    hide Precedes;
    if contenders != [] {
      var rest := contenders[1..];
      assert forall k :: 0 <= k < |rest| ==> rest[k] == contenders[k + 1];
      assert forall k :: 0 <= k < |rest| ==> PlayersOf(rest)[k] == PlayersOf(contenders)[k + 1];
      OfStrengthFollows(order, rest, strength);
      OfStrengthIff(rest, strength);
      forall y | y in OfStrength(rest, strength)
        ensures Precedes(order, contenders[0].player, y)
      {
        var k :| 0 <= k < |rest| && rest[k] == Contender(y, strength);
        assert PlayersOf(contenders)[k + 1] == y && PlayersOf(contenders)[0] == contenders[0].player;
      }
      assert PlayersOf(contenders)[0] in order;
      FollowsCons(order, contenders[0].player, OfStrength(rest, strength));
    }
  }

  function SeatIds(seats: seq<Seat>): (ids: seq<PlayerId>)
    ensures |ids| == |seats|
    ensures forall k :: 0 <= k < |ids| ==> ids[k] == seats[k].id
  {
    seq(|seats|, k requires 0 <= k < |seats| => seats[k].id)
  }

  lemma {:induction false} ContendersFollow(seats: seq<Seat>, evaluations: map<PlayerId, Evaluation>)
    ensures Follows(SeatIds(seats), PlayersOf(Contenders(seats, evaluations)))
  {
    hide Follows;
    if seats == [] {
      NothingFollows(SeatIds(seats), PlayersOf(Contenders(seats, evaluations)));
    } else {
      var rest := seats[1..];
      var later := Contenders(rest, evaluations);
      ContendersFollow(rest, evaluations);
      LaterOrder(seats[0].id, SeatIds(rest), PlayersOf(later));
      assert SeatIds(seats) == [seats[0].id] + SeatIds(rest);
      if Contenders(seats, evaluations) != later {
        assert PlayersOf(Contenders(seats, evaluations)) == [seats[0].id] + PlayersOf(later);
      }
    }
  }

  lemma NothingFollows(order: seq<PlayerId>, ids: seq<PlayerId>)
    requires ids == []
    ensures Follows(order, ids)
  {
  }

  lemma {:induction false} PaidUpFollows(seats: seq<Seat>, level: nat)
    ensures Follows(SeatIds(seats), PaidUp(seats, level))
  {
    hide Follows;
    if seats == [] {
      NothingFollows(SeatIds(seats), PaidUp(seats, level));
    } else {
      PaidUpFollows(seats[1..], level);
      LaterOrder(seats[0].id, SeatIds(seats[1..]), PaidUp(seats[1..], level));
      assert SeatIds(seats) == [seats[0].id] + SeatIds(seats[1..]);
      assert [] + PaidUp(seats[1..], level) == PaidUp(seats[1..], level);
    }
  }

  /** Whoever is paid from a pot is paid in the order of the contenders and of the pot's own list. */
  lemma RecipientsFollow(order: seq<PlayerId>, pot: Pot, contenders: seq<Contender>, remaining: Option<seq<PlayerId>>)
    requires Follows(order, PlayersOf(contenders)) && Follows(order, pot.eligible)
    ensures Follows(order, Recipients(pot, contenders, remaining))
  {
    hide Follows, OfStrength, Among;
    NothingFollows(order, []);
    match TopStrength(contenders, pot.eligible) {
      case None =>
      case Some(top) =>
        OfStrengthFollows(order, contenders, top);
        AmongFollows(order, OfStrength(contenders, top), pot.eligible);
    }
    if remaining.Some? {
      AmongFollows(order, pot.eligible, remaining.value);
    }
  }

  /** Of two shares along a list in order, the one to the player who comes first is not the smaller. */
  lemma FirstIsNotLess(order: seq<PlayerId>, amount: nat, ids: seq<PlayerId>, pot: nat, a: Share, b: Share)
    requires NoDuplicates(order) && Follows(order, ids)
    requires a in Piece(amount, ids, pot) && b in Piece(amount, ids, pot) && Precedes(order, a.player, b.player)
    ensures a.amount >= b.amount
  {
    var of := Piece(amount, ids, pot);
    var x :| 0 <= x < |of| && of[x] == a;
    var y :| 0 <= y < |of| && of[y] == b;
    if y < x {
      assert Precedes(order, ids[y], ids[x]);
    }
  }

  // ----- simulateDistribution -----

  /** Listed by seat, whoever sits first is not paid less, and only the chips left over make shares differ. */
  ghost predicate OddChipsBySeat(seats: seq<Seat>, of: seq<Share>, amount: nat) {
    && EvenButOdd(of, amount)
    && (forall i, j :: 0 <= i < j < |of| ==> SeatOf(seats, of[i].player) < SeatOf(seats, of[j].player))
    && forall a, b :: a in of && b in of && SeatOf(seats, a.player) < SeatOf(seats, b.player) ==> a.amount >= b.amount
  }

  lemma SeatsPrecede(seats: seq<Seat>, p: PlayerId, q: PlayerId)
    requires SeatOf(seats, p) < SeatOf(seats, q) < |seats|
    ensures Precedes(SeatIds(seats), p, q)
  {
    assert SeatIds(seats)[SeatOf(seats, p)] == p && SeatIds(seats)[SeatOf(seats, q)] == q;
  }

  lemma PrecedingSeats(seats: seq<Seat>, p: PlayerId, q: PlayerId)
    requires UniqueIds(seats) && Precedes(SeatIds(seats), p, q)
    ensures SeatOf(seats, p) < SeatOf(seats, q)
  {
    var i, j :| 0 <= i < j < |seats| && SeatIds(seats)[i] == p && SeatIds(seats)[j] == q;
    SeatOfUnique(seats, i);
    SeatOfUnique(seats, j);
  }

  lemma PieceIsListed(amount: nat, ids: seq<PlayerId>, pot: nat)
    ensures |Piece(amount, ids, pot)| == |ids|
    ensures forall k :: 0 <= k < |ids| ==> Piece(amount, ids, pot)[k].player == ids[k]
  {
  }

  lemma PieceBySeat(seats: seq<Seat>, amount: nat, ids: seq<PlayerId>, pot: nat)
    requires UniqueIds(seats) && Follows(SeatIds(seats), ids)
    ensures OddChipsBySeat(seats, Piece(amount, ids, pot), amount)
  {
    hide Piece, EvenButOdd, Precedes;
    var of := Piece(amount, ids, pot);
    PieceIsEven(amount, ids, pot);
    PieceIsListed(amount, ids, pot);
    forall i, j | 0 <= i < j < |of|
      ensures SeatOf(seats, of[i].player) < SeatOf(seats, of[j].player)
    {
      PrecedingSeats(seats, ids[i], ids[j]);
    }
    forall a, b | a in of && b in of && SeatOf(seats, a.player) < SeatOf(seats, b.player)
      ensures a.amount >= b.amount
    {
      PieceIsSeated(seats, amount, ids, pot, b);
      SeatsPrecede(seats, a.player, b.player);
      FirstIsNotLess(SeatIds(seats), amount, ids, pot, a, b);
    }
  }

  lemma SeatedIn(seats: seq<Seat>, id: PlayerId)
    requires id in SeatIds(seats)
    ensures SeatOf(seats, id) < |seats|
  {
    var k :| 0 <= k < |seats| && SeatIds(seats)[k] == id;
    assert seats[k].id == id;
  }

  lemma {:induction false} PieceIsSeated(seats: seq<Seat>, amount: nat, ids: seq<PlayerId>, pot: nat, s: Share)
    requires Follows(SeatIds(seats), ids) && s in Piece(amount, ids, pot)
    ensures SeatOf(seats, s.player) < |seats|
  {
    var of := Piece(amount, ids, pot);
    var x :| 0 <= x < |of| && of[x] == s;
    assert ids[x] == s.player;
    SeatedIn(seats, s.player);
  }

  /** The players paid from a pot at the end of the river. */
  ghost function RiverRecipients(e: Engine, pots: seq<Pot>, p: nat): seq<PlayerId>
    requires Closing(e, pots) && p < |e.table.ledger.pots|
  {
    RiverCanBeEvaluated(e);
    var t := Shown(e).table;
    Recipients(e.table.ledger.pots[p], Contenders(t.seats, Shown(e).evaluations), Some(InHand(t.seats)))
  }

  /** They come in seat order. */
  lemma RiverRecipientsFollow(e: Engine, pots: seq<Pot>, p: nat)
    requires Closing(e, pots) && p < |e.table.ledger.pots|
    ensures Follows(SeatIds(e.table.seats), RiverRecipients(e, pots, p))
  {
    hide CardsLaid, AdvancePhase, SidePots, Follows, Contenders, Recipients, CanEvaluate, Evaluations;
    RiverCanBeEvaluated(e);
    AdvanceSeats(e.table);
    ContendersFollow(Shown(e).table.seats, Shown(e).evaluations);
    assert SeatIds(Shown(e).table.seats) == SeatIds(e.table.seats);
    PotsFollow(pots, e.table.seats, p);
    RecipientsFollow(SeatIds(e.table.seats), e.table.ledger.pots[p],
                     Contenders(Shown(e).table.seats, Shown(e).evaluations), Some(InHand(Shown(e).table.seats)));
  }

  lemma RiverPiece(e: Engine, pots: seq<Pot>, shares: seq<Share>, p: nat)
    requires Closing(e, pots) && p < |e.table.ledger.pots| && RiverShares(e, pots) == Distributed(shares)
    ensures OfPot(shares, p) == Piece(e.table.ledger.pots[p].amount, RiverRecipients(e, pots, p), p)
  {
    hide CardsLaid, AdvancePhase, SidePots, Contenders, Recipients, CanEvaluate, Evaluations, SimulateFrom, Piece, OfPot;
    RiverCanBeEvaluated(e);
    AdvanceSeats(e.table);
    var t := Shown(e).table;
    var contenders := Contenders(t.seats, Shown(e).evaluations);
    SimulateOfPot(t.ledger.pots, contenders, Some(InHand(t.seats)), |t.ledger.pots|, p);
  }

  lemma PotsFollow(pots: seq<Pot>, seats: seq<Seat>, k: nat)
    requires k < |SidePots(pots, seats)|
    ensures Follows(SeatIds(seats), SidePots(pots, seats)[k].eligible)
  {
    hide Follows, PaidUp;
    if |PaidUp(seats, 0)| >= 2 && |LevelSet(seats)| >= 2 {
      var levels := Sorted(LevelSet(seats));
      assert levels[0] in LevelSet(seats);
      LayersLength(seats, levels, 0, true);
      LayerAt(seats, levels, 0, true, k);
      PaidUpFollows(seats, levels[k]);
    } else {
      PaidUpFollows(seats, 0);
    }
  }

  /**
   * At the end of the river the shares of a pot differ only by the chips left over, one each, and those go to whoever
   * is seated first.
   */
  lemma RiverOddChips(e: Engine, pots: seq<Pot>, shares: seq<Share>, p: nat)
    requires Closing(e, pots) && p < |e.table.ledger.pots|
    ensures RiverShares(e, pots) == Distributed(shares)
        ==> OddChipsBySeat(e.table.seats, OfPot(shares, p), e.table.ledger.pots[p].amount)
  {
    hide CardsLaid, SidePots, Follows, OddChipsBySeat, Piece, OfPot, RiverShares, RiverRecipients;
    if RiverShares(e, pots) == Distributed(shares) {
      RiverRecipientsFollow(e, pots, p);
      RiverPiece(e, pots, shares, p);
      PieceBySeat(e.table.seats, e.table.ledger.pots[p].amount, RiverRecipients(e, pots, p), p);
    }
  }

  // ----- what exactly one winner is paid -----

  /** Where in `order` the listed players stand. */
  ghost function Places(order: seq<PlayerId>, ids: seq<PlayerId>): set<nat> {
    set k | 0 <= k < |order| && order[k] in ids
  }

  lemma FollowersDistinct(order: seq<PlayerId>, ids: seq<PlayerId>)
    requires NoDuplicates(order) && Follows(order, ids)
    ensures NoDuplicates(ids)
  {
  }

  lemma PlacesCons(order: seq<PlayerId>, k: nat, rest: seq<PlayerId>)
    requires NoDuplicates(order) && k < |order| && order[k] !in rest
    ensures Places(order, [order[k]] + rest) == Places(order, rest) + {k} && k !in Places(order, rest)
  {
    forall j | 0 <= j < |order|
      ensures order[j] in [order[k]] + rest <==> order[j] in rest || j == k
    {
    }
  }

  lemma {:induction false} PlacesCount(order: seq<PlayerId>, ids: seq<PlayerId>)
    requires NoDuplicates(order) && NoDuplicates(ids) && forall x :: 0 <= x < |ids| ==> ids[x] in order
    ensures |Places(order, ids)| == |ids|
  {
    hide Places;
    if ids == [] {
      NoPlaces(order, ids);
    } else {
      var rest := ids[1..];
      assert forall k :: 0 <= k < |rest| ==> rest[k] == ids[k + 1];
      PlacesCount(order, rest);
      assert ids[0] in order && ids[0] !in rest;
      var k :| 0 <= k < |order| && order[k] == ids[0];
      assert ids == [ids[0]] + rest;
      PlacesCons(order, k, rest);
    }
  }

  lemma NoPlaces(order: seq<PlayerId>, ids: seq<PlayerId>)
    requires ids == []
    ensures Places(order, ids) == {}
  {
  }

  /** A player's place in the list is the number of listed players who come earlier in the order. */
  lemma PlaceInList(order: seq<PlayerId>, ids: seq<PlayerId>, x: nat, w: nat)
    requires NoDuplicates(order) && Follows(order, ids)
    requires x < |ids| && w < |order| && ids[x] == order[w]
    ensures |set k | 0 <= k < w && order[k] in ids| == x
  {
    FollowersDistinct(order, ids);
    var earlier := ids[..x];
    PlacesCount(order, earlier);
    forall k | 0 <= k < |order|
      ensures order[k] in earlier <==> k < w && order[k] in ids
    {
      if order[k] in ids {
        var y :| 0 <= y < |ids| && ids[y] == order[k];
        if y < x {
          assert earlier[y] == order[k];
        }
        PrecedesOneWay(order, k, w);
        PrecedesOneWay(order, w, k);
      }
    }
    assert (set k | 0 <= k < w && order[k] in ids) == Places(order, earlier);
  }

  lemma {:induction false} ReceivedOfPot(shares: seq<Share>, id: PlayerId, pot: nat)
    ensures Received(shares, id, pot) == Received(OfPot(shares, pot), id, pot)
  {
    if shares != [] {
      ReceivedOfPot(shares[1..], id, pot);
      if shares[0].pot == pot {
        assert OfPot(shares, pot)[1..] == OfPot(shares[1..], pot);
      } else {
        assert OfPot(shares, pot) == OfPot(shares[1..], pot);
      }
    }
  }

  lemma {:induction false} ReceivedNothing(shares: seq<Share>, id: PlayerId, pot: nat)
    requires forall k :: 0 <= k < |shares| ==> shares[k].player != id
    ensures Received(shares, id, pot) == 0
  {
    if shares != [] {
      ReceivedNothing(shares[1..], id, pot);
    }
  }

  lemma {:induction false} ReceivedOnce(shares: seq<Share>, x: nat, pot: nat)
    requires x < |shares| && forall k :: 0 <= k < |shares| ==> shares[k].pot == pot
    requires forall k :: 0 <= k < |shares| && k != x ==> shares[k].player != shares[x].player
    ensures Received(shares, shares[x].player, pot) == shares[x].amount
  {
    var rest := shares[1..];
    assert forall k :: 0 <= k < |rest| ==> rest[k] == shares[k + 1];
    if x == 0 {
      ReceivedNothing(rest, shares[0].player, pot);
    } else {
      ReceivedOnce(rest, x - 1, pot);
    }
  }

  /** The seats before `w` that hold the best cards for the pot. */
  ghost function WinnersBefore(t: Table, pot: Pot, w: nat): set<nat>
    requires w <= |t.seats| && CanEvaluate(t)
  {
    set k | 0 <= k < w && BestCards(t, pot, k)
  }

  /** An even part of the pot, and a chip more while there are chips left over. */
  function EvenPart(amount: nat, winners: nat, before: nat): nat {
    if winners == 0 then 0 else amount / winners + if before < amount % winners then 1 else 0
  }

  /** What seat `w` is due from the pot: nothing, or a part with one chip left over for each of the first winners. */
  ghost function WinnersPortion(t: Table, pot: Pot, w: nat): nat
    requires w < |t.seats| && CanEvaluate(t)
  {
    if BestCards(t, pot, w)
    then EvenPart(pot.amount, |WinnersBefore(t, pot, |t.seats|)|, |WinnersBefore(t, pot, w)|)
    else 0
  }

  /** One player's part of a split, when the players are listed in order. */
  lemma PieceReceived(order: seq<PlayerId>, amount: nat, ids: seq<PlayerId>, pot: nat, w: nat)
    requires NoDuplicates(order) && Follows(order, ids) && w < |order|
    ensures Received(Piece(amount, ids, pot), order[w], pot)
         == if order[w] in ids then Portion(amount, |ids|, |set k | 0 <= k < w && order[k] in ids|) else 0
  {
    hide Received, Portion, Follows, Precedes;
    var of := Piece(amount, ids, pot);
    assert |of| == |ids| && forall k :: 0 <= k < |of| ==> of[k].player == ids[k] && of[k].pot == pot;
    if order[w] in ids {
      var x :| 0 <= x < |ids| && ids[x] == order[w];
      FollowersDistinct(order, ids);
      PlaceInList(order, ids, x, w);
      ReceivedOnce(of, x, pot);
    } else {
      ReceivedNothing(of, order[w], pot);
    }
  }

  /** The players paid from a pot at the end of the river are those who hold the best cards for it. */
  lemma RiverRecipientIff(e: Engine, pots: seq<Pot>, p: nat, w: nat)
    requires Closing(e, pots) && p < |e.table.ledger.pots| && w < |e.table.seats|
    ensures CanEvaluate(e.table)
    ensures e.table.seats[w].id in RiverRecipients(e, pots, p) <==> BestCards(e.table, e.table.ledger.pots[p], w)
  {
    hide CardsLaid, AdvancePhase, SidePots, PaidUp, BestHand, AllEvaluated, CanEvaluate, HoldsBest, BestCards, Recipients,
         Contenders;
    RiverIsEvaluated(e, pots);
    RiverCanBeEvaluated(e);
    AdvanceSeats(e.table);
    ShownSeats(e);
    SameInHand(e.table.seats, Shown(e).table.seats);
    ShownIsEvaluated(e);
    SidePotsEligible(pots, e.table.seats);
    RecipientIffBest(Shown(e), e.table.ledger.pots[p], w);
    BestIsBestCards(e, e.table.ledger.pots[p], w);
  }

  lemma WinnersPiece(t: Table, pot: Pot, ids: seq<PlayerId>, p: nat, w: nat)
    requires CanEvaluate(t) && UniqueIds(t.seats) && Follows(SeatIds(t.seats), ids) && w < |t.seats|
    requires forall k :: 0 <= k < |t.seats| ==> (t.seats[k].id in ids <==> BestCards(t, pot, k))
    ensures Received(Piece(pot.amount, ids, p), t.seats[w].id, p) == WinnersPortion(t, pot, w)
  {
    hide CanEvaluate, BestCards, Received, Piece, Precedes;
    var order := SeatIds(t.seats);
    PieceReceived(order, pot.amount, ids, p, w);
    FollowersDistinct(order, ids);
    PlacesCount(order, ids);
    assert Places(order, ids) == WinnersBefore(t, pot, |t.seats|);
    assert (set k | 0 <= k < w && order[k] in ids) == WinnersBefore(t, pot, w);
  }

  /**
   * At the end of the river a pot is split evenly among those who hold the best cards for it, and the chips left over
   * go one each to the first of them by seat.
   */
  lemma RiverPortion(e: Engine, pots: seq<Pot>, shares: seq<Share>, p: nat, w: nat)
    requires Closing(e, pots) && p < |e.table.ledger.pots| && w < |e.table.seats|
    ensures CanEvaluate(e.table)
    ensures RiverShares(e, pots) == Distributed(shares)
        ==> Received(shares, e.table.seats[w].id, p) == WinnersPortion(e.table, e.table.ledger.pots[p], w)
  {
    hide CardsLaid, SidePots, Follows, CanEvaluate, Piece, OfPot, BestCards, Received, WinnersPortion, RiverShares,
         RiverRecipients;
    RiverRecipientIff(e, pots, p, w);
    if RiverShares(e, pots) == Distributed(shares) {
      RiverRecipientsFollow(e, pots, p);
      RiverPiece(e, pots, shares, p);
      ReceivedOfPot(shares, e.table.seats[w].id, p);
      var ids := RiverRecipients(e, pots, p);
      forall k | 0 <= k < |e.table.seats|
        ensures e.table.seats[k].id in ids <==> BestCards(e.table, e.table.ledger.pots[p], k)
      {
        RiverRecipientIff(e, pots, p, k);
      }
      WinnersPiece(e.table, e.table.ledger.pots[p], ids, p, w);
    }
  }

  /** What a player gets from each of the first `n` pots. */
  function ReceivedEach(shares: seq<Share>, id: PlayerId, n: nat): (xs: seq<nat>)
    ensures |xs| == n && forall p :: 0 <= p < n ==> xs[p] == Received(shares, id, p)
  {
    seq(n, p requires 0 <= p < n => Received(shares, id, p))
  }

  lemma {:induction false} WonIsReceived(shares: seq<Share>, id: PlayerId, n: nat)
    requires forall k :: 0 <= k < |shares| ==> shares[k].pot < n
    ensures Won(shares, id) == Sum(ReceivedEach(shares, id, n))
  {
    if shares == [] {
      SumOfZeros(ReceivedEach(shares, id, n));
    } else {
      var rest := shares[1..];
      assert forall k :: 0 <= k < |rest| ==> rest[k] == shares[k + 1];
      WonIsReceived(rest, id, n);
      var before, q := ReceivedEach(rest, id, n), shares[0].pot;
      var now := before[q] + if shares[0].player == id then shares[0].amount else 0;
      assert ReceivedEach(shares, id, n) == before[q := now];
      SumUpdate(before, q, now);
    }
  }

  /** What seat `w` is due from every pot, by the cards alone. */
  ghost function WinnersPortions(t: Table, w: nat): (xs: seq<nat>)
    requires w < |t.seats| && CanEvaluate(t)
    ensures |xs| == |t.ledger.pots|
    ensures forall p :: 0 <= p < |xs| ==> xs[p] == WinnersPortion(t, t.ledger.pots[p], w)
  {
    seq(|t.ledger.pots|, p requires 0 <= p < |t.ledger.pots| => WinnersPortion(t, t.ledger.pots[p], w))
  }

  /** All a player wins at the end of the river is a portion of each pot they hold the best cards for. */
  lemma WonByCards(e: Engine, pots: seq<Pot>, shares: seq<Share>, w: nat)
    requires Closing(e, pots) && w < |e.table.seats|
    ensures CanEvaluate(e.table)
    ensures RiverShares(e, pots) == Distributed(shares)
        ==> Won(shares, e.table.seats[w].id) == Sum(WinnersPortions(e.table, w))
  {
    hide CardsLaid, SidePots, CanEvaluate, BestCards, Received, WinnersPortion, RiverShares, Won, Closing;
    ClosingCards(e, pots);
    if RiverShares(e, pots) == Distributed(shares) {
      var id, n := e.table.seats[w].id, |e.table.ledger.pots|;
      RiverSharesInRange(e, pots, shares);
      WonIsReceived(shares, id, n);
      forall p | 0 <= p < n
        ensures Received(shares, id, p) == WinnersPortion(e.table, e.table.ledger.pots[p], w)
      {
        RiverPortion(e, pots, shares, p, w);
      }
      assert ReceivedEach(shares, id, n) == WinnersPortions(e.table, w);
    }
  }

  lemma ClosingCards(e: Engine, pots: seq<Pot>)
    requires Closing(e, pots)
    ensures CanEvaluate(e.table)
  {
    hide CardsLaid, SidePots, CanEvaluate;
    RiverIsEvaluated(e, pots);
  }

  lemma RiverSharesInRange(e: Engine, pots: seq<Pot>, shares: seq<Share>)
    requires Closing(e, pots) && RiverShares(e, pots) == Distributed(shares)
    ensures forall k :: 0 <= k < |shares| ==> shares[k].pot < |e.table.ledger.pots|
  {
    hide CardsLaid, AdvancePhase, SidePots, Contenders, Recipients, CanEvaluate, Evaluations, SimulateFrom;
    RiverCanBeEvaluated(e);
    AdvanceSeats(e.table);
    var t := Shown(e).table;
    forall k | 0 <= k < |shares|
      ensures shares[k].pot < |t.ledger.pots|
    {
      SimulatePaysRecipients(t.ledger.pots, Contenders(t.seats, Shown(e).evaluations), Some(InHand(t.seats)),
                             |t.ledger.pots|, shares[k]);
    }
  }

  // ----- distributePots and distributePotsWithPosition -----

  lemma {:induction false} WinnersOfIff(winners: seq<PotWinner>, pot: nat, w: PotWinner)
    ensures w in WinnersOf(winners, pot) <==> w in winners && pot in w.potIndices
  {
    if winners != [] {
      WinnersOfIff(winners[1..], pot, w);
      assert winners == [winners[0]] + winners[1..];
    }
  }

  lemma {:induction false} WinnersFollow(winners: seq<PotWinner>, pot: nat)
    ensures Follows(Ids(winners), Ids(WinnersOf(winners, pot)))
  {
    hide Follows;
    if winners == [] {
      NothingFollows(Ids(winners), Ids(WinnersOf(winners, pot)));
    } else {
      var rest := winners[1..];
      var later := WinnersOf(rest, pot);
      WinnersFollow(rest, pot);
      LaterOrder(winners[0].player, Ids(rest), Ids(later));
      assert Ids(winners) == [winners[0].player] + Ids(rest);
      if pot in winners[0].potIndices {
        assert Ids(WinnersOf(winners, pot)) == [winners[0].player] + Ids(later);
      } else {
        assert WinnersOf(winners, pot) == later;
      }
    }
  }

  /** Whoever is listed first is not paid less, and only the chips left over make the shares of a pot differ. */
  lemma ListingOddChips(pots: seq<Pot>, winners: seq<PotWinner>, pot: nat, i: nat, j: nat)
    requires NoDuplicates(Ids(winners)) && pot < |pots| && i < j < |winners|
    ensures var of := OfPot(DistributeUpTo(pots, winners, |pots|), pot);
            && EvenButOdd(of, pots[pot].amount)
            && forall a, b :: a in of && b in of && a.player == winners[i].player && b.player == winners[j].player
                 ==> a.amount >= b.amount
  {
    hide Piece, EvenButOdd, Follows, Precedes, WinnersOf, OfPot, DistributeUpTo;
    var order, ids := Ids(winners), Ids(WinnersOf(winners, pot));
    DistributeOfPot(pots, winners, |pots|, pot);
    PieceIsEven(pots[pot].amount, ids, pot);
    WinnersFollow(winners, pot);
    PrecedesOneWay(order, i, j);
    var of := Piece(pots[pot].amount, ids, pot);
    forall a, b | a in of && b in of && a.player == winners[i].player && b.player == winners[j].player
      ensures a.amount >= b.amount
    {
      FirstIsNotLess(order, pots[pot].amount, ids, pot, a, b);
    }
  }

  /** The later position, or the earlier place in the order at the same position. */
  ghost predicate PaidFirst(order: seq<PlayerId>, v: PotWinner, w: PotWinner) {
    v.position > w.position || (v.position == w.position && Precedes(order, v.player, w.player))
  }

  ghost predicate Stable(order: seq<PlayerId>, sorted: seq<PotWinner>) {
    forall x, y :: 0 <= x < y < |sorted| ==> PaidFirst(order, sorted[x], sorted[y])
  }

  lemma StableCons(order: seq<PlayerId>, v: PotWinner, sorted: seq<PotWinner>)
    requires Stable(order, sorted) && forall w :: w in sorted ==> PaidFirst(order, v, w)
    ensures Stable(order, [v] + sorted)
  {
  }

  lemma {:induction false} InsertStable(order: seq<PlayerId>, w: PotWinner, sorted: seq<PotWinner>)
    requires Stable(order, sorted) && forall v :: v in sorted ==> Precedes(order, w.player, v.player)
    ensures Stable(order, InsertByPosition(w, sorted))
  {
    hide Precedes;
    if sorted == [] || w.position >= sorted[0].position {
      forall v | v in sorted
        ensures PaidFirst(order, w, v)
      {
        var x :| 0 <= x < |sorted| && sorted[x] == v;
        assert x > 0 ==> PaidFirst(order, sorted[0], sorted[x]);
      }
      StableCons(order, w, sorted);
    } else {
      var rest := sorted[1..];
      assert forall k :: 0 <= k < |rest| ==> rest[k] == sorted[k + 1];
      InsertStable(order, w, rest);
      InsertKeepsWinners(w, rest);
      var tail := InsertByPosition(w, rest);
      forall v | v in tail
        ensures PaidFirst(order, sorted[0], v)
      {
        assert v in multiset(tail);
        if v != w {
          var x :| 0 <= x < |rest| && rest[x] == v;
        }
      }
      StableCons(order, sorted[0], tail);
    }
  }

  lemma {:induction false} ByPositionStable(order: seq<PlayerId>, winners: seq<PotWinner>)
    requires Follows(order, Ids(winners))
    ensures Stable(order, ByPosition(winners))
  {
    hide Precedes, Stable;
    if winners == [] {
      NothingIsUnstable(order);
    } else {
      var rest := winners[1..];
      assert forall k :: 0 <= k < |rest| ==> Ids(rest)[k] == Ids(winners)[k + 1];
      ByPositionStable(order, rest);
      ByPositionSorts(rest);
      var sorted := ByPosition(rest);
      forall v | v in sorted
        ensures Precedes(order, winners[0].player, v.player)
      {
        assert v in multiset(sorted);
        var k :| 0 <= k < |rest| && rest[k] == v;
        assert Ids(winners)[k + 1] == v.player && Ids(winners)[0] == winners[0].player;
      }
      InsertStable(order, winners[0], sorted);
    }
  }

  lemma NothingIsUnstable(order: seq<PlayerId>)
    ensures Stable(order, [])
  {
  }

  /** Whoever has the later position is not paid less, nor whoever is listed first of two with the same position. */
  lemma PositionOddChips(pots: seq<Pot>, winners: seq<PotWinner>, pot: nat, i: nat, j: nat)
    requires NoDuplicates(Ids(winners)) && pot < |pots| && i < |winners| && j < |winners|
    requires winners[i].position > winners[j].position || (winners[i].position == winners[j].position && i < j)
    ensures var of := OfPot(DistributeByPositionUpTo(pots, winners, |pots|), pot);
            && EvenButOdd(of, pots[pot].amount)
            && forall a, b :: a in of && b in of && a.player == winners[i].player && b.player == winners[j].player
                 ==> a.amount >= b.amount
  {
    hide Piece, EvenButOdd, Follows, Precedes, WinnersOf, OfPot, DistributeByPositionUpTo, ByPosition, Stable;
    var sorted := ByPosition(WinnersOf(winners, pot));
    ByPositionOfPot(pots, winners, |pots|, pot);
    PieceIsEven(pots[pot].amount, Ids(sorted), pot);
    WinnersFollow(winners, pot);
    ByPositionStable(Ids(winners), WinnersOf(winners, pot));
    var of := Piece(pots[pot].amount, Ids(sorted), pot);
    forall a, b | a in of && b in of && a.player == winners[i].player && b.player == winners[j].player
      ensures a.amount >= b.amount
    {
      SortedFirstIsNotLess(winners, pot, pots[pot].amount, i, j, a, b);
    }
  }

  lemma SortedIsListed(winners: seq<PotWinner>, pot: nat, x: nat, i: nat)
    requires NoDuplicates(Ids(winners)) && i < |winners| && x < |ByPosition(WinnersOf(winners, pot))|
    requires ByPosition(WinnersOf(winners, pot))[x].player == winners[i].player
    ensures ByPosition(WinnersOf(winners, pot))[x] == winners[i]
  {
    hide ByPosition, WinnersOf;
    var sorted := ByPosition(WinnersOf(winners, pot));
    ByPositionSorts(WinnersOf(winners, pot));
    assert sorted[x] in multiset(sorted);
    WinnersOfIff(winners, pot, sorted[x]);
    var k :| 0 <= k < |winners| && winners[k] == sorted[x];
    assert Ids(winners)[k] == Ids(winners)[i];
  }

  lemma SortedFirstIsNotLess(winners: seq<PotWinner>, pot: nat, amount: nat, i: nat, j: nat, a: Share, b: Share)
    requires NoDuplicates(Ids(winners)) && i < |winners| && j < |winners|
    requires winners[i].position > winners[j].position || (winners[i].position == winners[j].position && i < j)
    requires var sorted := ByPosition(WinnersOf(winners, pot));
             && Stable(Ids(winners), sorted)
             && a in Piece(amount, Ids(sorted), pot) && b in Piece(amount, Ids(sorted), pot)
    requires a.player == winners[i].player && b.player == winners[j].player
    ensures a.amount >= b.amount
  {
    hide ByPosition, WinnersOf, Precedes;
    var sorted := ByPosition(WinnersOf(winners, pot));
    var of := Piece(amount, Ids(sorted), pot);
    var x :| 0 <= x < |of| && of[x] == a;
    var y :| 0 <= y < |of| && of[y] == b;
    SortedIsListed(winners, pot, x, i);
    SortedIsListed(winners, pot, y, j);
    PrecedesOneWay(Ids(winners), j, i);
  }
}
