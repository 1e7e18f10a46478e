/** Where the pots go: every payout moves exactly the pots into stacks, and when a showdown cannot pay. */
module Payouts {
  import opened Util
  import opened Players
  import opened PotLayers
  import opened PotShares
  import opened Tables
  import opened HandRanking
  import opened Hands

  // ----- one winner -----

  lemma CreditedSum(seats: seq<Seat>, id: PlayerId, amount: nat)
    requires SeatOf(seats, id) < |seats|
    ensures Sum(Stacks(Credited(seats, id, amount))) == Sum(Stacks(seats)) + amount
  {
    var i := SeatOf(seats, id);
    assert Stacks(Credited(seats, id, amount)) == Stacks(seats)[i := seats[i].stack + amount];
    SumUpdate(Stacks(seats), i, seats[i].stack + amount);
  }

  lemma {:induction false} InHandIsSeated(seats: seq<Seat>)
    ensures forall id :: id in InHand(seats) ==> SeatOf(seats, id) < |seats|
  {
    forall id | id in InHand(seats)
      ensures SeatOf(seats, id) < |seats|
    {
      PaidUpIff(seats, 0, id);
      var s :| s in seats && s.id == id;
      var k :| 0 <= k < |seats| && seats[k] == s;
    }
  }

  // ----- shares into stacks -----

  /** What each seat is credited. */
  function Winnings(seats: seq<Seat>, shares: seq<Share>, evaluations: map<PlayerId, Evaluation>): (xs: seq<nat>)
    ensures |xs| == |seats|
    ensures forall k :: 0 <= k < |seats|
              ==> xs[k] == if seats[k].id in evaluations then Won(shares, seats[k].id) else 0
  {
    seq(|seats|, k requires 0 <= k < |seats| => if seats[k].id in evaluations then Won(shares, seats[k].id) else 0)
  }

  lemma {:induction false} SumPointwise(xs: seq<nat>, ys: seq<nat>, zs: seq<nat>)
    requires |xs| == |ys| == |zs| && forall k :: 0 <= k < |xs| ==> zs[k] == xs[k] + ys[k]
    ensures Sum(zs) == Sum(xs) + Sum(ys)
  {
    if xs != [] {
      SumPointwise(xs[1..], ys[1..], zs[1..]);
    }
  }

  /** Every share finds exactly one seat. */
  lemma {:induction false} WinningsSum(seats: seq<Seat>, shares: seq<Share>, evaluations: map<PlayerId, Evaluation>)
    requires UniqueIds(seats)
    requires forall s :: s in shares ==> SeatOf(seats, s.player) < |seats| && s.player in evaluations
    ensures Sum(Winnings(seats, shares, evaluations)) == Paid(shares)
  {
    if shares == [] {
      SumOfZeros(Winnings(seats, shares, evaluations));
    } else {
      var rest := shares[1..];
      assert shares == [shares[0]] + rest;
      assert shares[0] in shares;
      WinningsSum(seats, rest, evaluations);
      var i := SeatOf(seats, shares[0].player);
      var before := Winnings(seats, rest, evaluations);
      assert Winnings(seats, shares, evaluations) == before[i := before[i] + shares[0].amount];
      SumUpdate(before, i, before[i] + shares[0].amount);
      assert AmountsOf(shares)[1..] == AmountsOf(rest);
    }
  }

  lemma SeatsPaidSum(seats: seq<Seat>, shares: seq<Share>, evaluations: map<PlayerId, Evaluation>)
    requires UniqueIds(seats)
    requires forall s :: s in shares ==> SeatOf(seats, s.player) < |seats| && s.player in evaluations
    ensures Sum(Stacks(SeatsPaid(seats, shares, evaluations))) == Sum(Stacks(seats)) + Paid(shares)
  {
    WinningsSum(seats, shares, evaluations);
    SumPointwise(Stacks(seats), Winnings(seats, shares, evaluations), Stacks(SeatsPaid(seats, shares, evaluations)));
  }

  // ----- the even split -----

  function Portions(amount: nat, count: nat, from: nat, n: nat): (xs: seq<nat>)
    requires count > 0
    ensures |xs| == n
    ensures forall k :: 0 <= k < n ==> xs[k] == Portion(amount, count, from + k)
  {
    seq<nat>(n, k requires 0 <= k < n => Portion(amount, count, from + k))
  }

  lemma {:induction false} SeatsSplitSum(seats: seq<Seat>, amount: nat, count: nat, from: nat)
    requires count > 0
    ensures |SeatsSplit(seats, amount, count, from)| == |seats|
    ensures Sum(Stacks(SeatsSplit(seats, amount, count, from)))
         == Sum(Stacks(seats)) + Sum(Portions(amount, count, from, |InHand(seats)|))
    ensures forall k :: 0 <= k < |seats| ==> SeatsSplit(seats, amount, count, from)[k].id == seats[k].id
  {
    hide Portion;
    if seats != [] {
      var rest := seats[1..];
      var split := SeatsSplit(seats, amount, count, from);
      if seats[0].folded {
        SeatsSplitSum(rest, amount, count, from);
        assert split[1..] == SeatsSplit(rest, amount, count, from);
      } else {
        SeatsSplitSum(rest, amount, count, from + 1);
        assert split[1..] == SeatsSplit(rest, amount, count, from + 1);
        assert Portions(amount, count, from, |InHand(seats)|)[1..] == Portions(amount, count, from + 1, |InHand(rest)|);
      }
      assert Stacks(split)[1..] == Stacks(split[1..]);
      assert Stacks(seats)[1..] == Stacks(rest);
    }
  }

  /** The even split hands out the whole pot. */
  lemma EvenSplitPaysAll(seats: seq<Seat>, amount: nat)
    requires InHand(seats) != []
    ensures Sum(Stacks(SeatsSplit(seats, amount, |InHand(seats)|, 0))) == Sum(Stacks(seats)) + amount
  {
    hide InHand, SeatsSplit;
    var count := |InHand(seats)|;
    SeatsSplitSum(seats, amount, count, 0);
    PortionsPayAll(amount, count);
  }

  /** Each unfolded player gets a portion, by place among the unfolded, and folded players nothing. */
  lemma {:induction false} EvenSplitAt(seats: seq<Seat>, amount: nat, count: nat, from: nat, k: nat)
    requires count > 0 && k < |seats|
    ensures |SeatsSplit(seats, amount, count, from)| == |seats|
    ensures var place := from + |InHand(seats[..k])|;
            var odd := if place < amount % count then 1 else 0;
            SeatsSplit(seats, amount, count, from)[k]
            == if seats[k].folded then seats[k] else seats[k].(stack := seats[k].stack + amount / count + odd)
  {
    SeatsSplitSum(seats, amount, count, from);
    if k > 0 {
      assert seats[..k][1..] == seats[1..][..k - 1];
      EvenSplitAt(seats[1..], amount, count, if seats[0].folded then from else from + 1, k - 1);
    }
  }

  lemma PortionsPayAll(amount: nat, count: nat)
    requires count > 0
    ensures Sum(Portions(amount, count, 0, count)) == amount
  {
    hide Sum;
    SumOfPortions(amount / count, amount % count, Portions(amount, count, 0, count));
  }

  // ----- leaving the table -----

  function Surviving(seats: seq<Seat>): seq<Seat> {
    if seats == [] then []
    else (if seats[0].stack > 0 then [seats[0]] else []) + Surviving(seats[1..])
  }

  lemma {:induction false} SurvivingWithout(seats: seq<Seat>, i: nat)
    requires i < |seats| && seats[i].stack == 0
    ensures Surviving(seats[..i] + seats[i + 1..]) == Surviving(seats)
  {
    if i == 0 {
      assert seats[..0] + seats[1..] == seats[1..];
    } else {
      assert (seats[..i] + seats[i + 1..])[1..] == seats[1..][..i - 1] + seats[1..][i..];
      SurvivingWithout(seats[1..], i - 1);
    }
  }

  lemma {:induction false} SurvivingAll(seats: seq<Seat>)
    requires forall k :: 0 <= k < |seats| ==> seats[k].stack > 0
    ensures Surviving(seats) == seats
  {
    if seats != [] {
      SurvivingAll(seats[1..]);
    }
  }

  lemma {:induction false} SurvivingSum(seats: seq<Seat>)
    ensures Sum(Stacks(Surviving(seats))) == Sum(Stacks(seats))
    ensures |Surviving(seats)| <= |seats|
  {
    if seats != [] {
      SurvivingSum(seats[1..]);
      assert Stacks(seats)[1..] == Stacks(seats[1..]);
      if seats[0].stack > 0 {
        assert Surviving(seats) == [seats[0]] + Surviving(seats[1..]);
        assert Stacks(Surviving(seats))[1..] == Stacks(Surviving(seats[1..]));
      } else {
        assert Surviving(seats) == Surviving(seats[1..]);
      }
    }
  }

  lemma {:induction false} SurvivingIff(seats: seq<Seat>)
    ensures forall s :: s in Surviving(seats) <==> s in seats && s.stack > 0
  {
    if seats != [] {
      SurvivingIff(seats[1..]);
      assert seats == [seats[0]] + seats[1..];
    }
  }

  lemma {:induction false} SurvivingUnique(seats: seq<Seat>)
    requires UniqueIds(seats)
    ensures UniqueIds(Surviving(seats))
  {
    if seats != [] {
      var rest := seats[1..];
      assert forall k :: 0 <= k < |rest| ==> rest[k] == seats[k + 1];
      SurvivingUnique(rest);
      SurvivingIff(rest);
      assert forall s :: s in Surviving(rest) ==> s.id != seats[0].id;
      assert forall k :: 0 <= k < |Surviving(rest)| ==> Surviving(rest)[k] in Surviving(rest);
    }
  }

  /** Removing the listed players one by one leaves exactly those with chips, in their old order. */
  lemma {:induction false} RemovalsLeaveSurvivors(t: Table, ids: seq<PlayerId>)
    requires UniqueIds(t.seats)
    requires forall k :: 0 <= k < |t.seats| ==> (t.seats[k].stack == 0 <==> t.seats[k].id in ids)
    ensures RemovePlayers(t, ids).seats == Surviving(t.seats)
    decreases ids
  {
    if ids == [] {
      SurvivingAll(t.seats);
    } else {
      var i := SeatOf(t.seats, ids[0]);
      var next := RemovePlayer(t, ids[0]);
      assert ids == [ids[0]] + ids[1..];
      if i < |t.seats| {
        RemovedOne(t.seats, i, ids);
        SurvivingWithout(t.seats, i);
        assert next.seats == t.seats[..i] + t.seats[i + 1..];
      }
      RemovalsLeaveSurvivors(next, ids[1..]);
    }
  }

  lemma RemovedOne(seats: seq<Seat>, i: nat, ids: seq<PlayerId>)
    requires UniqueIds(seats) && i < |seats| && ids != [] && seats[i].id == ids[0]
    requires forall k :: 0 <= k < |seats| ==> (seats[k].stack == 0 <==> seats[k].id in ids)
    ensures var rest := seats[..i] + seats[i + 1..];
            && UniqueIds(rest)
            && forall k :: 0 <= k < |rest| ==> (rest[k].stack == 0 <==> rest[k].id in ids[1..])
  {
    var rest := seats[..i] + seats[i + 1..];
    assert forall k :: 0 <= k < |rest| ==> rest[k] == seats[if k < i then k else k + 1];
    assert ids == [ids[0]] + ids[1..];
  }

  lemma {:induction false} BustedIff(seats: seq<Seat>)
    ensures forall id :: id in Busted(seats) <==> exists k :: 0 <= k < |seats| && seats[k].id == id && seats[k].stack == 0
  {
    if seats != [] {
      var rest := seats[1..];
      BustedIff(rest);
      forall id
        ensures id in Busted(seats) <==> exists k :: 0 <= k < |seats| && seats[k].id == id && seats[k].stack == 0
      {
        if k :| 0 <= k < |rest| && rest[k].id == id && rest[k].stack == 0 {
          assert seats[k + 1].id == id;
        }
        if k :| 0 <= k < |seats| && seats[k].id == id && seats[k].stack == 0 {
          assert k > 0 ==> rest[k - 1] == seats[k];
        }
      }
    }
  }

  /** Ending a hand stops the engine, keeps every stack, and sends away exactly the players without chips. */
  lemma CompleteHandKeepsStacks(e: Engine)
    requires UniqueIds(e.table.seats)
    ensures var after := CompleteHand(e);
            && !after.running
            && after.table.seats == Surviving(SeatsForNewRound(e.table.seats))
            && Sum(Stacks(after.table.seats)) == Sum(Stacks(e.table.seats))
            && UniqueIds(after.table.seats) && |after.table.seats| <= |e.table.seats|
            && (forall k :: 0 <= k < |after.table.seats| ==> after.table.seats[k].stack > 0)
            && after.table.bigBlind == e.table.bigBlind
  {
    hide SetNext;
    var advanced := AdvancePhase(e.table);
    AdvanceSeats(e.table);
    var seats := advanced.seats;
    assert Stacks(seats) == Stacks(e.table.seats);
    BustedIff(seats);
    RemovalsLeaveSurvivors(advanced, Busted(seats));
    RemovalsKeepBlinds(advanced, Busted(seats));
    SurvivingSum(seats);
    SurvivingIff(seats);
    SurvivingUnique(seats);
    assert forall k :: 0 <= k < |Surviving(seats)| ==> Surviving(seats)[k] in Surviving(seats);
  }

  /** Ending a hand moves the phase on and sets both raise amounts back to the big blind; removals touch neither. */
  lemma HandEndResetsRaises(e: Engine)
    requires e.table.phase != HandComplete
    ensures var t := CompleteHand(e).table;
            && t.phase == NextPhase(e.table.phase)
            && t.minimumRaise == t.lastRaise == t.bigBlind == e.table.bigBlind
            && t.dealer == e.table.dealer && t.board == e.table.board && t.ledger == e.table.ledger
  {
    hide SetNext;
    var advanced := AdvancePhase(e.table);
    SetNextChangesTurnOnly(e.table.(seats := SeatsForNewRound(e.table.seats), toAct := None,
                                    phase := NextPhase(e.table.phase),
                                    minimumRaise := e.table.bigBlind, lastRaise := e.table.bigBlind));
    RemovalsKeepRest(advanced, Busted(advanced.seats));
  }

  lemma {:induction false} RemovalsKeepRest(t: Table, ids: seq<PlayerId>)
    ensures var after := RemovePlayers(t, ids);
            after == t.(seats := after.seats, smallBlindSeat := after.smallBlindSeat, bigBlindSeat := after.bigBlindSeat)
    decreases ids
  {
    if ids != [] {
      RemovalsKeepRest(RemovePlayer(t, ids[0]), ids[1..]);
    }
  }

  lemma AdvanceSeats(t: Table)
    ensures AdvancePhase(t).seats == SeatsForNewRound(t.seats)
    ensures AdvancePhase(t).ledger == t.ledger && AdvancePhase(t).bigBlind == t.bigBlind
    ensures AdvancePhase(t).board == t.board
  {
    hide SetNext;
    SetNextChangesTurnOnly(t.(seats := SeatsForNewRound(t.seats), toAct := None, phase := NextPhase(t.phase),
                              minimumRaise := t.bigBlind, lastRaise := t.bigBlind));
  }

  lemma {:induction false} RemovalsKeepBlinds(t: Table, ids: seq<PlayerId>)
    ensures RemovePlayers(t, ids).bigBlind == t.bigBlind
    decreases ids
  {
    if ids != [] {
      RemovalsKeepBlinds(RemovePlayer(t, ids[0]), ids[1..]);
    }
  }
}
