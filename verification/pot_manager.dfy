/** The pot list and contribution map the game updates in place, and the loops that layer and pay it. */
module PotManagers {
  import opened Util
  import opened Players
  import opened PotLayers
  import opened PotShares
  import opened Tables

  class PotManager {
    var pots: seq<Pot>
    var contributions: map<PlayerId, nat>

    ghost function View(): Ledger
      reads this
    {
      Ledger(pots, contributions)
    }

    constructor ()
      ensures View() == EMPTY_LEDGER
    {
      pots, contributions := [], map[];
      new;
      Reset();
    }

    method Reset()
      modifies this
      ensures View() == EMPTY_LEDGER
    {
      pots := [];
      contributions := map[];
      pots := pots + [Pot(0, [], true)];
    }

    method AddBet(id: PlayerId, amount: nat)
      requires pots != []
      modifies this
      ensures View() == Tables.AddBet(old(View()), id, amount) && pots != []
    {
      var previous := if id in contributions then contributions[id] else 0;
      contributions := contributions[id := previous + amount];
      pots := pots[0 := pots[0].(amount := pots[0].amount + amount)];
      if id !in pots[0].eligible {
        pots := pots[0 := pots[0].(eligible := pots[0].eligible + [id])];
      }
    }

    method GetTotalPotAmount() returns (total: nat)
      ensures total == PotTotal(pots)
    {
      total := 0;
      for i := 0 to |pots|
        invariant total + PotTotal(pots[i..]) == PotTotal(pots)
      {
        assert Amounts(pots[i..])[1..] == Amounts(pots[i + 1..]);
        total := total + pots[i].amount;
      }
    }

    /** Pots rebuilt by layering the distinct contributions of all players, folded ones included. */
    method CreateSidePots(players: seq<Player>)
      requires forall p :: p in players ==> p as object != this
      modifies this
      ensures View() == Ledger(SidePots(old(pots), Seats(players)), old(contributions))
    {
      hide PaidUp, Layers, LevelSet, Sorted, Reaching;
      ghost var seats := Seats(players);
      var eligiblePlayers := PlayersPaidUp(players, 0);
      var betAmounts := DistinctBets(players);
      if |eligiblePlayers| <= 1 || |betAmounts| <= 1 {
        var total := GetTotalPotAmount();
        pots := [Pot(total, eligiblePlayers, true)];
        return;
      }
      var sortedAmounts := Sorted(betAmounts);
      LevelsArePositive(seats);
      pots := [];
      var previousAmount := 0;
      for i := 0 to |sortedAmounts|
        invariant Ascending(sortedAmounts[i..]) && (i < |sortedAmounts| ==> previousAmount < sortedAmounts[i])
        invariant contributions == old(contributions)
        invariant pots + Layers(seats, sortedAmounts[i..], previousAmount, i == 0) == Layers(seats, sortedAmounts, 0, true)
      {
        var currentAmount := sortedAmounts[i];
        LayersStep(seats, sortedAmounts[i..], previousAmount, i == 0);
        assert sortedAmounts[i..][1..] == sortedAmounts[i + 1..];
        var eligibleForThisPot := PlayersPaidUp(players, currentAmount);
        var contributing := CountContributing(players, currentAmount);
        TakenFromSeats(seats, sortedAmounts[i]);
        if contributing > 0 {
          pots := pots + [Pot((currentAmount - previousAmount) * contributing, eligibleForThisPot, i == 0)];
        }
        previousAmount := currentAmount;
      }
      LayersStep(seats, [], previousAmount, false);
    }

    /** Each pot split evenly among the winners that list its index, from the first pot to the last. */
    method DistributePots(winners: seq<PotWinner>) returns (distributions: seq<Share>)
      ensures distributions == DistributeUpTo(pots, winners, |pots|)
    {
      hide WinnersOf, Split;
      distributions := [];
      for i := 0 to |pots|
        invariant distributions == DistributeUpTo(pots, winners, i)
      {
        var eligibleWinners := WinnersListing(winners, i);
        if |eligibleWinners| == 0 {
          continue;
        }
        distributions := PushShares(distributions, Ids(eligibleWinners), pots[i].amount, i);
      }
    }

    /** The same, the odd chips going to the latest positions first. */
    method DistributePotsWithPosition(winners: seq<PotWinner>) returns (distributions: seq<Share>)
      ensures distributions == DistributeByPositionUpTo(pots, winners, |pots|)
    {
      hide WinnersOf, ByPosition, Split;
      distributions := [];
      for i := 0 to |pots|
        invariant distributions == DistributeByPositionUpTo(pots, winners, i)
      {
        var eligibleWinners := WinnersListing(winners, i);
        ByPositionSorts(eligibleWinners);
        SameLength(ByPosition(eligibleWinners), eligibleWinners);
        if |eligibleWinners| == 0 {
          continue;
        }
        distributions := PushShares(distributions, Ids(ByPosition(eligibleWinners)), pots[i].amount, i);
      }
    }

    /** Each pot to its best eligible hands, from the last pot to the first. */
    method SimulateDistribution(winners: seq<Contender>, remainingPlayers: Option<seq<PlayerId>>) returns (r: Distribution)
      ensures r == Simulate(pots, winners, remainingPlayers)
    {
      hide Best, Among, Piece, SimulateFrom, Preceded, Recipients;
      var groups := GroupByStrength(winners);
      var distributions: seq<Share> := [];
      var potIndex: nat := |pots|;
      NothingBefore(SimulateFrom(pots, winners, remainingPlayers, |pots|));
      while potIndex > 0
        invariant potIndex <= |pots|
        invariant Simulate(pots, winners, remainingPlayers)
               == Preceded(distributions, SimulateFrom(pots, winners, remainingPlayers, potIndex))
      {
        SimulateStep(distributions, pots, winners, remainingPlayers, potIndex);
        potIndex := potIndex - 1;
        var pot := pots[potIndex];
        var recipients := RecipientsOf(pot, groups, winners, remainingPlayers);
        if |recipients| == 0 && pot.amount > 0 {
          return NoRecipient(potIndex);
        }
        if |recipients| > 0 {
          distributions := PushShares(distributions, recipients, pot.amount, potIndex);
        }
      }
      NothingAfter(distributions, pots, winners, remainingPlayers);
      r := Distributed(distributions);
    }
  }

  /** The best eligible hands, or else the remaining players the pot names. */
  method RecipientsOf(pot: Pot, groups: map<nat, seq<PlayerId>>, ghost winners: seq<Contender>,
                      remainingPlayers: Option<seq<PlayerId>>) returns (r: seq<PlayerId>)
    requires Grouped(groups, winners)
    ensures r == Recipients(pot, winners, remainingPlayers)
  {
    hide Best, Among;
    r := BestOfGroups(groups, winners, pot.eligible);
    if |r| == 0 && pot.amount > 0 {
      if remainingPlayers.Some? {
        r := KeepAmong(pot.eligible, remainingPlayers.value);
      }
    }
  }

  lemma NothingBefore(d: Distribution)
    ensures Preceded([], d) == d
  {
  }

  lemma NothingAfter(shares: seq<Share>, pots: seq<Pot>, winners: seq<Contender>, remaining: Option<seq<PlayerId>>)
    ensures Preceded(shares, SimulateFrom(pots, winners, remaining, 0)) == Distributed(shares)
  {
  }

  lemma SimulateStep(shares: seq<Share>, pots: seq<Pot>, winners: seq<Contender>, remaining: Option<seq<PlayerId>>, n: nat)
    requires 0 < n <= |pots|
    ensures Recipients(pots[n - 1], winners, remaining) == [] && pots[n - 1].amount > 0
        ==> Preceded(shares, SimulateFrom(pots, winners, remaining, n)) == NoRecipient(n - 1)
    ensures Recipients(pots[n - 1], winners, remaining) == [] && pots[n - 1].amount == 0
        ==> Preceded(shares, SimulateFrom(pots, winners, remaining, n))
            == Preceded(shares, SimulateFrom(pots, winners, remaining, n - 1))
    ensures Recipients(pots[n - 1], winners, remaining) != []
        ==> Preceded(shares, SimulateFrom(pots, winners, remaining, n))
            == Preceded(shares + Piece(pots[n - 1].amount, Recipients(pots[n - 1], winners, remaining), n - 1),
                        SimulateFrom(pots, winners, remaining, n - 1))
  {
    hide Recipients, Split;
    var ids := Recipients(pots[n - 1], winners, remaining);
    PrecededTwice(shares, Piece(pots[n - 1].amount, ids, n - 1), SimulateFrom(pots, winners, remaining, n - 1));
    assert shares + [] == shares;
  }

  lemma PrecededTwice(xs: seq<Share>, ys: seq<Share>, rest: Distribution)
    ensures Preceded(xs, Preceded(ys, rest)) == Preceded(xs + ys, rest)
  {
    if rest.Distributed? {
      assert xs + (ys + rest.shares) == xs + ys + rest.shares;
    }
  }

  // ----- splitting and grouping -----

  /** One pot's portions appended to the distributions so far. */
  method PushShares(distributions: seq<Share>, ids: seq<PlayerId>, amount: nat, potIndex: nat) returns (r: seq<Share>)
    requires ids != []
    ensures r == distributions + Piece(amount, ids, potIndex)
  {
    var baseAmount := amount / |ids|;
    var remainder := amount % |ids|;
    r := distributions;
    for index := 0 to |ids|
      invariant r == distributions + Split(amount, ids, potIndex)[..index]
    {
      r := r + [Share(ids[index], baseAmount + if index < remainder then 1 else 0, potIndex)];
    }
  }

  method WinnersListing(winners: seq<PotWinner>, pot: nat) returns (r: seq<PotWinner>)
    ensures r == WinnersOf(winners, pot)
  {
    r := [];
    for i := 0 to |winners|
      invariant r + WinnersOf(winners[i..], pot) == WinnersOf(winners, pot)
    {
      assert winners[i..][1..] == winners[i + 1..];
      if pot in winners[i].potIndices {
        r := r + [winners[i]];
      }
    }
  }

  method KeepAmong(ids: seq<PlayerId>, allowed: seq<PlayerId>) returns (r: seq<PlayerId>)
    ensures r == Among(ids, allowed)
  {
    r := [];
    for i := 0 to |ids|
      invariant r + Among(ids[i..], allowed) == Among(ids, allowed)
    {
      assert ids[i..][1..] == ids[i + 1..];
      if ids[i] in allowed {
        r := r + [ids[i]];
      }
    }
  }

  ghost predicate Grouped(groups: map<nat, seq<PlayerId>>, winners: seq<Contender>) {
    forall s :: (s in groups <==> OfStrength(winners, s) != []) && (s in groups ==> groups[s] == OfStrength(winners, s))
  }

  /** Player ids by hand strength, each group in the order listed. */
  method GroupByStrength(winners: seq<Contender>) returns (groups: map<nat, seq<PlayerId>>)
    ensures Grouped(groups, winners)
  {
    groups := map[];
    for i := 0 to |winners|
      invariant Grouped(groups, winners[..i])
    {
      var w := winners[i];
      assert winners[..i + 1] == winners[..i] + [w];
      forall s: nat
        ensures OfStrength(winners[..i + 1], s) == OfStrength(winners[..i], s) + if s == w.strength then [w.player] else []
      {
        OfStrengthAppend(winners[..i], w, s);
      }
      var group := if w.strength in groups then groups[w.strength] else [];
      groups := groups[w.strength := group + [w.player]];
    }
    assert winners[..|winners|] == winners;
  }

  lemma {:induction false} OfStrengthAppend(winners: seq<Contender>, w: Contender, s: nat)
    ensures OfStrength(winners + [w], s) == OfStrength(winners, s) + if s == w.strength then [w.player] else []
  {
    var all := winners + [w];
    if winners == [] {
      assert all[0] == w && all[1..] == [];
    } else {
      assert all[0] == winners[0] && all[1..] == winners[1..] + [w];
      OfStrengthAppend(winners[1..], w, s);
      var first := if winners[0].strength == s then [winners[0].player] else [];
      assert OfStrength(all, s) == first + OfStrength(all[1..], s);
    }
  }

  /** The first group, strongest first, with a member that may win the pot. */
  method BestOfGroups(groups: map<nat, seq<PlayerId>>, ghost winners: seq<Contender>, eligible: seq<PlayerId>)
    returns (r: seq<PlayerId>)
    requires Grouped(groups, winners)
    ensures r == Best(winners, eligible)
  {
    hide OfStrength;
    var strengths := Sorted(groups.Keys);
    var i: nat := |strengths|;
    TopStrengthIsGreatest(winners, eligible);
    while i > 0
      invariant i <= |strengths|
      invariant forall c, k :: c in winners && c.player in eligible && i <= k < |strengths| ==> c.strength != strengths[k]
    {
      i := i - 1;
      r := KeepAmong(groups[strengths[i]], eligible);
      if |r| > 0 {
        StrongestGroup(groups, winners, eligible, strengths, i);
        return;
      }
      NobodyOfStrength(winners, eligible, strengths[i]);
    }
    r := [];
    forall c | c in winners
      ensures c.player !in eligible
    {
      OfStrengthIff(winners, c.strength);
      assert c == Contender(c.player, c.strength);
      SortedHasAll(groups.Keys, c.strength);
    }
  }

  lemma NobodyOfStrength(winners: seq<Contender>, eligible: seq<PlayerId>, s: nat)
    requires Among(OfStrength(winners, s), eligible) == []
    ensures forall c :: c in winners && c.player in eligible ==> c.strength != s
  {
    OfStrengthIff(winners, s);
    AmongIff(OfStrength(winners, s), eligible);
    forall c | c in winners && c.player in eligible
      ensures c.strength != s
    {
      assert c == Contender(c.player, c.strength);
    }
  }

  /** The group at `i` is the top one when no stronger contender is eligible. */
  lemma StrongestGroup(groups: map<nat, seq<PlayerId>>, winners: seq<Contender>, eligible: seq<PlayerId>,
                       strengths: seq<nat>, i: nat)
    requires Grouped(groups, winners) && strengths == Sorted(groups.Keys) && i < |strengths|
    requires Among(OfStrength(winners, strengths[i]), eligible) != []
    requires forall c, k :: c in winners && c.player in eligible && i < k < |strengths| ==> c.strength != strengths[k]
    ensures Best(winners, eligible) == Among(OfStrength(winners, strengths[i]), eligible)
  {
    hide OfStrength, Sorted;
    TopStrengthIsGreatest(winners, eligible);
    var s := strengths[i];
    OfStrengthIff(winners, s);
    AmongIff(OfStrength(winners, s), eligible);
    var id := Among(OfStrength(winners, s), eligible)[0];
    assert id in Among(OfStrength(winners, s), eligible);
    assert Contender(id, s) in winners;
    var top := TopStrength(winners, eligible).value;
    var c :| c in winners && c.player in eligible && c.strength == top;
    OfStrengthIff(winners, top);
    assert c == Contender(c.player, top);
    SortedHasAll(groups.Keys, top);
    var k :| 0 <= k < |strengths| && strengths[k] == top;
    assert s <= top;
    assert k == i;
  }

  lemma LevelsArePositive(seats: seq<Seat>)
    ensures var levels := Sorted(LevelSet(seats));
            (forall k :: 0 <= k < |levels| ==> levels[k] > 0) && Ascending(levels)
  {
  }

  /** Every level was put in by someone. */
  lemma TakenFromSeats(seats: seq<Seat>, level: nat)
    requires level in LevelSet(seats)
    ensures Reaching(seats, level) > 0
  {
    var s :| s in seats && s.total == level;
    ReachingPositive(seats, level, s);
  }

  lemma LayersStep(seats: seq<Seat>, levels: seq<nat>, previous: nat, first: bool)
    requires Ascending(levels) && (levels != [] ==> previous < levels[0])
    ensures Layers(seats, levels, previous, first)
         == if levels == [] then []
            else [Pot((levels[0] - previous) * Reaching(seats, levels[0]), PaidUp(seats, levels[0]), first)]
                 + Layers(seats, levels[1..], levels[0], false)
  {
  }

  // ----- reading the players -----

  method PlayersPaidUp(players: seq<Player>, level: nat) returns (ids: seq<PlayerId>)
    ensures ids == PaidUp(Seats(players), level)
  {
    ids := [];
    ghost var seats := Seats(players);
    for i := 0 to |players|
      invariant ids + PaidUp(seats[i..], level) == PaidUp(seats, level)
    {
      assert seats[i..][1..] == seats[i + 1..];
      if !players[i].isFolded && players[i].totalBetThisHand >= level {
        ids := ids + [players[i].id];
      }
    }
  }

  method CountContributing(players: seq<Player>, level: nat) returns (count: nat)
    ensures count == Reaching(Seats(players), level)
  {
    count := 0;
    ghost var seats := Seats(players);
    for i := 0 to |players|
      invariant count + Reaching(seats[i..], level) == Reaching(seats, level)
    {
      assert seats[i..][1..] == seats[i + 1..];
      if players[i].totalBetThisHand >= level {
        count := count + 1;
      }
    }
  }

  method DistinctBets(players: seq<Player>) returns (amounts: set<nat>)
    ensures amounts == LevelSet(Seats(players))
  {
    amounts := {};
    ghost var seats := Seats(players);
    for i := 0 to |players|
      invariant amounts == LevelSet(seats[..i])
    {
      assert seats[..i + 1] == seats[..i] + [seats[i]];
      LevelSetAppend(seats[..i], seats[i]);
      if players[i].totalBetThisHand > 0 {
        amounts := amounts + {players[i].totalBetThisHand};
      }
    }
    assert seats[..|players|] == seats;
  }

  lemma LevelSetAppend(seats: seq<Seat>, s: Seat)
    ensures LevelSet(seats + [s]) == LevelSet(seats) + if s.total > 0 then {s.total} else {}
  {
    assert forall t :: t in seats + [s] <==> t in seats || t == s;
  }
}
