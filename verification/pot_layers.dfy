/** Side pots: the pot list `createSidePots` builds, and what every chip in it stands for. */
module PotLayers {
  import opened Util
  import opened Players

  datatype Pot = Pot(amount: nat, eligible: seq<PlayerId>, isMain: bool)

  function Amounts(pots: seq<Pot>): (xs: seq<nat>)
    ensures |xs| == |pots|
    ensures forall k :: 0 <= k < |pots| ==> xs[k] == pots[k].amount
  {
    seq(|pots|, k requires 0 <= k < |pots| => pots[k].amount)
  }

  function PotTotal(pots: seq<Pot>): nat {
    Sum(Amounts(pots))
  }

  // ----- the transformation -----

  /** The unfolded seats that put in at least `level` this hand, in table order. */
  function PaidUp(seats: seq<Seat>, level: nat): seq<PlayerId> {
    if seats == [] then []
    else (if !seats[0].folded && seats[0].total >= level then [seats[0].id] else []) + PaidUp(seats[1..], level)
  }

  /** How many seats, folded ones included, put in at least `level`. */
  function Reaching(seats: seq<Seat>, level: nat): nat {
    if seats == [] then 0
    else (if seats[0].total >= level then 1 else 0) + Reaching(seats[1..], level)
  }

  /** The distinct positive contributions of all seats. */
  function LevelSet(seats: seq<Seat>): set<nat> {
    set s | s in seats && s.total > 0 :: s.total
  }

  ghost predicate Ascending(xs: seq<nat>) {
    forall i, j :: 0 <= i < j < |xs| ==> xs[i] < xs[j]
  }

  lemma {:induction false} HasMinimum(s: set<nat>, z: nat)
    requires z in s
    ensures exists x :: x in s && forall y :: y in s ==> x <= y
    decreases z
  {
    if y :| y in s && y < z {
      HasMinimum(s, y);
    } else {
      assert z in s && forall y :: y in s ==> z <= y;
    }
  }

  function Minimum(s: set<nat>): (x: nat)
    requires s != {}
    ensures x in s && forall y :: y in s ==> x <= y
  {
    assert exists x :: x in s && forall y :: y in s ==> x <= y by {
      var z :| z in s;
      HasMinimum(s, z);
    }
    var x :| x in s && forall y :: y in s ==> x <= y;
    x
  }

  /** A set of amounts sorted into ascending order. */
  function Sorted(s: set<nat>): (xs: seq<nat>)
    ensures Ascending(xs)
    ensures forall k :: 0 <= k < |xs| ==> xs[k] in s
    ensures |xs| == |s|
  {
    if s == {} then []
    else [Minimum(s)] + Sorted(s - {Minimum(s)})
  }

  lemma {:induction false} SortedHasAll(s: set<nat>, x: nat)
    requires x in s
    ensures x in Sorted(s)
  {
    var m := Minimum(s);
    if x != m {
      SortedHasAll(s - {m}, x);
    }
  }

  function Layers(seats: seq<Seat>, levels: seq<nat>, previous: nat, first: bool): seq<Pot>
    requires Ascending(levels)
    requires levels != [] ==> previous < levels[0]
    decreases levels
  {
    if levels == [] then []
    else [Pot((levels[0] - previous) * Reaching(seats, levels[0]), PaidUp(seats, levels[0]), first)]
         + Layers(seats, levels[1..], levels[0], false)
  }

  /** The pots after `createSidePots`: one main pot unless two unfolded seats and two levels call for layers. */
  function SidePots(pots: seq<Pot>, seats: seq<Seat>): seq<Pot> {
    if |PaidUp(seats, 0)| <= 1 || |LevelSet(seats)| <= 1
    then [Pot(PotTotal(pots), PaidUp(seats, 0), true)]
    else
      var levels := Sorted(LevelSet(seats));
      Layers(seats, levels, 0, true)
  }

  // ----- what the layers hold -----

  function PriceUpTo(levels: seq<nat>, k: nat): nat
    requires k <= |levels|
  {
    if k == 0 then 0 else levels[k - 1]
  }

  /** Each pot holds one level's worth from everyone who reached it, and only unfolded seats that did may win it. */
  lemma {:induction false} LayerAt(seats: seq<Seat>, levels: seq<nat>, previous: nat, first: bool, k: nat)
    requires Ascending(levels) && (levels != [] ==> previous < levels[0])
    requires k < |levels|
    ensures |Layers(seats, levels, previous, first)| == |levels|
    ensures (if k == 0 then previous else levels[k - 1]) < levels[k]
    ensures Layers(seats, levels, previous, first)[k]
         == Pot((levels[k] - (if k == 0 then previous else levels[k - 1])) * Reaching(seats, levels[k]),
                PaidUp(seats, levels[k]), first && k == 0)
    decreases k, |levels|
  {
    if k > 0 {
      LayerAt(seats, levels[1..], levels[0], false, k - 1);
    } else if |levels| > 1 {
      LayersLength(seats, levels[1..], levels[0], false);
    }
  }

  lemma {:induction false} LayersLength(seats: seq<Seat>, levels: seq<nat>, previous: nat, first: bool)
    requires Ascending(levels) && (levels != [] ==> previous < levels[0])
    ensures |Layers(seats, levels, previous, first)| == |levels|
    decreases |levels|
  {
    if levels != [] {
      LayersLength(seats, levels[1..], levels[0], false);
    }
  }

  /** An id is paid up at a level exactly when some unfolded seat with that id put in that much. */
  lemma {:induction false} PaidUpIff(seats: seq<Seat>, level: nat, id: PlayerId)
    ensures id in PaidUp(seats, level) <==> Claims(seats, level, id)
  {
    if seats != [] {
      PaidUpIff(seats[1..], level, id);
      assert seats == [seats[0]] + seats[1..];
      assert forall s :: s in seats <==> s == seats[0] || s in seats[1..];
    }
  }

  lemma {:induction false} PaidUpDistinct(seats: seq<Seat>, level: nat)
    requires UniqueIds(seats)
    ensures NoDuplicates(PaidUp(seats, level))
  {
    if seats != [] {
      var rest := seats[1..];
      assert UniqueIds(rest) by {
        assert forall k :: 0 <= k < |rest| ==> rest[k] == seats[k + 1];
      }
      PaidUpDistinct(rest, level);
      PaidUpIff(rest, level, seats[0].id);
      assert forall s :: s in rest ==> s.id != seats[0].id;
      assert seats[0].id !in PaidUp(rest, level);
    }
  }

  // ----- conservation and the matched share -----

  /** How far `cap` and a seat's contribution both reach beyond `floor`. */
  function Beyond(floor: nat, cap: nat, total: nat): nat {
    if Min(cap, total) > floor then Min(cap, total) - floor else 0
  }

  function Matched(seats: seq<Seat>, floor: nat, cap: nat): (xs: seq<nat>)
    ensures |xs| == |seats|
    ensures forall k :: 0 <= k < |seats| ==> xs[k] == Beyond(floor, cap, seats[k].total)
  {
    seq(|seats|, k requires 0 <= k < |seats| => Beyond(floor, cap, seats[k].total))
  }

  /** The amount in the layers that a contribution of `cap` pays for in full. */
  function CoveredBy(seats: seq<Seat>, levels: seq<nat>, previous: nat, cap: nat): nat
    requires Ascending(levels) && (levels != [] ==> previous < levels[0])
    decreases levels
  {
    if levels == [] || levels[0] > cap then 0
    else (levels[0] - previous) * Reaching(seats, levels[0]) + CoveredBy(seats, levels[1..], levels[0], cap)
  }

  /** Peeling one level off takes the same slice from every seat that reached it. */
  lemma {:induction false} PeelLevel(seats: seq<Seat>, floor: nat, level: nat, cap: nat)
    requires floor < level <= cap
    requires forall s :: s in seats && s.total > floor ==> s.total >= level
    ensures Sum(Matched(seats, floor, cap))
         == (level - floor) * Reaching(seats, level) + Sum(Matched(seats, level, cap))
  {
    if seats == [] {
    } else {
      var rest := seats[1..];
      PeelLevel(rest, floor, level, cap);
      assert Matched(seats, floor, cap)[1..] == Matched(rest, floor, cap);
      assert Matched(seats, level, cap)[1..] == Matched(rest, level, cap);
      var hit := if seats[0].total >= level then 1 else 0;
      assert (level - floor) * (hit + Reaching(rest, level))
          == (level - floor) * hit + (level - floor) * Reaching(rest, level);
      assert seats[0] in seats;
    }
  }

  lemma {:induction false} CoveredIsMatched(seats: seq<Seat>, levels: seq<nat>, previous: nat, cap: nat)
    requires Ascending(levels) && (levels != [] ==> previous < levels[0])
    requires forall s :: s in seats && s.total > previous ==> s.total in levels
    requires cap in levels || cap <= previous
    ensures CoveredBy(seats, levels, previous, cap) == Sum(Matched(seats, previous, cap))
    decreases |levels|
  {
    if levels == [] || levels[0] > cap {
      SumOfZeros(Matched(seats, previous, cap));
    } else {
      var rest := levels[1..];
      assert levels == [levels[0]] + rest;
      assert forall x :: x in levels <==> x == levels[0] || x in rest;
      PeelLevel(seats, previous, levels[0], cap);
      CoveredIsMatched(seats, rest, levels[0], cap);
    }
  }

  /** What the pots a player may win add up to. */
  function EligibleTotal(pots: seq<Pot>, id: PlayerId): nat {
    if pots == [] then 0
    else (if id in pots[0].eligible then pots[0].amount else 0) + EligibleTotal(pots[1..], id)
  }

  lemma {:induction false} EligibleIsCovered(seats: seq<Seat>, levels: seq<nat>, previous: nat, first: bool, w: nat)
    requires Ascending(levels) && (levels != [] ==> previous < levels[0])
    requires UniqueIds(seats) && w < |seats| && !seats[w].folded
    ensures EligibleTotal(Layers(seats, levels, previous, first), seats[w].id)
         == CoveredBy(seats, levels, previous, seats[w].total)
    decreases |levels|
  {
    if levels != [] {
      PaidUpIff(seats, levels[0], seats[w].id);
      assert seats[w] in seats;
      EligibleIsCovered(seats, levels[1..], levels[0], false, w);
      if levels[0] > seats[w].total && |levels| > 1 {
        assert levels[1] > seats[w].total;
      }
    }
  }

  lemma {:induction false} LayersTotal(seats: seq<Seat>, levels: seq<nat>, previous: nat, first: bool)
    requires Ascending(levels) && (levels != [] ==> previous < levels[0])
    ensures PotTotal(Layers(seats, levels, previous, first))
         == if levels == [] then 0 else CoveredBy(seats, levels, previous, levels[|levels| - 1])
    decreases |levels|
  {
    if levels != [] {
      LayersTotal(seats, levels[1..], levels[0], false);
      var pots := Layers(seats, levels, previous, first);
      assert Amounts(pots)[1..] == Amounts(pots[1..]);
      assert pots[1..] == Layers(seats, levels[1..], levels[0], false);
    }
  }

  lemma LevelsCoverTotals(seats: seq<Seat>)
    ensures forall s :: s in seats && s.total > 0 ==> s.total in Sorted(LevelSet(seats))
  {
    forall s | s in seats && s.total > 0
      ensures s.total in Sorted(LevelSet(seats))
    {
      assert s.total in LevelSet(seats);
      SortedHasAll(LevelSet(seats), s.total);
    }
  }

  lemma TopLevel(seats: seq<Seat>)
    requires LevelSet(seats) != {}
    ensures var levels := Sorted(LevelSet(seats));
            && levels != []
            && (exists s :: s in seats && s.total == levels[|levels| - 1])
            && forall s :: s in seats ==> s.total <= levels[|levels| - 1]
  {
    var levels := Sorted(LevelSet(seats));
    assert levels[|levels| - 1] in LevelSet(seats);
    forall s | s in seats
      ensures s.total <= levels[|levels| - 1]
    {
      if s.total > 0 {
        LevelsCoverTotals(seats);
        var j :| 0 <= j < |levels| && levels[j] == s.total;
      }
    }
  }

  lemma TopLevelCapsNothing(seats: seq<Seat>)
    requires LevelSet(seats) != {}
    ensures var levels := Sorted(LevelSet(seats));
            levels != [] && Matched(seats, 0, levels[|levels| - 1]) == Totals(seats)
  {
    TopLevel(seats);
    assert forall k :: 0 <= k < |seats| ==> seats[k] in seats;
  }

  lemma OnePotTotal(pot: Pot)
    ensures PotTotal([pot]) == pot.amount
  {
    assert Amounts([pot]) == [pot.amount];
    SumOne(pot.amount);
  }

  /** `createSidePots` neither makes nor loses a chip. */
  lemma SidePotsConserve(pots: seq<Pot>, seats: seq<Seat>)
    requires PotTotal(pots) == Sum(Totals(seats))
    ensures PotTotal(SidePots(pots, seats)) == Sum(Totals(seats))
    ensures SidePots(pots, seats) != []
  {
    if |PaidUp(seats, 0)| <= 1 || |LevelSet(seats)| <= 1 {
      OnePotTotal(Pot(PotTotal(pots), PaidUp(seats, 0), true));
    } else {
      LayeredConserve(pots, seats);
    }
  }

  lemma LayeredConserve(pots: seq<Pot>, seats: seq<Seat>)
    requires |PaidUp(seats, 0)| >= 2 && |LevelSet(seats)| >= 2
    ensures PotTotal(SidePots(pots, seats)) == Sum(Totals(seats))
    ensures SidePots(pots, seats) != []
  {
    var levels := Sorted(LevelSet(seats));
    LevelsCoverTotals(seats);
    var top := levels[|levels| - 1];
    assert levels[0] in levels && top in levels;
    LayersTotal(seats, levels, 0, true);
    LayersLength(seats, levels, 0, true);
    CoveredIsMatched(seats, levels, 0, top);
    TopLevelCapsNothing(seats);
  }

  lemma LevelsAreOneValue(seats: seq<Seat>, w: nat)
    requires w < |seats| && |LevelSet(seats)| == 1 && seats[w].total > 0
    ensures Matched(seats, 0, seats[w].total) == Totals(seats)
  {
    TopLevelCapsNothing(seats);
    assert seats[w] in seats && seats[w].total in LevelSet(seats);
    var levels := Sorted(LevelSet(seats));
    assert levels[0] == seats[w].total;
  }

  lemma LevelOf(seats: seq<Seat>, k: nat)
    requires k < |seats|
    ensures seats[k].total == 0 || seats[k].total in LevelSet(seats)
  {
    assert seats[k] in seats;
  }

  lemma NoLevelsNoChips(seats: seq<Seat>)
    ensures LevelSet(seats) == {} <==> Sum(Totals(seats)) == 0
  {
    if LevelSet(seats) == {} {
      forall k | 0 <= k < |seats|
        ensures seats[k].total == 0
      {
        LevelOf(seats, k);
      }
      SumOfZeros(Totals(seats));
    } else {
      var level :| level in LevelSet(seats);
      var s :| s in seats && s.total == level && level > 0;
      var k :| 0 <= k < |seats| && seats[k] == s;
      SumAtLeast(Totals(seats), k);
    }
  }

  /** With at most one distinct positive contribution there is one pot, and every unfolded seat may win it. */
  lemma MatchedShareUnlayered(pots: seq<Pot>, seats: seq<Seat>, w: nat)
    requires PotTotal(pots) == Sum(Totals(seats))
    requires w < |seats| && !seats[w].folded && |LevelSet(seats)| <= 1
    ensures EligibleTotal(SidePots(pots, seats), seats[w].id) == Sum(Totals(seats))
    ensures Sum(Matched(seats, 0, seats[w].total))
         == if seats[w].total == 0 then 0 else Sum(Totals(seats))
  {
    assert seats[w] in seats;
    PaidUpIff(seats, 0, seats[w].id);
    NoLevelsNoChips(seats);
    if seats[w].total == 0 {
      SumOfZeros(Matched(seats, 0, 0));
    } else {
      assert seats[w].total in LevelSet(seats);
      LevelsAreOneValue(seats, w);
    }
  }

  lemma MatchedShareLayered(pots: seq<Pot>, seats: seq<Seat>, w: nat)
    requires UniqueIds(seats) && w < |seats| && !seats[w].folded
    requires |PaidUp(seats, 0)| >= 2 && |LevelSet(seats)| >= 2
    ensures EligibleTotal(SidePots(pots, seats), seats[w].id) == Sum(Matched(seats, 0, seats[w].total))
  {
    var levels := Sorted(LevelSet(seats));
    LevelsCoverTotals(seats);
    assert seats[w] in seats;
    EligibleIsCovered(seats, levels, 0, true, w);
    CoveredIsMatched(seats, levels, 0, seats[w].total);
  }

  /**
   * The pots an unfolded player may win hold exactly what everyone put in up to that player's own
   * contribution -- unless every positive contribution is the same and the player put in nothing, when the
   * single unlayered pot names the player too.
   */
  lemma {:induction false} MatchedShare(pots: seq<Pot>, seats: seq<Seat>, w: nat)
    requires PotTotal(pots) == Sum(Totals(seats))
    requires UniqueIds(seats) && w < |seats| && !seats[w].folded
    requires |PaidUp(seats, 0)| >= 2
    ensures EligibleTotal(SidePots(pots, seats), seats[w].id) == Sum(Matched(seats, 0, seats[w].total))
       <==> !(|LevelSet(seats)| == 1 && seats[w].total == 0)
  {
    if |LevelSet(seats)| <= 1 {
      MatchedShareUnlayered(pots, seats, w);
      NoLevelsNoChips(seats);
    } else {
      MatchedShareLayered(pots, seats, w);
    }
  }

  // ----- shape of the layers -----

  /** Whether `id` belongs to an unfolded seat that put in at least `level`. */
  ghost predicate Claims(seats: seq<Seat>, level: nat, id: PlayerId) {
    exists s :: s in seats && s.id == id && !s.folded && s.total >= level
  }

  /** Pot by pot: the amount and the exact eligible set. */
  lemma LayerMeaning(pots: seq<Pot>, seats: seq<Seat>, k: nat)
    requires |PaidUp(seats, 0)| >= 2 && |LevelSet(seats)| >= 2
    requires k < |LevelSet(seats)|
    ensures var layered := SidePots(pots, seats);
            var levels := Sorted(LevelSet(seats));
            && |layered| == |levels|
            && PriceUpTo(levels, k) < levels[k]
            && layered[k].amount == (levels[k] - PriceUpTo(levels, k)) * Reaching(seats, levels[k])
            && (forall id :: id in layered[k].eligible <==> Claims(seats, levels[k], id))
            && (layered[k].isMain <==> k == 0)
  {
    var levels := Sorted(LevelSet(seats));
    assert levels[0] in LevelSet(seats);
    LayerAt(seats, levels, 0, true, k);
    PaidUpIsClaims(seats, levels[k]);
  }

  /** With fewer than two players left, or with equal stakes, one main pot holds everything for whoever is left. */
  lemma UnlayeredPot(pots: seq<Pot>, seats: seq<Seat>)
    requires |PaidUp(seats, 0)| <= 1 || |LevelSet(seats)| <= 1
    ensures |SidePots(pots, seats)| == 1
    ensures var pot := SidePots(pots, seats)[0];
            && pot.amount == PotTotal(pots) && pot.isMain
            && forall id :: id in pot.eligible <==> exists s :: s in seats && s.id == id && !s.folded
  {
    hide LevelSet;
    PaidUpIsClaims(seats, 0);
    forall id
      ensures Claims(seats, 0, id) <==> exists s :: s in seats && s.id == id && !s.folded
    {
    }
  }

  lemma PaidUpIsClaims(seats: seq<Seat>, level: nat)
    ensures forall id :: id in PaidUp(seats, level) <==> Claims(seats, level, id)
  {
    forall id
      ensures id in PaidUp(seats, level) <==> Claims(seats, level, id)
    {
      PaidUpIff(seats, level, id);
    }
  }

  /** Whoever may win a later pot may win every earlier one. */
  lemma LayersNest(pots: seq<Pot>, seats: seq<Seat>, k: nat, j: nat)
    requires |PaidUp(seats, 0)| >= 2 && |LevelSet(seats)| >= 2
    requires k <= j < |SidePots(pots, seats)|
    ensures forall id :: id in SidePots(pots, seats)[j].eligible ==> id in SidePots(pots, seats)[k].eligible
  {
    LayerMeaning(pots, seats, 0);
    LayerMeaning(pots, seats, j);
    LayerMeaning(pots, seats, k);
  }

  lemma SidePotsIdempotent(pots: seq<Pot>, seats: seq<Seat>)
    ensures SidePots(SidePots(pots, seats), seats) == SidePots(pots, seats)
  {
    if |PaidUp(seats, 0)| <= 1 || |LevelSet(seats)| <= 1 {
      OnePotTotal(Pot(PotTotal(pots), PaidUp(seats, 0), true));
    }
  }

  /** Some unfolded seat has put in as much as anyone at the table. */
  ghost predicate UnfoldedHoldsTop(seats: seq<Seat>) {
    exists w :: 0 <= w < |seats| && !seats[w].folded
             && forall k :: 0 <= k < |seats| ==> seats[k].total <= seats[w].total
  }

  lemma ClaimantsWhenTopUnfolded(pots: seq<Pot>, seats: seq<Seat>, k: nat)
    requires |PaidUp(seats, 0)| >= 2 && |LevelSet(seats)| >= 2
    requires UnfoldedHoldsTop(seats)
    requires k < |SidePots(pots, seats)|
    ensures SidePots(pots, seats)[k].eligible != []
  {
    LayerMeaning(pots, seats, 0);
    LayerMeaning(pots, seats, k);
    var levels := Sorted(LevelSet(seats));
    var w :| 0 <= w < |seats| && !seats[w].folded && forall j :: 0 <= j < |seats| ==> seats[j].total <= seats[w].total;
    assert levels[k] in LevelSet(seats);
    assert seats[w] in seats && Claims(seats, levels[k], seats[w].id);
  }

  lemma TopClaimantHoldsTop(seats: seq<Seat>, level: nat, id: PlayerId)
    requires forall s :: s in seats ==> s.total <= level
    requires Claims(seats, level, id)
    ensures UnfoldedHoldsTop(seats)
  {
    var u :| u in seats && !u.folded && u.total >= level;
    var w :| 0 <= w < |seats| && seats[w] == u;
    assert forall j :: 0 <= j < |seats| ==> seats[j] in seats && seats[j].total <= seats[w].total;
  }

  lemma ProductPositive(a: nat, b: nat)
    requires a > 0 && b > 0
    ensures a * b > 0
  {
  }

  lemma TopLevelIsReached(seats: seq<Seat>)
    requires LevelSet(seats) != {}
    ensures var levels := Sorted(LevelSet(seats)); levels != [] && Reaching(seats, levels[|levels| - 1]) > 0
  {
    var levels := Sorted(LevelSet(seats));
    TopLevel(seats);
    var s :| s in seats && s.total == levels[|levels| - 1];
    ReachingPositive(seats, s.total, s);
  }

  lemma TopPotHasMoney(pots: seq<Pot>, seats: seq<Seat>)
    requires |PaidUp(seats, 0)| >= 2 && |LevelSet(seats)| >= 2
    ensures |SidePots(pots, seats)| == |LevelSet(seats)|
    ensures SidePots(pots, seats)[|LevelSet(seats)| - 1].amount > 0
  {
    hide SidePots, PaidUp, Reaching, LevelSet, Claims;
    var levels := Sorted(LevelSet(seats));
    var last := |levels| - 1;
    LayerMeaning(pots, seats, last);
    TopLevelIsReached(seats);
    ProductPositive(levels[last] - PriceUpTo(levels, last), Reaching(seats, levels[last]));
  }

  lemma NoClaimantWhenTopFolded(pots: seq<Pot>, seats: seq<Seat>)
    requires |PaidUp(seats, 0)| >= 2 && |LevelSet(seats)| >= 2
    requires !UnfoldedHoldsTop(seats)
    ensures |SidePots(pots, seats)| == |LevelSet(seats)|
    ensures SidePots(pots, seats)[|LevelSet(seats)| - 1].eligible == []
  {
    var levels := Sorted(LevelSet(seats));
    var last := |levels| - 1;
    LayerMeaning(pots, seats, last);
    TopLevel(seats);
    var pot := SidePots(pots, seats)[last];
    if pot.eligible != [] {
      assert pot.eligible[0] in pot.eligible;
      TopClaimantHoldsTop(seats, levels[last], pot.eligible[0]);
    }
  }

  /**
   * With two or more levels, money nobody may win is left in the pots exactly when some folded seat put in more
   * than every unfolded one.
   */
  lemma EveryPotHasAClaimant(pots: seq<Pot>, seats: seq<Seat>)
    requires |PaidUp(seats, 0)| >= 2
    ensures (forall k :: 0 <= k < |SidePots(pots, seats)| && SidePots(pots, seats)[k].amount > 0
                     ==> SidePots(pots, seats)[k].eligible != [])
       <==> (|LevelSet(seats)| <= 1 || UnfoldedHoldsTop(seats))
  {
    if |LevelSet(seats)| >= 2 {
      if UnfoldedHoldsTop(seats) {
        forall k | 0 <= k < |SidePots(pots, seats)|
          ensures SidePots(pots, seats)[k].eligible != []
        {
          ClaimantsWhenTopUnfolded(pots, seats, k);
        }
      } else {
        NoClaimantWhenTopFolded(pots, seats);
        TopPotHasMoney(pots, seats);
      }
    }
  }

  lemma {:induction false} ReachingPositive(seats: seq<Seat>, level: nat, s: Seat)
    requires s in seats && s.total >= level
    ensures Reaching(seats, level) > 0
  {
    if seats[0] != s {
      ReachingPositive(seats[1..], level, s);
    }
  }
}
