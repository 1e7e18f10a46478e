/** Paying the pots: even splits with odd chips, and the three distribution routines compared. */
module PotShares {
  import opened Util
  import opened Players
  import opened PotLayers

  datatype Contender = Contender(player: PlayerId, strength: nat)

  datatype Share = Share(player: PlayerId, amount: nat, pot: nat)

  /** Either every pot is paid, or the pot that made the routine throw. */
  datatype Distribution = Distributed(shares: seq<Share>) | NoRecipient(pot: nat)

  function AmountsOf(shares: seq<Share>): (xs: seq<nat>)
    ensures |xs| == |shares|
    ensures forall k :: 0 <= k < |shares| ==> xs[k] == shares[k].amount
  {
    seq(|shares|, k requires 0 <= k < |shares| => shares[k].amount)
  }

  function Paid(shares: seq<Share>): nat {
    Sum(AmountsOf(shares))
  }

  // ----- one pot -----

  function Portion(amount: nat, count: nat, k: nat): nat
    requires count > 0
  {
    amount / count + if k < amount % count then 1 else 0
  }

  /** Equal portions, the first `amount % |ids|` of them one chip larger. */
  function Split(amount: nat, ids: seq<PlayerId>, pot: nat): (shares: seq<Share>)
    requires ids != []
    ensures |shares| == |ids|
    ensures forall k :: 0 <= k < |ids| ==> shares[k] == Share(ids[k], Portion(amount, |ids|, k), pot)
  {
    seq(|ids|, k requires 0 <= k < |ids| => Share(ids[k], Portion(amount, |ids|, k), pot))
  }

  lemma {:induction false} SumOfPortions(base: nat, odd: nat, xs: seq<nat>)
    requires forall k :: 0 <= k < |xs| ==> xs[k] == base + if k < odd then 1 else 0
    ensures Sum(xs) == |xs| * base + Min(odd, |xs|)
  {
    if xs != [] {
      SumOfPortions(base, if odd == 0 then 0 else odd - 1, xs[1..]);
      assert |xs| * base == base + (|xs| - 1) * base;
    }
  }

  lemma SplitPaysExactly(amount: nat, ids: seq<PlayerId>, pot: nat)
    requires ids != []
    ensures Paid(Split(amount, ids, pot)) == amount
  {
    SumOfPortions(amount / |ids|, amount % |ids|, AmountsOf(Split(amount, ids, pot)));
  }

  /** The ids of `ids` that also occur in `allowed`, in the order of `ids`. */
  function Among(ids: seq<PlayerId>, allowed: seq<PlayerId>): seq<PlayerId> {
    if ids == [] then []
    else (if ids[0] in allowed then [ids[0]] else []) + Among(ids[1..], allowed)
  }

  lemma {:induction false} AmongIff(ids: seq<PlayerId>, allowed: seq<PlayerId>)
    ensures forall id :: id in Among(ids, allowed) <==> id in ids && id in allowed
  {
    if ids != [] {
      AmongIff(ids[1..], allowed);
      assert ids == [ids[0]] + ids[1..];
    }
  }

  function OfStrength(contenders: seq<Contender>, strength: nat): seq<PlayerId> {
    if contenders == [] then []
    else (if contenders[0].strength == strength then [contenders[0].player] else [])
         + OfStrength(contenders[1..], strength)
  }

  lemma {:induction false} OfStrengthIff(contenders: seq<Contender>, strength: nat)
    ensures forall id :: id in OfStrength(contenders, strength) <==> Contender(id, strength) in contenders
  {
    if contenders != [] {
      OfStrengthIff(contenders[1..], strength);
      assert contenders == [contenders[0]] + contenders[1..];
    }
  }

  /** The greatest strength of a contender that may win the pot, if there is one. */
  function TopStrength(contenders: seq<Contender>, eligible: seq<PlayerId>): Option<nat> {
    if contenders == [] then None
    else
      var rest := TopStrength(contenders[1..], eligible);
      if contenders[0].player in eligible && (rest == None || rest.value < contenders[0].strength)
      then Some(contenders[0].strength)
      else rest
  }

  lemma {:induction false} TopStrengthIsGreatest(contenders: seq<Contender>, eligible: seq<PlayerId>)
    ensures var top := TopStrength(contenders, eligible);
            && (top.Some? <==> exists c :: c in contenders && c.player in eligible)
            && (top.Some? ==> exists c :: c in contenders && c.player in eligible && c.strength == top.value)
            && (forall c :: c in contenders && c.player in eligible ==> c.strength <= top.value)
  {
    if contenders != [] {
      var rest := contenders[1..];
      TopStrengthIsGreatest(rest, eligible);
      assert forall c :: c in contenders <==> c == contenders[0] || c in rest;
    }
  }

  /** The strongest contenders that may win the pot, in the order they were listed. */
  function Best(contenders: seq<Contender>, eligible: seq<PlayerId>): seq<PlayerId> {
    match TopStrength(contenders, eligible)
    case None => []
    case Some(top) => Among(OfStrength(contenders, top), eligible)
  }

  /** A player is among the best exactly when eligible, and no eligible contender is stronger. */
  lemma BestIff(contenders: seq<Contender>, eligible: seq<PlayerId>, id: PlayerId)
    ensures id in Best(contenders, eligible)
        <==> && id in eligible
             && exists c :: c in contenders && c.player == id
                         && forall d :: d in contenders && d.player in eligible ==> d.strength <= c.strength
  {
    TopStrengthIsGreatest(contenders, eligible);
    match TopStrength(contenders, eligible) {
      case None =>
      case Some(top) =>
        OfStrengthIff(contenders, top);
        AmongIff(OfStrength(contenders, top), eligible);
        if id in Best(contenders, eligible) {
          assert Contender(id, top) in contenders;
        }
    }
  }

  lemma BestIsEmptyIff(contenders: seq<Contender>, eligible: seq<PlayerId>)
    ensures Best(contenders, eligible) == [] <==> forall c :: c in contenders ==> c.player !in eligible
  {
    TopStrengthIsGreatest(contenders, eligible);
    if TopStrength(contenders, eligible).Some? {
      var top := TopStrength(contenders, eligible).value;
      var c :| c in contenders && c.player in eligible && c.strength == top;
      assert c == Contender(c.player, top);
      OfStrengthIff(contenders, top);
      AmongIff(OfStrength(contenders, top), eligible);
      assert c.player in Best(contenders, eligible);
    }
  }

  /** Who is paid from a pot: the best hands, or else any remaining eligible players. */
  function Recipients(pot: Pot, contenders: seq<Contender>, remaining: Option<seq<PlayerId>>): seq<PlayerId> {
    var best := Best(contenders, pot.eligible);
    if best != [] then best
    else if pot.amount > 0 && remaining.Some? then Among(pot.eligible, remaining.value)
    else []
  }

  /** The shares of one pot; none when nobody receives it. */
  function Piece(amount: nat, ids: seq<PlayerId>, pot: nat): seq<Share> {
    if ids == [] then [] else Split(amount, ids, pot)
  }

  // ----- simulateDistribution: from the last pot to the first -----

  function SimulateFrom(pots: seq<Pot>, contenders: seq<Contender>, remaining: Option<seq<PlayerId>>, n: nat): Distribution
    requires n <= |pots|
  {
    if n == 0 then Distributed([])
    else
      var ids := Recipients(pots[n - 1], contenders, remaining);
      if ids == [] && pots[n - 1].amount > 0 then NoRecipient(n - 1)
      else Preceded(Piece(pots[n - 1].amount, ids, n - 1), SimulateFrom(pots, contenders, remaining, n - 1))
  }

  function Preceded(shares: seq<Share>, rest: Distribution): Distribution {
    match rest
    case Distributed(more) => Distributed(shares + more)
    case NoRecipient(pot) => NoRecipient(pot)
  }

  function Simulate(pots: seq<Pot>, contenders: seq<Contender>, remaining: Option<seq<PlayerId>>): Distribution {
    SimulateFrom(pots, contenders, remaining, |pots|)
  }

  /** The routine throws exactly when some pot with money has no recipient. */
  lemma {:induction false} SimulateThrowsIff(pots: seq<Pot>, contenders: seq<Contender>, remaining: Option<seq<PlayerId>>, n: nat)
    requires n <= |pots|
    ensures SimulateFrom(pots, contenders, remaining, n).NoRecipient?
       <==> exists k :: 0 <= k < n && pots[k].amount > 0 && Recipients(pots[k], contenders, remaining) == []
  {
    hide Recipients, Piece;
    if n > 0 {
      SimulateThrowsIff(pots, contenders, remaining, n - 1);
    }
  }

  function PaidForPot(shares: seq<Share>, pot: nat): nat {
    if shares == [] then 0
    else (if shares[0].pot == pot then shares[0].amount else 0) + PaidForPot(shares[1..], pot)
  }

  lemma {:induction false} PaidForPotConcat(xs: seq<Share>, ys: seq<Share>, pot: nat)
    ensures PaidForPot(xs + ys, pot) == PaidForPot(xs, pot) + PaidForPot(ys, pot)
  {
    if xs == [] {
      assert xs + ys == ys;
    } else {
      assert (xs + ys)[1..] == xs[1..] + ys;
      PaidForPotConcat(xs[1..], ys, pot);
    }
  }

  lemma {:induction false} PaidForOnePot(shares: seq<Share>, own: nat, pot: nat)
    requires forall s :: s in shares ==> s.pot == own
    ensures PaidForPot(shares, pot) == if pot == own then Paid(shares) else 0
  {
    if shares != [] {
      assert shares[0] in shares;
      assert AmountsOf(shares)[1..] == AmountsOf(shares[1..]);
      PaidForOnePot(shares[1..], own, pot);
    }
  }

  lemma PiecePaysExactly(amount: nat, ids: seq<PlayerId>, pot: nat)
    requires ids == [] ==> amount == 0
    ensures Paid(Piece(amount, ids, pot)) == amount
  {
    if ids != [] {
      SplitPaysExactly(amount, ids, pot);
    }
  }

  lemma PieceForPot(amount: nat, ids: seq<PlayerId>, own: nat, pot: nat)
    requires ids == [] ==> amount == 0
    ensures PaidForPot(Piece(amount, ids, own), pot) == if pot == own then amount else 0
  {
    if ids != [] {
      var shares := Split(amount, ids, own);
      PaidForOnePot(shares, own, pot);
      SplitPaysExactly(amount, ids, own);
    }
  }

  /** Each pot is paid out to the chip. */
  lemma {:induction false} SimulatePaysEachPot(pots: seq<Pot>, contenders: seq<Contender>, remaining: Option<seq<PlayerId>>,
                                               n: nat, pot: nat)
    requires n <= |pots|
    ensures SimulateFrom(pots, contenders, remaining, n).Distributed?
        ==> PaidForPot(SimulateFrom(pots, contenders, remaining, n).shares, pot) == if pot < n then pots[pot].amount else 0
  {
    hide Recipients, Piece;
    if n > 0 && SimulateFrom(pots, contenders, remaining, n).Distributed? {
      var rest := SimulateFrom(pots, contenders, remaining, n - 1);
      var ids := Recipients(pots[n - 1], contenders, remaining);
      SimulatePaysEachPot(pots, contenders, remaining, n - 1, pot);
      PieceForPot(pots[n - 1].amount, ids, n - 1, pot);
      PaidForPotConcat(Piece(pots[n - 1].amount, ids, n - 1), rest.shares, pot);
    }
  }

  lemma PaidConcat(xs: seq<Share>, ys: seq<Share>)
    ensures Paid(xs + ys) == Paid(xs) + Paid(ys)
  {
    assert AmountsOf(xs + ys) == AmountsOf(xs) + AmountsOf(ys);
    SumConcat(AmountsOf(xs), AmountsOf(ys));
  }

  lemma {:induction false} SimulatePaysAllUpTo(pots: seq<Pot>, contenders: seq<Contender>, remaining: Option<seq<PlayerId>>, n: nat)
    requires n <= |pots|
    ensures SimulateFrom(pots, contenders, remaining, n).Distributed?
        ==> Paid(SimulateFrom(pots, contenders, remaining, n).shares) == PotTotal(pots[..n])
  {
    hide Recipients, Piece;
    if n > 0 && SimulateFrom(pots, contenders, remaining, n).Distributed? {
      var rest := SimulateFrom(pots, contenders, remaining, n - 1);
      var ids := Recipients(pots[n - 1], contenders, remaining);
      var mine := Piece(pots[n - 1].amount, ids, n - 1);
      SimulatePaysAllUpTo(pots, contenders, remaining, n - 1);
      PaidConcat(mine, rest.shares);
      PiecePaysExactly(pots[n - 1].amount, ids, n - 1);
      assert Amounts(pots[..n]) == Amounts(pots[..n - 1]) + [pots[n - 1].amount];
      SumConcat(Amounts(pots[..n - 1]), [pots[n - 1].amount]);
      SumOne(pots[n - 1].amount);
    }
  }

  /** Nothing is left in the pots and nothing is paid that was not in them. */
  lemma SimulatePaysAll(pots: seq<Pot>, contenders: seq<Contender>, remaining: Option<seq<PlayerId>>)
    requires Simulate(pots, contenders, remaining).Distributed?
    ensures Paid(Simulate(pots, contenders, remaining).shares) == PotTotal(pots)
  {
    SimulatePaysAllUpTo(pots, contenders, remaining, |pots|);
    assert pots[..|pots|] == pots;
  }

  /** Every share goes to a recipient of its pot, and is the even portion or one chip more. */
  lemma {:induction false} SimulatePaysRecipients(pots: seq<Pot>, contenders: seq<Contender>, remaining: Option<seq<PlayerId>>,
                                                  n: nat, s: Share)
    requires n <= |pots|
    ensures var r := SimulateFrom(pots, contenders, remaining, n);
            r.Distributed? && s in r.shares ==>
              && s.pot < n
              && var ids := Recipients(pots[s.pot], contenders, remaining);
                 s.player in ids && pots[s.pot].amount / |ids| <= s.amount <= pots[s.pot].amount / |ids| + 1
  {
    hide Recipients;
    if n > 0 && SimulateFrom(pots, contenders, remaining, n).Distributed? {
      var rest := SimulateFrom(pots, contenders, remaining, n - 1);
      SimulatePaysRecipients(pots, contenders, remaining, n - 1, s);
      if s in SimulateFrom(pots, contenders, remaining, n).shares && s !in rest.shares {
        assert s in Piece(pots[n - 1].amount, Recipients(pots[n - 1], contenders, remaining), n - 1);
      }
    }
  }

  // ----- how many shares a player gets -----

  /** The shares of this pot that go to this player. */
  function SharesTo(shares: seq<Share>, id: PlayerId, pot: nat): nat {
    if shares == [] then 0
    else (if shares[0].player == id && shares[0].pot == pot then 1 else 0) + SharesTo(shares[1..], id, pot)
  }

  /** What those shares add up to. */
  function Received(shares: seq<Share>, id: PlayerId, pot: nat): nat {
    if shares == [] then 0
    else (if shares[0].player == id && shares[0].pot == pot then shares[0].amount else 0) + Received(shares[1..], id, pot)
  }

  lemma {:induction false} SharesToConcat(xs: seq<Share>, ys: seq<Share>, id: PlayerId, pot: nat)
    ensures SharesTo(xs + ys, id, pot) == SharesTo(xs, id, pot) + SharesTo(ys, id, pot)
    ensures Received(xs + ys, id, pot) == Received(xs, id, pot) + Received(ys, id, pot)
  {
    if xs == [] {
      assert xs + ys == ys;
    } else {
      assert (xs + ys)[1..] == xs[1..] + ys;
      SharesToConcat(xs[1..], ys, id, pot);
    }
  }

  lemma {:induction false} SharesToIff(shares: seq<Share>, id: PlayerId, pot: nat)
    ensures SharesTo(shares, id, pot) > 0 <==> exists s :: s in shares && s.player == id && s.pot == pot
  {
    if shares != [] {
      SharesToIff(shares[1..], id, pot);
      assert forall s :: s in shares <==> s == shares[0] || s in shares[1..];
    }
  }

  /** Shares handed out along a list of players: one for each time a player is listed, between `base` and one more. */
  lemma {:induction false} SharesAlong(shares: seq<Share>, ids: seq<PlayerId>, own: nat, base: nat, id: PlayerId, pot: nat)
    requires |shares| == |ids|
    requires forall k :: 0 <= k < |ids|
               ==> shares[k].player == ids[k] && shares[k].pot == own && base <= shares[k].amount <= base + 1
    ensures var listed := if pot == own then multiset(ids)[id] else 0;
            && SharesTo(shares, id, pot) == listed
            && listed * base <= Received(shares, id, pot) <= listed * base + listed
  {
    if ids != [] {
      SharesAlong(shares[1..], ids[1..], own, base, id, pot);
      assert ids == [ids[0]] + ids[1..];
      assert multiset(ids) == multiset{ids[0]} + multiset(ids[1..]);
      var rest := multiset(ids[1..])[id];
      assert (rest + 1) * base == rest * base + base;
    }
  }

  lemma PieceSharesTo(amount: nat, ids: seq<PlayerId>, own: nat, id: PlayerId, pot: nat)
    ensures var listed := if pot == own then multiset(ids)[id] else 0;
            && SharesTo(Piece(amount, ids, own), id, pot) == listed
            && (ids != [] ==>
                  listed * (amount / |ids|) <= Received(Piece(amount, ids, own), id, pot)
                                            <= listed * (amount / |ids|) + listed)
  {
    if ids != [] {
      SharesAlong(Split(amount, ids, own), ids, own, amount / |ids|, id, pot);
    }
  }

  /** Every recipient of a pot gets a share of it for each time listed, and nobody else gets one. */
  lemma {:induction false} SharesMatchRecipients(pots: seq<Pot>, contenders: seq<Contender>, remaining: Option<seq<PlayerId>>,
                                                 n: nat, id: PlayerId, pot: nat)
    requires n <= |pots|
    ensures SimulateFrom(pots, contenders, remaining, n).Distributed?
        ==> SharesTo(SimulateFrom(pots, contenders, remaining, n).shares, id, pot)
            == if pot < n then multiset(Recipients(pots[pot], contenders, remaining))[id] else 0
  {
    hide Recipients, Piece;
    if n > 0 && SimulateFrom(pots, contenders, remaining, n).Distributed? {
      var rest := SimulateFrom(pots, contenders, remaining, n - 1);
      var ids := Recipients(pots[n - 1], contenders, remaining);
      SharesMatchRecipients(pots, contenders, remaining, n - 1, id, pot);
      PieceSharesTo(pots[n - 1].amount, ids, n - 1, id, pot);
      SharesToConcat(Piece(pots[n - 1].amount, ids, n - 1), rest.shares, id, pot);
    }
  }

  /** No recipient is left out: each holds a share of its pot, no smaller than the even portion. */
  lemma EveryRecipientIsPaid(pots: seq<Pot>, contenders: seq<Contender>, remaining: Option<seq<PlayerId>>,
                             n: nat, pot: nat, id: PlayerId)
    requires n <= |pots| && pot < n && id in Recipients(pots[pot], contenders, remaining)
    ensures SimulateFrom(pots, contenders, remaining, n).Distributed?
        ==> exists s :: s in SimulateFrom(pots, contenders, remaining, n).shares && s.player == id && s.pot == pot
                        && s.amount >= pots[pot].amount / |Recipients(pots[pot], contenders, remaining)|
  {
    hide Recipients, SimulateFrom;
    if SimulateFrom(pots, contenders, remaining, n).Distributed? {
      var shares := SimulateFrom(pots, contenders, remaining, n).shares;
      SharesMatchRecipients(pots, contenders, remaining, n, id, pot);
      SharesToIff(shares, id, pot);
      var s :| s in shares && s.player == id && s.pot == pot;
      SimulatePaysRecipients(pots, contenders, remaining, n, s);
    }
  }

  // ----- recipients are listed once -----

  lemma {:induction false} AmongDistinct(ids: seq<PlayerId>, allowed: seq<PlayerId>)
    requires NoDuplicates(ids)
    ensures NoDuplicates(Among(ids, allowed))
  {
    if ids != [] {
      var rest := ids[1..];
      assert forall k :: 0 <= k < |rest| ==> rest[k] == ids[k + 1];
      AmongDistinct(rest, allowed);
      AmongIff(rest, allowed);
      assert ids[0] !in Among(rest, allowed);
    }
  }

  ghost predicate DistinctPlayers(contenders: seq<Contender>) {
    forall i, j :: 0 <= i < j < |contenders| ==> contenders[i].player != contenders[j].player
  }

  lemma {:induction false} OfStrengthDistinct(contenders: seq<Contender>, strength: nat)
    requires DistinctPlayers(contenders)
    ensures NoDuplicates(OfStrength(contenders, strength))
  {
    if contenders != [] {
      var rest := contenders[1..];
      assert forall k :: 0 <= k < |rest| ==> rest[k] == contenders[k + 1];
      OfStrengthDistinct(rest, strength);
      OfStrengthIff(rest, strength);
      assert contenders[0].player !in OfStrength(rest, strength);
    }
  }

  lemma RecipientsDistinct(pot: Pot, contenders: seq<Contender>, remaining: Option<seq<PlayerId>>)
    requires DistinctPlayers(contenders) && NoDuplicates(pot.eligible)
    ensures NoDuplicates(Recipients(pot, contenders, remaining))
  {
    match TopStrength(contenders, pot.eligible) {
      case None =>
      case Some(top) =>
        OfStrengthDistinct(contenders, top);
        AmongDistinct(OfStrength(contenders, top), pot.eligible);
    }
    if remaining.Some? {
      AmongDistinct(pot.eligible, remaining.value);
    }
  }

  lemma RecipientsAreEligible(pot: Pot, contenders: seq<Contender>, remaining: Option<seq<PlayerId>>, id: PlayerId)
    requires id in Recipients(pot, contenders, remaining)
    ensures id in pot.eligible
  {
    BestIff(contenders, pot.eligible, id);
    if remaining.Some? {
      AmongIff(pot.eligible, remaining.value);
    }
  }

  // ----- what one player is paid -----

  function Won(shares: seq<Share>, id: PlayerId): nat {
    if shares == [] then 0
    else (if shares[0].player == id then shares[0].amount else 0) + Won(shares[1..], id)
  }

  lemma {:induction false} WonConcat(xs: seq<Share>, ys: seq<Share>, id: PlayerId)
    ensures Won(xs + ys, id) == Won(xs, id) + Won(ys, id)
  {
    if xs == [] {
      assert xs + ys == ys;
    } else {
      assert (xs + ys)[1..] == xs[1..] + ys;
      WonConcat(xs[1..], ys, id);
    }
  }

  lemma {:induction false} WonBound(shares: seq<Share>, id: PlayerId)
    ensures Won(shares, id) <= Paid(shares)
    ensures (forall s :: s in shares ==> s.player != id) ==> Won(shares, id) == 0
  {
    if shares != [] {
      assert AmountsOf(shares)[1..] == AmountsOf(shares[1..]);
      assert shares[0] in shares;
      WonBound(shares[1..], id);
    }
  }

  lemma WonFromPiece(pot: Pot, ids: seq<PlayerId>, index: nat, id: PlayerId)
    requires forall i :: i in ids ==> i in pot.eligible
    ensures Won(Piece(pot.amount, ids, index), id) <= if id in pot.eligible then pot.amount else 0
  {
    if ids != [] {
      var shares := Split(pot.amount, ids, index);
      SplitPaysExactly(pot.amount, ids, index);
      WonBound(shares, id);
      forall s | s in shares
        ensures s.player in pot.eligible
      {
        var k :| 0 <= k < |shares| && shares[k] == s;
        assert ids[k] in ids;
      }
    }
  }

  lemma {:induction false} EligibleTotalConcat(xs: seq<Pot>, ys: seq<Pot>, id: PlayerId)
    ensures EligibleTotal(xs + ys, id) == EligibleTotal(xs, id) + EligibleTotal(ys, id)
  {
    if xs == [] {
      assert xs + ys == ys;
    } else {
      assert (xs + ys)[1..] == xs[1..] + ys;
      EligibleTotalConcat(xs[1..], ys, id);
    }
  }

  /** Nobody is paid more than the pots they may win hold. */
  lemma {:induction false} WonAtMostEligible(pots: seq<Pot>, contenders: seq<Contender>, remaining: Option<seq<PlayerId>>,
                                             n: nat, id: PlayerId)
    requires n <= |pots|
    ensures SimulateFrom(pots, contenders, remaining, n).Distributed?
        ==> Won(SimulateFrom(pots, contenders, remaining, n).shares, id) <= EligibleTotal(pots[..n], id)
  {
    hide Recipients, Piece;
    if n > 0 && SimulateFrom(pots, contenders, remaining, n).Distributed? {
      var rest := SimulateFrom(pots, contenders, remaining, n - 1);
      var pot := pots[n - 1];
      var ids := Recipients(pot, contenders, remaining);
      WonAtMostEligible(pots, contenders, remaining, n - 1, id);
      forall i | i in ids
        ensures i in pot.eligible
      {
        RecipientsAreEligible(pot, contenders, remaining, i);
      }
      WonFromPiece(pot, ids, n - 1, id);
      WonConcat(Piece(pot.amount, ids, n - 1), rest.shares, id);
      assert pots[..n] == pots[..n - 1] + [pot];
      EligibleTotalConcat(pots[..n - 1], [pot], id);
      assert [pot][1..] == [];
    }
  }

  /** After `createSidePots`, an unfolded player never takes more than everyone put in up to their own contribution. */
  lemma WonAtMostMatched(pots: seq<Pot>, seats: seq<Seat>, contenders: seq<Contender>,
                         remaining: Option<seq<PlayerId>>, w: nat)
    requires PotTotal(pots) == Sum(Totals(seats))
    requires UniqueIds(seats) && w < |seats| && !seats[w].folded
    requires |PaidUp(seats, 0)| >= 2
    requires |LevelSet(seats)| != 1 || seats[w].total > 0
    requires Simulate(SidePots(pots, seats), contenders, remaining).Distributed?
    ensures Won(Simulate(SidePots(pots, seats), contenders, remaining).shares, seats[w].id)
         <= Sum(Matched(seats, 0, seats[w].total))
  {
    hide SidePots, SimulateFrom, EligibleTotal;
    var layered := SidePots(pots, seats);
    WonAtMostEligible(layered, contenders, remaining, |layered|, seats[w].id);
    assert layered[..|layered|] == layered;
    MatchedShare(pots, seats, w);
  }

  // ----- distributePots: from the first pot to the last -----

  datatype PotWinner = PotWinner(player: PlayerId, potIndices: set<nat>, position: int)

  function WinnersOf(winners: seq<PotWinner>, pot: nat): seq<PotWinner> {
    if winners == [] then []
    else (if pot in winners[0].potIndices then [winners[0]] else []) + WinnersOf(winners[1..], pot)
  }

  function Ids(winners: seq<PotWinner>): (ids: seq<PlayerId>)
    ensures |ids| == |winners|
    ensures forall k :: 0 <= k < |ids| ==> ids[k] == winners[k].player
  {
    seq(|winners|, k requires 0 <= k < |winners| => winners[k].player)
  }

  function DistributeUpTo(pots: seq<Pot>, winners: seq<PotWinner>, n: nat): seq<Share>
    requires n <= |pots|
  {
    if n == 0 then []
    else DistributeUpTo(pots, winners, n - 1) + Piece(pots[n - 1].amount, Ids(WinnersOf(winners, n - 1)), n - 1)
  }

  /**
   * The two routines pay the same shares when the winners handed to `distributePots` are each pot's best hands
   * and no pot with money lacks one.
   */
  lemma {:induction false} RoutinesAgree(pots: seq<Pot>, contenders: seq<Contender>, remaining: Option<seq<PlayerId>>,
                                         winners: seq<PotWinner>, n: nat)
    requires n <= |pots|
    requires forall k :: 0 <= k < n ==> Ids(WinnersOf(winners, k)) == Best(contenders, pots[k].eligible)
    requires forall k :: 0 <= k < n && pots[k].amount > 0 ==> Best(contenders, pots[k].eligible) != []
    ensures SimulateFrom(pots, contenders, remaining, n).Distributed?
    ensures multiset(SimulateFrom(pots, contenders, remaining, n).shares) == multiset(DistributeUpTo(pots, winners, n))
  {
    hide WinnersOf, Best, Piece;
    if n > 0 {
      RoutinesAgree(pots, contenders, remaining, winners, n - 1);
      assert Recipients(pots[n - 1], contenders, remaining) == Ids(WinnersOf(winners, n - 1));
    }
  }

  // ----- distributePotsWithPosition -----

  /** Insertion before the first winner of no later position, so that equal positions keep their order. */
  function InsertByPosition(w: PotWinner, sorted: seq<PotWinner>): seq<PotWinner> {
    if sorted == [] || w.position >= sorted[0].position then [w] + sorted
    else [sorted[0]] + InsertByPosition(w, sorted[1..])
  }

  /** Stable sort by descending position. */
  function ByPosition(winners: seq<PotWinner>): seq<PotWinner> {
    if winners == [] then [] else InsertByPosition(winners[0], ByPosition(winners[1..]))
  }

  ghost predicate LatestFirst(winners: seq<PotWinner>) {
    forall i, j :: 0 <= i < j < |winners| ==> winners[i].position >= winners[j].position
  }

  lemma {:induction false} InsertKeepsWinners(w: PotWinner, sorted: seq<PotWinner>)
    ensures multiset(InsertByPosition(w, sorted)) == multiset(sorted) + multiset{w}
  {
    if sorted != [] && w.position < sorted[0].position {
      InsertKeepsWinners(w, sorted[1..]);
      assert sorted == [sorted[0]] + sorted[1..];
    }
  }

  lemma {:induction false} InsertKeepsOrder(w: PotWinner, sorted: seq<PotWinner>)
    requires LatestFirst(sorted)
    ensures LatestFirst(InsertByPosition(w, sorted))
  {
    if sorted != [] && w.position < sorted[0].position {
      InsertKeepsOrder(w, sorted[1..]);
      InsertKeepsWinners(w, sorted[1..]);
      LatestStaysFirst(sorted, w, InsertByPosition(w, sorted[1..]));
    }
  }

  lemma LatestStaysFirst(sorted: seq<PotWinner>, w: PotWinner, tail: seq<PotWinner>)
    requires sorted != [] && LatestFirst(sorted) && w.position < sorted[0].position
    requires LatestFirst(tail) && multiset(tail) == multiset(sorted[1..]) + multiset{w}
    ensures LatestFirst([sorted[0]] + tail)
  {
    forall k | 0 <= k < |tail|
      ensures sorted[0].position >= tail[k].position
    {
      assert tail[k] in multiset(tail);
      assert tail[k] == w || tail[k] in sorted[1..];
    }
  }

  lemma {:induction false} ByPositionSorts(winners: seq<PotWinner>)
    ensures LatestFirst(ByPosition(winners))
    ensures multiset(ByPosition(winners)) == multiset(winners)
  {
    if winners != [] {
      ByPositionSorts(winners[1..]);
      InsertKeepsOrder(winners[0], ByPosition(winners[1..]));
      InsertKeepsWinners(winners[0], ByPosition(winners[1..]));
      assert winners == [winners[0]] + winners[1..];
    }
  }

  function DistributeByPositionUpTo(pots: seq<Pot>, winners: seq<PotWinner>, n: nat): seq<Share>
    requires n <= |pots|
  {
    if n == 0 then []
    else DistributeByPositionUpTo(pots, winners, n - 1)
         + Piece(pots[n - 1].amount, Ids(ByPosition(WinnersOf(winners, n - 1))), n - 1)
  }

  /** Sorting by position hands the same amounts out in the same sequence, only to other recipients. */
  lemma {:induction false} PositionKeepsAmounts(pots: seq<Pot>, winners: seq<PotWinner>, n: nat)
    requires n <= |pots|
    ensures var plain, sorted := DistributeUpTo(pots, winners, n), DistributeByPositionUpTo(pots, winners, n);
            && |plain| == |sorted|
            && (forall k :: 0 <= k < |plain| ==> plain[k].amount == sorted[k].amount && plain[k].pot == sorted[k].pot)
  {
    hide WinnersOf, ByPosition;
    if n > 0 {
      PositionKeepsAmounts(pots, winners, n - 1);
      ByPositionSorts(WinnersOf(winners, n - 1));
      SameLength(WinnersOf(winners, n - 1), ByPosition(WinnersOf(winners, n - 1)));
    }
  }

  lemma SameLength<T>(xs: seq<T>, ys: seq<T>)
    requires multiset(xs) == multiset(ys)
    ensures |xs| == |ys|
  {
    assert |multiset(xs)| == |xs| && |multiset(ys)| == |ys|;
  }

  /** Within a pot the same winners are paid, the later position never less, and portions differ by one chip at most. */
  lemma PositionPermutesOddChips(amount: nat, winners: seq<PotWinner>, i: nat, j: nat)
    requires i < j < |winners|
    ensures var sorted := ByPosition(winners);
            && multiset(sorted) == multiset(winners) && |sorted| == |winners|
            && sorted[i].position >= sorted[j].position
            && Portion(amount, |sorted|, j) <= Portion(amount, |sorted|, i) <= Portion(amount, |sorted|, j) + 1
  {
    ByPositionSorts(winners);
    SameLength(winners, ByPosition(winners));
  }

  /** What one more pot adds to either routine. */
  lemma ReceivedStep(pots: seq<Pot>, winners: seq<PotWinner>, n: nat, id: PlayerId, pot: nat)
    requires 0 < n <= |pots|
    ensures Received(DistributeUpTo(pots, winners, n), id, pot)
         == Received(DistributeUpTo(pots, winners, n - 1), id, pot)
            + Received(Piece(pots[n - 1].amount, Ids(WinnersOf(winners, n - 1)), n - 1), id, pot)
    ensures Received(DistributeByPositionUpTo(pots, winners, n), id, pot)
         == Received(DistributeByPositionUpTo(pots, winners, n - 1), id, pot)
            + Received(Piece(pots[n - 1].amount, Ids(ByPosition(WinnersOf(winners, n - 1))), n - 1), id, pot)
  {
    hide WinnersOf, ByPosition, Piece, Ids, Received;
    var ids, sorted := Ids(WinnersOf(winners, n - 1)), Ids(ByPosition(WinnersOf(winners, n - 1)));
    SharesToConcat(DistributeUpTo(pots, winners, n - 1), Piece(pots[n - 1].amount, ids, n - 1), id, pot);
    SharesToConcat(DistributeByPositionUpTo(pots, winners, n - 1), Piece(pots[n - 1].amount, sorted, n - 1), id, pot);
  }

  /**
   * Player by player and pot by pot, the two routines pay the same but for odd chips: at most one chip for each time
   * the player is listed among the pot's winners.
   */
  lemma {:induction false} PositionMovesOddChipsOnly(pots: seq<Pot>, winners: seq<PotWinner>, n: nat,
                                                     id: PlayerId, pot: nat)
    requires n <= |pots|
    ensures var plain := Received(DistributeUpTo(pots, winners, n), id, pot);
            var sorted := Received(DistributeByPositionUpTo(pots, winners, n), id, pot);
            -(Listed(winners, id, pot) as int) <= plain - sorted <= Listed(winners, id, pot)
    ensures pot >= n ==> Received(DistributeUpTo(pots, winners, n), id, pot) == 0
                         && Received(DistributeByPositionUpTo(pots, winners, n), id, pot) == 0
  {
    hide WinnersOf, ByPosition, Piece, Ids;
    if n > 0 {
      hide DistributeUpTo, DistributeByPositionUpTo, Received;
      PositionMovesOddChipsOnly(pots, winners, n - 1, id, pot);
      ReceivedStep(pots, winners, n, id, pot);
      SortedPieceReceived(pots[n - 1].amount, WinnersOf(winners, n - 1), n - 1, id, pot);
    }
  }

  /** When no player is listed twice for a pot, the two routines differ by one chip at most. */
  lemma DistinctWinnersDifferByOne(pots: seq<Pot>, winners: seq<PotWinner>, id: PlayerId, pot: nat)
    requires NoDuplicates(Ids(WinnersOf(winners, pot)))
    ensures -1 <= Received(DistributeUpTo(pots, winners, |pots|), id, pot)
                  - Received(DistributeByPositionUpTo(pots, winners, |pots|), id, pot) <= 1
  {
    hide Received, WinnersOf, Ids;
    NoDuplicatesIff(Ids(WinnersOf(winners, pot)));
    PositionMovesOddChipsOnly(pots, winners, |pots|, id, pot);
  }

  /** How often a player is listed among the winners of a pot. */
  function Listed(winners: seq<PotWinner>, id: PlayerId, pot: nat): nat {
    multiset(Ids(WinnersOf(winners, pot)))[id]
  }

  lemma IdsCons(w: PotWinner, rest: seq<PotWinner>)
    ensures multiset(Ids([w] + rest)) == multiset{w.player} + multiset(Ids(rest))
  {
    assert Ids([w] + rest) == [w.player] + Ids(rest);
  }

  lemma {:induction false} InsertKeepsIds(w: PotWinner, sorted: seq<PotWinner>)
    ensures multiset(Ids(InsertByPosition(w, sorted))) == multiset{w.player} + multiset(Ids(sorted))
  {
    hide Ids;
    if sorted == [] || w.position >= sorted[0].position {
      IdsCons(w, sorted);
    } else {
      InsertKeepsIds(w, sorted[1..]);
      IdsCons(sorted[0], InsertByPosition(w, sorted[1..]));
      IdsCons(sorted[0], sorted[1..]);
      assert sorted == [sorted[0]] + sorted[1..];
    }
  }

  lemma {:induction false} ByPositionKeepsIds(winners: seq<PotWinner>)
    ensures multiset(Ids(ByPosition(winners))) == multiset(Ids(winners))
  {
    hide Ids, InsertByPosition;
    if winners != [] {
      ByPositionKeepsIds(winners[1..]);
      InsertKeepsIds(winners[0], ByPosition(winners[1..]));
      IdsCons(winners[0], winners[1..]);
      assert winners == [winners[0]] + winners[1..];
    }
  }

  lemma SortedPieceReceived(amount: nat, winners: seq<PotWinner>, own: nat, id: PlayerId, pot: nat)
    ensures var listed := if pot == own then multiset(Ids(winners))[id] else 0;
            var plain := Received(Piece(amount, Ids(winners), own), id, pot);
            var sorted := Received(Piece(amount, Ids(ByPosition(winners)), own), id, pot);
            && -(listed as int) <= plain - sorted <= listed
            && (pot != own ==> plain == 0 && sorted == 0)
  {
    hide Piece;
    ByPositionSorts(winners);
    SameLength(winners, ByPosition(winners));
    ByPositionKeepsIds(winners);
    PieceSharesTo(amount, Ids(winners), own, id, pot);
    PieceSharesTo(amount, Ids(ByPosition(winners)), own, id, pot);
    if winners == [] {
      NoPiece(amount, own);
      assert Ids(winners) == [] && Ids(ByPosition(winners)) == [];
    }
  }

  lemma NoPiece(amount: nat, own: nat)
    ensures Piece(amount, [], own) == []
  {
  }
}
