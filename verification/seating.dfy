/** Sitting down and leaving: who is taken, where, and which seats have the blinds then. */
module Seating {
  import opened Util
  import opened Players
  import opened Tables

  /** Who is refused a seat and why, in the order the reasons are looked at. */
  lemma WhoIsSeated(t: Table, s: Seat)
    ensures SeatingFor(t, s) == TableFull <==> |t.seats| >= 10
    ensures SeatingFor(t, s) == AlreadySeated
       <==> |t.seats| < 10 && exists k :: 0 <= k < |t.seats| && t.seats[k].id == s.id
    ensures SeatingFor(t, s) == NoChipsToPlay
       <==> |t.seats| < 10 && (forall k :: 0 <= k < |t.seats| ==> t.seats[k].id != s.id) && s.stack == 0
  {
    var i := SeatOf(t.seats, s.id);
    if k :| 0 <= k < |t.seats| && t.seats[k].id == s.id {
      assert i <= k;
    }
  }

  /** The blinds sit left of the button, or on it and left of it when two play; with fewer they stay as they were. */
  ghost predicate BlindsPlaced(before: Table, t: Table) {
    var n := |t.seats|;
    if n < 2 then t.smallBlindSeat == before.smallBlindSeat && t.bigBlindSeat == before.bigBlindSeat
    else
      var button := t.dealer % n;
      && t.smallBlindSeat == (if n == 2 then button else Clockwise(n, button, 1))
      && t.bigBlindSeat == Clockwise(n, t.smallBlindSeat, 1)
  }

  lemma PositionsArePlaced(t: Table)
    ensures BlindsPlaced(t, AssignPositions(t)) && AssignPositions(t).seats == t.seats
  {
    var n := |t.seats|;
    if n >= 2 {
      var button := t.dealer % n;
      SmallRemainder(button + 1, n);
      SmallRemainder(button + 2, n);
      RemainderOfNext(t.dealer, 1, n);
      RemainderOfNext(t.dealer, 2, n);
    }
  }

  lemma Multiples(d: int, n: nat)
    ensures d >= 1 ==> d * n >= n
    ensures d <= -1 ==> d * n <= -(n as int)
  {
    if d >= 1 {
      assert d * n == n + (d - 1) * n;
    } else if d <= -1 {
      assert d * n == (d + 1) * n - n;
    }
  }

  lemma RemainderOfNext(x: nat, k: nat, n: nat)
    requires n > 0
    ensures (x + k) % n == (x % n + k) % n
  {
    var a, b := x + k, x % n + k;
    assert a == (a / n) * n + a % n && b == (b / n) * n + b % n && x == (x / n) * n + x % n;
    var d := a / n - b / n - x / n;
    assert d * n == b % n - a % n;
    Multiples(d, n);
  }

  /** A player who is taken sits down last, and the blinds are placed anew. */
  lemma PlayerSits(t: Table, s: Seat)
    requires |t.seats| < 10 && s.stack > 0 && forall k :: 0 <= k < |t.seats| ==> t.seats[k].id != s.id
    ensures AddPlayer(t, s).seats == t.seats + [s] && BlindsPlaced(t, AddPlayer(t, s))
  {
    WhoIsSeated(t, s);
    PositionsArePlaced(t.(seats := t.seats + [s]));
  }

  /** A player who leaves makes everyone behind move up one seat, and the blinds are placed anew. */
  lemma PlayerLeaves(t: Table, i: nat)
    requires UniqueIds(t.seats) && i < |t.seats|
    ensures var after := RemovePlayer(t, t.seats[i].id);
            && |after.seats| == |t.seats| - 1
            && (forall k :: 0 <= k < |after.seats| ==> after.seats[k] == t.seats[if k < i then k else k + 1])
            && BlindsPlaced(t, after) && after.dealer == t.dealer
  {
    SeatOfUnique(t.seats, i);
    PositionsArePlaced(t.(seats := t.seats[..i] + t.seats[i + 1..]));
  }
}
