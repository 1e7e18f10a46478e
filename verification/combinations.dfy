/** Backtracking over k-element combinations with one shared buffer. */
module Combinations {
  import opened Util

  function Prefixed<T>(prefix: seq<T>, lists: seq<seq<T>>): (r: seq<seq<T>>)
    ensures |r| == |lists|
    ensures forall k :: 0 <= k < |lists| ==> r[k] == prefix + lists[k]
  {
    seq(|lists|, k requires 0 <= k < |lists| => prefix + lists[k])
  }

  /** The k-element combinations of `xs`, those with the first element before those without it. */
  function Choose<T>(xs: seq<T>, k: nat): seq<seq<T>>
    decreases |xs|
  {
    if k == 0 then [[]]
    else if xs == [] then []
    else Prefixed([xs[0]], Choose(xs[1..], k - 1)) + Choose(xs[1..], k)
  }

  // ----- the backtracking routine -----

  class Backtracker<T> {
    var combo: seq<T>
    var combinations: seq<seq<T>>

    constructor ()
      ensures combo == [] && combinations == []
    {
      combo, combinations := [], [];
    }

    method Combine(items: seq<T>, k: nat, start: nat)
      requires start <= |items| && |combo| <= k
      modifies this
      ensures combo == old(combo)
      ensures combinations == old(combinations) + Prefixed(combo, Choose(items[start..], k - |combo|))
      decreases |items| - start
    {
      hide Choose, Prefixed;
      NothingToAdd(combo, items[start..]);
      if |combo| == k {
        combinations := combinations + [combo];
        return;
      }
      var i := start;
      while i < |items|
        invariant start <= i <= |items| && combo == old(combo)
        invariant combinations + Prefixed(combo, Choose(items[i..], k - |combo|))
               == old(combinations) + Prefixed(combo, Choose(items[start..], k - |combo|))
      {
        BacktrackStep(combinations, combo, items, i, k - |combo|);
        combo := combo + [items[i]];
        Combine(items, k, i + 1);
        combo := combo[..|combo| - 1];
        assert combo == old(combo);
        i := i + 1;
      }
      NothingLeft(combo, items[i..], k - |combo|);
    }
  }

  lemma NothingToAdd<T>(combo: seq<T>, xs: seq<T>)
    ensures Prefixed(combo, Choose(xs, 0)) == [combo]
  {
    assert combo + [] == combo;
  }

  lemma NothingLeft<T>(combo: seq<T>, xs: seq<T>, m: nat)
    requires xs == [] && m > 0
    ensures Prefixed(combo, Choose(xs, m)) == []
  {
  }

  lemma BacktrackStep<T>(made: seq<seq<T>>, combo: seq<T>, items: seq<T>, i: nat, m: nat)
    requires i < |items| && m > 0
    ensures made + Prefixed(combo + [items[i]], Choose(items[i + 1..], m - 1)) + Prefixed(combo, Choose(items[i + 1..], m))
         == made + Prefixed(combo, Choose(items[i..], m))
  {
    hide Choose, Prefixed;
    assert items[i..][1..] == items[i + 1..];
    PrefixedStep(combo, items[i..], m);
  }

  lemma PrefixedStep<T>(combo: seq<T>, xs: seq<T>, m: nat)
    requires m > 0 && xs != []
    ensures Prefixed(combo, Choose(xs, m))
         == Prefixed(combo + [xs[0]], Choose(xs[1..], m - 1)) + Prefixed(combo, Choose(xs[1..], m))
  {
    var taken, left := Choose(xs[1..], m - 1), Choose(xs[1..], m);
    assert forall k :: 0 <= k < |taken| ==> combo + ([xs[0]] + taken[k]) == combo + [xs[0]] + taken[k];
  }

  lemma NoPrefix<T>(lists: seq<seq<T>>)
    ensures [] + Prefixed([], lists) == lists
  {
    assert forall k :: 0 <= k < |lists| ==> [] + lists[k] == lists[k];
  }

  method GenerateCombinations<T>(items: seq<T>, k: nat) returns (r: seq<seq<T>>)
    ensures r == Choose(items, k)
  {
    hide Choose, Prefixed;
    var b := new Backtracker<T>();
    b.Combine(items, k, 0);
    r := b.combinations;
    assert items[0..] == items;
    NoPrefix(Choose(items, k));
  }

  // ----- every combination, once -----

  /** The positions `lo`, `lo + 1`, ..., `hi - 1`. */
  function Range(lo: nat, hi: nat): seq<nat>
    requires lo <= hi
    decreases hi - lo
  {
    if lo == hi then [] else [lo] + Range(lo + 1, hi)
  }

  /** Strictly increasing positions between `lo` and `hi`. */
  ghost predicate Positions(ps: seq<nat>, lo: nat, hi: nat) {
    && (forall k :: 0 <= k < |ps| ==> lo <= ps[k] < hi)
    && (forall i, j :: 0 <= i < j < |ps| ==> ps[i] < ps[j])
  }

  lemma {:induction false} ChooseLength<T>(xs: seq<T>, k: nat)
    ensures forall c :: c in Choose(xs, k) ==> |c| == k
    decreases |xs|
  {
    if k > 0 && xs != [] {
      ChooseLength(xs[1..], k - 1);
      ChooseLength(xs[1..], k);
    }
  }

  lemma NothingToChoose(lo: nat, hi: nat, k: nat, ps: seq<nat>)
    requires lo <= hi && (k == 0 || lo == hi)
    ensures ps in Choose(Range(lo, hi), k) <==> |ps| == k && Positions(ps, lo, hi)
  {
    if k > 0 && |ps| == k {
      assert !(lo <= ps[0] < hi);
    }
  }

  lemma {:induction false} ChosenPositions(lo: nat, hi: nat, k: nat, ps: seq<nat>)
    requires lo <= hi
    ensures ps in Choose(Range(lo, hi), k) <==> |ps| == k && Positions(ps, lo, hi)
    decreases hi - lo
  {
    hide Choose, Range, Positions;
    if k == 0 || lo == hi {
      NothingToChoose(lo, hi, k, ps);
    } else {
      ChosenStep(lo, hi, k, ps);
      ChosenPositions(lo + 1, hi, k, ps);
      if ps != [] {
        ChosenPositions(lo + 1, hi, k - 1, ps[1..]);
        ConsPositions(ps, lo, hi);
      }
    }
  }

  lemma ChosenStep(lo: nat, hi: nat, k: nat, ps: seq<nat>)
    requires lo < hi && k > 0
    ensures var rest := Range(lo + 1, hi);
            ps in Choose(Range(lo, hi), k)
            <==> (ps != [] && ps[0] == lo && ps[1..] in Choose(rest, k - 1)) || ps in Choose(rest, k)
  {
    var rest := Range(lo + 1, hi);
    assert Range(lo, hi)[1..] == rest;
    InPrefixed(lo, Choose(rest, k - 1), ps);
  }

  lemma InPrefixed(x: nat, lists: seq<seq<nat>>, ps: seq<nat>)
    ensures ps in Prefixed([x], lists) <==> ps != [] && ps[0] == x && ps[1..] in lists
  {
    if ps != [] && ps[0] == x && ps[1..] in lists {
      var k :| 0 <= k < |lists| && lists[k] == ps[1..];
      assert Prefixed([x], lists)[k] == [x] + ps[1..] == ps;
    }
    if ps in Prefixed([x], lists) {
      var k :| 0 <= k < |lists| && Prefixed([x], lists)[k] == ps;
      assert ps[1..] == lists[k];
    }
  }

  lemma ConsPositions(ps: seq<nat>, lo: nat, hi: nat)
    requires ps != [] && lo < hi
    ensures Positions(ps, lo, hi)
       <==> (ps[0] == lo && Positions(ps[1..], lo + 1, hi)) || Positions(ps, lo + 1, hi)
  {
    if ps[0] == lo && Positions(ps[1..], lo + 1, hi) {
      assert forall k :: 1 <= k < |ps| ==> ps[k] == ps[1..][k - 1];
    }
  }

  lemma {:induction false} ChosenOnce(lo: nat, hi: nat, k: nat)
    requires lo <= hi
    ensures NoDuplicates(Choose(Range(lo, hi), k))
    decreases hi - lo
  {
    if k > 0 && lo < hi {
      var taken, left := Choose(Range(lo + 1, hi), k - 1), Choose(Range(lo + 1, hi), k);
      ChosenOnce(lo + 1, hi, k - 1);
      ChosenOnce(lo + 1, hi, k);
      forall i, j | 0 <= i < |taken| && 0 <= j < |left|
        ensures [lo] + taken[i] != left[j]
      {
        assert left[j] in left;
        ChosenPositions(lo + 1, hi, k, left[j]);
        assert left[j][0] > lo == ([lo] + taken[i])[0];
      }
      assert forall i :: 0 <= i < |taken| ==> ([lo] + taken[i])[1..] == taken[i];
    }
  }

  function Pick<T>(xs: seq<T>, ps: seq<nat>): (r: seq<T>)
    requires forall k :: 0 <= k < |ps| ==> ps[k] < |xs|
    ensures |r| == |ps|
    ensures forall k :: 0 <= k < |ps| ==> r[k] == xs[ps[k]]
  {
    seq(|ps|, k requires 0 <= k < |ps| => xs[ps[k]])
  }

  /** `c` consists of the elements of `xs` at the positions `ps`. */
  ghost predicate At<T>(xs: seq<T>, ps: seq<nat>, c: seq<T>) {
    (forall k :: 0 <= k < |ps| ==> ps[k] < |xs|) && c == Pick(xs, ps)
  }

  /** The combinations of a sequence are its elements at the combinations of its positions, in the same order. */
  lemma {:induction false} ChooseByPosition<T>(xs: seq<T>, lo: nat, k: nat)
    requires lo <= |xs|
    ensures var lists, places := Choose(xs[lo..], k), Choose(Range(lo, |xs|), k);
            |lists| == |places| && forall j :: 0 <= j < |lists| ==> At(xs, places[j], lists[j])
    decreases |xs| - lo
  {
    if k > 0 && lo < |xs| {
      assert xs[lo..][1..] == xs[lo + 1..];
      ChooseByPosition(xs, lo + 1, k - 1);
      ChooseByPosition(xs, lo + 1, k);
      var lists, places := Choose(xs[lo + 1..], k - 1), Choose(Range(lo + 1, |xs|), k - 1);
      forall j | 0 <= j < |lists|
        ensures At(xs, [lo] + places[j], [xs[lo]] + lists[j])
      {
        AtCons(xs, lo, places[j], lists[j]);
      }
    }
  }

  lemma AtCons<T>(xs: seq<T>, p: nat, ps: seq<nat>, c: seq<T>)
    requires p < |xs| && At(xs, ps, c)
    ensures At(xs, [p] + ps, [xs[p]] + c)
  {
  }

  /** Exactly the k-element subsequences, each position set once. */
  lemma EverySubsequenceOnce<T>(xs: seq<T>, k: nat)
    ensures var places := Choose(Range(0, |xs|), k);
            && NoDuplicates(places)
            && (forall ps :: ps in places <==> |ps| == k && Positions(ps, 0, |xs|))
            && |Choose(xs, k)| == |places|
            && (forall j :: 0 <= j < |places| ==> At(xs, places[j], Choose(xs, k)[j]))
  {
    hide Choose;
    var places := Choose(Range(0, |xs|), k);
    ChosenOnce(0, |xs|, k);
    forall ps
      ensures ps in places <==> |ps| == k && Positions(ps, 0, |xs|)
    {
      ChosenPositions(0, |xs|, k, ps);
    }
    assert xs[0..] == xs;
    ChooseByPosition(xs, 0, k);
  }

  /** Position lists compared at the first place where they differ. */
  ghost predicate ComesBefore(ps: seq<nat>, qs: seq<nat>)
    decreases |ps|
  {
    ps != [] && qs != [] && (ps[0] < qs[0] || (ps[0] == qs[0] && ComesBefore(ps[1..], qs[1..])))
  }

  /** Combinations are made in the lexicographic order of their positions. */
  lemma {:induction false} LexicographicOrder(lo: nat, hi: nat, k: nat, i: nat, j: nat)
    requires lo <= hi && i < j < |Choose(Range(lo, hi), k)|
    ensures ComesBefore(Choose(Range(lo, hi), k)[i], Choose(Range(lo, hi), k)[j])
    decreases hi - lo
  {
    if k > 0 && lo < hi {
      var rest := Range(lo + 1, hi);
      assert Range(lo, hi)[1..] == rest;
      var taken, left := Choose(rest, k - 1), Choose(rest, k);
      var n := |taken|;
      if j < n {
        LexicographicOrder(lo + 1, hi, k - 1, i, j);
        assert ([lo] + taken[i])[1..] == taken[i] && ([lo] + taken[j])[1..] == taken[j];
      } else if i >= n {
        LexicographicOrder(lo + 1, hi, k, i - n, j - n);
      } else {
        assert left[j - n] in left;
        ChosenPositions(lo + 1, hi, k, left[j - n]);
      }
    }
  }

  // ----- how many -----

  function Factorial(n: nat): nat {
    if n == 0 then 1 else n * Factorial(n - 1)
  }

  lemma {:induction false} NoneBeyondLength<T>(xs: seq<T>, k: nat)
    requires k > |xs|
    ensures Choose(xs, k) == []
    decreases |xs|
  {
    if xs != [] {
      NoneBeyondLength(xs[1..], k - 1);
      NoneBeyondLength(xs[1..], k);
    }
  }

  lemma {:induction false} OneOfFullLength<T>(xs: seq<T>)
    ensures |Choose(xs, |xs|)| == 1
  {
    if xs != [] {
      OneOfFullLength(xs[1..]);
      NoneBeyondLength(xs[1..], |xs|);
    }
  }

  lemma ChooseStepLength<T>(xs: seq<T>, k: nat)
    requires xs != [] && k > 0
    ensures |Choose(xs, k)| == |Choose(xs[1..], k - 1)| + |Choose(xs[1..], k)|
  {
  }

  lemma FactorialProduct(n: nat)
    ensures 1 * (Factorial(0) * Factorial(n)) == Factorial(n)
    ensures 1 * (Factorial(n) * Factorial(0)) == Factorial(n)
  {
  }

  /** There are n! / (k! (n - k)!) of them. */
  lemma {:induction false} ChooseCount<T>(xs: seq<T>, k: nat)
    requires k <= |xs|
    ensures |Choose(xs, k)| * (Factorial(k) * Factorial(|xs| - k)) == Factorial(|xs|)
    decreases |xs|
  {
    hide Factorial, Choose;
    var n := |xs|;
    FactorialProduct(n);
    if k == 0 {
      OneEmpty(xs);
    } else if k == n {
      OneOfFullLength(xs);
    } else {
      ChooseStepLength(xs, k);
      ChooseCount(xs[1..], k - 1);
      ChooseCount(xs[1..], k);
      Commuted(|Choose(xs[1..], k)|, Factorial(k), Factorial(n - 1 - k));
      Pascal(n, k, |Choose(xs[1..], k - 1)|, |Choose(xs[1..], k)|);
    }
  }

  lemma OneEmpty<T>(xs: seq<T>)
    ensures |Choose(xs, 0)| == 1
  {
  }

  lemma Pascal(n: nat, k: nat, a: nat, b: nat)
    requires 0 < k < n
    requires a * (Factorial(k - 1) * Factorial(n - k)) == Factorial(n - 1)
    requires b * (Factorial(n - 1 - k) * Factorial(k)) == Factorial(n - 1)
    ensures (a + b) * (Factorial(k) * Factorial(n - k)) == Factorial(n)
  {
    var p, q, f := Factorial(k - 1), Factorial(n - 1 - k), Factorial(n - 1);
    FactorialStep(n);
    FactorialStep(k);
    FactorialStep(n - k);
    hide Factorial;
    Scaled(a, p, Factorial(n - k), k, f);
    Scaled(b, q, Factorial(k), n - k, f);
    Commuted(b, Factorial(k), Factorial(n - k));
    SumScaled(a, b, Factorial(k) * Factorial(n - k), k, n - k, f);
  }

  lemma FactorialStep(n: nat)
    requires n > 0
    ensures Factorial(n) == n * Factorial(n - 1)
  {
  }

  lemma Commuted(b: nat, x: nat, y: nat)
    ensures b * (y * x) == b * (x * y)
  {
  }

  lemma SumScaled(a: nat, b: nat, z: nat, k: nat, l: nat, f: nat)
    requires a * z == k * f && b * z == l * f
    ensures (a + b) * z == (k + l) * f
  {
  }

  lemma Scaled(a: nat, p: nat, y: nat, k: nat, f: nat)
    requires a * (p * y) == f
    ensures a * ((k * p) * y) == k * f
  {
    assert (k * p) * y == k * (p * y);
    assert a * (k * (p * y)) == k * (a * (p * y));
  }
}
