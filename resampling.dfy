/** Stochastic universal sampling over a list of weighted particles
    (`rws` and `sus` of particle_filter.py). The particles are of any type;
    their weights are the list `[p.w for p in particles]`, given alongside. The
    random start offset of `sus` is a parameter. */
module Resampling {
  import opened RealSeqs
  import opened Faults

  /** `sums[i]` of the source: the total of the weights `0..i`. */
  function Cum(ws: seq<real>, i: nat): real
    requires i < |ws|
  {
    Sum(ws[..i + 1])
  }

  /** The cumulative sums that `numpy.cumsum` produces, each one the previous
      plus the next weight. */
  function CumSum(ws: seq<real>): (sums: seq<real>)
    ensures |sums| == |ws|
    ensures forall i :: 0 <= i < |ws| ==> sums[i] == Cum(ws, i)
  {
    if ws == [] then []
    else
      var prev := CumSum(ws[..|ws| - 1]);
      CumOfPrefix(ws, |ws| - 1);
      CumStep(ws, |ws| - 1);
      prev + [(if prev == [] then 0.0 else prev[|prev| - 1]) + ws[|ws| - 1]]
  }

  /** The cumulative sums of a prefix are those of the whole list. */
  lemma {:induction false} CumOfPrefix(ws: seq<real>, m: nat)
    requires m <= |ws|
    ensures forall i :: 0 <= i < m ==> Cum(ws[..m], i) == Cum(ws, i)
  {
    forall i | 0 <= i < m
      ensures Cum(ws[..m], i) == Cum(ws, i)
    {
      assert ws[..m][..i + 1] == ws[..i + 1];
    }
  }

  /** Each cumulative sum is the previous one plus the next weight. */
  lemma {:induction false} CumStep(ws: seq<real>, i: nat)
    requires i < |ws|
    ensures Cum(ws, i) == (if i == 0 then 0.0 else Cum(ws, i - 1)) + ws[i]
  {
    SumPrefixStep(ws, i);
  }

  /** Some cumulative sum reaches pointer `p`: the scan of `rws` stops inside the list. */
  predicate Reached(ws: seq<real>, p: real)
  {
    exists i :: 0 <= i < |ws| && Cum(ws, i) >= p
  }

  predicate AllReached(ws: seq<real>, pointers: seq<real>)
  {
    forall k :: 0 <= k < |pointers| ==> Reached(ws, pointers[k])
  }

  /** The first index at or after `i` whose cumulative sum reaches `p`. */
  function ScanFrom(ws: seq<real>, p: real, i: nat): (j: nat)
    requires i <= |ws|
    requires exists k :: i <= k < |ws| && Cum(ws, k) >= p
    ensures i <= j < |ws| && Cum(ws, j) >= p
    ensures forall k :: i <= k < j ==> Cum(ws, k) < p
    decreases |ws| - i
  {
    if Cum(ws, i) >= p then i else ScanFrom(ws, p, i + 1)
  }

  /** The index `rws` selects for pointer `p`: the least one whose
      cumulative sum is at least `p`. */
  function Select(ws: seq<real>, p: real): (i: nat)
    requires Reached(ws, p)
    ensures i < |ws| && Cum(ws, i) >= p
    ensures forall k :: 0 <= k < i ==> Cum(ws, k) < p
  {
    ScanFrom(ws, p, 0)
  }

  /** The indices selected for the pointers, in pointer order. */
  function Selections(ws: seq<real>, pointers: seq<real>): (sel: seq<nat>)
    requires AllReached(ws, pointers)
    ensures |sel| == |pointers|
    ensures forall k :: 0 <= k < |sel| ==> sel[k] < |ws| && Cum(ws, sel[k]) >= pointers[k]
  {
    seq(|pointers|, k requires 0 <= k < |pointers| => Select(ws, pointers[k]))
  }

  /** The list `[xs[i] for i in idx]`. */
  function Gather<T>(xs: seq<T>, idx: seq<nat>): (r: seq<T>)
    requires forall k :: 0 <= k < |idx| ==> idx[k] < |xs|
  {
    seq(|idx|, k requires 0 <= k < |idx| => xs[idx[k]])
  }

  /** The `n` equally spaced pointers `start + k * step` of `sus`. */
  function Pointers(start: real, step: real, n: nat): (ptrs: seq<real>)
    ensures |ptrs| == n
  {
    seq(n, k requires 0 <= k < n => start + (k as real) * step)
  }

  /** `rws`: for each pointer, scan the cumulative sums from the front to the
      first one that reaches it, and keep that particle. The scan runs off the
      end (an IndexError) exactly when some pointer is reached by no sum. */
  method Rws<T>(particles: seq<T>, weights: seq<real>, pointers: seq<real>) returns (r: Result<seq<T>>)
    requires |weights| == |particles|
    ensures r.Ok? <==> AllReached(weights, pointers)
    ensures r.Err? ==> r.fault == IndexError
    ensures r.Ok? ==> AllReached(weights, pointers) &&
                      r.value == Gather(particles, Selections(weights, pointers))
  {
    var keep: seq<T> := [];
    var sums := CumSum(weights);
    var k := 0;
    while k < |pointers|
      invariant 0 <= k <= |pointers|
      invariant forall j :: 0 <= j < k ==> Reached(weights, pointers[j])
      invariant |keep| == k
      invariant forall j :: 0 <= j < k ==> keep[j] == particles[Select(weights, pointers[j])]
    {
      var p := pointers[k];
      var i := 0;
      while i < |sums| && sums[i] < p
        invariant 0 <= i <= |sums|
        invariant forall j :: 0 <= j < i ==> Cum(weights, j) < p
      {
        i := i + 1;
      }
      if i == |sums| {
        assert !Reached(weights, pointers[k]);
        return Err(IndexError);
      }
      assert sums[i] >= p;
      SelectIs(weights, p, i);
      keep := keep + [particles[i]];
      k := k + 1;
    }
    r := Ok(keep);
  }

  /** The least index whose cumulative sum reaches `p` is the one `Select` names. */
  lemma {:induction false} SelectIs(ws: seq<real>, p: real, i: nat)
    requires i < |ws| && Cum(ws, i) >= p
    requires forall k :: 0 <= k < i ==> Cum(ws, k) < p
    ensures Reached(ws, p) && Select(ws, p) == i
  {
  }

  /** `sus`: `n` pointers spaced `weight_sum / n` apart from `start`, handed to
      `rws`. An empty list divides by zero. */
  method Sus<T>(particles: seq<T>, weights: seq<real>, start: real) returns (r: Result<seq<T>>)
    requires |weights| == |particles|
    ensures |particles| == 0 <==> r == Err(ZeroDivisionError)
    ensures |particles| > 0 ==>
      var ptrs := Pointers(start, Sum(weights) / (|particles| as real), |particles|);
      (r.Ok? <==> AllReached(weights, ptrs)) &&
      (r.Ok? ==> AllReached(weights, ptrs) && |r.value| == |particles| &&
                 r.value == Gather(particles, Selections(weights, ptrs)))
  {
    var n := |particles|;
    if n == 0 {
      return Err(ZeroDivisionError);
    }
    var weightSum := Sum(weights);
    var p := weightSum / (n as real);
    var pointers := Pointers(start, p, n);
    r := Rws(particles, weights, pointers);
  }

  // ---------------------------------------------------------------------
  // Properties of the selection rule

  /** With non-negative weights the cumulative sums never decrease. */
  lemma {:induction false} CumMonotone(ws: seq<real>, i: nat, j: nat)
    requires NonNegative(ws)
    requires i <= j < |ws|
    ensures Cum(ws, i) <= Cum(ws, j)
  {
    if i < j {
      CumMonotone(ws, i, j - 1);
      CumStep(ws, j);
    }
  }

  /** The last cumulative sum is the total weight. */
  lemma {:induction false} CumLast(ws: seq<real>)
    requires ws != []
    ensures Cum(ws, |ws| - 1) == Sum(ws)
  {
    assert ws[..|ws|] == ws;
  }

  /** With non-negative weights the scan of `rws` stays inside the list
      exactly when the list is non-empty and the pointer is at most the total
      weight. */
  lemma {:induction false} ReachedIff(ws: seq<real>, p: real)
    requires NonNegative(ws)
    ensures Reached(ws, p) <==> (ws != [] && p <= Sum(ws))
  {
    if ws != [] {
      CumLast(ws);
      if Reached(ws, p) {
        var i :| 0 <= i < |ws| && Cum(ws, i) >= p;
        CumMonotone(ws, i, |ws| - 1);
      }
    }
  }

  /** `rws` returns without an IndexError exactly when every pointer is at
      most the total weight (and, if there are pointers, the list is non-empty). */
  lemma {:induction false} RwsInBoundsIff(ws: seq<real>, pointers: seq<real>)
    requires NonNegative(ws)
    ensures AllReached(ws, pointers) <==>
            (pointers == [] || (ws != [] && forall k :: 0 <= k < |pointers| ==> pointers[k] <= Sum(ws)))
  {
    forall k | 0 <= k < |pointers| {
      ReachedIff(ws, pointers[k]);
    }
    if pointers != [] && ws == [] {
      assert !Reached(ws, pointers[0]);
    }
  }

  /** A larger pointer never selects an earlier particle. */
  lemma {:induction false} SelectMonotone(ws: seq<real>, p1: real, p2: real)
    requires p1 <= p2 && Reached(ws, p2)
    ensures Reached(ws, p1) && Select(ws, p1) <= Select(ws, p2)
  {
  }

  /** Non-decreasing pointers select non-decreasing indices. */
  lemma {:induction false} SelectionsSorted(ws: seq<real>, pointers: seq<real>)
    requires AllReached(ws, pointers)
    requires forall j, k :: 0 <= j <= k < |pointers| ==> pointers[j] <= pointers[k]
    ensures forall j, k :: 0 <= j <= k < |pointers| ==>
              Selections(ws, pointers)[j] <= Selections(ws, pointers)[k]
  {
    forall j, k | 0 <= j <= k < |pointers| {
      SelectMonotone(ws, pointers[j], pointers[k]);
    }
  }

  /** A pointer above zero never selects a particle of weight zero (nor of
      negative weight): the selected particle's weight is what lifts the
      cumulative sum past the pointer. */
  lemma {:induction false} SelectedWeightPositive(ws: seq<real>, p: real)
    requires Reached(ws, p) && p > 0.0
    ensures ws[Select(ws, p)] > 0.0
  {
    var i := Select(ws, p);
    CumStep(ws, i);
  }

  /** With non-negative weights, pointer `p` selects an index at most `i`
      exactly when it is at most the cumulative sum at `i`. */
  lemma {:induction false} SelectAtMostIff(ws: seq<real>, p: real, i: nat)
    requires NonNegative(ws) && Reached(ws, p) && i < |ws|
    ensures Select(ws, p) <= i <==> p <= Cum(ws, i)
  {
    if Select(ws, p) <= i {
      CumMonotone(ws, Select(ws, p), i);
    }
  }

  // ---------------------------------------------------------------------
  // The pointers of `sus`

  /** For `0 <= start <= step` the pointers of `sus` ascend and lie in
      `[0, n * step]`, which is `[0, weight_sum]` when `step == weight_sum / n`. */
  lemma {:induction false} PointersInRange(start: real, step: real, n: nat)
    requires 0.0 <= start <= step
    ensures forall k :: 0 <= k < n ==> 0.0 <= Pointers(start, step, n)[k] <= (n as real) * step
    ensures Ascending(Pointers(start, step, n))
  {
    forall k | 0 <= k < n
      ensures 0.0 <= Pointers(start, step, n)[k] <= (n as real) * step
    {
      PointerBounds(start, step, n, k);
    }
    PointersAscending(start, step, n);
  }

  lemma {:induction false} PointerBounds(start: real, step: real, n: nat, k: nat)
    requires 0.0 <= start <= step && k < n
    ensures 0.0 <= start + (k as real) * step <= (n as real) * step
  {
    MulMonotone(0.0, k as real, step);
    MulMonotone(k as real, (n - 1) as real, step);
    assert ((n - 1) as real) * step + step == (n as real) * step;
  }

  lemma {:induction false} PointersAscending(start: real, step: real, n: nat)
    requires 0.0 <= step
    ensures Ascending(Pointers(start, step, n))
  {
    forall j, k | 0 <= j <= k < n
      ensures Pointers(start, step, n)[j] <= Pointers(start, step, n)[k]
    {
      PointerGap(start, step, n, j, k);
    }
  }

  /** Two pointers of `sus` are in the order of their indices. */
  lemma {:induction false} PointerGap(start: real, step: real, n: nat, j: nat, k: nat)
    requires 0.0 <= step && j <= k < n
    ensures Pointers(start, step, n)[j] <= Pointers(start, step, n)[k]
  {
    MulMonotone(j as real, k as real, step);
    assert Pointers(start, step, n)[j] == start + (j as real) * step;
    assert Pointers(start, step, n)[k] == start + (k as real) * step;
  }

  lemma {:induction false} MulMonotone(a: real, b: real, c: real)
    requires a <= b && 0.0 <= c
    ensures a * c <= b * c
  {
  }

  /** With non-negative weights and a start offset in `[0, weight_sum / n]`
      (the range `random.uniform` draws from), no pointer of `sus` runs the
      scan of `rws` past the end. */
  lemma {:induction false} SusInBounds(ws: seq<real>, start: real)
    requires NonNegative(ws) && ws != []
    requires 0.0 <= start <= Sum(ws) / (|ws| as real)
    ensures AllReached(ws, Pointers(start, Sum(ws) / (|ws| as real), |ws|))
  {
    var n := |ws|;
    var step := Sum(ws) / (n as real);
    PointersInRange(start, step, n);
    assert (n as real) * step == Sum(ws);
    RwsInBoundsIff(ws, Pointers(start, step, n));
  }

  // ---------------------------------------------------------------------
  // The low-variance guarantee of `sus`

  /** How many of the pointers are at most `x`. */
  function CountAtMost(ptrs: seq<real>, x: real): nat
  {
    if ptrs == [] then 0
    else CountAtMost(ptrs[..|ptrs| - 1], x) + (if ptrs[|ptrs| - 1] <= x then 1 else 0)
  }

  /** One pointer selects particle `i` exactly when it is counted up to
      `sums[i]` and not up to `sums[i-1]`. */
  lemma {:induction false} SelectedIndicator(ws: seq<real>, p: real, i: nat)
    requires NonNegative(ws) && Reached(ws, p) && i < |ws|
    ensures (if Select(ws, p) == i then 1 else 0) ==
            (if p <= Cum(ws, i) then 1 else 0) - (if i > 0 && p <= Cum(ws, i - 1) then 1 else 0)
  {
    SelectAtMostIff(ws, p, i);
    if i > 0 {
      SelectAtMostIff(ws, p, i - 1);
    }
  }

  /** With non-negative weights the copies of particle `i` are the pointers
      in `(sums[i-1], sums[i]]` (in `(-inf, sums[0]]` for the first one). */
  lemma {:induction false} CopiesAsCounts(ws: seq<real>, ptrs: seq<real>, i: nat)
    requires NonNegative(ws) && AllReached(ws, ptrs) && i < |ws|
    ensures Occurrences(Selections(ws, ptrs), i) as int ==
            CountAtMost(ptrs, Cum(ws, i)) - (if i == 0 then 0 else CountAtMost(ptrs, Cum(ws, i - 1)))
    decreases |ptrs|
  {
    if ptrs != [] {
      var m := |ptrs|;
      var pre := ptrs[..m - 1];
      var p := ptrs[m - 1];
      SelectionsLast(ws, ptrs);
      assert Occurrences(Selections(ws, ptrs), i) == Occurrences(Selections(ws, pre), i) + (if Select(ws, p) == i then 1 else 0);
      CopiesAsCounts(ws, pre, i);
      SelectedIndicator(ws, p, i);
    }
  }

  /** Dropping the last pointer drops the last selection. */
  lemma {:induction false} SelectionsLast(ws: seq<real>, ptrs: seq<real>)
    requires AllReached(ws, ptrs) && ptrs != []
    ensures AllReached(ws, ptrs[..|ptrs| - 1])
    ensures Selections(ws, ptrs)[..|ptrs| - 1] == Selections(ws, ptrs[..|ptrs| - 1])
    ensures Selections(ws, ptrs)[|ptrs| - 1] == Select(ws, ptrs[|ptrs| - 1])
  {
    var pre := ptrs[..|ptrs| - 1];
    assert AllReached(ws, pre) by {
      forall k | 0 <= k < |pre|
        ensures Reached(ws, pre[k])
      {
        assert pre[k] == ptrs[k];
      }
    }
  }

  predicate Ascending(s: seq<real>)
  {
    forall j, k :: 0 <= j <= k < |s| ==> s[j] <= s[k]
  }

  /** In an ascending list the elements at most `x` are a prefix: the first
      `CountAtMost(s, x)` of them are at most `x` and the rest exceed it. */
  lemma {:induction false} AscendingPrefix(s: seq<real>, x: real)
    requires Ascending(s)
    ensures CountAtMost(s, x) <= |s|
    ensures forall k :: 0 <= k < CountAtMost(s, x) ==> s[k] <= x
    ensures forall k :: CountAtMost(s, x) <= k < |s| ==> x < s[k]
  {
    if s != [] {
      var m := |s|;
      var pre := s[..m - 1];
      assert Ascending(pre);
      AscendingPrefix(pre, x);
      var c' := CountAtMost(pre, x);
    }
  }

  /** Counting the pointers of `sus` up to any `x` in `[0, n * step]` gives
      `(x - start) / step` to within one. */
  lemma {:induction false} ProgressionCount(start: real, step: real, m: nat, x: real)
    requires step > 0.0 && 0.0 <= start <= step
    requires 0.0 <= x <= (m as real) * step
    ensures Bracketed(x - start, CountAtMost(Pointers(start, step, m), x), step)
  {
    var c := CountAtMost(Pointers(start, step, m), x);
    ProgressionNeighbours(start, step, m, x);
    CountBracket(start, step, m, x, c, start + (c as real) * step, start + (c as real - 1.0) * step);
  }

  /** The pointer just after the counted ones exceeds `x`; the last counted one does not. */
  lemma {:induction false} ProgressionNeighbours(start: real, step: real, m: nat, x: real)
    requires step > 0.0
    ensures var c := CountAtMost(Pointers(start, step, m), x);
      c <= m &&
      (c < m ==> x < start + (c as real) * step) &&
      (c > 0 ==> start + (c as real - 1.0) * step <= x)
  {
    var ptrs := Pointers(start, step, m);
    PointersAscending(start, step, m);
    AscendingPrefix(ptrs, x);
    var c := CountAtMost(ptrs, x);
    if c < m {
      assert x < ptrs[c];
    }
    if c > 0 {
      assert ptrs[c - 1] <= x;
    }
  }

  /** The arithmetic step of `ProgressionCount`: the pointer after the count
      exceeds `x` and the last counted one does not. */
  lemma {:induction false} CountBracket(start: real, step: real, m: nat, x: real, c: nat, next: real, last: real)
    requires step > 0.0 && 0.0 <= start <= step
    requires 0.0 <= x <= (m as real) * step
    requires c <= m
    requires c < m ==> x < next && next == start + (c as real) * step
    requires c > 0 ==> last <= x && last == start + (c as real - 1.0) * step
    ensures Bracketed(x - start, c, step)
  {
    var cs := (c as real) * step;
    if c == m {
      assert cs == (m as real) * step;
    }
    if c > 0 {
      assert (c as real - 1.0) * step == cs - step;
    }
  }

  /** `c` spacings of `step` reach at least `lo` and at most one spacing beyond. */
  predicate Bracketed(lo: real, c: int, step: real)
  {
    lo <= (c as real) * step <= lo + step
  }

  /** `c` copies of spacing `step` cover weight `w` to within one spacing. */
  predicate WithinOneStep(w: real, c: nat, step: real)
  {
    w - step <= (c as real) * step <= w + step
  }

  /** The low-variance guarantee of `sus`: with non-negative weights and a start
      offset in `[0, step]`, where `step == weight_sum / n`, particle `i` is
      copied `c` times with `c * step` within one `step` of its weight. */
  lemma {:induction false} CopiesWithinOne(ws: seq<real>, start: real, i: nat)
    requires NonNegative(ws) && ws != [] && Sum(ws) > 0.0
    requires 0.0 <= start <= Sum(ws) / (|ws| as real)
    requires i < |ws|
    ensures AllReached(ws, Pointers(start, Sum(ws) / (|ws| as real), |ws|))
    ensures var step := Sum(ws) / (|ws| as real);
            WithinOneStep(ws[i], Occurrences(Selections(ws, Pointers(start, step, |ws|)), i), step)
  {
    Spacing(Sum(ws), |ws|);
    SusInBounds(ws, start);
    CopiesWithinOneOfStep(ws, start, Sum(ws) / (|ws| as real), i);
  }

  /** `CopiesWithinOne` for any spacing `step` that makes `n` pointers span the total. */
  lemma {:induction false} CopiesWithinOneOfStep(ws: seq<real>, start: real, step: real, i: nat)
    requires NonNegative(ws) && i < |ws|
    requires Spans(|ws|, step, Sum(ws))
    requires 0.0 <= start <= step
    requires AllReached(ws, Pointers(start, step, |ws|))
    ensures WithinOneStep(ws[i], Occurrences(Selections(ws, Pointers(start, step, |ws|)), i), step)
  {
    var ptrs := Pointers(start, step, |ws|);
    var c := Occurrences(Selections(ws, ptrs), i);
    var a := CountAtMost(ptrs, Cum(ws, i));
    var lo := if i == 0 then 0.0 else Cum(ws, i - 1);
    var b := if i == 0 then 0 else CountAtMost(ptrs, lo);
    CopiesAsCounts(ws, ptrs, i);
    CumStep(ws, i);
    CountBracketedAt(ws, start, step, i);
    LowerBracketed(ws, start, step, i);
    CopiesArith(ws[i], Cum(ws, i), lo, start, step, a, b, c);
  }

  /** The count up to the cumulative sum before particle `i` fits its bracket too. */
  lemma {:induction false} LowerBracketed(ws: seq<real>, start: real, step: real, i: nat)
    requires NonNegative(ws) && i < |ws|
    requires Spans(|ws|, step, Sum(ws))
    requires 0.0 <= start <= step
    ensures var lo := if i == 0 then 0.0 else Cum(ws, i - 1);
      Bracketed(lo - start, if i == 0 then 0 else CountAtMost(Pointers(start, step, |ws|), lo), step)
  {
    if i > 0 {
      CountBracketedAt(ws, start, step, i - 1);
    } else {
      NoneBracketed(start, step);
    }
  }

  /** Below the first cumulative sum no pointer is counted, and that fits the bracket. */
  lemma {:induction false} NoneBracketed(start: real, step: real)
    requires 0.0 <= start <= step
    ensures Bracketed(0.0 - start, 0, step)
  {
  }

  /** The pointers counted up to `sums[j]` follow `ProgressionCount`, since
      that sum lies in `[0, weight_sum]`. */
  lemma {:induction false} CountBracketedAt(ws: seq<real>, start: real, step: real, j: nat)
    requires NonNegative(ws) && j < |ws|
    requires Spans(|ws|, step, Sum(ws))
    requires 0.0 <= start <= step
    ensures Bracketed(Cum(ws, j) - start, CountAtMost(Pointers(start, step, |ws|), Cum(ws, j)), step)
  {
    CumInRange(ws, j);
    ProgressionCount(start, step, |ws|, Cum(ws, j));
  }

  /** With non-negative weights every cumulative sum lies in `[0, weight_sum]`. */
  lemma {:induction false} CumInRange(ws: seq<real>, i: nat)
    requires NonNegative(ws) && i < |ws|
    ensures 0.0 <= Cum(ws, i) <= Sum(ws)
  {
    CumLast(ws);
    CumMonotone(ws, i, |ws| - 1);
    assert NonNegative(ws[..i + 1]);
    SumNonNegative(ws[..i + 1]);
  }

  /** The spacing of `sus`'s pointers is positive, and `n` of them span the total. */
  lemma {:induction false} Spacing(total: real, n: nat)
    requires n > 0 && total > 0.0
    ensures Spans(n, total / (n as real), total)
  {
  }

  /** `n` spacings of the positive `step` make up `total`. */
  predicate Spans(n: nat, step: real, total: real)
  {
    step > 0.0 && (n as real) * step == total
  }

  /** The arithmetic step of `CopiesWithinOne`: the copies are the pointers
      counted up to `hi` less those counted up to `lo`. */
  lemma {:induction false} CopiesArith(w: real, hi: real, lo: real, start: real, step: real, a: int, b: int, c: int)
    requires c == a - b && w == hi - lo
    requires Bracketed(hi - start, a, step) && Bracketed(lo - start, b, step)
    ensures c >= 0 ==> WithinOneStep(w, c, step)
  {
    assert (c as real) * step == (a as real) * step - (b as real) * step;
  }

  /** The same guarantee as a share: the number of copies of particle `i`
      differs from `w_i * n / weight_sum` by at most one. */
  lemma {:induction false} CopiesWithinOneOfShare(ws: seq<real>, start: real, i: nat)
    requires NonNegative(ws) && ws != [] && Sum(ws) > 0.0
    requires 0.0 <= start <= Sum(ws) / (|ws| as real)
    requires i < |ws|
    ensures AllReached(ws, Pointers(start, Sum(ws) / (|ws| as real), |ws|))
    ensures WithinOneOfShare(Occurrences(Selections(ws, Pointers(start, Sum(ws) / (|ws| as real), |ws|)), i),
                             ws[i], |ws|, Sum(ws))
  {
    CopiesWithinOne(ws, start, i);
    Spacing(Sum(ws), |ws|);
    var step := Sum(ws) / (|ws| as real);
    ShareArith(ws[i], Occurrences(Selections(ws, Pointers(start, step, |ws|)), i), step, |ws|, Sum(ws));
  }

  /** `c` differs from the share `w * n / total` of `n` by at most one. */
  predicate WithinOneOfShare(c: nat, w: real, n: nat, total: real)
    requires total != 0.0
  {
    -1.0 <= (c as real) - w * (n as real) / total <= 1.0
  }

  /** The arithmetic step of `CopiesWithinOneOfShare`: divide by the spacing. */
  lemma {:induction false} ShareArith(w: real, c: nat, step: real, n: nat, total: real)
    requires WithinOneStep(w, c, step) && Spans(n, step, total) && total > 0.0
    ensures WithinOneOfShare(c, w, n, total)
  {
    assert w * (n as real) / total == w / step;
    assert (c as real) - w / step == ((c as real) * step - w) / step;
    DivideBounds((c as real) * step - w, step);
  }

  lemma {:induction false} DivideBounds(a: real, b: real)
    requires b > 0.0 && -b <= a <= b
    ensures -1.0 <= a / b <= 1.0
  {
  }
}
