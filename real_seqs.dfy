/** Sums and element-wise arithmetic over sequences of exact reals, the
    vocabulary in which the filters' bookkeeping is stated. */
module RealSeqs {

  /** Total of a sequence, accumulated from the left as Python's `sum` and
      `numpy.cumsum` do (the last element is added last). */
  function Sum(s: seq<real>): real
  {
    if s == [] then 0.0 else Sum(s[..|s| - 1]) + s[|s| - 1]
  }

  predicate NonNegative(s: seq<real>)
  {
    forall k :: 0 <= k < |s| ==> 0.0 <= s[k]
  }

  predicate Positive(s: seq<real>)
  {
    forall k :: 0 <= k < |s| ==> 0.0 < s[k]
  }

  /** Every element divided by `c`. */
  function Divide(s: seq<real>, c: real): (r: seq<real>)
    requires c != 0.0
  {
    seq(|s|, k requires 0 <= k < |s| => s[k] / c)
  }

  /** Every element multiplied by `c`. */
  function Scale(c: real, s: seq<real>): (r: seq<real>)
  {
    seq(|s|, k requires 0 <= k < |s| => c * s[k])
  }

  /** Element-wise sum of two sequences of the same length. */
  function Plus(s: seq<real>, t: seq<real>): (r: seq<real>)
    requires |s| == |t|
  {
    seq(|s|, k requires 0 <= k < |s| => s[k] + t[k])
  }

  /** Cyclic shift by `c` cells to the right: cell `k` receives cell
      `(k - c) mod |s|`, with the non-negative remainder of Python's `%`. */
  function Rotate(s: seq<real>, c: int): (r: seq<real>)
  {
    seq(|s|, k requires 0 <= k < |s| => s[(k - c) % |s|])
  }

  /** The sum of the empty prefix, the step from one prefix to the next. */
  lemma {:induction false} SumPrefixStep(s: seq<real>, i: nat)
    requires i < |s|
    ensures Sum(s[..i + 1]) == Sum(s[..i]) + s[i]
  {
    assert s[..i + 1][..i] == s[..i];
  }

  lemma {:induction false} SumConcat(a: seq<real>, b: seq<real>)
    ensures Sum(a + b) == Sum(a) + Sum(b)
  {
    if b == [] {
      assert a + b == a;
    } else {
      assert (a + b)[..|a + b| - 1] == a + b[..|b| - 1];
      SumConcat(a, b[..|b| - 1]);
    }
  }

  lemma {:induction false} SumNonNegative(s: seq<real>)
    requires NonNegative(s)
    ensures Sum(s) >= 0.0
  {
    if s != [] {
      SumNonNegative(s[..|s| - 1]);
    }
  }

  /** A sequence of positive reals has a positive total unless it is empty. */
  lemma {:induction false} SumPositive(s: seq<real>)
    requires Positive(s) && s != []
    ensures Sum(s) > 0.0
  {
    if |s| > 1 {
      SumPositive(s[..|s| - 1]);
    }
  }

  /** A non-negative sequence sums to zero only when every element is zero. */
  lemma {:induction false} SumZero(s: seq<real>)
    requires NonNegative(s)
    ensures Sum(s) == 0.0 <==> forall k :: 0 <= k < |s| ==> s[k] == 0.0
  {
    if s != [] {
      SumZero(s[..|s| - 1]);
      SumNonNegative(s[..|s| - 1]);
      assert forall k :: 0 <= k < |s| - 1 ==> s[..|s| - 1][k] == s[k];
    }
  }

  lemma {:induction false} SumScale(c: real, s: seq<real>)
    ensures Sum(Scale(c, s)) == c * Sum(s)
  {
    if s != [] {
      forall k | 0 <= k < |s| - 1
        ensures Scale(c, s)[k] == Scale(c, s[..|s| - 1])[k]
      {
        assert s[..|s| - 1][k] == s[k];
      }
      assert Scale(c, s)[..|s| - 1] == Scale(c, s[..|s| - 1]);
      SumScale(c, s[..|s| - 1]);
    }
  }

  lemma {:induction false} SumPlus(s: seq<real>, t: seq<real>)
    requires |s| == |t|
    ensures Sum(Plus(s, t)) == Sum(s) + Sum(t)
  {
    if s != [] {
      assert Plus(s, t)[..|s| - 1] == Plus(s[..|s| - 1], t[..|t| - 1]);
      SumPlus(s[..|s| - 1], t[..|t| - 1]);
    }
  }

  /** Dividing every element by the total makes the elements sum to one. */
  lemma {:induction false} SumDivide(s: seq<real>, c: real)
    requires c != 0.0
    ensures Sum(Divide(s, c)) == Sum(s) / c
  {
    if s != [] {
      assert Divide(s, c)[..|s| - 1] == Divide(s[..|s| - 1], c);
      SumDivide(s[..|s| - 1], c);
    }
  }

  lemma {:induction false} SelfQuotient(t: real)
    requires t != 0.0
    ensures t / t == 1.0
  {
  }

  /** Sums are monotone in every element. */
  lemma {:induction false} SumMonotone(s: seq<real>, t: seq<real>)
    requires |s| == |t| && forall k :: 0 <= k < |s| ==> s[k] <= t[k]
    ensures Sum(s) <= Sum(t)
  {
    if s != [] {
      var n := |s| - 1;
      assert forall k :: 0 <= k < n ==> s[..n][k] == s[k] && t[..n][k] == t[k];
      SumMonotone(s[..n], t[..n]);
    }
  }

  lemma {:induction false} MulAtLeast(n: int, d: int)
    requires n > 0 && d >= 1
    ensures n * d >= n
  {
    if d > 1 {
      MulAtLeast(n, d - 1);
      assert n * d == n * (d - 1) + n;
    }
  }

  /** `a mod n` is determined by any decomposition `a == n * q + r` with `0 <= r < n`. */
  lemma {:induction false} ModUnique(a: int, n: int, q: int, r: int)
    requires n > 0 && 0 <= r < n && a == n * q + r
    ensures a % n == r
  {
    var q0, r0 := a / n, a % n;
    assert n * (q0 - q) == r - r0;
    if q0 > q {
      MulAtLeast(n, q0 - q);
    } else if q0 < q {
      MulAtLeast(n, q - q0);
    }
  }

  /** Python's `%` by a positive divisor is periodic in multiples of it. */
  lemma {:induction false} ModShift(a: int, n: int, m: int)
    requires n > 0
    ensures (a + n * m) % n == a % n
  {
    ModUnique(a + n * m, n, a / n + m, a % n);
  }

  /** A rotation is the two halves of the sequence in the other order. */
  lemma {:induction false} RotateAsSlices(s: seq<real>, c: int)
    requires s != []
    ensures Rotate(s, c) == s[|s| - c % |s|..] + s[..|s| - c % |s|]
  {
    var n := |s|;
    var c' := c % n;
    var r := s[n - c'..] + s[..n - c'];
    forall k | 0 <= k < n
      ensures Rotate(s, c)[k] == r[k]
    {
      if k < c' {
        ModUnique(k - c, n, -(c / n) - 1, k - c' + n);
      } else {
        ModUnique(k - c, n, -(c / n), k - c');
      }
    }
  }

  /** A cyclic shift neither creates nor destroys mass. */
  lemma {:induction false} SumRotate(s: seq<real>, c: int)
    ensures Sum(Rotate(s, c)) == Sum(s)
  {
    if s != [] {
      var n := |s|;
      var c' := c % n;
      RotateAsSlices(s, c);
      SumConcat(s[n - c'..], s[..n - c']);
      SumConcat(s[..n - c'], s[n - c'..]);
      assert s[..n - c'] + s[n - c'..] == s;
    }
  }

  /** Sum of the products `xs[k] * ws[k]`, accumulated from the left. */
  function Dot(xs: seq<real>, ws: seq<real>): real
    requires |xs| == |ws|
  {
    if xs == [] then 0.0
    else Dot(xs[..|xs| - 1], ws[..|ws| - 1]) + xs[|xs| - 1] * ws[|ws| - 1]
  }

  lemma {:induction false} DotPrefixStep(xs: seq<real>, ws: seq<real>, i: nat)
    requires |xs| == |ws| && i < |xs|
    ensures Dot(xs[..i + 1], ws[..i + 1]) == Dot(xs[..i], ws[..i]) + xs[i] * ws[i]
  {
    assert xs[..i + 1][..i] == xs[..i];
    assert ws[..i + 1][..i] == ws[..i];
  }

  lemma {:induction false} DotConcat(xs: seq<real>, ws: seq<real>, ys: seq<real>, vs: seq<real>)
    requires |xs| == |ws| && |ys| == |vs|
    ensures Dot(xs + ys, ws + vs) == Dot(xs, ws) + Dot(ys, vs)
  {
    if ys != [] {
      assert (xs + ys)[..|xs + ys| - 1] == xs + ys[..|ys| - 1];
      assert (ws + vs)[..|ws + vs| - 1] == ws + vs[..|vs| - 1];
      DotConcat(xs, ws, ys[..|ys| - 1], vs[..|vs| - 1]);
    } else {
      assert xs + ys == xs;
      assert ws + vs == ws;
    }
  }

  /** Removing the element at `k` removes its share of the total. */
  lemma {:induction false} SumRemove(s: seq<real>, k: nat)
    requires k < |s|
    ensures Sum(s[..k] + s[k + 1..]) == Sum(s) - s[k]
  {
    assert s == s[..k] + ([s[k]] + s[k + 1..]);
    SumConcat(s[..k], [s[k]] + s[k + 1..]);
    SumConcat([s[k]], s[k + 1..]);
    SumConcat(s[..k], s[k + 1..]);
    assert [s[k]][..0] == [];
  }

  /** Removing a pair whose weight is zero leaves the weighted sum unchanged. */
  lemma {:induction false} DotRemoveZero(xs: seq<real>, ws: seq<real>, k: nat)
    requires |xs| == |ws| && k < |xs| && ws[k] == 0.0
    ensures Dot(xs[..k] + xs[k + 1..], ws[..k] + ws[k + 1..]) == Dot(xs, ws)
  {
    var xa, xb, wa, wb := xs[..k], xs[k + 1..], ws[..k], ws[k + 1..];
    assert xs == xa + ([xs[k]] + xb) && ws == wa + ([ws[k]] + wb);
    assert Dot([xs[k]], [ws[k]]) == 0.0 by {
      assert [xs[k]][..0] == [] && [ws[k]][..0] == [];
    }
    DotConcat(xa, wa, [xs[k]] + xb, [ws[k]] + wb);
    DotConcat([xs[k]], [ws[k]], xb, wb);
    DotConcat(xa, wa, xb, wb);
  }

  /** With non-negative weights, a weighted sum of values in `[lo, hi]` lies
      between `lo` and `hi` times the total weight. */
  lemma {:induction false} DotBounds(xs: seq<real>, ws: seq<real>, lo: real, hi: real)
    requires |xs| == |ws| && NonNegative(ws)
    requires forall k :: 0 <= k < |xs| ==> lo <= xs[k] <= hi
    ensures lo * Sum(ws) <= Dot(xs, ws) <= hi * Sum(ws)
  {
    if xs != [] {
      var n := |xs| - 1;
      PrefixWithin(xs, ws, lo, hi, n);
      DotBounds(xs[..n], ws[..n], lo, hi);
      DotBoundsStep(xs, ws, lo, hi);
    }
  }

  lemma {:induction false} DotBoundsStep(xs: seq<real>, ws: seq<real>, lo: real, hi: real)
    requires |xs| == |ws| && xs != [] && ws[|ws| - 1] >= 0.0 && lo <= xs[|xs| - 1] <= hi
    requires lo * Sum(ws[..|ws| - 1]) <= Dot(xs[..|xs| - 1], ws[..|ws| - 1]) <= hi * Sum(ws[..|ws| - 1])
    ensures lo * Sum(ws) <= Dot(xs, ws) <= hi * Sum(ws)
  {
    var n := |xs| - 1;
    DotLast(xs, ws);
    BoundsStep(lo, hi, Dot(xs[..n], ws[..n]), Sum(ws[..n]), xs[n], ws[n], Dot(xs, ws), Sum(ws));
  }

  lemma {:induction false} PrefixWithin(xs: seq<real>, ws: seq<real>, lo: real, hi: real, n: nat)
    requires n <= |xs| == |ws| && NonNegative(ws)
    requires forall k :: 0 <= k < |xs| ==> lo <= xs[k] <= hi
    ensures NonNegative(ws[..n]) && forall k :: 0 <= k < n ==> lo <= xs[..n][k] <= hi
  {
    assert forall k :: 0 <= k < n ==> xs[..n][k] == xs[k] && ws[..n][k] == ws[k];
  }

  lemma {:induction false} DotLast(xs: seq<real>, ws: seq<real>)
    requires |xs| == |ws| && xs != []
    ensures var n := |xs| - 1;
      Dot(xs, ws) == Dot(xs[..n], ws[..n]) + xs[n] * ws[n] && Sum(ws) == Sum(ws[..n]) + ws[n]
  {
  }

  /** One more value `x` of weight `w` keeps the weighted sum within bounds. */
  lemma {:induction false} BoundsStep(lo: real, hi: real, d: real, t: real, x: real, w: real, d': real, t': real)
    requires lo * t <= d <= hi * t && w >= 0.0 && lo <= x <= hi
    requires d' == d + x * w && t' == t + w
    ensures lo * t' <= d' <= hi * t'
  {
    assert lo * w <= x * w <= hi * w;
    assert lo * t' == lo * t + lo * w;
    assert hi * t' == hi * t + hi * w;
  }

  /** How many times `x` occurs in `s`. */
  function Occurrences<T(==)>(s: seq<T>, x: T): nat
  {
    if s == [] then 0
    else Occurrences(s[..|s| - 1], x) + (if s[|s| - 1] == x then 1 else 0)
  }

  lemma {:induction false} OccurrencesStep<T>(s: seq<T>, i: nat, x: T)
    requires i < |s|
    ensures Occurrences(s[..i + 1], x) == Occurrences(s[..i], x) + (if s[i] == x then 1 else 0)
  {
    assert s[..i + 1][..i] == s[..i];
  }
}
