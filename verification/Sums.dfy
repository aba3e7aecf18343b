/** Sums of real sequences and insertion sort over indices, shared by the budget allocator. */
module Sums {

  function Sum(s: seq<real>): real {
    if |s| == 0 then 0.0 else Sum(s[..|s| - 1]) + s[|s| - 1]
  }

  function Times(a: real, b: real): real { a * b }

  function Products(w: seq<real>, s: seq<real>): (r: seq<real>)
    requires |w| == |s|
    ensures |r| == |w|
  {
    seq(|w|, i requires 0 <= i < |w| => Times(w[i], s[i]))
  }

  function Dot(w: seq<real>, s: seq<real>): real
    requires |w| == |s|
  {
    Sum(Products(w, s))
  }

  function Minus(a: seq<real>, b: seq<real>): (r: seq<real>)
    requires |a| == |b|
    ensures |r| == |a|
  {
    seq(|a|, i requires 0 <= i < |a| => a[i] - b[i])
  }

  function Scaled(c: real, s: seq<real>): (r: seq<real>)
    ensures |r| == |s|
  {
    seq(|s|, i requires 0 <= i < |s| => Times(c, s[i]))
  }

  lemma {:induction false} SumMinus(a: seq<real>, b: seq<real>)
    requires |a| == |b|
    ensures Sum(Minus(a, b)) == Sum(a) - Sum(b)
  {
    if |a| != 0 {
      var n := |a| - 1;
      SumMinus(a[..n], b[..n]);
      assert Minus(a, b)[..n] == Minus(a[..n], b[..n]);
    }
  }

  lemma Distribute(c: real, a: real, b: real)
    ensures Times(c, a + b) == Times(c, a) + Times(c, b)
  {
  }

  lemma {:induction false} SumScaled(c: real, s: seq<real>)
    ensures Sum(Scaled(c, s)) == Times(c, Sum(s))
  {
    if |s| != 0 {
      var n := |s| - 1;
      SumScaled(c, s[..n]);
      assert Scaled(c, s)[..n] == Scaled(c, s[..n]);
      Distribute(c, Sum(s[..n]), s[n]);
    }
  }

  lemma {:induction false} SumUpdate(s: seq<real>, i: nat, v: real)
    requires i < |s|
    ensures Sum(s[i := v]) == Sum(s) - s[i] + v
  {
    var n := |s| - 1;
    if i == n {
      assert s[i := v][..n] == s[..n];
    } else {
      SumUpdate(s[..n], i, v);
      assert s[i := v][..n] == s[..n][i := v];
    }
  }

  lemma {:induction false} SumMonotone(a: seq<real>, b: seq<real>)
    requires |a| == |b|
    requires forall i :: 0 <= i < |a| ==> a[i] <= b[i]
    ensures Sum(a) <= Sum(b)
  {
    if |a| != 0 {
      SumMonotone(a[..|a| - 1], b[..|a| - 1]);
    }
  }

  // x moves away from r only downwards where the weight is above theta and upwards where it is below.
  ghost predicate Opposes(weight: real, theta: real, x: real, r: real) {
    (weight >= theta && x <= r) || (weight <= theta && x >= r) || weight == theta
  }

  lemma OpposesProduct(weight: real, theta: real, x: real, r: real)
    requires Opposes(weight, theta, x, r)
    ensures Times(weight, x) - Times(weight, r) <= Times(theta, x - r)
  {
    assert (weight - theta) * (x - r) <= 0.0;
  }

  lemma GainAt(w: seq<real>, x: seq<real>, r: seq<real>, theta: real, i: nat)
    requires |w| == |x| == |r| && i < |w| && Opposes(w[i], theta, x[i], r[i])
    ensures Minus(Products(w, x), Products(w, r))[i] <= Scaled(theta, Minus(x, r))[i]
  {
    OpposesProduct(w[i], theta, x[i], r[i]);
  }

  lemma GainAtMost(gains: seq<real>, moves: seq<real>, theta: real)
    requires |gains| == |moves| && forall i :: 0 <= i < |gains| ==> gains[i] <= Scaled(theta, moves)[i]
    ensures Sum(gains) <= Times(theta, Sum(moves))
  {
    SumMonotone(gains, Scaled(theta, moves));
    SumScaled(theta, moves);
  }

  // Then moving from r to x gains at most theta per unit moved.
  lemma GainsAtMost(w: seq<real>, x: seq<real>, r: seq<real>, theta: real)
    requires |w| == |x| == |r|
    requires forall i :: 0 <= i < |w| ==> Opposes(w[i], theta, x[i], r[i])
    ensures Sum(Minus(Products(w, x), Products(w, r))) <= Times(theta, Sum(Minus(x, r)))
  {
    var gains, moves := Minus(Products(w, x), Products(w, r)), Minus(x, r);
    forall i | 0 <= i < |gains| ensures gains[i] <= Scaled(theta, moves)[i] {
      GainAt(w, x, r, theta, i);
    }
    GainAtMost(gains, moves, theta);
  }

  lemma ScaleBound(gain: real, theta: real, gap: real, top: real, eps: real)
    requires gain <= Times(theta, gap) && 0.0 <= theta <= top && 0.0 <= gap <= eps
    ensures gain <= top * eps
  {
    assert theta * gap <= top * gap && top * gap <= top * eps;
  }

  lemma Difference(w: seq<real>, x: seq<real>, r: seq<real>)
    requires |w| == |x| == |r|
    ensures Sum(Minus(Products(w, x), Products(w, r))) == Dot(w, x) - Dot(w, r)
    ensures Sum(Minus(x, r)) == Sum(x) - Sum(r)
  {
    SumMinus(Products(w, x), Products(w, r));
    SumMinus(x, r);
  }

  // An alternative that opposes r everywhere, by at most eps in total, gains at most top * eps.
  lemma BoundedGain(w: seq<real>, x: seq<real>, r: seq<real>, theta: real, top: real, eps: real)
    requires |w| == |x| == |r|
    requires forall i :: 0 <= i < |w| ==> Opposes(w[i], theta, x[i], r[i])
    requires 0.0 <= theta <= top && 0.0 <= Sum(x) - Sum(r) <= eps
    ensures Dot(w, x) <= Dot(w, r) + top * eps
  {
    GainsAtMost(w, x, r, theta);
    Difference(w, x, r);
    ScaleBound(Sum(Minus(Products(w, x), Products(w, r))), theta, Sum(Minus(x, r)), top, eps);
  }

  lemma NegativeGain(theta: real, moved: real)
    requires theta >= 0.0 && moved <= 0.0
    ensures Times(theta, moved) <= 0.0
  {
  }

  // One that takes in total no more than r gains nothing.
  lemma NoGain(w: seq<real>, x: seq<real>, r: seq<real>, theta: real)
    requires |w| == |x| == |r| && theta >= 0.0 && Sum(x) <= Sum(r)
    requires forall i :: 0 <= i < |w| ==> Opposes(w[i], theta, x[i], r[i])
    ensures Dot(w, x) <= Dot(w, r)
  {
    GainsAtMost(w, x, r, theta);
    Difference(w, x, r);
    NegativeGain(theta, Sum(Minus(x, r)));
  }

  lemma {:induction false} SumRemove(s: seq<real>, j: nat)
    requires j < |s|
    ensures Sum(s) == Sum(s[..j] + s[j + 1..]) + s[j]
  {
    var n := |s| - 1;
    if j == n {
      assert s[..j] + s[j + 1..] == s[..n];
    } else {
      SumRemove(s[..n], j);
      var t := s[..j] + s[j + 1..];
      assert t[..|t| - 1] == s[..n][..j] + s[..n][j + 1..];
      assert t[|t| - 1] == s[n];
    }
  }

  // ---- insertion sort over indices ----

  function Insert(x: nat, xs: seq<nat>, le: (nat, nat) -> bool): seq<nat> {
    if |xs| == 0 then [x]
    else if le(x, xs[0]) then [x] + xs
    else [xs[0]] + Insert(x, xs[1..], le)
  }

  // Stable: an element goes in front of the ones it ties with, which came after it.
  function SortBy(xs: seq<nat>, le: (nat, nat) -> bool): seq<nat> {
    if |xs| == 0 then [] else Insert(xs[0], SortBy(xs[1..], le), le)
  }

  ghost predicate TotalPreorder(le: (nat, nat) -> bool) {
    && (forall a, b :: le(a, b) || le(b, a))
    && (forall a, b, c :: le(a, b) && le(b, c) ==> le(a, c))
  }

  ghost predicate Ordered(xs: seq<nat>, le: (nat, nat) -> bool) {
    forall i, j :: 0 <= i < j < |xs| ==> le(xs[i], xs[j])
  }

  lemma FirstAndRest(xs: seq<nat>)
    requires |xs| > 0
    ensures multiset(xs) == multiset{xs[0]} + multiset(xs[1..])
  {
    assert xs == [xs[0]] + xs[1..];
  }

  lemma {:induction false} InsertHolds(x: nat, xs: seq<nat>, le: (nat, nat) -> bool)
    ensures multiset(Insert(x, xs, le)) == multiset(xs) + multiset{x}
  {
    if |xs| != 0 {
      FirstAndRest(xs);
      if !le(x, xs[0]) {
        InsertHolds(x, xs[1..], le);
      }
    }
  }

  ghost predicate Before(x: nat, xs: seq<nat>, le: (nat, nat) -> bool) {
    forall j :: 0 <= j < |xs| ==> le(x, xs[j])
  }

  lemma {:induction false} InsertAfter(least: nat, x: nat, xs: seq<nat>, le: (nat, nat) -> bool)
    requires le(least, x) && Before(least, xs, le)
    ensures Before(least, Insert(x, xs, le), le)
  {
    if |xs| != 0 && !le(x, xs[0]) {
      InsertAfter(least, x, xs[1..], le);
    }
  }

  lemma OrderedCons(x: nat, xs: seq<nat>, le: (nat, nat) -> bool)
    requires Ordered(xs, le) && Before(x, xs, le)
    ensures Ordered([x] + xs, le)
  {
  }

  lemma FirstIsBefore(x: nat, xs: seq<nat>, le: (nat, nat) -> bool)
    requires TotalPreorder(le) && Ordered(xs, le) && |xs| > 0 && le(x, xs[0])
    ensures Before(x, xs, le)
  {
  }

  lemma {:induction false} InsertKeepsOrder(x: nat, xs: seq<nat>, le: (nat, nat) -> bool)
    requires TotalPreorder(le) && Ordered(xs, le)
    ensures Ordered(Insert(x, xs, le), le)
  {
    if |xs| != 0 {
      if le(x, xs[0]) {
        FirstIsBefore(x, xs, le);
        OrderedCons(x, xs, le);
      } else {
        InsertKeepsOrder(x, xs[1..], le);
        InsertAfter(xs[0], x, xs[1..], le);
        OrderedCons(xs[0], Insert(x, xs[1..], le), le);
      }
    }
  }

  lemma {:induction false} SortByCorrect(xs: seq<nat>, le: (nat, nat) -> bool)
    requires TotalPreorder(le)
    ensures Ordered(SortBy(xs, le), le)
    ensures multiset(SortBy(xs, le)) == multiset(xs)
  {
    if |xs| != 0 {
      SortByCorrect(xs[1..], le);
      InsertHolds(xs[0], SortBy(xs[1..], le), le);
      InsertKeepsOrder(xs[0], SortBy(xs[1..], le), le);
      FirstAndRest(xs);
    }
  }

  lemma {:induction false} FirstIsLeast(xs: seq<nat>, le: (nat, nat) -> bool, v: nat)
    requires TotalPreorder(le) && Ordered(xs, le) && v in multiset(xs)
    ensures le(xs[0], v)
  {
    var i :| 0 <= i < |xs| && xs[i] == v;
    if i == 0 {
      assert le(v, v);
    }
  }

  lemma DropFirst(xs: seq<nat>)
    requires |xs| > 0
    ensures multiset(xs[1..]) == multiset(xs) - multiset{xs[0]}
  {
    assert xs == [xs[0]] + xs[1..];
  }

  ghost predicate NoTies(xs: multiset<nat>, le: (nat, nat) -> bool) {
    forall a, b :: a in xs && b in xs && le(a, b) && le(b, a) ==> a == b
  }

  lemma FirstsAgree(xs: seq<nat>, ys: seq<nat>, le: (nat, nat) -> bool)
    requires TotalPreorder(le) && Ordered(xs, le) && Ordered(ys, le)
    requires multiset(xs) == multiset(ys) && NoTies(multiset(xs), le)
    requires |xs| > 0 && |ys| > 0
    ensures xs[0] == ys[0]
    ensures Ordered(xs[1..], le) && Ordered(ys[1..], le)
    ensures multiset(xs[1..]) == multiset(ys[1..]) && NoTies(multiset(xs[1..]), le)
  {
    assert xs[0] in multiset(xs) && ys[0] in multiset(ys);
    FirstIsLeast(xs, le, ys[0]);
    FirstIsLeast(ys, le, xs[0]);
    DropFirst(xs);
    DropFirst(ys);
  }

  // Two orderings of the same elements agree when ties are impossible.
  lemma {:induction false} OrderingUnique(xs: seq<nat>, ys: seq<nat>, le: (nat, nat) -> bool)
    requires TotalPreorder(le) && Ordered(xs, le) && Ordered(ys, le)
    requires multiset(xs) == multiset(ys) && NoTies(multiset(xs), le)
    ensures xs == ys
    decreases |xs|
  {
    assert |xs| == |multiset(xs)| == |multiset(ys)| == |ys|;
    if |xs| != 0 {
      FirstsAgree(xs, ys, le);
      OrderingUnique(xs[1..], ys[1..], le);
      assert xs == [xs[0]] + xs[1..] && ys == [ys[0]] + ys[1..];
    }
  }

  // A sequence holding each of 0..n-1 exactly once.
  ghost predicate IsPermutation(p: seq<nat>, n: nat) {
    && |p| == n
    && (forall k :: 0 <= k < n ==> p[k] < n)
    && (forall i, j :: 0 <= i < j < n ==> p[i] != p[j])
    && (forall i :: 0 <= i < n ==> i in p)
  }

  function Indices(n: nat): (r: seq<nat>)
    ensures |r| == n && forall i :: 0 <= i < n ==> r[i] == i
  {
    seq(n, i requires 0 <= i => i)
  }

  lemma {:induction false} DistinctFromMultiset(xs: seq<nat>)
    requires forall v :: multiset(xs)[v] <= 1
    ensures forall i, j :: 0 <= i < j < |xs| ==> xs[i] != xs[j]
  {
    forall i, j | 0 <= i < j < |xs| ensures xs[i] != xs[j] {
      assert xs == xs[..i] + [xs[i]] + xs[i + 1..j] + [xs[j]] + xs[j + 1..];
      assert multiset(xs)[xs[i]] >= 1 + multiset([xs[j]])[xs[i]];
    }
  }

  lemma {:induction false} IndicesOnce(n: nat, v: nat)
    ensures multiset(Indices(n))[v] == if v < n then 1 else 0
  {
    if n != 0 {
      IndicesOnce(n - 1, v);
      assert Indices(n) == Indices(n - 1) + [n - 1];
    } else {
      assert Indices(0) == [];
    }
  }

  // Anything with the same elements as 0..n-1 is a permutation of it.
  lemma {:induction false} PermutationFromMultiset(p: seq<nat>, n: nat)
    requires multiset(p) == multiset(Indices(n))
    ensures IsPermutation(p, n)
  {
    forall v: nat ensures multiset(p)[v] == if v < n then 1 else 0 { IndicesOnce(n, v); }
    DistinctFromMultiset(p);
    assert |p| == |multiset(p)| == |multiset(Indices(n))| == n;
    forall k | 0 <= k < n ensures p[k] < n { assert p[k] in multiset(p); }
    forall i | 0 <= i < n ensures i in p { assert i in multiset(p); }
  }
}
