/**
 * Budget reallocation: the greedy fill, the holds that tighten it, and the plan they make.
 *
 * Amounts are exact reals. `eps` is the early stop of the fill; the program uses 1e-9.
 * Arrays the program only reads are sequences; the two it writes are arrays.
 */
module Budget {
  import opened Common
  import opened Sums

  function Clamp(value: real, low: real, high: real): (r: real)
    requires low <= high
    ensures low <= r <= high && (low <= value <= high ==> r == value)
  {
    Max(low, Min(high, value))
  }

  // ---- the greedy fill ----

  function Fill(alloc: seq<real>, upper: seq<real>, remaining: real, order: seq<nat>, eps: real): (r: seq<real>)
    requires |alloc| == |upper| && forall k :: 0 <= k < |order| ==> order[k] < |alloc|
    ensures |r| == |alloc|
    decreases |order|
  {
    if |order| == 0 then alloc
    else
      var i := order[0];
      var room := upper[i] - alloc[i];
      if room <= 0.0 then Fill(alloc, upper, remaining, order[1..], eps)
      else
        var take := Min(room, remaining);
        var next := alloc[i := alloc[i] + take];
        if remaining - take <= eps then next
        else Fill(next, upper, remaining - take, order[1..], eps)
  }

  function Greedy(lower: seq<real>, upper: seq<real>, total: real, order: seq<nat>, eps: real): (r: seq<real>)
    requires |lower| == |upper| && forall k :: 0 <= k < |order| ==> order[k] < |lower|
    ensures |r| == |lower|
  {
    if total - Sum(lower) <= 0.0 then lower else Fill(lower, upper, total - Sum(lower), order, eps)
  }

  method GreedyOptimum(lower: seq<real>, upper: seq<real>, total: real, fillOrder: seq<nat>, eps: real)
    returns (allocation: array<real>)
    requires |lower| == |upper| && forall k :: 0 <= k < |fillOrder| ==> fillOrder[k] < |lower|
    ensures fresh(allocation)
    ensures allocation[..] == Greedy(lower, upper, total, fillOrder, eps)
  {
    allocation := new real[|lower|](i requires 0 <= i < |lower| => lower[i]);
    assert allocation[..] == lower;
    var remaining := total - Sum(lower);
    if remaining <= 0.0 {
      return;
    }
    var k := 0;
    while k < |fillOrder|
      invariant 0 <= k <= |fillOrder|
      invariant Fill(allocation[..], upper, remaining, fillOrder[k..], eps)
             == Greedy(lower, upper, total, fillOrder, eps)
    {
      var index := fillOrder[k];
      ghost var before := allocation[..];
      assert fillOrder[k..][1..] == fillOrder[k + 1..];
      var room := upper[index] - allocation[index];
      k := k + 1;
      if room <= 0.0 {
        continue;
      }
      var take := Min(room, remaining);
      allocation[index] := allocation[index] + take;
      assert allocation[..] == before[index := before[index] + take];
      remaining := remaining - take;
      if remaining <= eps {
        return;
      }
    }
  }

  // The shape every fill has: full before a pivot, untouched after it.
  ghost predicate FilledTo(r: seq<real>, alloc: seq<real>, upper: seq<real>, order: seq<nat>, pivot: nat)
    requires |r| == |alloc| == |upper| && forall k :: 0 <= k < |order| ==> order[k] < |r|
  {
    && pivot <= |order|
    && (forall k :: 0 <= k < pivot ==> r[order[k]] == upper[order[k]])
    && (forall k :: pivot < k < |order| ==> r[order[k]] == alloc[order[k]])
    && (forall i :: 0 <= i < |r| && i !in order ==> r[i] == alloc[i])
    && (forall k :: 0 <= k < |order| ==> alloc[order[k]] <= r[order[k]] <= upper[order[k]])
  }

  // What the rest of an order may assume: distinct indices that all have room or are full.
  ghost predicate Fillable(alloc: seq<real>, upper: seq<real>, order: seq<nat>) {
    && |alloc| == |upper|
    && (forall k :: 0 <= k < |order| ==> order[k] < |alloc|)
    && (forall i, j :: 0 <= i < j < |order| ==> order[i] != order[j])
    && (forall k :: 0 <= k < |order| ==> alloc[order[k]] <= upper[order[k]])
  }

  lemma FillableRest(alloc: seq<real>, upper: seq<real>, order: seq<nat>, v: real)
    requires Fillable(alloc, upper, order) && |order| > 0
    ensures Fillable(alloc[order[0] := v], upper, order[1..])
  {
    var rest := order[1..];
    forall k | 0 <= k < |rest| ensures alloc[order[0] := v][rest[k]] <= upper[rest[k]] {
      assert rest[k] == order[k + 1];
    }
  }

  lemma ShiftShape(r: seq<real>, next: seq<real>, alloc: seq<real>, upper: seq<real>, order: seq<nat>, p: nat)
    requires Fillable(alloc, upper, order) && |order| > 0 && |r| == |next| == |alloc|
    requires next == alloc[order[0] := upper[order[0]]]
    requires FilledTo(r, next, upper, order[1..], p)
    ensures FilledTo(r, alloc, upper, order, p + 1)
  {
    var rest := order[1..];
    assert order == [order[0]] + rest;
    assert order[0] !in rest;
    forall k | 0 <= k < p + 1 ensures r[order[k]] == upper[order[k]] {
      if k > 0 { assert order[k] == rest[k - 1]; }
    }
    forall k | p + 1 < k < |order| ensures r[order[k]] == alloc[order[k]] {
      assert order[k] == rest[k - 1];
    }
    forall k | 0 <= k < |order| ensures alloc[order[k]] <= r[order[k]] <= upper[order[k]] {
      if k > 0 { assert order[k] == rest[k - 1]; }
    }
  }

  // r is such a fill and places all of what remains, or all but eps of it.
  ghost predicate Fills(r: seq<real>, alloc: seq<real>, upper: seq<real>, remaining: real,
                        order: seq<nat>, eps: real, pivot: nat)
    requires Fillable(alloc, upper, order) && |r| == |alloc|
  {
    && FilledTo(r, alloc, upper, order, pivot)
    && 0.0 <= Sum(alloc) + remaining - Sum(r)
    && (pivot < |order| ==> Sum(alloc) + remaining - Sum(r) <= eps)
  }

  lemma NothingToFill(alloc: seq<real>, upper: seq<real>, remaining: real, order: seq<nat>, eps: real)
    requires Fillable(alloc, upper, order) && |order| == 0 && remaining > 0.0
    ensures Fills(alloc, alloc, upper, remaining, order, eps, 0)
  {
  }

  lemma StopStep(alloc: seq<real>, upper: seq<real>, remaining: real, order: seq<nat>, eps: real)
    requires Fillable(alloc, upper, order) && |order| > 0 && remaining > 0.0 && eps >= 0.0
    requires alloc[order[0]] < upper[order[0]]
    requires remaining - Min(upper[order[0]] - alloc[order[0]], remaining) <= eps
    ensures Fills(Fill(alloc, upper, remaining, order, eps), alloc, upper, remaining, order, eps, 0)
  {
    SumUpdate(alloc, order[0], alloc[order[0]] + Min(upper[order[0]] - alloc[order[0]], remaining));
  }

  // A position the fill passes over ends at its upper bound.
  lemma PassFill(alloc: seq<real>, upper: seq<real>, remaining: real, order: seq<nat>, eps: real)
    requires Fillable(alloc, upper, order) && |order| > 0 && remaining > 0.0 && eps >= 0.0
    requires upper[order[0]] <= alloc[order[0]] || remaining - (upper[order[0]] - alloc[order[0]]) > eps
    ensures var i := order[0];
      Fill(alloc, upper, remaining, order, eps)
      == Fill(alloc[i := upper[i]], upper, remaining - (upper[i] - alloc[i]), order[1..], eps)
  {
    var i := order[0];
    if upper[i] - alloc[i] <= 0.0 {
      assert alloc[i := upper[i]] == alloc;
    }
  }

  lemma PassStep(r: seq<real>, alloc: seq<real>, upper: seq<real>, remaining: real,
                 order: seq<nat>, eps: real, p: nat)
    requires Fillable(alloc, upper, order) && |order| > 0 && |r| == |alloc|
    requires var next := alloc[order[0] := upper[order[0]]];
      && Fillable(next, upper, order[1..])
      && Fills(r, next, upper, remaining - (upper[order[0]] - alloc[order[0]]), order[1..], eps, p)
    ensures Fills(r, alloc, upper, remaining, order, eps, p + 1)
  {
    var i := order[0];
    ShiftShape(r, alloc[i := upper[i]], alloc, upper, order, p);
    SumUpdate(alloc, i, upper[i]);
  }

  lemma {:induction false} FillShape(r: seq<real>, alloc: seq<real>, upper: seq<real>, remaining: real,
                                     order: seq<nat>, eps: real)
    returns (pivot: nat)
    requires Fillable(alloc, upper, order) && remaining > 0.0 && eps >= 0.0
    requires r == Fill(alloc, upper, remaining, order, eps)
    ensures Fills(r, alloc, upper, remaining, order, eps, pivot)
    decreases |order|
  {
    if |order| == 0 {
      NothingToFill(alloc, upper, remaining, order, eps);
      pivot := 0;
    } else {
      var i := order[0];
      var room := upper[i] - alloc[i];
      if 0.0 < room && remaining - Min(room, remaining) <= eps {
        StopStep(alloc, upper, remaining, order, eps);
        pivot := 0;
      } else {
        FillableRest(alloc, upper, order, upper[i]);
        PassFill(alloc, upper, remaining, order, eps);
        var p := FillShape(r, alloc[i := upper[i]], upper, remaining - room, order[1..], eps);
        PassStep(r, alloc, upper, remaining, order, eps, p);
        pivot := p + 1;
      }
    }
  }

  ghost predicate Box(lower: seq<real>, upper: seq<real>, order: seq<nat>) {
    && |lower| == |upper|
    && IsPermutation(order, |lower|)
    && forall i :: 0 <= i < |lower| ==> lower[i] <= upper[i]
  }

  ghost predicate Within(x: seq<real>, lower: seq<real>, upper: seq<real>) {
    && |x| == |lower| == |upper|
    && forall i :: 0 <= i < |x| ==> lower[i] <= x[i] <= upper[i]
  }

  // Every greedy plan is filled to some pivot and misses the total by at most eps.
  lemma GreedyShape(lower: seq<real>, upper: seq<real>, total: real, order: seq<nat>, eps: real) returns (pivot: nat)
    requires Box(lower, upper, order) && eps >= 0.0
    requires Sum(lower) <= total <= Sum(upper)
    ensures var r := Greedy(lower, upper, total, order, eps);
      && FilledTo(r, lower, upper, order, pivot)
      && 0.0 <= total - Sum(r) <= eps
  {
    if total - Sum(lower) <= 0.0 {
      pivot := 0;
    } else {
      var r := Greedy(lower, upper, total, order, eps);
      pivot := FillShape(r, lower, upper, total - Sum(lower), order, eps);
      if pivot == |order| {
        forall i | 0 <= i < |r| ensures r[i] == upper[i] {
          assert i in order;
          var k :| 0 <= k < |order| && order[k] == i;
        }
        assert r == upper;
      }
    }
  }

  // Any fill at all, feasible or not, keeps inside its bounds.
  lemma GreedyWithin(lower: seq<real>, upper: seq<real>, total: real, order: seq<nat>, eps: real)
    requires Box(lower, upper, order) && eps >= 0.0
    ensures Within(Greedy(lower, upper, total, order, eps), lower, upper)
  {
    if total - Sum(lower) > 0.0 {
      var pivot := FillShape(Greedy(lower, upper, total, order, eps), lower, upper, total - Sum(lower), order, eps);
      forall i | 0 <= i < |lower| ensures lower[i] <= Greedy(lower, upper, total, order, eps)[i] <= upper[i] {
        assert i in order;
        var k :| 0 <= k < |order| && order[k] == i;
      }
    }
  }

  ghost predicate DescendingScores(order: seq<nat>, scores: seq<real>)
    requires forall k :: 0 <= k < |order| ==> order[k] < |scores|
  {
    forall i, j :: 0 <= i < j < |order| ==> scores[order[i]] >= scores[order[j]]
  }

  // Before the pivot an alternative can only take away, after it it can only add.
  lemma PivotSlope(scores: seq<real>, lower: seq<real>, upper: seq<real>, order: seq<nat>,
                   r: seq<real>, pivot: nat, x: seq<real>, theta: real, i: nat)
    requires Box(lower, upper, order) && |scores| == |lower| == |r| && i < |scores|
    requires DescendingScores(order, scores) && (forall k :: 0 <= k < |scores| ==> 0.0 <= scores[k])
    requires FilledTo(r, lower, upper, order, pivot) && Within(x, lower, upper)
    requires theta == if pivot < |order| then scores[order[pivot]] else 0.0
    ensures Opposes(scores[i], theta, x[i], r[i])
  {
    assert i in order;
    var k :| 0 <= k < |order| && order[k] == i;
    if k < pivot {
      assert pivot < |order| ==> scores[order[k]] >= scores[order[pivot]];
    } else if k > pivot {
      assert r[order[k]] == lower[order[k]];
    }
  }

  // Filling in descending score order is the optimum of the linear program: no feasible
  // allocation scores more than the early stop can leave unplaced.
  lemma GreedyIsOptimal(scores: seq<real>, lower: seq<real>, upper: seq<real>, total: real,
                        order: seq<nat>, eps: real, top: real, x: seq<real>)
    requires Box(lower, upper, order) && |scores| == |lower| && eps >= 0.0
    requires Sum(lower) <= total <= Sum(upper)
    requires DescendingScores(order, scores)
    requires top >= 0.0 && forall i :: 0 <= i < |scores| ==> 0.0 <= scores[i] <= top
    requires Within(x, lower, upper) && Sum(x) == total
    ensures Dot(scores, x) <= Dot(scores, Greedy(lower, upper, total, order, eps)) + top * eps
  {
    var r := Greedy(lower, upper, total, order, eps);
    var pivot := GreedyShape(lower, upper, total, order, eps);
    var theta := if pivot < |order| then scores[order[pivot]] else 0.0;
    forall i | 0 <= i < |scores| ensures Opposes(scores[i], theta, x[i], r[i]) {
      PivotSlope(scores, lower, upper, order, r, pivot, x, theta, i);
    }
    BoundedGain(scores, x, r, theta, top, eps);
  }

  // And no feasible allocation that spends no more than the fill did scores more at all.
  lemma GreedyBestForItsSpend(scores: seq<real>, lower: seq<real>, upper: seq<real>, total: real,
                              order: seq<nat>, eps: real, x: seq<real>)
    requires Box(lower, upper, order) && |scores| == |lower| && eps >= 0.0
    requires Sum(lower) <= total <= Sum(upper)
    requires DescendingScores(order, scores) && forall i :: 0 <= i < |scores| ==> 0.0 <= scores[i]
    requires Within(x, lower, upper) && Sum(x) <= Sum(Greedy(lower, upper, total, order, eps))
    ensures Dot(scores, x) <= Dot(scores, Greedy(lower, upper, total, order, eps))
  {
    var r := Greedy(lower, upper, total, order, eps);
    var pivot := GreedyShape(lower, upper, total, order, eps);
    var theta := if pivot < |order| then scores[order[pivot]] else 0.0;
    forall i | 0 <= i < |scores| ensures Opposes(scores[i], theta, x[i], r[i]) {
      PivotSlope(scores, lower, upper, order, r, pivot, x, theta, i);
    }
    NoGain(scores, x, r, theta);
  }

  // ---- ordering campaigns ----

  function LexLe(a: string, b: string): bool {
    |a| == 0 || (|b| != 0 && (a[0] < b[0] || (a[0] == b[0] && LexLe(a[1..], b[1..]))))
  }

  lemma {:induction false} LexTotal(a: string, b: string)
    ensures LexLe(a, b) || LexLe(b, a)
    ensures LexLe(a, b) && LexLe(b, a) ==> a == b
  {
    if |a| != 0 && |b| != 0 && a[0] == b[0] {
      LexTotal(a[1..], b[1..]);
      assert a == [a[0]] + a[1..] && b == [b[0]] + b[1..];
    }
  }

  lemma {:induction false} LexTransitive(a: string, b: string, c: string)
    requires LexLe(a, b) && LexLe(b, c)
    ensures LexLe(a, c)
  {
    if |a| != 0 && a[0] == b[0] == c[0] {
      LexTransitive(a[1..], b[1..], c[1..]);
    }
  }

  // The parallel arrays the allocator works on, one position per eligible campaign.
  datatype Portfolio = Portfolio(ids: seq<string>, current: seq<real>, scores: seq<real>, roas: seq<real>) {
    predicate Aligned() { |ids| == |current| == |scores| == |roas| }

    function Id(i: nat): string { if i < |ids| then ids[i] else "" }
    function Score(i: nat): real { if i < |scores| then scores[i] else 0.0 }
    function Roas(i: nat): real { if i < |roas| then roas[i] else 0.0 }

    predicate FillBefore(i: nat, j: nat) {
      Score(i) > Score(j) || (Score(i) == Score(j) &&
      (Roas(i) > Roas(j) || (Roas(i) == Roas(j) && LexLe(Id(i), Id(j)))))
    }

    predicate ReleaseBefore(i: nat, j: nat) {
      Score(i) < Score(j) || (Score(i) == Score(j) && LexLe(Id(i), Id(j)))
    }

    function FillKey(): (nat, nat) -> bool { (i: nat, j: nat) => FillBefore(i, j) }
    function ReleaseKey(): (nat, nat) -> bool { (i: nat, j: nat) => ReleaseBefore(i, j) }

    function FillOrder(): seq<nat> { SortBy(Indices(|ids|), FillKey()) }

    // The held positions in listing order; the program sorts the same set.
    function Held(names: set<string>): (r: seq<nat>)
      ensures forall k :: 0 <= k < |r| ==> r[k] < |ids|
    {
      HeldBelow(names, |ids|)
    }

    function HeldBelow(names: set<string>, n: nat): (r: seq<nat>)
      requires n <= |ids|
      ensures forall k :: 0 <= k < |r| ==> r[k] < n && ids[r[k]] in names
      ensures forall i :: 0 <= i < n && ids[i] in names ==> i in r
      ensures forall j, k :: 0 <= j < k < |r| ==> r[j] < r[k]
    {
      if n == 0 then []
      else HeldBelow(names, n - 1) + (if ids[n - 1] in names then [n - 1] else [])
    }

    function ReleaseOrder(names: set<string>): seq<nat> { SortBy(Held(names), ReleaseKey()) }
  }

  lemma FillBeforeTotal(p: Portfolio)
    ensures TotalPreorder(p.FillKey())
  {
    forall a, b ensures p.FillBefore(a, b) || p.FillBefore(b, a) { LexTotal(p.Id(a), p.Id(b)); }
    forall a, b, c | p.FillBefore(a, b) && p.FillBefore(b, c) ensures p.FillBefore(a, c) {
      if LexLe(p.Id(a), p.Id(b)) && LexLe(p.Id(b), p.Id(c)) { LexTransitive(p.Id(a), p.Id(b), p.Id(c)); }
    }
  }

  lemma ReleaseBeforeTotal(p: Portfolio)
    ensures TotalPreorder(p.ReleaseKey())
  {
    forall a, b ensures p.ReleaseBefore(a, b) || p.ReleaseBefore(b, a) { LexTotal(p.Id(a), p.Id(b)); }
    forall a, b, c | p.ReleaseBefore(a, b) && p.ReleaseBefore(b, c) ensures p.ReleaseBefore(a, c) {
      if LexLe(p.Id(a), p.Id(b)) && LexLe(p.Id(b), p.Id(c)) { LexTransitive(p.Id(a), p.Id(b), p.Id(c)); }
    }
  }

  // The fill order visits every campaign once, best score first, then best ROAS, then id.
  lemma FillOrderSorted(p: Portfolio)
    requires p.Aligned()
    ensures IsPermutation(p.FillOrder(), |p.ids|)
    ensures DescendingScores(p.FillOrder(), p.scores)
    ensures forall i, j :: 0 <= i < j < |p.FillOrder()| ==> p.FillBefore(p.FillOrder()[i], p.FillOrder()[j])
  {
    var le := p.FillKey();
    FillBeforeTotal(p);
    SortByCorrect(Indices(|p.ids|), le);
    PermutationFromMultiset(p.FillOrder(), |p.ids|);
    forall i, j | 0 <= i < j < |p.FillOrder()| ensures p.FillBefore(p.FillOrder()[i], p.FillOrder()[j]) {
      assert le(p.FillOrder()[i], p.FillOrder()[j]);
    }
  }

  lemma {:induction false} IncreasingOnce(xs: seq<nat>, v: nat)
    requires forall j, k :: 0 <= j < k < |xs| ==> xs[j] < xs[k]
    ensures multiset(xs)[v] <= 1
  {
    if |xs| != 0 {
      var n := |xs| - 1;
      IncreasingOnce(xs[..n], v);
      assert xs == xs[..n] + [xs[n]];
      if v == xs[n] {
        assert v !in xs[..n];
      }
    }
  }

  lemma ReleaseOrderSorts(p: Portfolio, names: set<string>)
    ensures multiset(p.ReleaseOrder(names)) == multiset(p.Held(names))
    ensures Ordered(p.ReleaseOrder(names), p.ReleaseKey())
  {
    ReleaseBeforeTotal(p);
    SortByCorrect(p.Held(names), p.ReleaseKey());
  }

  lemma ReleaseOrderOnce(p: Portfolio, names: set<string>)
    ensures var order := p.ReleaseOrder(names); forall i, j :: 0 <= i < j < |order| ==> order[i] != order[j]
  {
    ReleaseOrderSorts(p, names);
    forall v ensures multiset(p.ReleaseOrder(names))[v] <= 1 { IncreasingOnce(p.Held(names), v); }
    DistinctFromMultiset(p.ReleaseOrder(names));
  }

  // The release order holds exactly the held campaigns, each once, weakest score first.
  lemma ReleaseOrderSorted(p: Portfolio, names: set<string>)
    requires p.Aligned()
    ensures var order := p.ReleaseOrder(names);
      && (forall k :: 0 <= k < |order| ==> order[k] < |p.ids| && p.ids[order[k]] in names)
      && (forall i :: 0 <= i < |p.ids| && p.ids[i] in names ==> i in order)
      && (forall i, j :: 0 <= i < j < |order| ==> order[i] != order[j])
      && (forall i, j :: 0 <= i < j < |order| ==> p.Score(order[i]) <= p.Score(order[j]))
  {
    var held := p.Held(names);
    var order := p.ReleaseOrder(names);
    ReleaseOrderSorts(p, names);
    ReleaseOrderOnce(p, names);
    forall k | 0 <= k < |order| ensures order[k] < |p.ids| && p.ids[order[k]] in names {
      assert order[k] in multiset(held);
    }
    forall i | 0 <= i < |p.ids| && p.ids[i] in names ensures i in order {
      assert i in held && i in multiset(held) && i in multiset(order);
    }
    forall i, j | 0 <= i < j < |order| ensures p.Score(order[i]) <= p.Score(order[j]) {
      assert p.ReleaseKey()(order[i], order[j]);
    }
  }

  // ---- one allocation: bounds, holds, fill ----

  function Raised(current: real, change: real): real { current * (1.0 + change) }
  function Cut(current: real, change: real): real { current * (1.0 - change) }

  datatype Task = Task(p: Portfolio, change: real, floor: real, held: set<string>, requested: real) {
    ghost predicate Valid() {
      && p.Aligned() && change >= 0.0
      && (forall i :: 0 <= i < |p.current| ==> p.current[i] > 0.0 && p.current[i] >= floor)
      && (forall i :: 0 <= i < |p.scores| ==> p.scores[i] > 0.0)
    }

    function Size(): nat { |p.current| }

    function Upper(): (r: seq<real>)
      ensures |r| == Size()
    {
      seq(Size(), i requires 0 <= i < Size() => Raised(p.current[i], change))
    }

    function Relaxed(i: nat): real
      requires i < Size()
    {
      Max(Cut(p.current[i], change), floor)
    }

    // The lower bounds while exactly the positions in `kept` are held at their current budget.
    function LowerWith(kept: set<nat>): (r: seq<real>)
      ensures |r| == Size()
    {
      seq(Size(), i requires 0 <= i < Size() => if i in kept then p.current[i] else Relaxed(i))
    }

    function Order(): seq<nat> { p.ReleaseOrder(held) }

    // The holds left after the first k of the release order are given up.
    function Kept(k: nat): set<nat>
      requires k <= |Order()|
    {
      set i | i in Order()[k..]
    }

    function HeadroomWith(kept: set<nat>): real
      requires Sum(LowerWith(kept)) <= Sum(Upper())
    {
      Clamp(requested, Sum(LowerWith(kept)), Sum(Upper())) - Sum(LowerWith(kept))
    }

    ghost predicate Moves(k: nat)
      requires Valid() && k <= |Order()|
    {
      LowerBelowUpper(this, Kept(k));
      HeadroomWith(Kept(k)) > 0.0
    }

    ghost function ReleasesFrom(k: nat): (r: nat)
      requires Valid() && k <= |Order()|
      ensures r <= |Order()|
      decreases |Order()| - k
    {
      if k == |Order()| then k
      else if Moves(k + 1) then k + 1
      else ReleasesFrom(k + 1)
    }

    // How many holds the allocator gives up.
    ghost function Releases(): (r: nat)
      requires Valid()
      ensures r <= |Order()|
    {
      if |Order()| == 0 || Moves(0) then 0 else ReleasesFrom(0)
    }

    ghost function FinalLower(): seq<real>
      requires Valid()
    {
      LowerWith(Kept(Releases()))
    }

    ghost function Budget(): real
      requires Valid()
    {
      LowerBelowUpper(this, Kept(Releases()));
      Clamp(requested, Sum(FinalLower()), Sum(Upper()))
    }

    ghost function Plan(eps: real): (r: seq<real>)
      requires Valid()
      ensures |r| == Size()
    {
      FillOrderSorted(p);
      Greedy(FinalLower(), Upper(), Budget(), p.FillOrder(), eps)
    }
  }

  lemma CurrentBetween(current: real, change: real)
    requires current >= 0.0 && change >= 0.0
    ensures Cut(current, change) <= current <= Raised(current, change)
  {
    assert current * change >= 0.0;
  }

  lemma BoundsAround(t: Task, i: nat)
    requires t.Valid() && i < t.Size()
    ensures t.floor <= t.Relaxed(i) <= t.p.current[i] <= t.Upper()[i]
  {
    CurrentBetween(t.p.current[i], t.change);
  }

  lemma LowerBelowUpper(t: Task, kept: set<nat>)
    requires t.Valid()
    ensures forall i :: 0 <= i < t.Size() ==> t.LowerWith(kept)[i] <= t.p.current[i] <= t.Upper()[i]
    ensures Sum(t.LowerWith(kept)) <= Sum(t.p.current) <= Sum(t.Upper())
  {
    forall i | 0 <= i < t.Size() ensures t.LowerWith(kept)[i] <= t.p.current[i] <= t.Upper()[i] {
      BoundsAround(t, i);
    }
    SumMonotone(t.LowerWith(kept), t.p.current);
    SumMonotone(t.p.current, t.Upper());
  }

  lemma LowerHeld(t: Task, kept: set<nat>, i: nat)
    requires i < t.Size()
    ensures t.LowerWith(kept)[i := t.p.current[i]] == t.LowerWith(kept + {i})
    ensures t.LowerWith(kept)[i := t.Relaxed(i)] == t.LowerWith(kept - {i})
  {
  }

  lemma KeptAll(t: Task)
    requires t.Valid()
    ensures t.Kept(0) == set i: nat | i < |t.p.ids| && t.p.ids[i] in t.held
    ensures t.Kept(0) == {} <==> |t.Order()| == 0
  {
    ReleaseOrderSorted(t.p, t.held);
    assert t.Order()[0..] == t.Order();
    if |t.Order()| > 0 {
      assert t.Order()[0] in t.Kept(0);
    }
  }

  // Floors every held campaign at its current budget.
  method HoldAll(t: Task, lower: array<real>) returns (effective: set<nat>)
    requires t.Valid() && lower[..] == t.LowerWith({})
    modifies lower
    ensures effective == t.Kept(0) && lower[..] == t.LowerWith(effective)
  {
    effective := {};
    var n := 0;
    while n < |t.p.ids|
      invariant 0 <= n <= |t.p.ids|
      invariant effective == set i: nat | i < n && t.p.ids[i] in t.held
      invariant lower[..] == t.LowerWith(effective)
    {
      if t.p.ids[n] in t.held {
        LowerHeld(t, effective, n);
        effective := effective + {n};
        lower[n] := t.p.current[n];
      }
      n := n + 1;
    }
    KeptAll(t);
  }

  // Gives up holds weakest first until the plan can move.
  method ReleaseWeakest(t: Task, lower: array<real>, held: set<nat>) returns (effective: set<nat>)
    requires t.Valid() && held == t.Kept(0) && lower[..] == t.LowerWith(held)
    modifies lower
    ensures effective == t.Kept(t.ReleasesFrom(0)) && lower[..] == t.LowerWith(effective)
  {
    effective := held;
    var releaseOrder := t.Order();
    var k := 0;
    while k < |releaseOrder|
      invariant 0 <= k <= |releaseOrder|
      invariant effective == t.Kept(k) && lower[..] == t.LowerWith(effective)
      invariant t.ReleasesFrom(k) == t.ReleasesFrom(0)
    {
      var index := releaseOrder[k];
      KeptStep(t, k);
      LowerHeld(t, effective, index);
      ghost var before := lower[..];
      lower[index] := t.Relaxed(index);
      assert lower[..] == before[index := t.Relaxed(index)];
      effective := effective - {index};
      k := k + 1;
      LowerBelowUpper(t, effective);
      if t.HeadroomWith(effective) > 0.0 {
        return;
      }
    }
  }

  method ApplyHolds(t: Task, lower: array<real>) returns (effective: set<nat>)
    requires t.Valid() && lower[..] == t.LowerWith({})
    modifies lower
    ensures effective == t.Kept(t.Releases())
    ensures lower[..] == t.FinalLower()
  {
    effective := HoldAll(t, lower);
    LowerBelowUpper(t, effective);
    KeptAll(t);
    if effective != {} && t.HeadroomWith(effective) <= 0.0 {
      effective := ReleaseWeakest(t, lower, effective);
    }
  }

  lemma KeptStep(t: Task, k: nat)
    requires t.Valid() && k < |t.Order()|
    ensures t.Order()[k] < t.Size()
    ensures t.Kept(k + 1) == t.Kept(k) - {t.Order()[k]}
  {
    var order := t.Order();
    ReleaseOrderSorted(t.p, t.held);
    assert order[k..] == [order[k]] + order[k + 1..];
    assert order[k] !in order[k + 1..];
  }

  lemma {:induction false} ReleasesFromMinimal(t: Task, k: nat)
    requires t.Valid() && k <= |t.Order()|
    ensures var m := t.ReleasesFrom(k);
      && k <= m
      && (forall j :: k < j < m ==> !t.Moves(j))
      && (m < |t.Order()| ==> t.Moves(m))
      && (k < |t.Order()| ==> k < m)
    decreases |t.Order()| - k
  {
    if k < |t.Order()| && !t.Moves(k + 1) {
      ReleasesFromMinimal(t, k + 1);
    }
  }

  lemma EarlierIsWeaker(p: Portfolio, names: set<string>, i: nat, j: nat)
    requires i < j < |p.ReleaseOrder(names)|
    ensures p.Score(p.ReleaseOrder(names)[i]) <= p.Score(p.ReleaseOrder(names)[j])
  {
    ReleaseOrderSorts(p, names);
    assert p.ReleaseKey()(p.ReleaseOrder(names)[i], p.ReleaseOrder(names)[j]);
  }

  lemma ReleasedAreWeaker(t: Task, kept: nat, gone: nat)
    requires t.Valid()
    requires kept in t.Kept(t.Releases()) && gone in t.Kept(0) && gone !in t.Kept(t.Releases())
    ensures t.p.Score(gone) <= t.p.Score(kept)
  {
    var m := t.Releases();
    var order := t.Order();
    assert order[0..] == order[..m] + order[m..];
    var a :| 0 <= a < |order[m..]| && order[m..][a] == kept;
    var b :| 0 <= b < |order[..m]| && order[..m][b] == gone;
    EarlierIsWeaker(t.p, t.held, b, m + a);
  }

  // Holds are released weakest first and no further than needed: every shorter prefix still
  // deadlocks the plan, and the chosen one frees it unless there is nothing left to release.
  lemma HoldsReleasedMinimally(t: Task)
    requires t.Valid()
    ensures var m := t.Releases();
      && (forall j :: 0 <= j < m ==> !t.Moves(j))
      && (m < |t.Order()| ==> t.Moves(m))
    ensures forall kept, gone ::
              kept in t.Kept(t.Releases()) && gone in t.Kept(0) && gone !in t.Kept(t.Releases()) ==>
              t.p.Score(gone) <= t.p.Score(kept)
    ensures t.Kept(0) == set i: nat | i < |t.p.ids| && t.p.ids[i] in t.held
  {
    KeptAll(t);
    ReleasesFromMinimal(t, 0);
    forall kept, gone | kept in t.Kept(t.Releases()) && gone in t.Kept(0) && gone !in t.Kept(t.Releases())
      ensures t.p.Score(gone) <= t.p.Score(kept)
    {
      ReleasedAreWeaker(t, kept, gone);
    }
  }

  // Whatever the holds, every recommendation stays inside the change fraction and above the floor.
  lemma PlanWithinBounds(t: Task, eps: real)
    requires t.Valid() && eps >= 0.0
    ensures forall i :: 0 <= i < t.Size() ==>
      t.floor <= t.Relaxed(i) <= t.Plan(eps)[i] <= t.Upper()[i]
  {
    var kept := t.Kept(t.Releases());
    FillOrderSorted(t.p);
    LowerBelowUpper(t, kept);
    GreedyWithin(t.FinalLower(), t.Upper(), t.Budget(), t.p.FillOrder(), eps);
    forall i | 0 <= i < t.Size()
      ensures t.floor <= t.Relaxed(i) <= t.Plan(eps)[i] <= t.Upper()[i]
    {
      BoundsAround(t, i);
      assert t.FinalLower()[i] <= t.Plan(eps)[i] <= t.Upper()[i];
    }
  }

  // A hold reported as kept is honoured: that budget is never cut.
  lemma KeptHoldsNeverCut(t: Task, eps: real, i: nat)
    requires t.Valid() && eps >= 0.0 && i < t.Size()
    requires i in t.Kept(t.Releases())
    ensures t.Plan(eps)[i] >= t.p.current[i]
  {
    FillOrderSorted(t.p);
    LowerBelowUpper(t, t.Kept(t.Releases()));
    GreedyWithin(t.FinalLower(), t.Upper(), t.Budget(), t.p.FillOrder(), eps);
    assert t.FinalLower()[i] == t.p.current[i];
  }

  // The plan spends the requested total, clamped to what the bounds allow, up to the early stop.
  // Asking for the current total leaves the total unchanged.
  lemma PlanConservesBudget(t: Task, eps: real)
    requires t.Valid() && eps >= 0.0
    ensures t.Budget() - eps <= Sum(t.Plan(eps)) <= t.Budget()
    ensures t.requested == Sum(t.p.current) ==> t.Budget() == Sum(t.p.current)
  {
    FillOrderSorted(t.p);
    LowerBelowUpper(t, t.Kept(t.Releases()));
    var pivot := GreedyShape(t.FinalLower(), t.Upper(), t.Budget(), t.p.FillOrder(), eps);
  }

  // No allocation that honours the same bounds and spends the same total scores more.
  lemma PlanIsOptimal(t: Task, eps: real, top: real, x: seq<real>)
    requires t.Valid() && eps >= 0.0
    requires top >= 0.0 && forall i :: 0 <= i < t.Size() ==> t.p.scores[i] <= top
    requires Within(x, t.FinalLower(), t.Upper()) && Sum(x) == t.Budget()
    ensures Dot(t.p.scores, x) <= Dot(t.p.scores, t.Plan(eps)) + top * eps
  {
    FillOrderSorted(t.p);
    LowerBelowUpper(t, t.Kept(t.Releases()));
    GreedyIsOptimal(t.p.scores, t.FinalLower(), t.Upper(), t.Budget(), t.p.FillOrder(), eps, top, x);
  }

  // ---- the whole allocator ----

  // One campaign's observed delivery with its allocation score, which is taken as given.
  datatype Snapshot = Snapshot(id: string, cost: real, score: real, roas: real)

  datatype Allocation = Allocation(id: string, current: real, recommended: real, held: bool)

  function Eligible(snapshots: seq<Snapshot>): (r: seq<Snapshot>)
    ensures forall i :: 0 <= i < |r| ==> r[i].cost > 0.0
  {
    if |snapshots| == 0 then []
    else (if snapshots[0].cost > 0.0 then [snapshots[0]] else []) + Eligible(snapshots[1..])
  }

  // The budget a campaign is managed against, or its spend when none is configured.
  function Baseline(s: Snapshot, budgets: map<string, real>): real {
    if s.id in budgets && budgets[s.id] > 0.0 then budgets[s.id] else s.cost
  }

  const MIN_SCORE := 0.000001

  function PortfolioOf(eligible: seq<Snapshot>, budgets: map<string, real>, floor: real): Portfolio {
    var n := |eligible|;
    Portfolio(
      seq(n, i requires 0 <= i < n => eligible[i].id),
      seq(n, i requires 0 <= i < n => Max(Baseline(eligible[i], budgets), floor)),
      seq(n, i requires 0 <= i < n => Max(eligible[i].score, MIN_SCORE)),
      seq(n, i requires 0 <= i < n => Max(eligible[i].roas, 0.0)))
  }

  function TaskOf(snapshots: seq<Snapshot>, totalBudget: Option<real>, maxChange: real,
                  dailyBudgets: map<string, real>, floor: real, noDecrease: set<string>): Task {
    var p := PortfolioOf(Eligible(snapshots), dailyBudgets, floor);
    Task(p, Clamp(maxChange, 0.0, 10.0), floor, noDecrease,
         if totalBudget.None? then Sum(p.current) else totalBudget.value)
  }

  // Every input the allocator accepts gives a task its guarantees apply to.
  lemma TasksAreValid(snapshots: seq<Snapshot>, totalBudget: Option<real>, maxChange: real,
                      dailyBudgets: map<string, real>, floor: real, noDecrease: set<string>)
    ensures TaskOf(snapshots, totalBudget, maxChange, dailyBudgets, floor, noDecrease).Valid()
  {
    var eligible := Eligible(snapshots);
    var p := PortfolioOf(eligible, dailyBudgets, floor);
    forall i | 0 <= i < |p.current| ensures p.current[i] > 0.0 && p.current[i] >= floor && p.scores[i] > 0.0 {
      assert eligible[i].cost > 0.0;
    }
  }

  ghost function Allocated(snapshots: seq<Snapshot>, totalBudget: Option<real>, maxChange: real,
                           dailyBudgets: map<string, real>, floor: real, noDecrease: set<string>, eps: real)
    : (plan: seq<Allocation>)
    ensures |plan| == |Eligible(snapshots)|
  {
    TasksAreValid(snapshots, totalBudget, maxChange, dailyBudgets, floor, noDecrease);
    var t := TaskOf(snapshots, totalBudget, maxChange, dailyBudgets, floor, noDecrease);
    seq(t.Size(), i requires 0 <= i < t.Size() =>
      Allocation(t.p.ids[i], t.p.current[i], t.Plan(eps)[i], i in t.Kept(t.Releases())))
  }

  method Allocate(snapshots: seq<Snapshot>, totalBudget: Option<real>, maxChange: real,
                  dailyBudgets: map<string, real>, floor: real, noDecrease: set<string>, eps: real)
    returns (plan: seq<Allocation>)
    ensures plan == Allocated(snapshots, totalBudget, maxChange, dailyBudgets, floor, noDecrease, eps)
  {
    TasksAreValid(snapshots, totalBudget, maxChange, dailyBudgets, floor, noDecrease);
    var t := TaskOf(snapshots, totalBudget, maxChange, dailyBudgets, floor, noDecrease);
    if |Eligible(snapshots)| == 0 {
      return [];
    }
    var start := t.LowerWith({});
    var lower := new real[|start|](i requires 0 <= i < |start| => start[i]);
    assert lower[..] == start;
    var heldIndices := ApplyHolds(t, lower);
    LowerBelowUpper(t, heldIndices);
    FillOrderSorted(t.p);
    var budget := Clamp(t.requested, Sum(lower[..]), Sum(t.Upper()));
    var allocation := GreedyOptimum(lower[..], t.Upper(), budget, t.p.FillOrder(), eps);
    var amounts := allocation[..];
    assert amounts == t.Plan(eps);
    plan := seq(t.Size(), i requires 0 <= i < t.Size() =>
      Allocation(t.p.ids[i], t.p.current[i], amounts[i], i in heldIndices));
  }
}
