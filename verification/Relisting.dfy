/** The plan a campaign gets does not depend on the order the caller lists campaigns in. */
module Relisting {
  import opened Budget
  import opened Common
  import opened Sums

  function Take<T>(s: seq<T>, xs: seq<nat>): (r: seq<T>)
    requires forall k :: 0 <= k < |xs| ==> xs[k] < |s|
    ensures |r| == |xs|
  {
    seq(|xs|, k requires 0 <= k < |xs| => s[xs[k]])
  }

  lemma TakeWithout(s: seq<real>, ys: seq<nat>, j: nat)
    requires j < |ys| && forall k :: 0 <= k < |ys| ==> ys[k] < |s|
    ensures Sum(Take(s, ys)) == Sum(Take(s, ys[..j] + ys[j + 1..])) + s[ys[j]]
  {
    SumRemove(Take(s, ys), j);
    assert Take(s, ys[..j] + ys[j + 1..]) == Take(s, ys)[..j] + Take(s, ys)[j + 1..];
  }

  lemma SplitAt(ys: seq<nat>, j: nat)
    requires j < |ys|
    ensures multiset(ys) == multiset(ys[..j] + ys[j + 1..]) + multiset{ys[j]}
  {
    assert ys == ys[..j] + [ys[j]] + ys[j + 1..];
  }

  lemma MultisetWithout(xs: seq<nat>, ys: seq<nat>, j: nat)
    requires |xs| > 0 && j < |ys| && ys[j] == xs[0] && multiset(xs) == multiset(ys)
    ensures multiset(xs[1..]) == multiset(ys[..j] + ys[j + 1..])
  {
    FirstAndRest(xs);
    SplitAt(ys, j);
    assert multiset(xs[1..]) == multiset(xs) - multiset{xs[0]};
  }

  lemma SumOfFirst(s: seq<real>, xs: seq<nat>)
    requires |xs| > 0 && forall k :: 0 <= k < |xs| ==> xs[k] < |s|
    ensures Sum(Take(s, xs)) == Sum(Take(s, xs[1..])) + s[xs[0]]
  {
    TakeWithout(s, xs, 0);
    assert xs[..0] + xs[1..] == xs[1..];
  }

  // A sum does not depend on the order of its terms.
  lemma {:induction false} SumPermuted(s: seq<real>, xs: seq<nat>, ys: seq<nat>)
    requires forall k :: 0 <= k < |xs| ==> xs[k] < |s|
    requires forall k :: 0 <= k < |ys| ==> ys[k] < |s|
    requires multiset(xs) == multiset(ys)
    ensures Sum(Take(s, xs)) == Sum(Take(s, ys))
    decreases |xs|
  {
    assert |xs| == |multiset(xs)| == |multiset(ys)| == |ys|;
    if |xs| != 0 {
      assert xs[0] in multiset(xs);
      var j :| 0 <= j < |ys| && ys[j] == xs[0];
      MultisetWithout(xs, ys, j);
      SumOfFirst(s, xs);
      TakeWithout(s, ys, j);
      SumPermuted(s, xs[1..], ys[..j] + ys[j + 1..]);
    }
  }

  ghost predicate Distinct(xs: seq<nat>) { forall i, j :: 0 <= i < j < |xs| ==> xs[i] != xs[j] }

  lemma {:induction false} OnceEach(xs: seq<nat>, v: nat)
    requires Distinct(xs)
    ensures multiset(xs)[v] == if v in xs then 1 else 0
  {
    if |xs| != 0 {
      var n := |xs| - 1;
      OnceEach(xs[..n], v);
      assert xs == xs[..n] + [xs[n]];
    }
  }

  lemma SameElements(xs: seq<nat>, ys: seq<nat>)
    requires Distinct(xs) && Distinct(ys) && forall v: nat :: v in xs <==> v in ys
    ensures multiset(xs) == multiset(ys)
  {
    forall v: nat ensures multiset(xs)[v] == multiset(ys)[v] {
      OnceEach(xs, v);
      OnceEach(ys, v);
    }
  }

  lemma SumRelisted(s: seq<real>, perm: seq<nat>)
    requires IsPermutation(perm, |s|)
    ensures Sum(Take(s, perm)) == Sum(s)
  {
    forall v: nat ensures v in perm <==> v in Indices(|s|) {
      if v < |s| {
        assert Indices(|s|)[v] == v;
      }
    }
    SameElements(perm, Indices(|s|));
    SumPermuted(s, perm, Indices(|s|));
    assert Take(s, Indices(|s|)) == s;
  }

  // Two listings of the same portfolio: position k of the second is position perm[k] of the first.
  ghost predicate Relisted(first: Portfolio, second: Portfolio, perm: seq<nat>) {
    && first.Aligned() && IsPermutation(perm, |first.ids|)
    && (forall i, j :: 0 <= i < j < |first.ids| ==> first.ids[i] != first.ids[j])
    && second == Portfolio(Take(first.ids, perm), Take(first.current, perm),
                           Take(first.scores, perm), Take(first.roas, perm))
  }

  // Sorting commutes with relisting when distinct ids rule out ties.
  lemma SortRelisted(first: Portfolio, perm: seq<nat>, xs: seq<nat>, ys: seq<nat>, le: (nat, nat) -> bool)
    requires |perm| == |first.ids| && forall k :: 0 <= k < |ys| ==> ys[k] < |perm|
    requires TotalPreorder(le) && Ordered(xs, le) && Ordered(Take(perm, ys), le)
    requires forall v: nat :: v in xs <==> v in Take(perm, ys)
    requires Distinct(xs) && Distinct(Take(perm, ys))
    requires forall a, b :: a in xs && b in xs && le(a, b) && le(b, a) ==> a == b
    ensures xs == Take(perm, ys)
  {
    SameElements(xs, Take(perm, ys));
    assert NoTies(multiset(xs), le);
    OrderingUnique(xs, Take(perm, ys), le);
  }

  lemma RelistedMembers(perm: seq<nat>, ys: seq<nat>, n: nat, v: nat)
    requires IsPermutation(perm, n) && IsPermutation(ys, n)
    ensures v in Take(perm, ys) <==> v < n
  {
    if v < n {
      assert v in perm;
      var k :| 0 <= k < n && perm[k] == v;
      assert k in ys;
      var m :| 0 <= m < n && ys[m] == k;
      assert Take(perm, ys)[m] == v;
    }
  }

  lemma RelistedDistinct(perm: seq<nat>, ys: seq<nat>, n: nat)
    requires IsPermutation(perm, n) && IsPermutation(ys, n)
    ensures Distinct(Take(perm, ys))
  {
  }

  lemma FillKeyRelisted(first: Portfolio, second: Portfolio, perm: seq<nat>, a: nat, b: nat)
    requires Relisted(first, second, perm) && a < |perm| && b < |perm|
    ensures second.FillBefore(a, b) <==> first.FillBefore(perm[a], perm[b])
  {
    assert second.ids[a] == first.ids[perm[a]] && second.ids[b] == first.ids[perm[b]];
    assert second.scores[a] == first.scores[perm[a]] && second.scores[b] == first.scores[perm[b]];
    assert second.roas[a] == first.roas[perm[a]] && second.roas[b] == first.roas[perm[b]];
  }

  lemma FillOrdered(first: Portfolio, second: Portfolio, perm: seq<nat>)
    requires Relisted(first, second, perm)
    ensures IsPermutation(second.FillOrder(), |perm|)
    ensures Ordered(first.FillOrder(), first.FillKey())
    ensures Ordered(Take(perm, second.FillOrder()), first.FillKey())
  {
    FillOrderSorted(first);
    FillOrderSorted(second);
    var xs, ys, le := first.FillOrder(), second.FillOrder(), first.FillKey();
    forall i, j | 0 <= i < j < |xs| ensures le(xs[i], xs[j]) {
      assert first.FillBefore(xs[i], xs[j]);
    }
    forall i, j | 0 <= i < j < |ys| ensures le(Take(perm, ys)[i], Take(perm, ys)[j]) {
      assert second.FillBefore(ys[i], ys[j]);
      FillKeyRelisted(first, second, perm, ys[i], ys[j]);
    }
  }

  lemma NoFillTies(first: Portfolio, a: nat, b: nat)
    requires forall i, j :: 0 <= i < j < |first.ids| ==> first.ids[i] != first.ids[j]
    requires a < |first.ids| && b < |first.ids| && first.FillBefore(a, b) && first.FillBefore(b, a)
    ensures a == b
  {
    LexTotal(first.Id(a), first.Id(b));
  }

  lemma FillOrderRelisted(first: Portfolio, second: Portfolio, perm: seq<nat>)
    requires Relisted(first, second, perm)
    ensures IsPermutation(second.FillOrder(), |perm|)
    ensures first.FillOrder() == Take(perm, second.FillOrder())
  {
    FillOrderSorted(first);
    FillOrdered(first, second, perm);
    FillBeforeTotal(first);
    var xs, ys, n := first.FillOrder(), second.FillOrder(), |first.ids|;
    forall v: nat ensures v in xs <==> v in Take(perm, ys) {
      RelistedMembers(perm, ys, n, v);
    }
    RelistedDistinct(perm, ys, n);
    forall a, b | a in xs && b in xs && first.FillKey()(a, b) && first.FillKey()(b, a) ensures a == b {
      NoFillTies(first, a, b);
    }
    SortRelisted(first, perm, xs, ys, first.FillKey());
  }

  lemma {:induction false} FillRelisted(alloc: seq<real>, upper: seq<real>, remaining: real, order: seq<nat>,
                                        eps: real, perm: seq<nat>)
    requires |alloc| == |upper| && IsPermutation(perm, |alloc|)
    requires forall k :: 0 <= k < |order| ==> order[k] < |perm|
    ensures Fill(Take(alloc, perm), Take(upper, perm), remaining, order, eps)
         == Take(Fill(alloc, upper, remaining, Take(perm, order), eps), perm)
    decreases |order|
  {
    if |order| != 0 {
      var i := order[0];
      assert Take(perm, order)[1..] == Take(perm, order[1..]);
      var take := Min(upper[perm[i]] - alloc[perm[i]], remaining);
      var next := alloc[perm[i] := alloc[perm[i]] + take];
      assert Take(alloc, perm)[i := alloc[perm[i]] + take] == Take(next, perm);
      FillRelisted(alloc, upper, remaining, order[1..], eps, perm);
      FillRelisted(next, upper, remaining - take, order[1..], eps, perm);
    }
  }

  ghost predicate RelistedTask(first: Task, second: Task, perm: seq<nat>) {
    && first.Valid() && second.Valid()
    && Relisted(first.p, second.p, perm)
    && second.change == first.change && second.floor == first.floor
    && second.held == first.held && second.requested == first.requested
  }

  lemma ReleaseMembers(first: Task, second: Task, perm: seq<nat>, v: nat)
    requires RelistedTask(first, second, perm)
    requires forall k :: 0 <= k < |second.Order()| ==> second.Order()[k] < |perm|
    ensures v in first.Order() <==> v in Take(perm, second.Order())
  {
    ReleaseOrderSorted(first.p, first.held);
    ReleaseOrderSorted(second.p, second.held);
    var ys := second.Order();
    if v in first.Order() {
      assert v in perm;
      var k :| 0 <= k < |perm| && perm[k] == v;
      assert k in ys;
      var m :| 0 <= m < |ys| && ys[m] == k;
      assert Take(perm, ys)[m] == v;
    }
    if v in Take(perm, ys) {
      var m :| 0 <= m < |ys| && perm[ys[m]] == v;
      assert second.p.ids[ys[m]] == first.p.ids[v];
    }
  }

  lemma KeyRelisted(first: Portfolio, second: Portfolio, perm: seq<nat>, a: nat, b: nat)
    requires Relisted(first, second, perm) && a < |perm| && b < |perm|
    ensures second.ReleaseBefore(a, b) <==> first.ReleaseBefore(perm[a], perm[b])
  {
    assert second.ids[a] == first.ids[perm[a]] && second.ids[b] == first.ids[perm[b]];
    assert second.scores[a] == first.scores[perm[a]] && second.scores[b] == first.scores[perm[b]];
  }

  lemma ReleaseOrdered(first: Task, second: Task, perm: seq<nat>)
    requires RelistedTask(first, second, perm)
    requires forall k :: 0 <= k < |second.Order()| ==> second.Order()[k] < |perm|
    ensures Ordered(first.Order(), first.p.ReleaseKey())
    ensures Ordered(Take(perm, second.Order()), first.p.ReleaseKey())
  {
    ReleaseOrderSorts(first.p, first.held);
    ReleaseOrderSorts(second.p, second.held);
    var ys := second.Order();
    forall i, j | 0 <= i < j < |ys|
      ensures first.p.ReleaseKey()(Take(perm, ys)[i], Take(perm, ys)[j])
    {
      assert second.p.ReleaseKey()(ys[i], ys[j]);
      KeyRelisted(first.p, second.p, perm, ys[i], ys[j]);
    }
  }

  lemma ReleaseInRange(second: Task, n: nat)
    requires second.Valid() && |second.p.ids| == n
    ensures forall k :: 0 <= k < |second.Order()| ==> second.Order()[k] < n
    ensures Distinct(second.Order())
  {
    ReleaseOrderSorted(second.p, second.held);
  }

  lemma TakeDistinct(perm: seq<nat>, ys: seq<nat>, n: nat)
    requires IsPermutation(perm, n) && Distinct(ys) && forall k :: 0 <= k < |ys| ==> ys[k] < n
    ensures Distinct(Take(perm, ys))
  {
  }

  lemma NoReleaseTies(first: Portfolio, a: nat, b: nat)
    requires forall i, j :: 0 <= i < j < |first.ids| ==> first.ids[i] != first.ids[j]
    requires a < |first.ids| && b < |first.ids| && first.ReleaseBefore(a, b) && first.ReleaseBefore(b, a)
    ensures a == b
  {
    LexTotal(first.Id(a), first.Id(b));
  }

  lemma ReleaseOrderRelisted(first: Task, second: Task, perm: seq<nat>)
    requires RelistedTask(first, second, perm)
    ensures forall k :: 0 <= k < |second.Order()| ==> second.Order()[k] < |perm|
    ensures first.Order() == Take(perm, second.Order())
  {
    var n, xs, ys, le := |first.p.ids|, first.Order(), second.Order(), first.p.ReleaseKey();
    ReleaseInRange(first, n);
    ReleaseInRange(second, n);
    TakeDistinct(perm, ys, n);
    ReleaseOrdered(first, second, perm);
    ReleaseBeforeTotal(first.p);
    forall v: nat ensures v in xs <==> v in Take(perm, ys) {
      ReleaseMembers(first, second, perm, v);
    }
    forall a, b | a in xs && b in xs && le(a, b) && le(b, a) ensures a == b {
      NoReleaseTies(first.p, a, b);
    }
    SortRelisted(first.p, perm, xs, ys, le);
  }

  lemma KeptRelisted(first: Task, second: Task, perm: seq<nat>, k: nat, i: nat)
    requires RelistedTask(first, second, perm) && i < |perm|
    requires k <= |first.Order()| && |first.Order()| == |second.Order()|
    ensures i in second.Kept(k) <==> perm[i] in first.Kept(k)
  {
    ReleaseOrderRelisted(first, second, perm);
    var xs := first.Order();
    var ys := second.Order();
    if i in ys[k..] {
      var m :| 0 <= m < |ys[k..]| && ys[k..][m] == i;
      assert xs[k..][m] == perm[ys[k + m]];
    }
    if perm[i] in xs[k..] {
      var m :| 0 <= m < |xs[k..]| && xs[k..][m] == perm[i];
      assert xs[k + m] == perm[ys[k + m]];
      assert ys[k..][m] == i;
    }
  }

  lemma UpperRelisted(first: Task, second: Task, perm: seq<nat>)
    requires RelistedTask(first, second, perm)
    ensures second.Upper() == Take(first.Upper(), perm)
    ensures Sum(second.Upper()) == Sum(first.Upper())
  {
    forall i: nat | i < |perm| ensures second.Upper()[i] == first.Upper()[perm[i]] {
      assert second.p.current[i] == first.p.current[perm[i]];
    }
    SumRelisted(first.Upper(), perm);
  }

  lemma LowerAt(first: Task, second: Task, perm: seq<nat>, k: nat, i: nat)
    requires RelistedTask(first, second, perm) && i < |perm|
    requires k <= |first.Order()| && |first.Order()| == |second.Order()|
    ensures second.LowerWith(second.Kept(k))[i] == first.LowerWith(first.Kept(k))[perm[i]]
  {
    KeptRelisted(first, second, perm, k, i);
    assert second.p.current[i] == first.p.current[perm[i]];
  }

  lemma LowerRelisted(first: Task, second: Task, perm: seq<nat>, k: nat)
    requires RelistedTask(first, second, perm)
    requires k <= |first.Order()| && |first.Order()| == |second.Order()|
    ensures second.LowerWith(second.Kept(k)) == Take(first.LowerWith(first.Kept(k)), perm)
    ensures Sum(second.LowerWith(second.Kept(k))) == Sum(first.LowerWith(first.Kept(k)))
  {
    var before, after := first.LowerWith(first.Kept(k)), second.LowerWith(second.Kept(k));
    forall i: nat | i < |perm| ensures after[i] == before[perm[i]] {
      LowerAt(first, second, perm, k, i);
    }
    assert after == Take(before, perm);
    SumRelisted(before, perm);
  }

  lemma MovesRelisted(first: Task, second: Task, perm: seq<nat>, k: nat)
    requires RelistedTask(first, second, perm)
    requires k <= |first.Order()| && |first.Order()| == |second.Order()|
    ensures second.Moves(k) == first.Moves(k)
  {
    LowerRelisted(first, second, perm, k);
    UpperRelisted(first, second, perm);
  }

  // The moves decide how many holds are released.
  lemma ReleasesDetermined(first: Task, second: Task, k: nat)
    requires first.Valid() && second.Valid() && k <= |first.Order()| == |second.Order()|
    requires forall j :: k < j <= |first.Order()| ==> (second.Moves(j) <==> first.Moves(j))
    ensures second.ReleasesFrom(k) == first.ReleasesFrom(k)
  {
    ReleasesFromMinimal(first, k);
    ReleasesFromMinimal(second, k);
  }

  lemma ReleasesRelisted(first: Task, second: Task, perm: seq<nat>)
    requires RelistedTask(first, second, perm) && |first.Order()| == |second.Order()|
    ensures second.ReleasesFrom(0) == first.ReleasesFrom(0)
  {
    forall j: nat | j <= |first.Order()| ensures second.Moves(j) <==> first.Moves(j) {
      MovesRelisted(first, second, perm, j);
    }
    ReleasesDetermined(first, second, 0);
  }

  lemma GreedyRelisted(lower: seq<real>, upper: seq<real>, total: real, order: seq<nat>, eps: real, perm: seq<nat>)
    requires |lower| == |upper| && IsPermutation(perm, |lower|)
    requires forall k :: 0 <= k < |order| ==> order[k] < |perm|
    ensures Greedy(Take(lower, perm), Take(upper, perm), total, order, eps)
         == Take(Greedy(lower, upper, total, Take(perm, order), eps), perm)
  {
    SumRelisted(lower, perm);
    FillRelisted(lower, upper, total - Sum(lower), order, eps, perm);
  }

  // Reordering the campaigns in the call reorders the plan and changes nothing else.
  lemma PlanIndependentOfListing(first: Task, second: Task, perm: seq<nat>, eps: real)
    requires RelistedTask(first, second, perm)
    ensures second.Releases() == first.Releases()
    ensures second.Plan(eps) == Take(first.Plan(eps), perm)
  {
    ReleaseOrderRelisted(first, second, perm);
    MovesRelisted(first, second, perm, 0);
    ReleasesRelisted(first, second, perm);
    LowerRelisted(first, second, perm, first.Releases());
    UpperRelisted(first, second, perm);
    FillOrderRelisted(first.p, second.p, perm);
    GreedyRelisted(first.FinalLower(), first.Upper(), first.Budget(), second.p.FillOrder(), eps, perm);
  }
}
