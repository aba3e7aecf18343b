/**
 * What the allocator returns, in terms of what it was given.
 *
 * Every result here speaks of the snapshots, budgets and limits the caller passes in and of the
 * allocations that come back.
 */
module Allocator {
  import opened Common
  import opened Sums
  import opened Budget

  // ---- the campaigns and their baselines ----

  function Shifted(ks: seq<nat>): (r: seq<nat>)
    ensures |r| == |ks| && forall i :: 0 <= i < |ks| ==> r[i] == ks[i] + 1
  {
    seq(|ks|, i requires 0 <= i < |ks| => ks[i] + 1)
  }

  // These are the positions of the chosen among all, in order.
  ghost predicate Picks(from: seq<nat>, all: seq<Snapshot>, chosen: seq<Snapshot>) {
    && |from| == |chosen|
    && (forall i, j :: 0 <= i < j < |from| ==> from[i] < from[j])
    && (forall i :: 0 <= i < |from| ==> from[i] < |all| && chosen[i] == all[from[i]])
  }

  lemma PicksShifted(from: seq<nat>, all: seq<Snapshot>, chosen: seq<Snapshot>)
    requires |all| > 0 && Picks(from, all[1..], chosen)
    ensures Picks(Shifted(from), all, chosen)
  {
  }

  lemma PicksFirst(from: seq<nat>, all: seq<Snapshot>, chosen: seq<Snapshot>)
    requires |all| > 0 && Picks(from, all[1..], chosen)
    ensures Picks([0] + Shifted(from), all, [all[0]] + chosen)
  {
    PicksShifted(from, all, chosen);
  }

  lemma ShiftedHas(from: seq<nat>, k: nat)
    ensures k in Shifted(from) <==> 0 < k && k - 1 in from
  {
    if 0 < k && k - 1 in from {
      var i :| 0 <= i < |from| && from[i] == k - 1;
      assert Shifted(from)[i] == k;
    }
  }

  // The plan is for exactly the campaigns with spend, in the order they were listed in.
  lemma {:induction false} EligibleFrom(snapshots: seq<Snapshot>) returns (from: seq<nat>)
    ensures Picks(from, snapshots, Eligible(snapshots))
    ensures forall k :: 0 <= k < |snapshots| ==> (snapshots[k].cost > 0.0 <==> k in from)
  {
    if |snapshots| == 0 {
      from := [];
    } else {
      var later := EligibleFrom(snapshots[1..]);
      if snapshots[0].cost > 0.0 {
        from := [0] + Shifted(later);
        PicksFirst(later, snapshots, Eligible(snapshots[1..]));
      } else {
        from := Shifted(later);
        PicksShifted(later, snapshots, Eligible(snapshots[1..]));
        assert [] + Eligible(snapshots[1..]) == Eligible(snapshots[1..]);
      }
      forall k | 0 <= k < |snapshots| ensures snapshots[k].cost > 0.0 <==> k in from {
        ShiftedHas(later, k);
        assert k > 0 ==> snapshots[k] == snapshots[1..][k - 1];
      }
    }
  }

  // What a task's plan is returned as.
  ghost predicate Returned(t: Task, eps: real, plan: seq<Allocation>) {
    && t.Valid() && |plan| == t.Size()
    && forall i :: 0 <= i < |plan| ==>
         && plan[i].id == t.p.ids[i] && plan[i].current == t.p.current[i]
         && plan[i].recommended == t.Plan(eps)[i]
         && (plan[i].held <==> i in t.Kept(t.Releases()))
  }

  lemma AllocatedIsReturned(snapshots: seq<Snapshot>, totalBudget: Option<real>, maxChange: real,
                            dailyBudgets: map<string, real>, floor: real, noDecrease: set<string>, eps: real,
                            plan: seq<Allocation>)
    returns (t: Task)
    requires plan == Allocated(snapshots, totalBudget, maxChange, dailyBudgets, floor, noDecrease, eps)
    ensures t == TaskOf(snapshots, totalBudget, maxChange, dailyBudgets, floor, noDecrease) && Returned(t, eps, plan)
  {
    TasksAreValid(snapshots, totalBudget, maxChange, dailyBudgets, floor, noDecrease);
    t := TaskOf(snapshots, totalBudget, maxChange, dailyBudgets, floor, noDecrease);
  }

  // A campaign is measured from its configured budget, or from its spend when it has none, and
  // never from less than the floor.
  lemma BaselineIsBudgetOrSpend(snapshots: seq<Snapshot>, totalBudget: Option<real>, maxChange: real,
                                dailyBudgets: map<string, real>, floor: real, noDecrease: set<string>, eps: real,
                                plan: seq<Allocation>, i: nat)
    requires plan == Allocated(snapshots, totalBudget, maxChange, dailyBudgets, floor, noDecrease, eps) && i < |plan|
    ensures var s := Eligible(snapshots)[i];
      var base := if s.id in dailyBudgets && dailyBudgets[s.id] > 0.0 then dailyBudgets[s.id] else s.cost;
      && plan[i].id == s.id && plan[i].current == (if base < floor then floor else base) && plan[i].current > 0.0
  {
    var t := AllocatedIsReturned(snapshots, totalBudget, maxChange, dailyBudgets, floor, noDecrease, eps, plan);
  }

  // ---- the ranges and the total ----

  // The change fraction is kept between none and ten.
  ghost predicate IsFraction(f: real, maxChange: real) {
    f == if maxChange < 0.0 then 0.0 else if maxChange > 10.0 then 10.0 else maxChange
  }

  // The range a campaign may be moved in: within the change fraction of its current budget and
  // above the floor, or no lower than the current budget where its hold was kept.
  ghost predicate Range(a: Allocation, f: real, floor: real, lower: real, upper: real) {
    && upper == a.current * (1.0 + f)
    && lower == if a.held then a.current else Max(a.current * (1.0 - f), floor)
  }

  ghost predicate Ranges(plan: seq<Allocation>, f: real, floor: real, lower: seq<real>, upper: seq<real>) {
    && |lower| == |upper| == |plan|
    && forall i :: 0 <= i < |plan| ==> Range(plan[i], f, floor, lower[i], upper[i])
  }

  lemma RangeNamed(a: Allocation, f: real, floor: real, lower: real, upper: real)
    ensures Range(a, f, floor, lower, upper) <==>
      upper == Raised(a.current, f) && lower == if a.held then a.current else Max(Cut(a.current, f), floor)
  {
  }

  lemma BoundsOf(t: Task, eps: real, plan: seq<Allocation>, f: real, i: nat)
    requires Returned(t, eps, plan) && i < |plan| && f == t.change
    ensures t.Relaxed(i) == Max(Cut(plan[i].current, f), t.floor)
    ensures Range(plan[i], f, t.floor, t.FinalLower()[i], t.Upper()[i])
  {
    RangeNamed(plan[i], f, t.floor, t.FinalLower()[i], t.Upper()[i]);
  }

  lemma RangeIsOne(a: Allocation, f: real, floor: real, lower: real, upper: real, low: real, high: real)
    requires Range(a, f, floor, lower, upper) && Range(a, f, floor, low, high)
    ensures lower == low && upper == high
  {
  }

  lemma RangesAreBounds(t: Task, eps: real, plan: seq<Allocation>, f: real, lower: seq<real>, upper: seq<real>)
    requires Returned(t, eps, plan) && Ranges(plan, f, t.floor, lower, upper) && f == t.change
    ensures lower == t.FinalLower() && upper == t.Upper()
  {
    forall i | 0 <= i < |plan| ensures lower[i] == t.FinalLower()[i] && upper[i] == t.Upper()[i] {
      BoundsOf(t, eps, plan, f, i);
      RangeIsOne(plan[i], f, t.floor, lower[i], upper[i], t.FinalLower()[i], t.Upper()[i]);
    }
  }

  function Amounts(plan: seq<Allocation>): (r: seq<real>)
    ensures |r| == |plan|
  {
    seq(|plan|, i requires 0 <= i < |plan| => plan[i].recommended)
  }

  function Currents(plan: seq<Allocation>): (r: seq<real>)
    ensures |r| == |plan|
  {
    seq(|plan|, i requires 0 <= i < |plan| => plan[i].current)
  }

  lemma AmountsArePlan(t: Task, eps: real, plan: seq<Allocation>)
    requires Returned(t, eps, plan)
    ensures Amounts(plan) == t.Plan(eps) && Currents(plan) == t.p.current
  {
  }

  ghost predicate InRange(a: Allocation, f: real, floor: real) {
    Max(a.current * (1.0 - f), floor) <= a.recommended <= a.current * (1.0 + f)
  }

  lemma KeptAreHeld(t: Task, i: nat)
    requires t.Valid() && i in t.Kept(t.Releases())
    ensures i < t.Size() && t.p.ids[i] in t.held
  {
    ReleaseOrderSorted(t.p, t.held);
  }

  // No budget moves by more than the change fraction, none falls below the floor, and none whose
  // hold was kept falls at all; only what was named is held.
  lemma AllocationStaysInRange(snapshots: seq<Snapshot>, totalBudget: Option<real>, maxChange: real,
                               dailyBudgets: map<string, real>, floor: real, noDecrease: set<string>, eps: real,
                               plan: seq<Allocation>, f: real, i: nat)
    requires plan == Allocated(snapshots, totalBudget, maxChange, dailyBudgets, floor, noDecrease, eps) && i < |plan|
    requires eps >= 0.0 && IsFraction(f, maxChange)
    ensures InRange(plan[i], f, floor)
    ensures plan[i].held ==> plan[i].id in noDecrease && plan[i].current <= plan[i].recommended
  {
    var t := AllocatedIsReturned(snapshots, totalBudget, maxChange, dailyBudgets, floor, noDecrease, eps, plan);
    PlanInRange(t, eps, plan, f, i);
    InRangeWrittenOut(plan[i], f, floor);
    HeldIsKept(t, eps, plan, i);
  }

  lemma InRangeWrittenOut(a: Allocation, f: real, floor: real)
    requires Max(Cut(a.current, f), floor) <= a.recommended <= Raised(a.current, f)
    ensures InRange(a, f, floor)
  {
  }

  lemma HeldIsKept(t: Task, eps: real, plan: seq<Allocation>, i: nat)
    requires Returned(t, eps, plan) && i < |plan| && eps >= 0.0
    ensures plan[i].held ==> plan[i].id in t.held && plan[i].current <= plan[i].recommended
  {
    if plan[i].held {
      KeptHoldsNeverCut(t, eps, i);
      KeptAreHeld(t, i);
    }
  }

  lemma PlanInRange(t: Task, eps: real, plan: seq<Allocation>, f: real, i: nat)
    requires Returned(t, eps, plan) && i < |plan| && f == t.change && eps >= 0.0
    ensures Max(Cut(plan[i].current, f), t.floor) <= plan[i].recommended <= Raised(plan[i].current, f)
  {
    PlanWithinBounds(t, eps);
    BoundsOf(t, eps, plan, f, i);
    RangeNamed(plan[i], f, t.floor, t.FinalLower()[i], t.Upper()[i]);
  }

  // The plan spends what was asked for, or the current total when nothing was, as far as the ranges
  // allow and up to the early stop.
  lemma AllocationSpendsRequest(snapshots: seq<Snapshot>, totalBudget: Option<real>, maxChange: real,
                                dailyBudgets: map<string, real>, floor: real, noDecrease: set<string>, eps: real,
                                plan: seq<Allocation>, f: real, lower: seq<real>, upper: seq<real>, requested: real)
    requires plan == Allocated(snapshots, totalBudget, maxChange, dailyBudgets, floor, noDecrease, eps) && eps >= 0.0
    requires IsFraction(f, maxChange) && Ranges(plan, f, floor, lower, upper)
    requires requested == if totalBudget.None? then Sum(Currents(plan)) else totalBudget.value
    ensures var budget :=
        if requested < Sum(lower) then Sum(lower) else if requested > Sum(upper) then Sum(upper) else requested;
      && budget - eps <= Sum(Amounts(plan)) <= budget
      && (totalBudget.None? ==> budget == Sum(Currents(plan)))
  {
    var t := AllocatedIsReturned(snapshots, totalBudget, maxChange, dailyBudgets, floor, noDecrease, eps, plan);
    RangesAreBounds(t, eps, plan, f, lower, upper);
    AmountsArePlan(t, eps, plan);
    LowerBelowUpper(t, t.Kept(t.Releases()));
    PlanConservesBudget(t, eps);
  }

  lemma TaskPlanIsBest(t: Task, eps: real, x: seq<real>)
    requires t.Valid() && eps >= 0.0
    requires Within(x, t.FinalLower(), t.Upper()) && Sum(x) <= Sum(t.Plan(eps))
    ensures Dot(t.p.scores, x) <= Dot(t.p.scores, t.Plan(eps))
  {
    FillOrderSorted(t.p);
    LowerBelowUpper(t, t.Kept(t.Releases()));
    GreedyBestForItsSpend(t.p.scores, t.FinalLower(), t.Upper(), t.Budget(), t.p.FillOrder(), eps, x);
  }

  // No allocation within the same ranges that spends no more scores more.
  lemma AllocationIsBest(snapshots: seq<Snapshot>, totalBudget: Option<real>, maxChange: real,
                         dailyBudgets: map<string, real>, floor: real, noDecrease: set<string>, eps: real,
                         plan: seq<Allocation>, f: real, lower: seq<real>, upper: seq<real>, scores: seq<real>, x: seq<real>)
    requires plan == Allocated(snapshots, totalBudget, maxChange, dailyBudgets, floor, noDecrease, eps) && eps >= 0.0
    requires IsFraction(f, maxChange) && Ranges(plan, f, floor, lower, upper)
    requires |scores| == |x| == |plan|
    requires forall i :: 0 <= i < |plan| ==> scores[i] == Max(Eligible(snapshots)[i].score, 0.000001)
    requires (forall i :: 0 <= i < |plan| ==> lower[i] <= x[i] <= upper[i]) && Sum(x) <= Sum(Amounts(plan))
    ensures Dot(scores, x) <= Dot(scores, Amounts(plan))
  {
    var t := AllocatedIsReturned(snapshots, totalBudget, maxChange, dailyBudgets, floor, noDecrease, eps, plan);
    RangesAreBounds(t, eps, plan, f, lower, upper);
    AmountsArePlan(t, eps, plan);
    assert scores == t.p.scores;
    TaskPlanIsBest(t, eps, x);
  }

  // ---- who is served first ----

  // Lexicographic order: b goes on where a ends, or the first difference decides.
  ghost predicate Before(a: string, b: string) { exists k: nat :: FirstDifference(a, b, k) }

  predicate FirstDifference(a: string, b: string, k: nat) {
    k <= |a| && k < |b| && a[..k] == b[..k] && (k == |a| || a[k] < b[k])
  }

  lemma {:induction false} DifferenceIsLess(a: string, b: string, k: nat)
    requires FirstDifference(a, b, k)
    ensures LexLe(a, b) && !LexLe(b, a)
  {
    if k > 0 {
      assert a[0] == a[..k][0] == b[0];
      assert a[1..][..k - 1] == a[..k][1..] && b[1..][..k - 1] == b[..k][1..];
      DifferenceIsLess(a[1..], b[1..], k - 1);
    }
  }

  lemma BeforeIsLess(a: string, b: string)
    ensures Before(a, b) ==> LexLe(a, b) && !LexLe(b, a)
  {
    if k: nat :| FirstDifference(a, b, k) {
      DifferenceIsLess(a, b, k);
    }
  }

  // Higher score, then higher ROAS, then smaller id.
  ghost predicate Ahead(a: Snapshot, b: Snapshot) {
    var s, t, q, r := Max(a.score, 0.000001), Max(b.score, 0.000001), Max(a.roas, 0.0), Max(b.roas, 0.0);
    s > t || (s == t && (q > r || (q == r && Before(a.id, b.id))))
  }

  lemma PositionsInOrder(p: Portfolio, i: nat, j: nat) returns (a: nat, b: nat)
    requires p.Aligned() && i < |p.ids| && j < |p.ids| && !p.FillBefore(j, i)
    ensures a < b < |p.FillOrder()| && p.FillOrder()[a] == i && p.FillOrder()[b] == j
  {
    var order := p.FillOrder();
    FillOrderSorted(p);
    LexTotal(p.Id(i), p.Id(i));
    assert i in order && j in order;
    a :| 0 <= a < |order| && order[a] == i;
    b :| 0 <= b < |order| && order[b] == j;
  }

  lemma ServedInOrder(t: Task, eps: real, i: nat, j: nat)
    requires t.Valid() && eps >= 0.0 && i < t.Size() && j < t.Size()
    requires !t.p.FillBefore(j, i) && t.Plan(eps)[j] > t.FinalLower()[j]
    ensures t.Plan(eps)[i] == t.Upper()[i]
  {
    var a, b := PositionsInOrder(t.p, i, j);
    FillOrderSorted(t.p);
    LowerBelowUpper(t, t.Kept(t.Releases()));
    var pivot := GreedyShape(t.FinalLower(), t.Upper(), t.Budget(), t.p.FillOrder(), eps);
    PivotSplits(t.Plan(eps), t.FinalLower(), t.Upper(), t.p.FillOrder(), pivot, a, b);
  }

  lemma PivotSplits(r: seq<real>, lower: seq<real>, upper: seq<real>, order: seq<nat>, pivot: nat, a: nat, b: nat)
    requires |r| == |lower| == |upper| && forall k :: 0 <= k < |order| ==> order[k] < |r|
    requires FilledTo(r, lower, upper, order, pivot) && a < b < |order| && r[order[b]] > lower[order[b]]
    ensures r[order[a]] == upper[order[a]]
  {
  }

  // Nobody gets more than the least it may have while someone ahead of it could still take more.
  lemma AheadIsServedFirst(snapshots: seq<Snapshot>, totalBudget: Option<real>, maxChange: real,
                           dailyBudgets: map<string, real>, floor: real, noDecrease: set<string>, eps: real,
                           plan: seq<Allocation>, f: real, lower: seq<real>, upper: seq<real>, i: nat, j: nat)
    requires plan == Allocated(snapshots, totalBudget, maxChange, dailyBudgets, floor, noDecrease, eps) && eps >= 0.0
    requires IsFraction(f, maxChange) && Ranges(plan, f, floor, lower, upper) && i < |plan| && j < |plan|
    requires Ahead(Eligible(snapshots)[i], Eligible(snapshots)[j]) && plan[j].recommended > lower[j]
    ensures plan[i].recommended == upper[i]
  {
    var t := AllocatedIsReturned(snapshots, totalBudget, maxChange, dailyBudgets, floor, noDecrease, eps, plan);
    RangesAreBounds(t, eps, plan, f, lower, upper);
    BeforeIsLess(t.p.ids[i], t.p.ids[j]);
    ServedInOrder(t, eps, i, j);
  }

  // ---- which holds are given up ----

  predicate GivenUp(a: Allocation, noDecrease: set<string>) { a.id in noDecrease && !a.held }

  // Higher score, then greater id.
  ghost predicate Stronger(a: Snapshot, b: Snapshot) {
    var s, t := Max(a.score, 0.000001), Max(b.score, 0.000001);
    s > t || (s == t && Before(b.id, a.id))
  }

  lemma InOrder(t: Task, i: nat, j: nat)
    requires t.Valid() && i < j < |t.Order()|
    ensures t.p.ReleaseBefore(t.Order()[i], t.Order()[j])
  {
    ReleaseOrderSorts(t.p, t.held);
    assert t.p.ReleaseKey()(t.Order()[i], t.Order()[j]);
  }

  lemma LaterIsKept(t: Task, at: nat)
    requires t.Valid() && t.Releases() <= at < |t.Order()|
    ensures t.Order()[at] in t.Kept(t.Releases())
  {
    var m, order := t.Releases(), t.Order();
    assert order[m..][at - m] == order[at];
  }

  lemma ReleasedAt(t: Task, i: nat) returns (at: nat)
    requires t.Valid() && i < t.Size() && t.p.ids[i] in t.held && i !in t.Kept(t.Releases())
    ensures at < t.Releases() && t.Order()[at] == i
  {
    var m, order := t.Releases(), t.Order();
    ReleaseOrderSorted(t.p, t.held);
    at :| 0 <= at < |order| && order[at] == i;
    if at >= m {
      LaterIsKept(t, at);
      assert false;
    }
  }

  lemma KeptPosition(t: Task, j: nat) returns (at: nat)
    requires t.Valid() && j in t.Kept(t.Releases())
    ensures t.Releases() <= at < |t.Order()| && t.Order()[at] == j
  {
    var m, order := t.Releases(), t.Order();
    var k :| 0 <= k < |order[m..]| && order[m..][k] == j;
    at := m + k;
  }

  // No hold is given up that is stronger than one that is kept.
  lemma WeakestGivenUp(snapshots: seq<Snapshot>, totalBudget: Option<real>, maxChange: real,
                       dailyBudgets: map<string, real>, floor: real, noDecrease: set<string>, eps: real,
                       plan: seq<Allocation>, i: nat, j: nat)
    requires plan == Allocated(snapshots, totalBudget, maxChange, dailyBudgets, floor, noDecrease, eps)
    requires i < |plan| && j < |plan| && GivenUp(plan[i], noDecrease) && plan[j].held
    ensures !Stronger(Eligible(snapshots)[i], Eligible(snapshots)[j])
  {
    var t := AllocatedIsReturned(snapshots, totalBudget, maxChange, dailyBudgets, floor, noDecrease, eps, plan);
    var a := ReleasedAt(t, i);
    var b := KeptPosition(t, j);
    InOrder(t, a, b);
    BeforeIsLess(t.p.ids[j], t.p.ids[i]);
  }

  lemma MovesMeaning(t: Task, k: nat)
    requires t.Valid() && k <= |t.Order()|
    ensures var low := Sum(t.LowerWith(t.Kept(k))); t.Moves(k) <==> low < t.requested && low < Sum(t.Upper())
  {
    LowerBelowUpper(t, t.Kept(k));
  }

  lemma LastReleased(t: Task) returns (last: nat)
    requires t.Valid() && t.Releases() > 0
    ensures last < t.Size() && last == t.Order()[t.Releases() - 1]
    ensures t.p.ids[last] in t.held && last !in t.Kept(t.Releases())
    ensures t.LowerWith(t.Kept(t.Releases() - 1)) == t.FinalLower()[last := t.p.current[last]]
  {
    var m := t.Releases();
    last := t.Order()[m - 1];
    ReleaseOrderSorted(t.p, t.held);
    KeptStep(t, m - 1);
    LastAmongKept(t, m - 1);
    HeldAgain(t, t.Kept(m), t.Kept(m - 1), last);
  }

  lemma LastAmongKept(t: Task, k: nat)
    requires k < |t.Order()|
    ensures t.Order()[k] in t.Kept(k)
  {
    assert t.Order()[k..][0] == t.Order()[k];
  }

  lemma HeldAgain(t: Task, kept: set<nat>, more: set<nat>, i: nat)
    requires i < t.Size() && kept == more - {i} && i in more
    ensures t.LowerWith(more) == t.LowerWith(kept)[i := t.p.current[i]]
  {
    LowerHeld(t, kept, i);
    assert kept + {i} == more;
  }

  // Given up are as many as it takes: not one less, and with one left the plan can move.
  lemma ReleasedAsNeeded(t: Task, eps: real, plan: seq<Allocation>, i: nat) returns (last: nat)
    requires Returned(t, eps, plan) && i < |plan| && GivenUp(plan[i], t.held)
    ensures last < |plan| && GivenUp(plan[last], t.held)
    ensures last != i ==> t.p.ReleaseBefore(i, last)
    ensures var again := Sum(t.FinalLower()[last := t.p.current[last]]); t.requested <= again || Sum(t.Upper()) <= again
    ensures (exists j :: 0 <= j < |plan| && plan[j].held) ==>
              Sum(t.FinalLower()) < t.requested && Sum(t.FinalLower()) < Sum(t.Upper())
  {
    var at := ReleasedAt(t, i);
    last := LastReleased(t);
    if at < t.Releases() - 1 {
      InOrder(t, at, t.Releases() - 1);
    }
    LastWasNeeded(t);
    if j :| 0 <= j < |plan| && plan[j].held {
      var b := KeptPosition(t, j);
    }
  }

  lemma LastWasNeeded(t: Task)
    requires t.Valid() && t.Releases() > 0
    ensures var again := Sum(t.LowerWith(t.Kept(t.Releases() - 1))); t.requested <= again || Sum(t.Upper()) <= again
    ensures t.Releases() < |t.Order()| ==>
              Sum(t.FinalLower()) < t.requested && Sum(t.FinalLower()) < Sum(t.Upper())
  {
    HoldsReleasedMinimally(t);
    MovesMeaning(t, t.Releases() - 1);
    MovesMeaning(t, t.Releases());
  }

  // And only as many are given up as it takes: with the strongest of those floored again the plan
  // could not move, and as long as a hold is kept it does move.
  lemma NoMoreGivenUpThanNeeded(snapshots: seq<Snapshot>, totalBudget: Option<real>, maxChange: real,
                                dailyBudgets: map<string, real>, floor: real, noDecrease: set<string>, eps: real,
                                plan: seq<Allocation>, f: real, lower: seq<real>, upper: seq<real>, requested: real, i: nat)
    returns (last: nat)
    requires plan == Allocated(snapshots, totalBudget, maxChange, dailyBudgets, floor, noDecrease, eps)
    requires IsFraction(f, maxChange) && Ranges(plan, f, floor, lower, upper)
    requires requested == if totalBudget.None? then Sum(Currents(plan)) else totalBudget.value
    requires i < |plan| && GivenUp(plan[i], noDecrease)
    ensures last < |plan| && GivenUp(plan[last], noDecrease)
    ensures last != i ==> !Stronger(Eligible(snapshots)[i], Eligible(snapshots)[last])
    ensures var again := Sum(lower[last := plan[last].current]); requested <= again || Sum(upper) <= again
    ensures (exists j :: 0 <= j < |plan| && plan[j].held) ==> Sum(lower) < requested && Sum(lower) < Sum(upper)
  {
    var t := AllocatedIsReturned(snapshots, totalBudget, maxChange, dailyBudgets, floor, noDecrease, eps, plan);
    RangesAreBounds(t, eps, plan, f, lower, upper);
    AmountsArePlan(t, eps, plan);
    last := ReleasedAsNeeded(t, eps, plan, i);
    BeforeIsLess(t.p.ids[last], t.p.ids[i]);
  }
}
