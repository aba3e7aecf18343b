/** Reviews across a whole run, and what a verdict does and does not depend on. */
module CriticRun {
  import opened Common
  import opened Critic
  import opened CriticReview

  // ---- readers of the verdict ----

  function SuppressedActionIds(findings: seq<Finding>): set<string> {
    set id | id in Withheld(findings)
  }

  // What reaches the approval queue.
  function SurvivingActions(xs: seq<Action>, findings: seq<Finding>): seq<Action> {
    LiveOf(xs, SuppressedActionIds(findings))
  }

  // ---- a run: every iteration adds proposals and reviews all of them afresh ----

  function Concat(batches: seq<seq<Action>>): seq<Action> {
    if |batches| == 0 then [] else Concat(batches[..|batches| - 1]) + batches[|batches| - 1]
  }

  lemma PrefixDistinct(batches: seq<seq<Action>>)
    requires |batches| > 0 && DistinctIds(Concat(batches))
    ensures DistinctIds(Concat(batches[..|batches| - 1]))
  {
    var xs := Concat(batches[..|batches| - 1]);
    assert forall i :: 0 <= i < |xs| ==> Concat(batches)[i] == xs[i];
  }

  // The findings channel only accumulates, so a run withholds the union of its verdicts.
  ghost function RunVerdict(batches: seq<seq<Action>>): set<string>
    requires DistinctIds(Concat(batches))
  {
    if |batches| == 0 then {}
    else
      PrefixDistinct(batches);
      RunVerdict(batches[..|batches| - 1]) + Verdict(Concat(batches))
  }

  method ReviewRun(batches: seq<seq<Action>>) returns (actions: seq<Action>, findings: seq<Finding>)
    requires DistinctIds(Concat(batches))
    ensures actions == Concat(batches)
    ensures SuppressedActionIds(findings) == RunVerdict(batches)
  {
    actions, findings := [], [];
    var n := 0;
    while n < |batches|
      invariant 0 <= n <= |batches|
      invariant actions == Concat(batches[..n])
      invariant DistinctIds(Concat(batches[..n]))
      invariant SuppressedActionIds(findings) == RunVerdict(batches[..n])
    {
      assert batches[..n + 1][..n] == batches[..n];
      DistinctUpTo(batches, n + 1);
      actions := actions + batches[n];
      var more, suppressed := Review(actions, n + 1);
      WithheldAppend(findings, more);
      VerdictAsSet(suppressed, more);
      findings := findings + more;
      n := n + 1;
    }
    assert batches[..n] == batches;
  }

  lemma VerdictAsSet(suppressed: set<string>, findings: seq<Finding>)
    requires Records({}, findings, suppressed)
    ensures SuppressedActionIds(findings) == suppressed
  {
    forall id ensures id in Withheld(findings) <==> id in suppressed {
      assert id in multiset(Withheld(findings)) <==> id in multiset(suppressed);
    }
  }

  lemma {:induction false} DistinctUpTo(batches: seq<seq<Action>>, n: nat)
    requires DistinctIds(Concat(batches)) && n <= |batches|
    ensures DistinctIds(Concat(batches[..n]))
    decreases |batches| - n
  {
    if n == |batches| {
      assert batches[..n] == batches;
    } else {
      DistinctUpTo(batches, n + 1);
      assert batches[..n + 1][..n] == batches[..n];
      PrefixDistinct(batches[..n + 1]);
    }
  }

  // After a run of any number of iterations the survivors are settled: the last review saw every
  // accumulated proposal, and what earlier reviews withheld can only remove more.
  lemma RunSettles(batches: seq<seq<Action>>, findings: seq<Finding>)
    requires |batches| > 0 && DistinctIds(Concat(batches))
    requires SuppressedActionIds(findings) == RunVerdict(batches)
    ensures Settled(Concat(batches), SuppressedActionIds(findings))
    ensures forall a :: a in SurvivingActions(Concat(batches), findings) <==>
                        Survives(Concat(batches), RunVerdict(batches), a)
  {
    var xs := Concat(batches);
    OneReview(xs);
    LiveAre(xs, RunVerdict(batches));
    SettledGrows(xs, Verdict(xs), RunVerdict(batches));
  }

  lemma SettledGrows(xs: seq<Action>, dropped: set<string>, more: set<string>)
    requires Settled(xs, dropped) && dropped <= more
    ensures Settled(xs, more)
  {
    MoreWithheld(xs, dropped, more, Group, CAMPAIGN_CONFLICTS);
    MoreWithheld(xs, dropped, more, ConcreteCreative, CREATIVE_CONFLICTS);
    forall a | Survives(xs, more, a) ensures !a.blocking {
      assert Survives(xs, dropped, a);
    }
  }

  // ---- a refused proposal is no evidence ----

  function Executable(xs: seq<Action>): seq<Action> {
    if |xs| == 0 then []
    else Executable(xs[..|xs| - 1]) + (if xs[|xs| - 1].blocking then [] else [xs[|xs| - 1]])
  }

  lemma {:induction false} ExecutableAre(xs: seq<Action>)
    ensures forall a :: a in Executable(xs) <==> a in xs && !a.blocking
    ensures DistinctIds(xs) ==> DistinctIds(Executable(xs))
  {
    if |xs| != 0 {
      var n := |xs| - 1;
      ExecutableAre(xs[..n]);
      assert xs == xs[..n] + [xs[n]];
      if DistinctIds(xs) {
        forall a | a in xs[..n] ensures a.id != xs[n].id {
          var i :| 0 <= i < n && xs[i] == a;
        }
      }
    }
  }

  // Two withheld sets that agree on the workable proposals of xs, the first also holding the refused.
  ghost predicate AgreeOnWorkable(xs: seq<Action>, all: set<string>, some: set<string>) {
    forall a :: a in xs ==> (a.id in all <==> a.blocking || a.id in some)
  }

  lemma {:induction false} MembersOfWorkable(xs: seq<Action>, all: set<string>, some: set<string>,
                                             scope: Scope, key: Key)
    requires AgreeOnWorkable(xs, all, some)
    ensures Members(xs, all, scope, key) == Members(Executable(xs), some, scope, key)
  {
    if |xs| != 0 {
      var n := |xs| - 1;
      assert xs == xs[..n] + [xs[n]];
      MembersOfWorkable(xs[..n], all, some, scope, key);
      var rest := Executable(xs[..n]);
      assert (rest + [xs[n]])[..|rest|] == rest;
      assert Executable(xs) == if xs[n].blocking then rest else rest + [xs[n]];
    }
  }

  lemma RepeatsOfWorkable(xs: seq<Action>, all: set<string>, some: set<string>)
    requires DistinctIds(xs) && DistinctIds(Executable(xs)) && AgreeOnWorkable(xs, all, some)
    ensures AgreeOnWorkable(xs, AfterRepeats(xs, all), AfterRepeats(Executable(xs), some))
  {
    ExecutableAre(xs);
    forall a | a in xs
      ensures a.id in AfterRepeats(xs, all) <==> a.blocking || a.id in AfterRepeats(Executable(xs), some)
    {
      MembersOfWorkable(xs, all, some, Intent, KeyOf(Intent, a).value);
      forall b | b in xs && b.id == a.id ensures a == b { SameId(xs, a, b); }
    }
  }

  lemma ConflictsOfWorkable(xs: seq<Action>, all: set<string>, some: set<string>, scope: Scope, rules: seq<Rule>)
    requires DistinctIds(xs) && AgreeOnWorkable(xs, all, some)
    ensures AgreeOnWorkable(xs, AfterConflicts(xs, all, scope, rules),
                            AfterConflicts(Executable(xs), some, scope, rules))
  {
    ExecutableAre(xs);
    forall a | a in xs
      ensures a.id in AfterConflicts(xs, all, scope, rules) <==>
              a.blocking || a.id in AfterConflicts(Executable(xs), some, scope, rules)
    {
      if KeyOf(scope, a).Some? {
        MembersOfWorkable(xs, all, some, scope, KeyOf(scope, a).value);
      }
      forall b | b in xs && b.id == a.id ensures a == b { SameId(xs, a, b); }
    }
  }

  // What happens to the workable proposals does not depend on the ones the platform refused.
  lemma RefusedProposalsAreNoEvidence(xs: seq<Action>, a: Action)
    requires DistinctIds(xs) && a in xs && !a.blocking
    ensures DistinctIds(Executable(xs))
    ensures a.id in Verdict(xs) <==> a.id in Verdict(Executable(xs))
  {
    ExecutableAre(xs);
    var ys := Executable(xs);
    assert Blocked(ys) == {};
    forall b | b in xs ensures b.id in Blocked(xs) <==> b.blocking {
      forall c | c in xs && c.id == b.id ensures b == c { SameId(xs, b, c); }
    }
    RepeatsOfWorkable(xs, Blocked(xs), Blocked(ys));
    var all, some := AfterRepeats(xs, Blocked(xs)), AfterRepeats(ys, Blocked(ys));
    ConflictsOfWorkable(xs, all, some, Group, CAMPAIGN_CONFLICTS);
    all := AfterConflicts(xs, all, Group, CAMPAIGN_CONFLICTS);
    some := AfterConflicts(ys, some, Group, CAMPAIGN_CONFLICTS);
    ConflictsOfWorkable(xs, all, some, ConcreteCreative, CREATIVE_CONFLICTS);
  }

  // ---- how the two orderings differ ----

  lemma OutranksIsStrict(a: Action, b: Action, c: Action)
    ensures !Outranks(a, a)
    ensures Outranks(a, b) && !Outranks(a, c) ==> Outranks(c, b)
  {
  }

  // A dominant remedy is meant to yield exactly when some contradicted proposal outranks it.
  // The critic asks only the contradicted proposal with the best rank, and rank and standing
  // differ. The two agree against every keeper if and only if that challenger is itself
  // outranked by none of the proposals it speaks for.
  lemma ChallengerSpeaksForAll(weak: seq<Action>)
    requires |weak| > 0
    ensures var challenger := weak[BestAt(weak, false)];
      (forall keeper :: Outranks(challenger, keeper) <==> exists w :: w in weak && Outranks(w, keeper))
      <==> (forall w :: w in weak ==> !Outranks(w, challenger))
  {
    var challenger := weak[BestAt(weak, false)];
    assert challenger in weak;
    if forall w :: w in weak ==> !Outranks(w, challenger) {
      forall keeper ensures Outranks(challenger, keeper) <==> exists w :: w in weak && Outranks(w, keeper) {
        if exists w :: w in weak && Outranks(w, keeper) {
          var w :| w in weak && Outranks(w, keeper);
          OutranksIsStrict(w, keeper, challenger);
        }
      }
    } else {
      assert !Outranks(challenger, challenger);
    }
  }

  // The documented rule: some contradicted proposal carries strictly more confidence.
  ghost predicate MoreConfident(weak: seq<Action>, keeper: Action) {
    exists w :: w in weak && w.confidence > keeper.confidence
  }

  // Against every keeper of the challenger's own standing, the critic agrees with the documented
  // rule if and only if the best-ranked contradicted proposal is also the most confident one.
  lemma ConfidenceRuleIff(weak: seq<Action>)
    requires |weak| > 0
    ensures var challenger := weak[BestAt(weak, false)];
      (forall keeper :: Dominates(keeper) == Dominates(challenger) ==>
         (Outranks(challenger, keeper) <==> MoreConfident(weak, keeper)))
      <==> (forall w :: w in weak ==> w.confidence <= challenger.confidence)
  {
    var challenger := weak[BestAt(weak, false)];
    assert challenger in weak;
    assert !Outranks(challenger, challenger);
    if w :| w in weak && w.confidence > challenger.confidence {
      assert MoreConfident(weak, challenger);
    }
  }

  // Across standings the rule never agrees with every keeper: a clearly critical keeper yields to
  // no lesser challenger however confident, and a lesser one to every clearly critical challenger.
  lemma ConfidenceRuleAcrossStandings(weak: seq<Action>, keeper: Action)
    requires |weak| > 0 && Dominates(keeper) != Dominates(weak[BestAt(weak, false)])
    ensures Outranks(weak[BestAt(weak, false)], keeper) <==> Dominates(weak[BestAt(weak, false)])
    ensures exists other :: Dominates(other) == Dominates(keeper)
              && (Outranks(weak[BestAt(weak, false)], other) <==> !MoreConfident(weak, other))
  {
    var challenger := weak[BestAt(weak, false)];
    var top := MostConfident(weak);
    assert challenger in weak;
    if Dominates(challenger) {
      var other := keeper.(confidence := top.confidence);
      assert !MoreConfident(weak, other);
    } else {
      var other := keeper.(confidence := top.confidence - 1.0);
      assert MoreConfident(weak, other);
    }
  }

  lemma {:induction false} MostConfident(weak: seq<Action>) returns (top: Action)
    requires |weak| > 0
    ensures top in weak && forall w :: w in weak ==> w.confidence <= top.confidence
  {
    var n := |weak| - 1;
    assert weak == weak[..n] + [weak[n]];
    top := weak[n];
    if n > 0 {
      var before := MostConfident(weak[..n]);
      if before.confidence > top.confidence {
        top := before;
      }
    }
  }

  lemma Snoc(xs: seq<Action>, a: Action, kinds: set<Kind>)
    ensures OfKind(xs + [a], kinds) == OfKind(xs, kinds) + (if a.kind in kinds then [a] else [])
    ensures Without(xs + [a], kinds) == Without(xs, kinds) + (if a.kind in kinds then [] else [a])
  {
    assert (xs + [a])[..|xs|] == xs;
  }

  lemma BestOfTwo(a: Action, b: Action, freshest: bool)
    ensures BestAt([a], freshest) == 0
    ensures BestAt([a, b], freshest) == if Weaker(a, b, freshest) then 1 else 0
  {
    assert [a, b][..1] == [a];
  }

  lemma TripleOfKind(live: seq<Action>, a: Action, b: Action, c: Action, kinds: set<Kind>)
    requires live == [a, b, c]
    ensures OfKind(live, kinds) == (if a.kind in kinds then [a] else []) + (if b.kind in kinds then [b] else [])
                                 + (if c.kind in kinds then [c] else [])
  {
    Snoc([], a, kinds);
    Snoc([] + [a], b, kinds);
    Snoc([] + [a] + [b], c, kinds);
    assert live == [] + [a] + [b] + [c];
  }

  // A marginal critical proposal hides one with more confidence: whenever a critical bid below the
  // dominance line has less confidence than the pause, the pause wins, although a budget proposal
  // of the same standing may carry more confidence than it.
  lemma MarginalCriticalHidesConfidence(live: seq<Action>, pause: Action, bid: Action, budget: Action)
    requires live == [pause, bid, budget]
    requires pause.kind == PauseCampaign && bid.kind == AdjustBid && budget.kind == AdjustBudget
    requires !pause.critical && bid.critical && !Dominates(bid) && !budget.critical
    requires bid.confidence < pause.confidence < budget.confidence
    ensures Outranks(budget, pause) && Withholds(live, CAMPAIGN_CONFLICTS[0]) == SPEND_ACTIONS
  {
    TripleOfKind(live, pause, bid, budget, {PauseCampaign});
    TripleOfKind(live, pause, bid, budget, SPEND_ACTIONS);
    assert OfKind(live, {PauseCampaign}) == [pause] && OfKind(live, SPEND_ACTIONS) == [bid, budget];
    BestOfTwo(pause, pause, false);
    BestOfTwo(bid, budget, false);
  }

  // A clearly critical pause is undebatable: when it is the bucket's only one and nothing it
  // contradicts is also clearly critical, no rule of the campaign table withholds it.
  lemma {:induction false} RunawayPauseStands(live: seq<Action>, rules: seq<Rule>, pause: Action)
    requires pause in live && pause.kind == PauseCampaign && Dominates(pause)
    requires forall a :: a in live && a.kind == PauseCampaign ==> a == pause
    requires forall r :: r in rules ==> r.dominant == PauseCampaign && PauseCampaign !in r.contradicted
    requires forall r, a {:trigger r.contradicted, a.kind} ::
               r in rules && a in live && a.kind in r.contradicted ==> !Dominates(a)
    ensures pause in Settle(live, rules)
  {
    if |rules| != 0 {
      var n := |rules| - 1;
      var r := rules[n];
      assert rules == rules[..n] + [r];
      RunawayPauseStands(live, rules[..n], pause);
      TableSettles(live, rules[..n]);
      var before := Settle(live, rules[..n]);
      var strong, weak := OfKind(before, {PauseCampaign}), OfKind(before, r.contradicted);
      KindsSplit(before, {PauseCampaign});
      KindsSplit(before, r.contradicted);
      if |strong| > 0 && |weak| > 0 {
        assert strong[BestAt(strong, false)] in strong && weak[BestAt(weak, false)] in weak;
      }
      KindsSplit(before, Withholds(before, r));
    }
  }

  // ---- runs of two batches ----

  lemma TwoBatches(batches: seq<seq<Action>>, first: seq<Action>, second: seq<Action>)
    requires batches == [first, second] && DistinctIds(first) && DistinctIds(first + second)
    ensures Concat(batches) == first + second
    ensures RunVerdict(batches) == Verdict(first) + Verdict(first + second)
  {
    assert batches[..1] == [first] && batches[..1][..0] == [];
    assert Concat(batches[..1]) == Concat([]) + first == first;
    assert RunVerdict(batches[..1]) == RunVerdict([]) + Verdict(first) by {
      assert DistinctIds(Concat(batches[..1]));
    }
    assert Concat(batches) == first + second;
  }
}
