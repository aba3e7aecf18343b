/** Which proposals no rule of a review withholds, and when a runaway pause is among them. */
module CriticSurvival {
  import opened Common
  import opened Critic
  import opened CriticReview
  import opened CriticRun

  // ---- a proposal no rule of a table withholds ----

  // Nothing in the pool takes a's side of the rule away from it: on the dominant side no proposal
  // that may stand for a is outranked, on the contradicted side every one that may stand for a
  // outranks the whole dominant side.
  ghost predicate Unbeaten(pool: seq<Action>, rule: Rule, a: Action) {
    && (a.kind == rule.dominant ==>
          forall d, c {:trigger Contradict(rule, d, c)} ::
            d in pool && c in pool && Contradict(rule, d, c) && !RankBelow(d, a) ==> !Outranks(c, d))
    && (a.kind in rule.contradicted ==>
          forall d, c {:trigger Contradict(rule, d, c)} ::
            d in pool && c in pool && Contradict(rule, d, c) && !RankBelow(c, a) ==> Outranks(c, d))
  }

  lemma RuleSpares(live: seq<Action>, rule: Rule, a: Action)
    requires a in live && Unbeaten(live, rule, a)
    ensures a in Without(live, Withholds(live, rule))
  {
    var strong, weak := OfKind(live, {rule.dominant}), OfKind(live, rule.contradicted);
    KindsSplit(live, {rule.dominant});
    KindsSplit(live, rule.contradicted);
    KindsSplit(live, Withholds(live, rule));
    if |strong| > 0 && |weak| > 0 {
      var keeper, challenger := strong[BestAt(strong, false)], weak[BestAt(weak, false)];
      assert keeper in strong && challenger in weak;
      assert Contradict(rule, keeper, challenger);
      assert a.kind == rule.dominant ==> a in strong && !RankBelow(keeper, a);
      assert a.kind in rule.contradicted ==> a in weak && !RankBelow(challenger, a);
    }
  }

  lemma FewerRivals(pool: seq<Action>, some: seq<Action>, rule: Rule, a: Action)
    requires Unbeaten(pool, rule, a) && forall b :: b in some ==> b in pool
    ensures Unbeaten(some, rule, a)
  {
  }

  lemma {:induction false} TableSpares(live: seq<Action>, rules: seq<Rule>, a: Action)
    requires WellFormedRules(rules) && a in live && forall r :: r in rules ==> Unbeaten(live, r, a)
    ensures a in Settle(live, rules)
  {
    if |rules| != 0 {
      var n := |rules| - 1;
      assert rules == rules[..n] + [rules[n]];
      TableSpares(live, rules[..n], a);
      TableSettles(live, rules[..n]);
      FewerRivals(live, Settle(live, rules[..n]), rules[n], a);
      RuleSpares(Settle(live, rules[..n]), rules[n], a);
    }
  }

  // ---- one review ----

  // Both tables, as far as they speak to a's bucket.
  ghost predicate UnbeatenInBucket(pool: seq<Action>, a: Action) {
    && (forall r :: r in CAMPAIGN_CONFLICTS ==> Unbeaten(pool, r, a))
    && (a.creative != "" ==> forall r :: r in CREATIVE_CONFLICTS ==> Unbeaten(pool, r, a))
  }

  ghost predicate HasRivals(pool: seq<Action>, xs: seq<Action>, dropped: set<string>, a: Action) {
    forall b :: b in xs && SameGroup(a, b) && b.id !in dropped ==> b in pool
  }

  lemma ConflictsSpare(xs: seq<Action>, before: set<string>, scope: Scope, rules: seq<Rule>, pool: seq<Action>, a: Action)
    requires DistinctIds(xs) && WellFormedRules(rules) && scope in {Group, ConcreteCreative}
    requires a in xs && a.id !in before && HasRivals(pool, xs, before, a)
    requires KeyOf(scope, a).Some? ==> forall r :: r in rules ==> Unbeaten(pool, r, a)
    ensures a.id !in AfterConflicts(xs, before, scope, rules)
    ensures HasRivals(pool, xs, AfterConflicts(xs, before, scope, rules), a)
  {
    if KeyOf(scope, a).Some? {
      var key := KeyOf(scope, a).value;
      var live := Members(xs, before, scope, key);
      MembersAre(xs, before, scope, key);
      forall b | b in live ensures b in pool { assert SameGroup(a, b); }
      forall r | r in rules ensures Unbeaten(live, r, a) { FewerRivals(pool, live, r, a); }
      TableSpares(live, rules, a);
    }
    assert !Loses(xs, before, scope, rules, a);
    forall b | b in xs && b.id == a.id ensures b == a { SameId(xs, a, b); }
  }

  lemma TablesWellFormed()
    ensures WellFormedRules(CAMPAIGN_CONFLICTS) && WellFormedRules(CREATIVE_CONFLICTS)
  {
  }

  // The copy kept of an intent, unbeaten among the kept proposals of its bucket, is not withheld.
  lemma UnbeatenSurvives(xs: seq<Action>, pool: seq<Action>, a: Action)
    requires DistinctIds(xs) && a in xs && a.id !in AfterRepeats(xs, Blocked(xs))
    requires HasRivals(pool, xs, AfterRepeats(xs, Blocked(xs)), a) && UnbeatenInBucket(pool, a)
    ensures a.id !in Verdict(xs)
  {
    var s1 := AfterRepeats(xs, Blocked(xs));
    TablesWellFormed();
    ConflictsSpare(xs, s1, Group, CAMPAIGN_CONFLICTS, pool, a);
    var s2 := AfterConflicts(xs, s1, Group, CAMPAIGN_CONFLICTS);
    ConflictsSpare(xs, s2, ConcreteCreative, CREATIVE_CONFLICTS, pool, a);
  }

  // ---- which copy of an intent is kept ----

  // The workable copies of a's intent.
  ghost function Copies(xs: seq<Action>, a: Action): seq<Action> {
    Members(xs, Blocked(xs), Intent, KeyOf(Intent, a).value)
  }

  ghost predicate Kept(xs: seq<Action>, a: Action) {
    a in xs && !a.blocking && |Copies(xs, a)| > 0 && a == Copies(xs, a)[BestAt(Copies(xs, a), true)]
  }

  lemma BlockedIs(xs: seq<Action>, a: Action)
    requires DistinctIds(xs) && a in xs
    ensures a.id in Blocked(xs) <==> a.blocking
  {
    forall b | b in xs && b.id == a.id ensures b == a { SameId(xs, a, b); }
  }

  lemma KeptIff(xs: seq<Action>, a: Action)
    requires DistinctIds(xs) && a in xs
    ensures a.id !in AfterRepeats(xs, Blocked(xs)) <==> Kept(xs, a)
  {
    BlockedIs(xs, a);
    MembersAre(xs, Blocked(xs), Intent, KeyOf(Intent, a).value);
    forall b | b in xs && b.id == a.id ensures b == a { SameId(xs, a, b); }
    if !a.blocking {
      assert a in Copies(xs, a);
      assert Keeper(xs, Blocked(xs), a) == Copies(xs, a)[BestAt(Copies(xs, a), true)];
    }
  }

  // Every intent with a workable copy has a kept one.
  lemma KeptCopy(xs: seq<Action>, a: Action) returns (b: Action)
    requires DistinctIds(xs) && a in xs && !a.blocking
    ensures Kept(xs, b) && KeyOf(Intent, b) == KeyOf(Intent, a) && !Weaker(b, a, true)
  {
    BlockedIs(xs, a);
    MembersAre(xs, Blocked(xs), Intent, KeyOf(Intent, a).value);
    var copies := Copies(xs, a);
    assert a in copies;
    b := copies[BestAt(copies, true)];
    assert b in copies;
    BlockedIs(xs, b);
    assert Copies(xs, b) == copies;
  }

  lemma KeptOnce(xs: seq<Action>, a: Action, b: Action)
    requires Kept(xs, a) && Kept(xs, b) && KeyOf(Intent, a) == KeyOf(Intent, b)
    ensures a == b
  {
  }

  // ---- the runaway pause ----

  // Critical, but not far enough past its threshold to outrank evidence.
  predicate Marginal(a: Action) { a.critical && !Dominates(a) }

  // The order in which copies are kept: the stronger first, then the earlier.
  predicate Ahead(copies: seq<Action>, i: nat, j: nat)
    requires i < |copies| && j < |copies|
  {
    Weaker(copies[j], copies[i], true) || (!Weaker(copies[i], copies[j], true) && i < j)
  }

  ghost predicate RunawayLeads(copies: seq<Action>) {
    exists i :: 0 <= i < |copies| && Dominates(copies[i]) && AheadOfMarginals(copies, i)
  }

  ghost predicate AheadOfMarginals(copies: seq<Action>, i: nat)
    requires i < |copies|
  {
    forall j :: 0 <= j < |copies| && Marginal(copies[j]) ==> Ahead(copies, i, j)
  }

  // Among copies of which one dominates, the one kept does if and only if some dominating copy is
  // ahead of every marginal one.
  lemma LeaderIsKept(copies: seq<Action>)
    requires exists a :: a in copies && Dominates(a)
    ensures Dominates(copies[BestAt(copies, true)]) <==> RunawayLeads(copies)
  {
    var k := BestAt(copies, true);
    if Dominates(copies[k]) {
      assert AheadOfMarginals(copies, k);
    }
    if RunawayLeads(copies) {
      var i :| 0 <= i < |copies| && Dominates(copies[i]) && AheadOfMarginals(copies, i);
      assert !Marginal(copies[k]);
    }
  }

  const CONTRADICTED_BY_PAUSE: set<Kind> := SPEND_ACTIONS + {ResumeCampaign, StartAbTest}

  ghost predicate RunawayStays(xs: seq<Action>, pause: Action)
    requires DistinctIds(xs)
  {
    exists d :: Survives(xs, Verdict(xs), d) && SameGroup(d, pause) && d.kind == PauseCampaign && Dominates(d)
  }

  lemma KeptRivals(xs: seq<Action>, a: Action) returns (pool: seq<Action>)
    requires DistinctIds(xs)
    ensures HasRivals(pool, xs, AfterRepeats(xs, Blocked(xs)), a)
    ensures forall b :: b in pool ==> Kept(xs, b) && SameGroup(a, b)
  {
    var s1, key := AfterRepeats(xs, Blocked(xs)), KeyOf(Group, a).value;
    pool := Members(xs, s1, Group, key);
    MembersAre(xs, s1, Group, key);
    forall b | b in pool ensures Kept(xs, b) && SameGroup(a, b) {
      KeptIff(xs, b);
    }
  }

  lemma DominatingKeptPauseStays(xs: seq<Action>, pause: Action)
    requires DistinctIds(xs) && Kept(xs, pause) && pause.kind == PauseCampaign && Dominates(pause)
    requires forall c :: c in xs && !c.blocking && SameGroup(pause, c) && c.kind in CONTRADICTED_BY_PAUSE ==> !Dominates(c)
    ensures pause.id !in Verdict(xs)
  {
    var pool := KeptRivals(xs, pause);
    KeptIff(xs, pause);
    forall r | r in CAMPAIGN_CONFLICTS ensures Unbeaten(pool, r, pause) {
      forall d, c | d in pool && c in pool && Contradict(r, d, c) ensures !Outranks(c, d) {
        KeptOnce(xs, d, pause);
      }
    }
    UnbeatenSurvives(xs, pool, pause);
  }

  // A clearly critical pause is meant to be undebatable. When nothing workable that it contradicts
  // is clearly critical too, a review keeps a clearly critical pause of the bucket if and only if
  // no merely critical copy of the same pause is ahead of all of them.
  lemma RunawayPauseSurvives(xs: seq<Action>, pause: Action)
    requires DistinctIds(xs) && pause in xs && !pause.blocking
    requires pause.kind == PauseCampaign && Dominates(pause)
    requires forall c :: c in xs && !c.blocking && SameGroup(pause, c) && c.kind in CONTRADICTED_BY_PAUSE ==> !Dominates(c)
    ensures RunawayStays(xs, pause) <==> RunawayLeads(Copies(xs, pause))
  {
    var copies := Copies(xs, pause);
    BlockedIs(xs, pause);
    MembersAre(xs, Blocked(xs), Intent, KeyOf(Intent, pause).value);
    assert pause in copies;
    LeaderIsKept(copies);
    var kept := KeptCopy(xs, pause);
    assert Copies(xs, kept) == copies;
    if Dominates(kept) {
      DominatingKeptPauseStays(xs, kept);
      assert Survives(xs, Verdict(xs), kept);
    }
    if RunawayStays(xs, pause) {
      var d :| Survives(xs, Verdict(xs), d) && SameGroup(d, pause) && d.kind == PauseCampaign && Dominates(d);
      KeptIff(xs, d);
      KeptOnce(xs, d, kept);
    }
  }

  // ---- two kept proposals that contradict each other ----

  ghost predicate Applies(rule: Rule, a: Action) {
    rule in CAMPAIGN_CONFLICTS || (rule in CREATIVE_CONFLICTS && a.creative != "")
  }

  // Stopping is never what another rule withholds.
  lemma DominantsUncontradicted(r: Rule, t: Rule)
    requires r in CAMPAIGN_CONFLICTS + CREATIVE_CONFLICTS && t in CAMPAIGN_CONFLICTS + CREATIVE_CONFLICTS
    ensures r.dominant !in t.contradicted
  {
  }

  lemma PairUnbeaten(pool: seq<Action>, rule: Rule, t: Rule, d: Action, c: Action)
    requires rule in CAMPAIGN_CONFLICTS + CREATIVE_CONFLICTS && t in CAMPAIGN_CONFLICTS + CREATIVE_CONFLICTS
    requires Contradict(rule, d, c) && forall b :: b in pool ==> b == d || b == c
    ensures !Outranks(c, d) ==> Unbeaten(pool, t, d)
    ensures Outranks(c, d) ==> Unbeaten(pool, t, c)
  {
    DominantsUncontradicted(rule, t);
    DominantsUncontradicted(rule, rule);
    DominantsUncontradicted(t, rule);
    DominantsUncontradicted(t, t);
  }

  // When only two proposals of a bucket are kept and a rule sets them against each other, the
  // contradicted one survives the review if it outranks the dominant one, and else the dominant.
  lemma PairDecides(xs: seq<Action>, rule: Rule, d: Action, c: Action)
    requires DistinctIds(xs) && Kept(xs, d) && Kept(xs, c) && SameGroup(d, c)
    requires Applies(rule, d) && Contradict(rule, d, c)
    requires forall b :: Kept(xs, b) && SameGroup(d, b) ==> b == d || b == c
    ensures c.id !in Verdict(xs) <==> Outranks(c, d)
    ensures d.id !in Verdict(xs) <==> !Outranks(c, d)
  {
    var winner := if Outranks(c, d) then c else d;
    var pool := KeptRivals(xs, d);
    forall t | t in CAMPAIGN_CONFLICTS + CREATIVE_CONFLICTS ensures Unbeaten(pool, t, winner) {
      PairUnbeaten(pool, rule, t, d, c);
    }
    KeptIff(xs, winner);
    UnbeatenSurvives(xs, pool, winner);
    OneReview(xs);
    assert Survives(xs, Verdict(xs), d) && Survives(xs, Verdict(xs), c) ==> !Contradict(rule, d, c);
  }

  lemma StrongestIsKept(xs: seq<Action>, a: Action)
    requires DistinctIds(xs) && a in xs && !a.blocking
    requires forall b :: b in xs && !b.blocking && KeyOf(Intent, b) == KeyOf(Intent, a) && b != a ==> Weaker(b, a, true)
    ensures Kept(xs, a)
  {
    var b := KeptCopy(xs, a);
  }

  lemma NotKeptIsWithheld(xs: seq<Action>, a: Action)
    requires DistinctIds(xs) && a in xs && !Kept(xs, a)
    ensures a.id in Verdict(xs)
  {
    KeptIff(xs, a);
  }

  // The failing family: a runaway pause, a merely critical copy of it with more confidence, and a
  // bid with more confidence still. Both pauses are withheld and the bid goes through.
  lemma MarginalCopyHidesRunaway(xs: seq<Action>, runaway: Action, marginal: Action, bid: Action)
    requires xs == [runaway, marginal, bid] && DistinctIds(xs)
    requires !runaway.blocking && !marginal.blocking && !bid.blocking
    requires SameGroup(runaway, marginal) && SameGroup(runaway, bid)
    requires runaway.kind == marginal.kind == PauseCampaign && bid.kind == AdjustBid
    requires Dominates(runaway) && Marginal(marginal) && !Dominates(bid)
    requires runaway.confidence < marginal.confidence < bid.confidence
    ensures runaway.id in Verdict(xs) && marginal.id in Verdict(xs) && bid.id !in Verdict(xs)
  {
    StrongestIsKept(xs, marginal);
    StrongestIsKept(xs, bid);
    if Kept(xs, runaway) {
      KeptOnce(xs, runaway, marginal);
    }
    NotKeptIsWithheld(xs, runaway);
    PairDecides(xs, CAMPAIGN_CONFLICTS[0], marginal, bid);
  }
}
