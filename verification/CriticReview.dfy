/** One review end to end, the reviews of a whole run, and what they guarantee. */
module CriticReview {
  import opened Critic

  method Review(xs: seq<Action>, iteration: int) returns (findings: seq<Finding>, suppressed: set<string>)
    requires DistinctIds(xs)
    ensures suppressed == Verdict(xs)
    ensures Records({}, findings, suppressed)
    ensures forall f :: f in findings && f.escalate ==> f.suppressed == []
  {
    var more;
    findings, suppressed := Unexecutable(xs, iteration);
    ghost var before := suppressed;
    more, suppressed := Repeats(xs, suppressed, iteration);
    RecordsChain({}, findings, before, more, suppressed);
    findings := findings + more;
    before := suppressed;
    more, suppressed := Conflicts(xs, suppressed, iteration, CAMPAIGN_CONFLICTS, Group);
    RecordsChain({}, findings, before, more, suppressed);
    findings := findings + more;
    before := suppressed;
    more, suppressed := Conflicts(xs, suppressed, iteration, CREATIVE_CONFLICTS, ConcreteCreative);
    RecordsChain({}, findings, before, more, suppressed);
    findings := findings + more;
    more := SpendDirection(xs, suppressed, iteration);
    RecordsChain({}, findings, suppressed, more, suppressed);
    findings := findings + more;
  }

  // ---- one review ----

  ghost predicate SameGroup(a: Action, b: Action) { a.campaign == b.campaign && a.creative == b.creative }

  // Every bucket with a live proposal still has one afterwards.
  ghost predicate KeepsGroups(xs: seq<Action>, before: set<string>, after: set<string>) {
    forall a {:trigger HasSurvivor(xs, after, a)} :: a in xs && a.id !in before ==> HasSurvivor(xs, after, a)
  }

  ghost predicate HasSurvivor(xs: seq<Action>, after: set<string>, a: Action) {
    exists b :: b in xs && b.id !in after && SameGroup(a, b)
  }

  ghost predicate Survives(xs: seq<Action>, dropped: set<string>, a: Action) { a in xs && a.id !in dropped }

  ghost predicate NoCopies(xs: seq<Action>, dropped: set<string>) {
    forall a, b :: Survives(xs, dropped, a) && Survives(xs, dropped, b) && KeyOf(Intent, a) == KeyOf(Intent, b) ==>
      a == b
  }

  ghost predicate NoConflicts(xs: seq<Action>, dropped: set<string>, scope: Scope, rules: seq<Rule>) {
    forall r, a, b {:trigger Contradict(r, a, b)} ::
      r in rules && Survives(xs, dropped, a) && Survives(xs, dropped, b)
      && KeyOf(scope, a).Some? && KeyOf(scope, a) == KeyOf(scope, b) ==>
      !Contradict(r, a, b)
  }

  // No blocked proposal survives, each intent survives at most once, and no two survivors of
  // one bucket contradict each other; creative rules need a concrete creative.
  ghost predicate Settled(xs: seq<Action>, dropped: set<string>) {
    && (forall a :: Survives(xs, dropped, a) ==> !a.blocking)
    && NoCopies(xs, dropped)
    && NoConflicts(xs, dropped, Group, CAMPAIGN_CONFLICTS)
    && NoConflicts(xs, dropped, ConcreteCreative, CREATIVE_CONFLICTS)
  }

  lemma KeeperLives(xs: seq<Action>, suppressed: set<string>, a: Action)
    requires DistinctIds(xs) && a in xs && a.id !in suppressed
    ensures var b := Keeper(xs, suppressed, a);
      && Survives(xs, AfterRepeats(xs, suppressed), b)
      && KeyOf(Intent, a) == KeyOf(Intent, b) && !Weaker(b, a, true)
  {
    var key := KeyOf(Intent, a).value;
    MembersAre(xs, suppressed, Intent, key);
    var copies := Members(xs, suppressed, Intent, key);
    assert a in copies;
    var b := copies[BestAt(copies, true)];
    assert b in copies && KeyOf(Intent, b).value == key;
    forall c | c in xs && c.id == b.id ensures c == b { SameId(xs, b, c); }
  }

  lemma RepeatsKeepOne(xs: seq<Action>, suppressed: set<string>)
    requires DistinctIds(xs)
    ensures KeepsGroups(xs, suppressed, AfterRepeats(xs, suppressed))
    ensures NoCopies(xs, AfterRepeats(xs, suppressed))
  {
    forall a | a in xs && a.id !in suppressed
      ensures HasSurvivor(xs, AfterRepeats(xs, suppressed), a)
    {
      KeeperLives(xs, suppressed, a);
      var b := Keeper(xs, suppressed, a);
      assert SameGroup(a, b);
    }
  }

  lemma BucketKeepsOne(xs: seq<Action>, suppressed: set<string>, scope: Scope, rules: seq<Rule>, a: Action)
    returns (b: Action)
    requires DistinctIds(xs) && WellFormedRules(rules) && scope in {Group, ConcreteCreative}
    requires a in xs && a.id !in suppressed
    ensures Survives(xs, AfterConflicts(xs, suppressed, scope, rules), b) && SameGroup(a, b)
  {
    b := a;
    if KeyOf(scope, a).Some? {
      var key := KeyOf(scope, a).value;
      var members := Members(xs, suppressed, scope, key);
      MembersAre(xs, suppressed, scope, key);
      TableSettles(members, rules);
      assert a in members;
      b := Settle(members, rules)[0];
      assert b in Settle(members, rules) && b in members;
    }
    forall c | c in xs && c.id == b.id ensures c == b { SameId(xs, b, c); }
  }

  lemma ConflictsKeepOne(xs: seq<Action>, suppressed: set<string>, scope: Scope, rules: seq<Rule>)
    requires DistinctIds(xs) && WellFormedRules(rules) && scope in {Group, ConcreteCreative}
    ensures KeepsGroups(xs, suppressed, AfterConflicts(xs, suppressed, scope, rules))
  {
    forall a | a in xs && a.id !in suppressed
      ensures HasSurvivor(xs, AfterConflicts(xs, suppressed, scope, rules), a)
    {
      var b := BucketKeepsOne(xs, suppressed, scope, rules, a);
    }
  }

  lemma ConflictsSettle(xs: seq<Action>, suppressed: set<string>, scope: Scope, rules: seq<Rule>)
    requires DistinctIds(xs) && WellFormedRules(rules)
    ensures NoConflicts(xs, AfterConflicts(xs, suppressed, scope, rules), scope, rules)
  {
    var after := AfterConflicts(xs, suppressed, scope, rules);
    forall r, a, b | r in rules && Survives(xs, after, a) && Survives(xs, after, b)
      && KeyOf(scope, a).Some? && KeyOf(scope, a) == KeyOf(scope, b)
      ensures !Contradict(r, a, b)
    {
      TableSettles(Members(xs, suppressed, scope, KeyOf(scope, a).value), rules);
      assert !Loses(xs, suppressed, scope, rules, a) && !Loses(xs, suppressed, scope, rules, b);
    }
  }

  lemma GroupsChain(xs: seq<Action>, s0: set<string>, s1: set<string>, s2: set<string>)
    requires KeepsGroups(xs, s0, s1) && KeepsGroups(xs, s1, s2)
    ensures KeepsGroups(xs, s0, s2)
  {
    forall a | a in xs && a.id !in s0 ensures HasSurvivor(xs, s2, a) {
      assert HasSurvivor(xs, s1, a);
      var b :| b in xs && b.id !in s1 && SameGroup(a, b);
      assert HasSurvivor(xs, s2, b);
      var c :| c in xs && c.id !in s2 && SameGroup(b, c);
      assert SameGroup(a, c);
    }
  }

  // Withholding more cannot bring a conflict back.
  lemma MoreWithheld(xs: seq<Action>, dropped: set<string>, more: set<string>, scope: Scope, rules: seq<Rule>)
    requires dropped <= more
    ensures NoCopies(xs, dropped) ==> NoCopies(xs, more)
    ensures NoConflicts(xs, dropped, scope, rules) ==> NoConflicts(xs, more, scope, rules)
  {
    assert forall a :: Survives(xs, more, a) ==> Survives(xs, dropped, a);
  }

  lemma StagesSettle(xs: seq<Action>, s0: set<string>, s1: set<string>, s2: set<string>, s3: set<string>)
    requires s0 == Blocked(xs) && s0 <= s1 <= s2 <= s3
    requires KeepsGroups(xs, s0, s1) && KeepsGroups(xs, s1, s2) && KeepsGroups(xs, s2, s3)
    requires NoCopies(xs, s1)
    requires NoConflicts(xs, s2, Group, CAMPAIGN_CONFLICTS)
    requires NoConflicts(xs, s3, ConcreteCreative, CREATIVE_CONFLICTS)
    ensures Settled(xs, s3) && KeepsGroups(xs, s0, s3)
  {
    GroupsChain(xs, s0, s1, s2);
    GroupsChain(xs, s0, s2, s3);
    assert NoCopies(xs, s3) by { MoreWithheld(xs, s1, s3, Intent, []); }
    assert NoConflicts(xs, s3, Group, CAMPAIGN_CONFLICTS) by { MoreWithheld(xs, s2, s3, Group, CAMPAIGN_CONFLICTS); }
    forall a | Survives(xs, s3, a) ensures !a.blocking {
      assert a.blocking ==> a.id in s0;
    }
  }

  // One review settles the proposals and empties no bucket that had a workable one.
  lemma OneReview(xs: seq<Action>)
    requires DistinctIds(xs)
    ensures Settled(xs, Verdict(xs))
    ensures KeepsGroups(xs, Blocked(xs), Verdict(xs))
  {
    var s0 := Blocked(xs);
    var s1 := AfterRepeats(xs, s0);
    var s2 := AfterConflicts(xs, s1, Group, CAMPAIGN_CONFLICTS);
    assert KeepsGroups(xs, s0, s1) && NoCopies(xs, s1) by { RepeatsKeepOne(xs, s0); }
    ConflictPass(xs, s1, Group, CAMPAIGN_CONFLICTS);
    ConflictPass(xs, s2, ConcreteCreative, CREATIVE_CONFLICTS);
    StagesSettle(xs, s0, s1, s2, Verdict(xs));
  }

  lemma ConflictPass(xs: seq<Action>, before: set<string>, scope: Scope, rules: seq<Rule>)
    requires DistinctIds(xs) && WellFormedRules(rules) && scope in {Group, ConcreteCreative}
    ensures var after := AfterConflicts(xs, before, scope, rules);
      before <= after && KeepsGroups(xs, before, after) && NoConflicts(xs, after, scope, rules)
  {
    ConflictsKeepOne(xs, before, scope, rules);
    ConflictsSettle(xs, before, scope, rules);
  }

  // ---- accounting ----

  lemma {:induction false} LiveCount(xs: seq<Action>, dropped: set<string>)
    requires DistinctIds(xs) && dropped <= IdSet(xs)
    ensures |LiveOf(xs, dropped)| + |dropped| == |xs|
  {
    if |xs| != 0 {
      var n := |xs| - 1;
      assert xs == xs[..n] + [xs[n]];
      assert IdSet(xs) == IdSet(xs[..n]) + {xs[n].id};
      forall a | a in xs[..n] ensures a.id != xs[n].id {
        var i :| 0 <= i < n && xs[i] == a;
      }
      LiveCount(xs[..n], dropped - {xs[n].id});
      LiveSame(xs[..n], dropped, dropped - {xs[n].id});
    } else {
      assert dropped == {};
    }
  }

  lemma {:induction false} LiveSame(xs: seq<Action>, s: set<string>, t: set<string>)
    requires forall a :: a in xs ==> (a.id in s <==> a.id in t)
    ensures LiveOf(xs, s) == LiveOf(xs, t)
  {
    if |xs| != 0 {
      LiveSame(xs[..|xs| - 1], s, t);
    }
  }

  lemma VerdictNamesProposals(xs: seq<Action>)
    requires DistinctIds(xs)
    ensures Verdict(xs) <= IdSet(xs)
  {
  }

  function WithheldOf(findings: seq<Finding>, kind: string): nat {
    if |findings| == 0 then 0
    else
      var n := |findings| - 1;
      WithheldOf(findings[..n], kind) + (if findings[n].kind == kind then |findings[n].suppressed| else 0)
  }

  function Total(counts: map<string, nat>, kinds: seq<string>): nat
    requires forall k :: k in kinds ==> k in counts
  {
    if |kinds| == 0 then 0 else Total(counts, kinds[..|kinds| - 1]) + counts[kinds[|kinds| - 1]]
  }

  lemma {:induction false} TotalUpdate(counts: map<string, nat>, kinds: seq<string>, kind: string, extra: nat)
    requires forall k :: k in kinds ==> k in counts
    requires forall i, j :: 0 <= i < j < |kinds| ==> kinds[i] != kinds[j]
    requires kind in counts
    ensures Total(counts[kind := counts[kind] + extra], kinds)
         == Total(counts, kinds) + (if kind in kinds then extra else 0)
  {
    if |kinds| != 0 {
      var n := |kinds| - 1;
      assert kinds == kinds[..n] + [kinds[n]];
      TotalUpdate(counts, kinds[..n], kind, extra);
    }
  }

  lemma {:induction false} TotalExtend(counts: map<string, nat>, kinds: seq<string>, kind: string)
    requires forall k :: k in kinds ==> k in counts
    requires kind !in kinds
    ensures Total(counts[kind := 0], kinds) == Total(counts, kinds)
  {
    if |kinds| != 0 {
      TotalExtend(counts, kinds[..|kinds| - 1], kind);
    }
  }

  // The withheld-by-kind breakdown: every kind seen with its number of withheld proposals.
  ghost predicate Breakdown(findings: seq<Finding>, kinds: seq<string>, counts: map<string, nat>) {
    && (forall k :: k in kinds <==> k in counts)
    && (forall i, j :: 0 <= i < j < |kinds| ==> kinds[i] != kinds[j])
    && (forall k :: WithheldOf(findings, k) == if k in counts then counts[k] else 0)
    && Total(counts, kinds) == |Withheld(findings)|
  }

  lemma BreakdownOpen(findings: seq<Finding>, kinds: seq<string>, counts: map<string, nat>, kind: string)
    requires Breakdown(findings, kinds, counts) && kind !in counts
    ensures Breakdown(findings, kinds + [kind], counts[kind := 0])
  {
    TotalExtend(counts, kinds, kind);
    assert (kinds + [kind])[..|kinds|] == kinds;
  }

  lemma BreakdownAdd(findings: seq<Finding>, kinds: seq<string>, counts: map<string, nat>, f: Finding)
    requires Breakdown(findings, kinds, counts) && f.kind in counts
    ensures Breakdown(findings + [f], kinds, counts[f.kind := counts[f.kind] + |f.suppressed|])
  {
    TotalUpdate(counts, kinds, f.kind, |f.suppressed|);
    assert (findings + [f])[..|findings|] == findings;
  }

  // No withheld proposal is left out of the breakdown.
  method ByKind(findings: seq<Finding>) returns (kinds: seq<string>, counts: map<string, nat>)
    ensures forall k :: k in kinds <==> k in counts
    ensures forall k :: WithheldOf(findings, k) == if k in counts then counts[k] else 0
    ensures Total(counts, kinds) == |Withheld(findings)|
  {
    kinds, counts := [], map[];
    var n := 0;
    while n < |findings|
      invariant 0 <= n <= |findings|
      invariant Breakdown(findings[..n], kinds, counts)
    {
      var f := findings[n];
      assert findings[..n + 1] == findings[..n] + [f];
      if f.kind !in counts {
        BreakdownOpen(findings[..n], kinds, counts, f.kind);
        kinds, counts := kinds + [f.kind], counts[f.kind := 0];
      }
      BreakdownAdd(findings[..n], kinds, counts, f);
      counts := counts[f.kind := counts[f.kind] + |f.suppressed|];
      n := n + 1;
    }
    assert findings[..n] == findings;
  }

  ghost predicate ListedOnlyIn(findings: seq<Finding>, id: string, i: nat) {
    && i < |findings| && id in findings[i].suppressed
    && forall j :: 0 <= j < |findings| && j != i ==> id !in findings[j].suppressed
  }

  // Survivors plus everything the findings list make up the proposals, and each withheld
  // proposal is listed in exactly one finding.
  lemma ReviewAccounts(xs: seq<Action>, findings: seq<Finding>)
    requires DistinctIds(xs) && Records({}, findings, Verdict(xs))
    ensures |LiveOf(xs, Verdict(xs))| + |Withheld(findings)| == |xs|
    ensures forall id :: id in Verdict(xs) ==> exists i :: ListedOnlyIn(findings, id, i)
  {
    var dropped := Verdict(xs);
    assert dropped <= IdSet(xs) by { VerdictNamesProposals(xs); }
    LiveCount(xs, dropped);
    RecordedOnce(dropped, findings);
  }

  lemma RecordedOnce(dropped: set<string>, findings: seq<Finding>)
    requires Records({}, findings, dropped)
    ensures |Withheld(findings)| == |dropped|
    ensures forall id :: id in dropped ==> exists i :: ListedOnlyIn(findings, id, i)
  {
    assert multiset(Withheld(findings)) == multiset(dropped);
    assert |Withheld(findings)| == |multiset(Withheld(findings))|;
    forall id | id in dropped ensures exists i :: ListedOnlyIn(findings, id, i) {
      assert multiset(Withheld(findings))[id] == 1;
      var i := ListedOnce(findings, id);
    }
  }

  lemma {:induction false} ListedOnce(findings: seq<Finding>, id: string) returns (i: nat)
    requires multiset(Withheld(findings))[id] == 1
    ensures ListedOnlyIn(findings, id, i)
  {
    var n := |findings| - 1;
    assert multiset(Withheld(findings)) == multiset(Withheld(findings[..n])) + multiset(findings[n].suppressed);
    if id in multiset(findings[n].suppressed) {
      i := n;
      ListedNever(findings[..n], id);
    } else {
      i := ListedOnce(findings[..n], id);
    }
  }

  lemma {:induction false} ListedNever(findings: seq<Finding>, id: string)
    requires multiset(Withheld(findings))[id] == 0
    ensures forall j :: 0 <= j < |findings| ==> id !in findings[j].suppressed
  {
    if |findings| != 0 {
      var n := |findings| - 1;
      assert multiset(Withheld(findings)) == multiset(Withheld(findings[..n])) + multiset(findings[n].suppressed);
      ListedNever(findings[..n], id);
      assert id !in multiset(findings[n].suppressed);
    }
  }
}
