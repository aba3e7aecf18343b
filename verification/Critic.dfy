/**
 * The critic: five passes that mark conflicting proposals, and the readers of its verdict.
 *
 * The set of withheld ids that the passes share and grow is handed from pass to pass.
 * Confidence and urgency are exact reals.
 */
module Critic {
  import opened Common

  datatype Kind =
    | PauseCreative | ResumeCreative | RefreshCreative
    | AdjustBudget | AdjustBid
    | PauseCampaign | ResumeCampaign | StartAbTest
    | Other(name: string)

  datatype Action = Action(
    id: string, campaign: string, creative: string, kind: Kind, confidence: real,
    critical: bool, urgency: Option<real>, direction: string, iteration: int, blocking: bool)

  datatype Finding = Finding(
    kind: string, campaign: string, creative: string, keptId: string, keptKind: Option<Kind>,
    suppressed: seq<string>, iteration: int, escalate: bool)

  // ---- orderings ----

  const CRITICAL_GAP := 0.5
  const DOMINANCE_MARGIN := 0.10

  // A critical proposal ranks above any other; within either kind the more confident one does.
  predicate RankBelow(a: Action, b: Action) {
    (!a.critical && b.critical) || (a.critical == b.critical && a.confidence < b.confidence)
  }

  function Urgency(a: Action): real {
    match a.urgency
    case Some(u) => u
    case None => if a.critical then 1.0 else 0.0
  }

  predicate Dominates(a: Action) {
    a.critical && Urgency(a) >= CRITICAL_GAP + DOMINANCE_MARGIN
  }

  predicate Outranks(challenger: Action, keeper: Action) {
    if Dominates(challenger) != Dominates(keeper) then Dominates(challenger)
    else challenger.confidence > keeper.confidence
  }

  // The order among copies of one intent breaks rank ties in favour of the later iteration.
  predicate Weaker(a: Action, b: Action, freshest: bool) {
    RankBelow(a, b) || (!RankBelow(b, a) && freshest && a.iteration < b.iteration)
  }

  // The first of the strongest elements.
  function BestAt(xs: seq<Action>, freshest: bool): (k: nat)
    requires |xs| > 0
    ensures k < |xs|
    ensures forall i :: 0 <= i < |xs| ==> !Weaker(xs[k], xs[i], freshest)
    ensures forall i :: 0 <= i < k ==> Weaker(xs[i], xs[k], freshest)
  {
    var n := |xs| - 1;
    if n == 0 then 0
    else
      var k := BestAt(xs[..n], freshest);
      if Weaker(xs[k], xs[n], freshest) then n else k
  }

  // ---- selecting proposals ----

  ghost predicate DistinctIds(xs: seq<Action>) {
    forall i, j :: 0 <= i < j < |xs| ==> xs[i].id != xs[j].id
  }

  function Ids(xs: seq<Action>): seq<string> {
    seq(|xs|, i requires 0 <= i < |xs| => xs[i].id)
  }

  function IdSet(xs: seq<Action>): set<string> { set a | a in xs :: a.id }

  function LiveOf(xs: seq<Action>, suppressed: set<string>): seq<Action> {
    if |xs| == 0 then []
    else LiveOf(xs[..|xs| - 1], suppressed) + (if xs[|xs| - 1].id in suppressed then [] else [xs[|xs| - 1]])
  }

  function OfKind(xs: seq<Action>, kinds: set<Kind>): seq<Action> {
    if |xs| == 0 then []
    else OfKind(xs[..|xs| - 1], kinds) + (if xs[|xs| - 1].kind in kinds then [xs[|xs| - 1]] else [])
  }

  function Without(xs: seq<Action>, kinds: set<Kind>): seq<Action> {
    if |xs| == 0 then []
    else Without(xs[..|xs| - 1], kinds) + (if xs[|xs| - 1].kind in kinds then [] else [xs[|xs| - 1]])
  }

  // The buckets the passes sort proposals into.
  datatype Scope = Intent | Group | ConcreteCreative | SpendCampaign
  datatype Key = Key(campaign: string, creative: string, kind: Option<Kind>)

  const SPEND_ACTIONS: set<Kind> := {AdjustBudget, AdjustBid}

  function KeyOf(scope: Scope, a: Action): Option<Key> {
    match scope
    case Intent => Some(Key(a.campaign, a.creative, Some(a.kind)))
    case Group => Some(Key(a.campaign, a.creative, None))
    case ConcreteCreative => if a.creative == "" then None else Some(Key(a.campaign, a.creative, None))
    case SpendCampaign => if a.kind in SPEND_ACTIONS then Some(Key(a.campaign, "", None)) else None
  }

  function Members(xs: seq<Action>, suppressed: set<string>, scope: Scope, key: Key): seq<Action> {
    if |xs| == 0 then []
    else
      var a := xs[|xs| - 1];
      Members(xs[..|xs| - 1], suppressed, scope, key)
      + (if a.id !in suppressed && KeyOf(scope, a) == Some(key) then [a] else [])
  }

  lemma {:induction false} MembersAre(xs: seq<Action>, suppressed: set<string>, scope: Scope, key: Key)
    requires DistinctIds(xs)
    ensures forall a :: a in Members(xs, suppressed, scope, key) <==>
                        a in xs && a.id !in suppressed && KeyOf(scope, a) == Some(key)
    ensures DistinctIds(Members(xs, suppressed, scope, key))
  {
    if |xs| != 0 {
      var n := |xs| - 1;
      MembersAre(xs[..n], suppressed, scope, key);
      assert xs == xs[..n] + [xs[n]];
      forall a | a in Members(xs[..n], suppressed, scope, key) ensures a.id != xs[n].id {
        var i :| 0 <= i < n && xs[i] == a;
      }
    }
  }

  lemma {:induction false} LiveAre(xs: seq<Action>, suppressed: set<string>)
    ensures forall a :: a in LiveOf(xs, suppressed) <==> a in xs && a.id !in suppressed
  {
    if |xs| != 0 {
      LiveAre(xs[..|xs| - 1], suppressed);
      assert xs == xs[..|xs| - 1] + [xs[|xs| - 1]];
    }
  }

  lemma {:induction false} KindsSplit(xs: seq<Action>, kinds: set<Kind>)
    ensures forall a :: a in OfKind(xs, kinds) <==> a in xs && a.kind in kinds
    ensures forall a :: a in Without(xs, kinds) <==> a in xs && a.kind !in kinds
  {
    if |xs| != 0 {
      var n := |xs| - 1;
      KindsSplit(xs[..n], kinds);
      assert xs == xs[..n] + [xs[n]];
    }
  }

  lemma {:induction false} KindsDistinct(xs: seq<Action>, kinds: set<Kind>)
    requires DistinctIds(xs)
    ensures DistinctIds(OfKind(xs, kinds))
  {
    if |xs| != 0 {
      var n := |xs| - 1;
      KindsDistinct(xs[..n], kinds);
      KindsSplit(xs[..n], kinds);
      forall a | a in xs[..n] ensures a.id != xs[n].id {
        var i :| 0 <= i < n && xs[i] == a;
      }
    }
  }

  // ---- what one conflict rule does to one bucket ----

  datatype Rule = Rule(dominant: Kind, contradicted: set<Kind>, finding: string)

  const CAMPAIGN_CONFLICTS: seq<Rule> := [
    Rule(PauseCampaign, SPEND_ACTIONS, "pause_overrides_spend"),
    Rule(PauseCampaign, {ResumeCampaign}, "campaign_pause_resume_conflict"),
    Rule(PauseCampaign, {StartAbTest}, "experiment_on_paused_campaign")]

  const CREATIVE_CONFLICTS: seq<Rule> := [
    Rule(PauseCreative, {ResumeCreative}, "creative_pause_resume_conflict"),
    Rule(PauseCreative, {RefreshCreative}, "pause_overrides_refresh")]

  // The kinds a rule withholds from the live proposals of one bucket.
  function Withholds(live: seq<Action>, rule: Rule): set<Kind> {
    var strong := OfKind(live, {rule.dominant});
    var weak := OfKind(live, rule.contradicted);
    if |strong| == 0 || |weak| == 0 then {}
    else if Outranks(weak[BestAt(weak, false)], strong[BestAt(strong, false)]) then {rule.dominant}
    else rule.contradicted
  }

  function Settle(live: seq<Action>, rules: seq<Rule>): seq<Action> {
    if |rules| == 0 then live
    else
      var before := Settle(live, rules[..|rules| - 1]);
      Without(before, Withholds(before, rules[|rules| - 1]))
  }

  ghost predicate Contradict(rule: Rule, a: Action, b: Action) {
    a.kind == rule.dominant && b.kind in rule.contradicted
  }

  lemma RuleSettles(live: seq<Action>, rule: Rule)
    requires rule.dominant !in rule.contradicted
    ensures var left := Without(live, Withholds(live, rule));
      && (forall a :: a in left ==> a in live)
      && (forall a, b :: a in left && b in left ==> !Contradict(rule, a, b))
      && (|live| > 0 ==> |left| > 0)
  {
    KindsSplit(live, {rule.dominant});
    KindsSplit(live, rule.contradicted);
    var strong := OfKind(live, {rule.dominant});
    var weak := OfKind(live, rule.contradicted);
    var left := Without(live, Withholds(live, rule));
    KindsSplit(live, Withholds(live, rule));
    if |strong| > 0 && |weak| > 0 {
      assert strong[0] in strong && weak[0] in weak;
      assert strong[0] in left || weak[0] in left;
    } else {
      forall a | a in live ensures a in left { }
      if |live| > 0 { assert live[0] in left; }
      forall a, b | a in left && b in left ensures !Contradict(rule, a, b) {
        assert |strong| == 0 ==> a !in strong;
        assert |weak| == 0 ==> b !in weak;
      }
    }
  }

  ghost predicate WellFormedRules(rules: seq<Rule>) {
    forall r :: r in rules ==> r.dominant !in r.contradicted
  }

  // Applying a table leaves no contradictory pair in the bucket and never empties it.
  lemma {:induction false} TableSettles(live: seq<Action>, rules: seq<Rule>)
    requires WellFormedRules(rules)
    ensures var left := Settle(live, rules);
      && (forall a :: a in left ==> a in live)
      && (forall r, a, b :: r in rules && a in left && b in left ==> !Contradict(r, a, b))
      && (|live| > 0 ==> |left| > 0)
  {
    if |rules| != 0 {
      var n := |rules| - 1;
      assert rules == rules[..n] + [rules[n]];
      TableSettles(live, rules[..n]);
      RuleSettles(Settle(live, rules[..n]), rules[n]);
    }
  }

  // ---- what each pass withholds ----

  function Keeper(xs: seq<Action>, suppressed: set<string>, a: Action): Action
    requires DistinctIds(xs) && a in xs && a.id !in suppressed
  {
    var key := KeyOf(Intent, a).value;
    MembersAre(xs, suppressed, Intent, key);
    var copies := Members(xs, suppressed, Intent, key);
    copies[BestAt(copies, true)]
  }

  ghost function AfterRepeats(xs: seq<Action>, suppressed: set<string>): set<string>
    requires DistinctIds(xs)
  {
    suppressed + set a | a in xs && a.id !in suppressed && a != Keeper(xs, suppressed, a) :: a.id
  }

  predicate Loses(xs: seq<Action>, suppressed: set<string>, scope: Scope, rules: seq<Rule>, a: Action) {
    KeyOf(scope, a).Some? && a !in Settle(Members(xs, suppressed, scope, KeyOf(scope, a).value), rules)
  }

  ghost function AfterConflicts(xs: seq<Action>, suppressed: set<string>, scope: Scope, rules: seq<Rule>): set<string> {
    suppressed + set a | a in xs && a.id !in suppressed && Loses(xs, suppressed, scope, rules, a) :: a.id
  }

  ghost function Blocked(xs: seq<Action>): set<string> { set a | a in xs && a.blocking :: a.id }

  // The whole verdict of one review.
  ghost function Verdict(xs: seq<Action>): set<string>
    requires DistinctIds(xs)
  {
    var campaign := AfterConflicts(xs, AfterRepeats(xs, Blocked(xs)), Group, CAMPAIGN_CONFLICTS);
    AfterConflicts(xs, campaign, ConcreteCreative, CREATIVE_CONFLICTS)
  }

  // ---- bookkeeping of findings ----

  function Withheld(findings: seq<Finding>): seq<string> {
    if |findings| == 0 then []
    else Withheld(findings[..|findings| - 1]) + findings[|findings| - 1].suppressed
  }

  lemma {:induction false} WithheldAppend(a: seq<Finding>, b: seq<Finding>)
    ensures Withheld(a + b) == Withheld(a) + Withheld(b)
  {
    if |b| == 0 {
      assert a + b == a;
    } else {
      WithheldAppend(a, b[..|b| - 1]);
      assert (a + b)[..|a + b| - 1] == a + b[..|b| - 1];
    }
  }

  // A pass adds to the withheld ids exactly the ones its findings list, each listed once.
  ghost predicate Records(before: set<string>, findings: seq<Finding>, after: set<string>) {
    multiset(after) == multiset(before) + multiset(Withheld(findings))
  }

  lemma RecordsChain(s0: set<string>, f0: seq<Finding>, s1: set<string>, f1: seq<Finding>, s2: set<string>)
    requires Records(s0, f0, s1) && Records(s1, f1, s2)
    ensures Records(s0, f0 + f1, s2)
  {
    WithheldAppend(f0, f1);
  }

  lemma {:induction false} IdsOnce(xs: seq<Action>, v: string)
    requires DistinctIds(xs)
    ensures multiset(Ids(xs))[v] == if v in IdSet(xs) then 1 else 0
  {
    if |xs| != 0 {
      var n := |xs| - 1;
      IdsOnce(xs[..n], v);
      assert xs == xs[..n] + [xs[n]];
      assert Ids(xs) == Ids(xs[..n]) + [xs[n].id];
      assert IdSet(xs) == IdSet(xs[..n]) + {xs[n].id};
      forall a | a in xs[..n] ensures a.id != xs[n].id {
        var i :| 0 <= i < n && xs[i] == a;
      }
    } else {
      assert Ids(xs) == [];
    }
  }

  lemma IdsAsMultiset(xs: seq<Action>)
    requires DistinctIds(xs)
    ensures multiset(IdSet(xs)) == multiset(Ids(xs))
  {
    forall v: string ensures multiset(Ids(xs))[v] == multiset(IdSet(xs))[v] {
      IdsOnce(xs, v);
    }
  }

  lemma WithheldOne(finding: Finding)
    ensures Withheld([finding]) == finding.suppressed
  {
    assert [finding][..0] == [];
  }

  // Withholding distinct live proposals in one finding records them.
  lemma RecordsOne(before: set<string>, losers: seq<Action>, finding: Finding)
    requires DistinctIds(losers) && finding.suppressed == Ids(losers)
    requires IdSet(losers) !! before
    ensures Records(before, [finding], before + IdSet(losers))
  {
    WithheldOne(finding);
    IdsAsMultiset(losers);
    assert multiset(before + IdSet(losers)) == multiset(before) + multiset(IdSet(losers));
  }

  // ---- the passes ----

  // The buckets of a grouping, and their keys in order of first appearance.
  ghost predicate Grouped(xs: seq<Action>, suppressed: set<string>, scope: Scope, groups: map<Key, seq<Action>>) {
    && (forall k :: k in groups ==> groups[k] == Members(xs, suppressed, scope, k) && |groups[k]| > 0)
    && (forall k :: k !in groups ==> Members(xs, suppressed, scope, k) == [])
  }

  ghost predicate Listed<T>(keys: seq<Key>, groups: map<Key, T>) {
    && (forall i, j :: 0 <= i < j < |keys| ==> keys[i] != keys[j])
    && (forall k :: k in keys <==> k in groups)
  }

  lemma MembersStep(xs: seq<Action>, suppressed: set<string>, scope: Scope, key: Key, a: Action)
    ensures Members(xs + [a], suppressed, scope, key)
         == Members(xs, suppressed, scope, key)
          + (if a.id !in suppressed && KeyOf(scope, a) == Some(key) then [a] else [])
  {
    assert (xs + [a])[..|xs|] == xs;
  }

  lemma GroupedSkip(xs: seq<Action>, suppressed: set<string>, scope: Scope, groups: map<Key, seq<Action>>, a: Action)
    requires Grouped(xs, suppressed, scope, groups)
    requires a.id in suppressed || KeyOf(scope, a).None?
    ensures Grouped(xs + [a], suppressed, scope, groups)
  {
    forall k ensures Members(xs + [a], suppressed, scope, k) == Members(xs, suppressed, scope, k) {
      MembersStep(xs, suppressed, scope, k, a);
    }
  }

  lemma GroupedAdd(xs: seq<Action>, suppressed: set<string>, scope: Scope, groups: map<Key, seq<Action>>, a: Action)
    requires Grouped(xs, suppressed, scope, groups)
    requires a.id !in suppressed && KeyOf(scope, a).Some?
    ensures var key := KeyOf(scope, a).value;
      Grouped(xs + [a], suppressed, scope, groups[key := (if key in groups then groups[key] else []) + [a]])
  {
    forall k ensures Members(xs + [a], suppressed, scope, k)
      == Members(xs, suppressed, scope, k) + (if KeyOf(scope, a) == Some(k) then [a] else [])
    {
      MembersStep(xs, suppressed, scope, k, a);
    }
  }

  method GroupLive(xs: seq<Action>, suppressed: set<string>, scope: Scope)
    returns (keys: seq<Key>, groups: map<Key, seq<Action>>)
    ensures Listed(keys, groups) && Grouped(xs, suppressed, scope, groups)
  {
    keys, groups := [], map[];
    var n := 0;
    while n < |xs|
      invariant 0 <= n <= |xs|
      invariant Listed(keys, groups) && Grouped(xs[..n], suppressed, scope, groups)
    {
      var a := xs[n];
      assert xs[..n + 1] == xs[..n] + [a];
      if a.id in suppressed || KeyOf(scope, a).None? {
        GroupedSkip(xs[..n], suppressed, scope, groups, a);
        n := n + 1;
        continue;
      }
      GroupedAdd(xs[..n], suppressed, scope, groups, a);
      n := n + 1;
      var key := KeyOf(scope, a).value;
      if key !in groups {
        keys := keys + [key];
        groups := groups[key := [] + [a]];
      } else {
        groups := groups[key := groups[key] + [a]];
      }
    }
    assert xs[..n] == xs;
  }

  // The finding about a refused proposal lists it and names no keeper.
  ghost predicate NamesRefused(xs: seq<Action>, f: Finding, iteration: int) {
    exists a :: a in xs && a.blocking && f.suppressed == [a.id]
      && f == Finding("unexecutable_proposal", a.campaign, a.creative, "", None, f.suppressed, iteration, false)
  }

  method Unexecutable(xs: seq<Action>, iteration: int) returns (findings: seq<Finding>, suppressed: set<string>)
    requires DistinctIds(xs)
    ensures suppressed == Blocked(xs)
    ensures Records({}, findings, suppressed)
    ensures forall f :: f in findings ==> NamesRefused(xs, f, iteration)
  {
    findings, suppressed := [], {};
    var n := 0;
    while n < |xs|
      invariant 0 <= n <= |xs|
      invariant suppressed == Blocked(xs[..n])
      invariant Records({}, findings, suppressed)
      invariant forall f :: f in findings ==> NamesRefused(xs, f, iteration)
    {
      var a := xs[n];
      BlockedStep(xs, n);
      if a.blocking {
        var finding := Finding("unexecutable_proposal", a.campaign, a.creative, "", None, [a.id], iteration, false);
        RecordsRefusal(suppressed, a, finding);
        RecordsChain({}, findings, suppressed, [finding], suppressed + {a.id});
        suppressed := suppressed + {a.id};
        findings := findings + [finding];
      }
      n := n + 1;
    }
    assert xs[..n] == xs;
  }

  lemma BlockedStep(xs: seq<Action>, n: nat)
    requires DistinctIds(xs) && n < |xs|
    ensures xs[n].id !in Blocked(xs[..n])
    ensures Blocked(xs[..n + 1]) == Blocked(xs[..n]) + if xs[n].blocking then {xs[n].id} else {}
  {
    forall a | a in xs[..n] ensures a.id != xs[n].id {
      var i :| 0 <= i < n && xs[i] == a;
    }
    assert xs[..n + 1] == xs[..n] + [xs[n]];
  }

  lemma RecordsRefusal(suppressed: set<string>, a: Action, finding: Finding)
    requires a.id !in suppressed && finding.suppressed == [a.id]
    ensures Records(suppressed, [finding], suppressed + {a.id})
  {
    assert Ids([a]) == [a.id] && IdSet([a]) == {a.id};
    RecordsOne(suppressed, [a], finding);
  }

  function Except(xs: seq<Action>, k: nat): seq<Action>
    requires k < |xs|
  {
    xs[..k] + xs[k + 1..]
  }

  lemma ExceptAre(xs: seq<Action>, k: nat)
    requires k < |xs| && DistinctIds(xs)
    ensures forall a :: a in Except(xs, k) <==> a in xs && a != xs[k]
    ensures DistinctIds(Except(xs, k))
  {
    assert xs == xs[..k] + [xs[k]] + xs[k + 1..];
    assert forall i :: 0 <= i < |xs| && i != k ==> xs[i].id != xs[k].id;
  }

  // A live copy in one of these buckets that is not the one kept.
  ghost predicate IsRepeat(xs: seq<Action>, suppressed: set<string>, keys: seq<Key>, a: Action)
    requires DistinctIds(xs) && a in xs
  {
    a.id !in suppressed && KeyOf(Intent, a).value in keys && a != Keeper(xs, suppressed, a)
  }

  ghost function RepeatsIn(xs: seq<Action>, suppressed: set<string>, keys: seq<Key>): set<string>
    requires DistinctIds(xs)
  {
    set a | a in xs && IsRepeat(xs, suppressed, keys, a) :: a.id
  }

  lemma SameId(xs: seq<Action>, a: Action, b: Action)
    requires DistinctIds(xs) && a in xs && b in xs && a.id == b.id
    ensures a == b
  {
  }

  // All of a bucket's copies but the strongest, none of them withheld before.
  ghost predicate LosersOf(copies: seq<Action>, losers: seq<Action>, taken: set<string>) {
    |copies| > 0 && losers == Except(copies, BestAt(copies, true)) && DistinctIds(losers) && IdSet(losers) !! taken
  }

  lemma CopyLoses(xs: seq<Action>, suppressed: set<string>, key: Key, a: Action)
    requires DistinctIds(xs) && a in xs && a.id !in suppressed && KeyOf(Intent, a).value == key
    ensures var copies := Members(xs, suppressed, Intent, key);
      |copies| > 0 && (a in Except(copies, BestAt(copies, true)) <==> a != Keeper(xs, suppressed, a))
  {
    var copies := Members(xs, suppressed, Intent, key);
    MembersAre(xs, suppressed, Intent, key);
    assert a in copies;
    ExceptAre(copies, BestAt(copies, true));
  }

  lemma LosersAreFresh(xs: seq<Action>, suppressed: set<string>, keys: seq<Key>, key: Key)
    requires DistinctIds(xs) && key !in keys && |Members(xs, suppressed, Intent, key)| > 0
    ensures var copies := Members(xs, suppressed, Intent, key);
      LosersOf(copies, Except(copies, BestAt(copies, true)), suppressed + RepeatsIn(xs, suppressed, keys))
  {
    var copies := Members(xs, suppressed, Intent, key);
    var losers, taken := Except(copies, BestAt(copies, true)), suppressed + RepeatsIn(xs, suppressed, keys);
    MembersAre(xs, suppressed, Intent, key);
    ExceptAre(copies, BestAt(copies, true));
    forall a | a in losers ensures a.id !in taken {
      assert a in copies && a in xs;
      forall b | b in xs && b.id == a.id ensures b == a { SameId(xs, a, b); }
    }
  }

  lemma LosersRepeat(xs: seq<Action>, suppressed: set<string>, keys: seq<Key>, key: Key, id: string)
    requires DistinctIds(xs) && |Members(xs, suppressed, Intent, key)| > 0
    requires var copies := Members(xs, suppressed, Intent, key); id in IdSet(Except(copies, BestAt(copies, true)))
    ensures id in RepeatsIn(xs, suppressed, keys + [key])
  {
    var copies := Members(xs, suppressed, Intent, key);
    MembersAre(xs, suppressed, Intent, key);
    ExceptAre(copies, BestAt(copies, true));
    var a :| a in Except(copies, BestAt(copies, true)) && a.id == id;
    assert a in copies;
    CopyLoses(xs, suppressed, key, a);
  }

  lemma RepeatsAreLosers(xs: seq<Action>, suppressed: set<string>, keys: seq<Key>, key: Key, id: string)
    requires DistinctIds(xs) && |Members(xs, suppressed, Intent, key)| > 0
    requires id in RepeatsIn(xs, suppressed, keys + [key])
    ensures var copies := Members(xs, suppressed, Intent, key);
      id in RepeatsIn(xs, suppressed, keys) || id in IdSet(Except(copies, BestAt(copies, true)))
  {
    var a :| a in xs && IsRepeat(xs, suppressed, keys + [key], a) && a.id == id;
    if KeyOf(Intent, a).value == key {
      CopyLoses(xs, suppressed, key, a);
    }
  }

  lemma RepeatsInBucket(xs: seq<Action>, suppressed: set<string>, keys: seq<Key>, key: Key)
    requires DistinctIds(xs) && |Members(xs, suppressed, Intent, key)| > 0
    ensures var copies := Members(xs, suppressed, Intent, key);
      RepeatsIn(xs, suppressed, keys + [key])
      == RepeatsIn(xs, suppressed, keys) + IdSet(Except(copies, BestAt(copies, true)))
  {
    var copies := Members(xs, suppressed, Intent, key);
    var before, more := RepeatsIn(xs, suppressed, keys), IdSet(Except(copies, BestAt(copies, true)));
    MoreKeysMoreRepeats(xs, suppressed, keys, key);
    forall id | id in more ensures id in RepeatsIn(xs, suppressed, keys + [key]) {
      LosersRepeat(xs, suppressed, keys, key, id);
    }
    forall id | id in RepeatsIn(xs, suppressed, keys + [key]) ensures id in before + more {
      RepeatsAreLosers(xs, suppressed, keys, key, id);
    }
  }

  lemma MoreKeysMoreRepeats(xs: seq<Action>, suppressed: set<string>, keys: seq<Key>, key: Key)
    requires DistinctIds(xs)
    ensures RepeatsIn(xs, suppressed, keys) <= RepeatsIn(xs, suppressed, keys + [key])
  {
  }

  lemma NextCopies(xs: seq<Action>, suppressed: set<string>, keys: seq<Key>, groups: map<Key, seq<Action>>, n: nat)
    requires DistinctIds(xs) && Listed(keys, groups) && Grouped(xs, suppressed, Intent, groups) && n < |keys|
    ensures keys[n] in groups && |groups[keys[n]]| > 0
    ensures var copies := groups[keys[n]];
      var losers := Except(copies, BestAt(copies, true));
      && LosersOf(copies, losers, suppressed + RepeatsIn(xs, suppressed, keys[..n]))
      && RepeatsIn(xs, suppressed, keys[..n + 1]) == RepeatsIn(xs, suppressed, keys[..n]) + IdSet(losers)
  {
    var before, key := keys[..n], keys[n];
    assert key in keys && key !in before;
    assert keys[..n + 1] == before + [key];
    assert groups[key] == Members(xs, suppressed, Intent, key);
    LosersAreFresh(xs, suppressed, before, key);
    RepeatsInBucket(xs, suppressed, before, key);
  }

  lemma AllCopies(xs: seq<Action>, suppressed: set<string>, keys: seq<Key>, groups: map<Key, seq<Action>>)
    requires DistinctIds(xs) && Listed(keys, groups) && Grouped(xs, suppressed, Intent, groups)
    ensures suppressed + RepeatsIn(xs, suppressed, keys) == AfterRepeats(xs, suppressed)
  {
    forall a | a in xs && a.id !in suppressed ensures KeyOf(Intent, a).value in keys {
      MembersAre(xs, suppressed, Intent, KeyOf(Intent, a).value);
    }
  }

  // One bucket of copies: all but the strongest are withheld.
  method Collapse(members: seq<Action>, key: Key, suppressed: set<string>, iteration: int)
    returns (findings: seq<Finding>, after: set<string>)
    requires |members| > 0
    requires var losers := Except(members, BestAt(members, true)); DistinctIds(losers) && IdSet(losers) !! suppressed
    ensures after == suppressed + IdSet(Except(members, BestAt(members, true)))
    ensures Records(suppressed, findings, after)
    ensures forall f :: f in findings ==>
              var kept := members[BestAt(members, true)];
              f == Finding("duplicate_proposal", key.campaign, key.creative, kept.id, Some(kept.kind),
                           Ids(Except(members, BestAt(members, true))), iteration, false)
  {
    var k := BestAt(members, true);
    var losers := Except(members, k);
    if |members| < 2 {
      assert losers == [] && Withheld([]) == [];
      return [], suppressed;
    }
    var finding := Finding("duplicate_proposal", key.campaign, key.creative,
                           members[k].id, Some(members[k].kind), Ids(losers), iteration, false);
    RecordsOne(suppressed, losers, finding);
    findings, after := [finding], suppressed + IdSet(losers);
  }

  // The finding about a repeated intent names the copy that stays, and lists only copies of it.
  ghost predicate NamesKeeper(xs: seq<Action>, suppressed: set<string>, f: Finding, iteration: int)
    requires DistinctIds(xs)
  {
    exists a :: a in xs && a.id !in suppressed && a == Keeper(xs, suppressed, a)
      && f == Finding("duplicate_proposal", a.campaign, a.creative, a.id, Some(a.kind), f.suppressed, iteration, false)
      && forall id :: id in f.suppressed ==> exists b :: b in xs && b.id == id && KeyOf(Intent, b) == KeyOf(Intent, a)
  }

  lemma KeeperNamed(xs: seq<Action>, suppressed: set<string>, key: Key, f: Finding, iteration: int)
    requires DistinctIds(xs) && |Members(xs, suppressed, Intent, key)| > 0
    requires var members := Members(xs, suppressed, Intent, key);
      var kept := members[BestAt(members, true)];
      f == Finding("duplicate_proposal", key.campaign, key.creative, kept.id, Some(kept.kind),
                   Ids(Except(members, BestAt(members, true))), iteration, false)
    ensures NamesKeeper(xs, suppressed, f, iteration)
  {
    var members := Members(xs, suppressed, Intent, key);
    var k := BestAt(members, true);
    MembersAre(xs, suppressed, Intent, key);
    ExceptAre(members, k);
    assert members[k] in members;
    forall id | id in f.suppressed ensures exists b :: b in xs && b.id == id && KeyOf(Intent, b) == Some(key) {
      var i :| 0 <= i < |f.suppressed| && f.suppressed[i] == id;
      assert Except(members, k)[i] in members;
    }
  }

  method Repeats(xs: seq<Action>, suppressed: set<string>, iteration: int)
    returns (findings: seq<Finding>, after: set<string>)
    requires DistinctIds(xs)
    ensures after == AfterRepeats(xs, suppressed)
    ensures Records(suppressed, findings, after)
    ensures forall f :: f in findings ==> NamesKeeper(xs, suppressed, f, iteration)
  {
    var keys, groups := GroupLive(xs, suppressed, Intent);
    findings, after := [], suppressed;
    var n := 0;
    while n < |keys|
      invariant 0 <= n <= |keys|
      invariant after == suppressed + RepeatsIn(xs, suppressed, keys[..n])
      invariant Records(suppressed, findings, after)
      invariant forall f :: f in findings ==> NamesKeeper(xs, suppressed, f, iteration)
    {
      NextCopies(xs, suppressed, keys, groups, n);
      var more, next := Collapse(groups[keys[n]], keys[n], after, iteration);
      RecordsChain(suppressed, findings, after, more, next);
      forall f | f in more ensures NamesKeeper(xs, suppressed, f, iteration) {
        KeeperNamed(xs, suppressed, keys[n], f, iteration);
      }
      findings, after := findings + more, next;
      n := n + 1;
    }
    assert keys[..n] == keys;
    AllCopies(xs, suppressed, keys, groups);
  }

  lemma {:induction false} LiveAfter(xs: seq<Action>, suppressed: set<string>, kinds: set<Kind>, extra: set<string>)
    requires forall a :: a in xs && a.id !in suppressed ==> (a.id in extra <==> a.kind in kinds)
    ensures LiveOf(xs, suppressed + extra) == Without(LiveOf(xs, suppressed), kinds)
  {
    if |xs| != 0 {
      var n := |xs| - 1;
      LiveAfter(xs[..n], suppressed, kinds, extra);
      var live := LiveOf(xs[..n], suppressed);
      assert (live + [xs[n]])[..|live|] == live;
      if xs[n].id in suppressed {
        assert LiveOf(xs, suppressed) == live;
      } else {
        assert LiveOf(xs, suppressed) == live + [xs[n]];
        assert xs[n].id in suppressed + extra <==> xs[n].kind in kinds;
      }
    }
  }

  lemma {:induction false} LiveAll(xs: seq<Action>, suppressed: set<string>)
    requires forall a :: a in xs ==> a.id !in suppressed
    ensures LiveOf(xs, suppressed) == xs
  {
    if |xs| != 0 {
      var n := |xs| - 1;
      assert xs == xs[..n] + [xs[n]];
      LiveAll(xs[..n], suppressed);
    }
  }

  lemma {:induction false} LiveDistinct(xs: seq<Action>, suppressed: set<string>)
    requires DistinctIds(xs)
    ensures DistinctIds(LiveOf(xs, suppressed))
  {
    if |xs| != 0 {
      var n := |xs| - 1;
      LiveDistinct(xs[..n], suppressed);
      LiveAre(xs[..n], suppressed);
      forall a | a in LiveOf(xs[..n], suppressed) ensures a.id != xs[n].id {
        assert a in xs[..n];
        var i :| 0 <= i < n && xs[i] == a;
      }
    }
  }

  // One rule withholds a whole side of a bucket, or nothing, and the side it keeps is live.
  lemma WithheldSide(xs: seq<Action>, suppressed: set<string>, rule: Rule)
    requires DistinctIds(xs) && rule.dominant !in rule.contradicted
    ensures var live := LiveOf(xs, suppressed);
      var losers := OfKind(live, Withholds(live, rule));
      && DistinctIds(losers) && IdSet(losers) !! suppressed
      && (forall a :: a in losers ==> a in xs)
      && LiveOf(xs, suppressed + IdSet(losers)) == Without(live, Withholds(live, rule))
  {
    var live := LiveOf(xs, suppressed);
    var losers := OfKind(live, Withholds(live, rule));
    LiveAre(xs, suppressed);
    LiveDistinct(xs, suppressed);
    KindsSplit(live, Withholds(live, rule));
    KindsDistinct(live, Withholds(live, rule));
    forall a | a in xs && a.id !in suppressed ensures a.id in IdSet(losers) <==> a.kind in Withholds(live, rule) {
      if a.id in IdSet(losers) {
        var b :| b in losers && b.id == a.id;
        SameId(xs, a, b);
      } else {
        assert a in live;
        assert a.kind in Withholds(live, rule) ==> a in losers;
      }
    }
    LiveAfter(xs, suppressed, Withholds(live, rule), IdSet(losers));
  }

  lemma {:induction false} NoKinds(xs: seq<Action>)
    ensures OfKind(xs, {}) == [] && Without(xs, {}) == xs
  {
    if |xs| != 0 {
      NoKinds(xs[..|xs| - 1]);
    }
  }

  // The side a rule keeps is not the side it withholds.
  lemma WinnerStays(live: seq<Action>, rule: Rule)
    requires rule.dominant !in rule.contradicted
    ensures var strong := OfKind(live, {rule.dominant});
      var weak := OfKind(live, rule.contradicted);
      |strong| > 0 && |weak| > 0 ==>
        var winner := if Outranks(weak[BestAt(weak, false)], strong[BestAt(strong, false)])
                      then weak[BestAt(weak, false)] else strong[BestAt(strong, false)];
        winner in Without(live, Withholds(live, rule))
  {
    KindsSplit(live, {rule.dominant});
    KindsSplit(live, rule.contradicted);
    var strong := OfKind(live, {rule.dominant});
    var weak := OfKind(live, rule.contradicted);
    if |strong| > 0 && |weak| > 0 {
      assert strong[BestAt(strong, false)] in strong && weak[BestAt(weak, false)] in weak;
    }
  }

  lemma NothingWithheld(group: seq<Action>, suppressed: set<string>, rule: Rule)
    requires var live := LiveOf(group, suppressed);
      |OfKind(live, {rule.dominant})| == 0 || |OfKind(live, rule.contradicted)| == 0
    ensures var live := LiveOf(group, suppressed);
      && suppressed == suppressed + IdSet(OfKind(live, Withholds(live, rule)))
      && live == Without(live, Withholds(live, rule))
    ensures Records(suppressed, [], suppressed)
  {
    NoKinds(LiveOf(group, suppressed));
    assert IdSet([]) == {};
  }

  lemma WinnerIsLive(group: seq<Action>, suppressed: set<string>, rule: Rule, winner: Action, after: set<string>)
    requires DistinctIds(group) && rule.dominant !in rule.contradicted
    requires var live := LiveOf(group, suppressed);
      && after == suppressed + IdSet(OfKind(live, Withholds(live, rule)))
      && winner in Without(live, Withholds(live, rule))
    ensures winner in LiveOf(group, after)
  {
    WithheldSide(group, suppressed, rule);
  }

  lemma SidesAreOfRule(live: seq<Action>, rule: Rule, a: Action)
    requires a in OfKind(live, {rule.dominant}) || a in OfKind(live, rule.contradicted)
    ensures a.kind == rule.dominant || a.kind in rule.contradicted
  {
    KindsSplit(live, {rule.dominant});
    KindsSplit(live, rule.contradicted);
  }

  // The finding about a conflict names a proposal of the side that stays.
  ghost predicate NamesWinner(left: seq<Action>, rule: Rule, key: Key, f: Finding, iteration: int) {
    exists w :: w in left && (w.kind == rule.dominant || w.kind in rule.contradicted)
      && f == Finding(rule.finding, key.campaign, key.creative, w.id, Some(w.kind), f.suppressed, iteration, false)
  }

  method Resolve(group: seq<Action>, rule: Rule, key: Key, suppressed: set<string>, iteration: int)
    returns (finding: Option<Finding>, after: set<string>)
    requires DistinctIds(group) && rule.dominant !in rule.contradicted
    ensures var live := LiveOf(group, suppressed);
      && after == suppressed + IdSet(OfKind(live, Withholds(live, rule)))
      && LiveOf(group, after) == Without(live, Withholds(live, rule))
    ensures Records(suppressed, if finding.Some? then [finding.value] else [], after)
    ensures finding.Some? ==> NamesWinner(LiveOf(group, after), rule, key, finding.value, iteration)
  {
    var live := LiveOf(group, suppressed);
    var strong := OfKind(live, {rule.dominant});
    var weak := OfKind(live, rule.contradicted);
    if |strong| == 0 || |weak| == 0 {
      NothingWithheld(group, suppressed, rule);
      return None, suppressed;
    }
    var keeper := strong[BestAt(strong, false)];
    var challenger := weak[BestAt(weak, false)];
    var losers, winner := weak, keeper;
    if Outranks(challenger, keeper) {
      losers, winner := strong, challenger;
    }
    assert losers == OfKind(live, Withholds(live, rule));
    WithheldSide(group, suppressed, rule);
    WinnerStays(live, rule);
    after := suppressed + IdSet(losers);
    WinnerIsLive(group, suppressed, rule, winner, after);
    SidesAreOfRule(live, rule, winner);
    var verdict := Finding(rule.finding, key.campaign, key.creative, winner.id, Some(winner.kind),
                           Ids(losers), iteration, false);
    RecordsOne(suppressed, losers, verdict);
    finding := Some(verdict);
  }

  function Dropped(all: seq<Action>, left: seq<Action>): set<string> {
    set a | a in all && a !in left :: a.id
  }

  lemma DroppedStep(members: seq<Action>, rules: seq<Rule>, j: nat, left: seq<Action>)
    requires j < |rules| && WellFormedRules(rules) && left == Settle(members, rules[..j])
    ensures var kinds := Withholds(left, rules[j]);
      && Settle(members, rules[..j + 1]) == Without(left, kinds)
      && Dropped(members, Without(left, kinds)) == Dropped(members, left) + IdSet(OfKind(left, kinds))
  {
    assert rules[..j + 1][..j] == rules[..j];
    TableSettles(members, rules[..j]);
    KindsSplit(left, Withholds(left, rules[j]));
  }

  ghost predicate Progress(members: seq<Action>, left: seq<Action>, suppressed: set<string>,
                           findings: seq<Finding>, after: set<string>)
  {
    && LiveOf(members, after) == left
    && after == suppressed + Dropped(members, left)
    && Records(suppressed, findings, after)
    && forall f :: f in findings ==> !f.escalate
  }

  lemma ProgressStep(members: seq<Action>, rules: seq<Rule>, j: nat, left: seq<Action>, suppressed: set<string>,
                     findings: seq<Finding>, after: set<string>, more: seq<Finding>, next: set<string>)
    requires j < |rules| && WellFormedRules(rules) && left == Settle(members, rules[..j])
    requires Progress(members, left, suppressed, findings, after)
    requires next == after + IdSet(OfKind(left, Withholds(left, rules[j])))
    requires LiveOf(members, next) == Without(left, Withholds(left, rules[j]))
    requires Records(after, more, next) && forall f :: f in more ==> !f.escalate
    ensures Progress(members, Settle(members, rules[..j + 1]), suppressed, findings + more, next)
  {
    DroppedStep(members, rules, j, left);
    RecordsChain(suppressed, findings, after, more, next);
  }

  // All rules of one table on one bucket.
  method SettleBucket(members: seq<Action>, rules: seq<Rule>, key: Key, suppressed: set<string>, iteration: int)
    returns (findings: seq<Finding>, after: set<string>)
    requires DistinctIds(members) && WellFormedRules(rules)
    requires forall a :: a in members ==> a.id !in suppressed
    ensures after == suppressed + Dropped(members, Settle(members, rules))
    ensures Records(suppressed, findings, after)
    ensures forall f :: f in findings ==> !f.escalate
  {
    findings, after := [], suppressed;
    LiveAll(members, suppressed);
    var j := 0;
    while j < |rules|
      invariant 0 <= j <= |rules|
      invariant Progress(members, Settle(members, rules[..j]), suppressed, findings, after)
    {
      var finding, next := Resolve(members, rules[j], key, after, iteration);
      var more := if finding.Some? then [finding.value] else [];
      ProgressStep(members, rules, j, Settle(members, rules[..j]), suppressed, findings, after, more, next);
      findings, after := findings + more, next;
      j := j + 1;
    }
    assert rules[..j] == rules;
  }

  ghost function ConflictsIn(xs: seq<Action>, suppressed: set<string>, scope: Scope, rules: seq<Rule>, keys: seq<Key>)
    : set<string>
  {
    set a | a in xs && a.id !in suppressed && KeyOf(scope, a).Some? && KeyOf(scope, a).value in keys
            && Loses(xs, suppressed, scope, rules, a) :: a.id
  }

  lemma BucketIsNew(xs: seq<Action>, suppressed: set<string>, scope: Scope, rules: seq<Rule>, keys: seq<Key>, key: Key)
    requires DistinctIds(xs) && key !in keys
    ensures DistinctIds(Members(xs, suppressed, scope, key))
    ensures forall a :: a in Members(xs, suppressed, scope, key) ==>
              a.id !in suppressed + ConflictsIn(xs, suppressed, scope, rules, keys)
  {
    MembersAre(xs, suppressed, scope, key);
    forall a | a in Members(xs, suppressed, scope, key)
      ensures a.id !in suppressed + ConflictsIn(xs, suppressed, scope, rules, keys)
    {
      forall b | b in xs && b.id == a.id ensures b == a { SameId(xs, a, b); }
    }
  }

  lemma ConflictsInBucket(xs: seq<Action>, suppressed: set<string>, scope: Scope, rules: seq<Rule>,
                          keys: seq<Key>, key: Key)
    requires DistinctIds(xs)
    ensures ConflictsIn(xs, suppressed, scope, rules, keys + [key])
         == ConflictsIn(xs, suppressed, scope, rules, keys)
          + Dropped(Members(xs, suppressed, scope, key), Settle(Members(xs, suppressed, scope, key), rules))
  {
    MembersAre(xs, suppressed, scope, key);
  }

  lemma NextBucket(xs: seq<Action>, suppressed: set<string>, scope: Scope, rules: seq<Rule>,
                   keys: seq<Key>, groups: map<Key, seq<Action>>, n: nat)
    requires DistinctIds(xs) && Listed(keys, groups) && Grouped(xs, suppressed, scope, groups) && n < |keys|
    ensures keys[n] in groups && DistinctIds(groups[keys[n]])
    ensures forall a :: a in groups[keys[n]] ==>
              a.id !in suppressed + ConflictsIn(xs, suppressed, scope, rules, keys[..n])
    ensures ConflictsIn(xs, suppressed, scope, rules, keys[..n + 1])
         == ConflictsIn(xs, suppressed, scope, rules, keys[..n])
          + Dropped(groups[keys[n]], Settle(groups[keys[n]], rules))
  {
    BucketIsNew(xs, suppressed, scope, rules, keys[..n], keys[n]);
    ConflictsInBucket(xs, suppressed, scope, rules, keys[..n], keys[n]);
    assert keys[..n + 1] == keys[..n] + [keys[n]];
  }

  lemma AllBuckets(xs: seq<Action>, suppressed: set<string>, scope: Scope, rules: seq<Rule>,
                   keys: seq<Key>, groups: map<Key, seq<Action>>)
    requires DistinctIds(xs) && Listed(keys, groups) && Grouped(xs, suppressed, scope, groups)
    ensures suppressed + ConflictsIn(xs, suppressed, scope, rules, keys) == AfterConflicts(xs, suppressed, scope, rules)
  {
    forall a | a in xs && a.id !in suppressed && KeyOf(scope, a).Some? ensures KeyOf(scope, a).value in keys {
      MembersAre(xs, suppressed, scope, KeyOf(scope, a).value);
    }
  }

  method Conflicts(xs: seq<Action>, suppressed: set<string>, iteration: int, rules: seq<Rule>, scope: Scope)
    returns (findings: seq<Finding>, after: set<string>)
    requires DistinctIds(xs) && WellFormedRules(rules)
    ensures after == AfterConflicts(xs, suppressed, scope, rules)
    ensures Records(suppressed, findings, after)
    ensures forall f :: f in findings ==> !f.escalate
  {
    var keys, groups := GroupLive(xs, suppressed, scope);
    findings, after := [], suppressed;
    var n := 0;
    while n < |keys|
      invariant 0 <= n <= |keys|
      invariant after == suppressed + ConflictsIn(xs, suppressed, scope, rules, keys[..n])
      invariant Records(suppressed, findings, after)
      invariant forall f :: f in findings ==> !f.escalate
    {
      NextBucket(xs, suppressed, scope, rules, keys, groups, n);
      var more, next := SettleBucket(groups[keys[n]], rules, keys[n], after, iteration);
      RecordsChain(suppressed, findings, after, more, next);
      findings, after := findings + more, next;
      n := n + 1;
    }
    assert keys[..n] == keys;
    AllBuckets(xs, suppressed, scope, rules, keys, groups);
  }

  predicate Opposed(xs: seq<Action>) {
    && (exists i :: 0 <= i < |xs| && xs[i].direction == "increase")
    && (exists i :: 0 <= i < |xs| && xs[i].direction == "decrease")
  }

  function Escalation(campaign: string, iteration: int): Finding {
    Finding("opposing_spend_intent", campaign, "", "", None, [], iteration, true)
  }

  function Escalations(keys: seq<Key>, groups: map<Key, seq<Action>>, iteration: int): seq<Finding>
    requires forall k :: k in keys ==> k in groups
  {
    if |keys| == 0 then []
    else
      var n := |keys| - 1;
      Escalations(keys[..n], groups, iteration)
      + (if Opposed(groups[keys[n]]) then [Escalation(keys[n].campaign, iteration)] else [])
  }

  lemma {:induction false} EscalationsAre(keys: seq<Key>, groups: map<Key, seq<Action>>, iteration: int)
    requires forall k :: k in keys ==> k in groups
    ensures forall f :: f in Escalations(keys, groups, iteration) <==>
              exists k :: k in keys && Opposed(groups[k]) && f == Escalation(k.campaign, iteration)
    ensures Withheld(Escalations(keys, groups, iteration)) == []
  {
    if |keys| != 0 {
      var n := |keys| - 1;
      assert keys == keys[..n] + [keys[n]];
      EscalationsAre(keys[..n], groups, iteration);
      assert Escalations(keys[..n], groups, iteration) + [] == Escalations(keys[..n], groups, iteration);
      WithheldAppend(Escalations(keys[..n], groups, iteration), [Escalation(keys[n].campaign, iteration)]);
      WithheldOne(Escalation(keys[n].campaign, iteration));
    }
  }

  lemma SpendKeys(xs: seq<Action>, suppressed: set<string>, key: Key)
    requires DistinctIds(xs) && |Members(xs, suppressed, SpendCampaign, key)| > 0
    ensures key == Key(key.campaign, "", None)
  {
    MembersAre(xs, suppressed, SpendCampaign, key);
    assert Members(xs, suppressed, SpendCampaign, key)[0] in Members(xs, suppressed, SpendCampaign, key);
  }

  // A live proposal to change what the campaign spends.
  ghost predicate PullsSpend(xs: seq<Action>, suppressed: set<string>, campaign: string, a: Action) {
    a in xs && a.id !in suppressed && a.campaign == campaign && a.kind in {AdjustBudget, AdjustBid}
  }

  lemma OpposedIff(xs: seq<Action>, suppressed: set<string>, campaign: string)
    requires DistinctIds(xs)
    ensures Opposed(Members(xs, suppressed, SpendCampaign, Key(campaign, "", None))) <==>
      exists rise, cut :: PullsSpend(xs, suppressed, campaign, rise) && rise.direction == "increase"
        && PullsSpend(xs, suppressed, campaign, cut) && cut.direction == "decrease"
  {
    var live := Members(xs, suppressed, SpendCampaign, Key(campaign, "", None));
    MembersAre(xs, suppressed, SpendCampaign, Key(campaign, "", None));
    forall a ensures a in live <==> PullsSpend(xs, suppressed, campaign, a) {
    }
    forall a | a in live ensures exists i :: 0 <= i < |live| && live[i] == a {
    }
  }

  // Spend proposals pulling one campaign both ways are escalated, never withheld: there is a
  // finding for every such campaign and for no other.
  method SpendDirection(xs: seq<Action>, suppressed: set<string>, iteration: int) returns (findings: seq<Finding>)
    requires DistinctIds(xs)
    ensures Withheld(findings) == []
    ensures forall f :: f in findings ==>
              f == Finding("opposing_spend_intent", f.campaign, "", "", None, [], iteration, true)
    ensures forall campaign :: Escalation(campaign, iteration) in findings <==>
              exists rise, cut :: PullsSpend(xs, suppressed, campaign, rise) && rise.direction == "increase"
                && PullsSpend(xs, suppressed, campaign, cut) && cut.direction == "decrease"
  {
    var keys, groups := GroupLive(xs, suppressed, SpendCampaign);
    findings := [];
    var n := 0;
    while n < |keys|
      invariant 0 <= n <= |keys|
      invariant findings == Escalations(keys[..n], groups, iteration)
    {
      var group := groups[keys[n]];
      assert keys[..n + 1][..n] == keys[..n];
      if Opposed(group) {
        findings := findings + [Escalation(keys[n].campaign, iteration)];
      }
      n := n + 1;
    }
    assert keys[..n] == keys;
    EscalationsAre(keys, groups, iteration);
    forall k | k in keys ensures k == Key(k.campaign, "", None) {
      SpendKeys(xs, suppressed, k);
    }
    forall campaign ensures Escalation(campaign, iteration) in findings
      <==> Opposed(Members(xs, suppressed, SpendCampaign, Key(campaign, "", None)))
    {
      EscalatedIff(xs, suppressed, iteration, keys, groups, campaign);
    }
    forall campaign { OpposedIff(xs, suppressed, campaign); }
  }

  lemma EscalatedIff(xs: seq<Action>, suppressed: set<string>, iteration: int, keys: seq<Key>,
                     groups: map<Key, seq<Action>>, campaign: string)
    requires Listed(keys, groups) && Grouped(xs, suppressed, SpendCampaign, groups)
    requires forall k :: k in keys ==> k in groups && k == Key(k.campaign, "", None)
    ensures Escalation(campaign, iteration) in Escalations(keys, groups, iteration)
      <==> Opposed(Members(xs, suppressed, SpendCampaign, Key(campaign, "", None)))
  {
    var key := Key(campaign, "", None);
    EscalationsAre(keys, groups, iteration);
    if Escalation(campaign, iteration) in Escalations(keys, groups, iteration) {
      var k :| k in keys && Opposed(groups[k]) && Escalation(campaign, iteration) == Escalation(k.campaign, iteration);
      assert k == key;
    }
    if Opposed(Members(xs, suppressed, SpendCampaign, key)) {
      assert key in groups;
    }
  }
}
