/**
 * What one review decides about each proposal, in terms of the fields of the proposals alone.
 *
 * The passes group, rank and withhold; here their joint effect is stated without them.
 */
module CriticOutcome {
  import opened Common
  import opened Critic
  import opened CriticReview
  import opened CriticRun
  import opened CriticSurvival
  import opened CriticBuckets

  // ---- the three orders ----

  predicate SameIntent(a: Action, b: Action) {
    a.campaign == b.campaign && a.creative == b.creative && a.kind == b.kind
  }

  // Of two copies: the critical one, then the more confident, then the later, then the first proposed.
  predicate KeptOver(a: Action, b: Action, first: bool) {
    if a.critical != b.critical then a.critical
    else if a.confidence != b.confidence then a.confidence > b.confidence
    else if a.iteration != b.iteration then a.iteration > b.iteration
    else first
  }

  // Of two proposals on one side of a rule: as above, the iteration aside.
  predicate SpeaksOver(a: Action, b: Action, first: bool) {
    if a.critical != b.critical then a.critical
    else if a.confidence != b.confidence then a.confidence > b.confidence
    else first
  }

  // Of the two sides: the clearly critical one, then the more confident; a tie goes to the keeper.
  predicate Overrules(challenger: Action, keeper: Action) {
    var c := challenger.critical && (challenger.urgency.None? || challenger.urgency.value >= 0.6);
    var k := keeper.critical && (keeper.urgency.None? || keeper.urgency.value >= 0.6);
    if c != k then c else challenger.confidence > keeper.confidence
  }

  lemma OrdersAre(a: Action, b: Action)
    ensures Overrules(a, b) <==> Outranks(a, b)
    ensures Weaker(b, a, true) <==> KeptOver(a, b, false)
    ensures !Weaker(a, b, true) <==> KeptOver(a, b, true)
    ensures Weaker(b, a, false) <==> SpeaksOver(a, b, false)
    ensures !Weaker(a, b, false) <==> SpeaksOver(a, b, true)
  {
  }

  // ---- positions of the selected ----

  ghost predicate Chosen(a: Action, suppressed: set<string>, scope: Scope, key: Key, kinds: set<Kind>) {
    a.id !in suppressed && KeyOf(scope, a) == Some(key) && a.kind in kinds
  }

  // These are the positions of the chosen, in order.
  ghost predicate Positions(from: seq<nat>, xs: seq<Action>, some: seq<Action>, suppressed: set<string>, scope: Scope,
                            key: Key, kinds: set<Kind>)
  {
    && |from| == |some|
    && (forall i :: 0 <= i < |from| ==> from[i] < |xs| && some[i] == xs[from[i]])
    && (forall i, j :: 0 <= i < j < |from| ==> from[i] < from[j])
    && (forall k :: 0 <= k < |xs| ==> (k in from <==> Chosen(xs[k], suppressed, scope, key, kinds)))
  }

  lemma PositionsMore(from: seq<nat>, xs: seq<Action>, a: Action, some: seq<Action>, suppressed: set<string>,
                      scope: Scope, key: Key, kinds: set<Kind>)
    requires Positions(from, xs, some, suppressed, scope, key, kinds) && Chosen(a, suppressed, scope, key, kinds)
    ensures Positions(from + [|xs|], xs + [a], some + [a], suppressed, scope, key, kinds)
  {
    var after := from + [|xs|];
    assert forall k: nat :: k in after <==> k in from || k == |xs|;
  }

  lemma PositionsSame(from: seq<nat>, xs: seq<Action>, a: Action, some: seq<Action>, suppressed: set<string>,
                      scope: Scope, key: Key, kinds: set<Kind>)
    requires Positions(from, xs, some, suppressed, scope, key, kinds) && !Chosen(a, suppressed, scope, key, kinds)
    ensures Positions(from, xs + [a], some, suppressed, scope, key, kinds)
  {
    assert |xs| !in from;
  }

  lemma {:induction false} SelectedFrom(xs: seq<Action>, suppressed: set<string>, scope: Scope, key: Key, kinds: set<Kind>)
    returns (from: seq<nat>)
    ensures Positions(from, xs, OfKind(Members(xs, suppressed, scope, key), kinds), suppressed, scope, key, kinds)
  {
    if |xs| == 0 {
      from := [];
    } else {
      var front, a := xs[..|xs| - 1], xs[|xs| - 1];
      var before := SelectedFrom(front, suppressed, scope, key, kinds);
      from := SelectedOneMore(before, front, a, suppressed, scope, key, kinds);
      assert xs == front + [a];
    }
  }

  lemma SelectedOneMore(before: seq<nat>, front: seq<Action>, a: Action, suppressed: set<string>, scope: Scope,
                        key: Key, kinds: set<Kind>)
    returns (from: seq<nat>)
    requires Positions(before, front, OfKind(Members(front, suppressed, scope, key), kinds), suppressed, scope, key, kinds)
    ensures Positions(from, front + [a], OfKind(Members(front + [a], suppressed, scope, key), kinds),
                      suppressed, scope, key, kinds)
  {
    var some := OfKind(Members(front, suppressed, scope, key), kinds);
    SelectedNext(front, a, suppressed, scope, key, kinds);
    if Chosen(a, suppressed, scope, key, kinds) {
      PositionsMore(before, front, a, some, suppressed, scope, key, kinds);
      from := before + [|front|];
    } else {
      PositionsSame(before, front, a, some, suppressed, scope, key, kinds);
      assert some + [] == some;
      from := before;
    }
  }

  lemma SelectedNext(xs: seq<Action>, a: Action, suppressed: set<string>, scope: Scope, key: Key, kinds: set<Kind>)
    ensures OfKind(Members(xs + [a], suppressed, scope, key), kinds)
         == OfKind(Members(xs, suppressed, scope, key), kinds)
          + (if Chosen(a, suppressed, scope, key, kinds) then [a] else [])
  {
    MembersStep(xs, suppressed, scope, key, a);
    var live := Members(xs, suppressed, scope, key);
    Snoc(live, a, kinds);
    assert live + [] == live;
    assert OfKind(live, kinds) + [] == OfKind(live, kinds);
  }

  lemma FirstOfBest(some: seq<Action>, freshest: bool, q: nat)
    requires q < |some|
    ensures var k := BestAt(some, freshest);
      k != q ==> if freshest then KeptOver(some[k], some[q], k < q) else SpeaksOver(some[k], some[q], k < q)
  {
    var k := BestAt(some, freshest);
    OrdersAre(some[k], some[q]);
  }

  // ---- which copy stays ----

  lemma {:induction false} CopiesAreOfKind(xs: seq<Action>, suppressed: set<string>, key: Key)
    requires key.kind.Some?
    ensures OfKind(Members(xs, suppressed, Intent, key), {key.kind.value}) == Members(xs, suppressed, Intent, key)
  {
    if |xs| != 0 {
      var n := |xs| - 1;
      assert xs == xs[..n] + [xs[n]];
      CopiesAreOfKind(xs[..n], suppressed, key);
      SelectedNext(xs[..n], xs[n], suppressed, Intent, key, {key.kind.value});
      MembersStep(xs[..n], suppressed, Intent, key, xs[n]);
    }
  }

  // The first of the strongest goes before all the others, and none of them before it.
  lemma KeeperGoesFirst(from: seq<nat>, xs: seq<Action>, copies: seq<Action>, suppressed: set<string>,
                        key: Key, kinds: set<Kind>, j: nat)
    requires |copies| > 0 && Positions(from, xs, copies, suppressed, Intent, key, kinds) && j in from
    ensures var at := from[BestAt(copies, true)];
      j != at ==> KeptOver(xs[at], xs[j], at < j) && !KeptOver(xs[j], xs[at], j < at)
  {
    var q :| 0 <= q < |from| && from[q] == j;
    FirstOfBest(copies, true, q);
  }

  lemma StaysIfKeeper(xs: seq<Action>, suppressed: set<string>, i: nat, at: nat)
    requires DistinctIds(xs) && i < |xs| && xs[i].id !in suppressed
    requires at < |xs| && xs[at] == Keeper(xs, suppressed, xs[i])
    ensures xs[i].id !in AfterRepeats(xs, suppressed) <==> i == at
  {
    forall b | b in xs && b.id == xs[i].id ensures b == xs[i] { SameId(xs, xs[i], b); }
  }

  lemma KeeperAt(xs: seq<Action>, suppressed: set<string>, i: nat) returns (at: nat)
    requires DistinctIds(xs) && i < |xs| && xs[i].id !in suppressed
    ensures at < |xs| && xs[at] == Keeper(xs, suppressed, xs[i])
    ensures xs[at].id !in suppressed && SameIntent(xs[i], xs[at])
    ensures forall j :: 0 <= j < |xs| && j != at && xs[j].id !in suppressed && SameIntent(xs[i], xs[j]) ==>
              KeptOver(xs[at], xs[j], at < j) && !KeptOver(xs[j], xs[at], j < at)
  {
    var key, kinds := KeyOf(Intent, xs[i]).value, {xs[i].kind};
    var copies := Members(xs, suppressed, Intent, key);
    CopiesAreOfKind(xs, suppressed, key);
    var from := SelectedFrom(xs, suppressed, Intent, key, kinds);
    assert i in from;
    at := from[BestAt(copies, true)];
    assert at in from;
    forall j | 0 <= j < |xs| && j != at && xs[j].id !in suppressed && SameIntent(xs[i], xs[j])
      ensures KeptOver(xs[at], xs[j], at < j) && !KeptOver(xs[j], xs[at], j < at)
    {
      KeeperGoesFirst(from, xs, copies, suppressed, key, kinds, j);
    }
  }

  // Among the proposals that are still live, the pass over repeats keeps a proposal if and only if
  // it goes before every other live copy of its intent.
  lemma StrongestCopyStays(xs: seq<Action>, suppressed: set<string>, i: nat)
    requires DistinctIds(xs) && i < |xs| && xs[i].id !in suppressed
    ensures xs[i].id !in AfterRepeats(xs, suppressed) <==>
      forall j :: 0 <= j < |xs| && j != i && xs[j].id !in suppressed && SameIntent(xs[i], xs[j]) ==>
        KeptOver(xs[i], xs[j], i < j)
  {
    var at := KeeperAt(xs, suppressed, i);
    StaysIfKeeper(xs, suppressed, i, at);
  }

  // ---- what one table decides about a bucket ----

  // The side a rule contradicts has a speaker that overrules d.
  ghost predicate Toppled(live: seq<Action>, rule: Rule, d: Action) {
    var weak := OfKind(live, rule.contradicted);
    |weak| > 0 && Outranks(weak[BestAt(weak, false)], d)
  }

  // All rules protect against one remedy, and no kind is contradicted twice.
  ghost predicate OneRemedy(rules: seq<Rule>, remedy: Kind) {
    && (forall r :: r in rules ==> r.dominant == remedy && remedy !in r.contradicted)
    && (forall m, n :: 0 <= m < n < |rules| ==> rules[m].contradicted !! rules[n].contradicted)
  }

  ghost predicate OnlyOne(live: seq<Action>, d: Action) {
    d in live && forall a :: a in live && a.kind == d.kind ==> a == d
  }

  lemma {:induction false} OthersUntouched(xs: seq<Action>, gone: set<Kind>, kinds: set<Kind>)
    requires gone !! kinds
    ensures OfKind(Without(xs, gone), kinds) == OfKind(xs, kinds)
  {
    if |xs| != 0 {
      var n := |xs| - 1;
      assert xs == xs[..n] + [xs[n]];
      OthersUntouched(xs[..n], gone, kinds);
      Snoc(xs[..n], xs[n], kinds);
      Snoc(xs[..n], xs[n], gone);
      Snoc(Without(xs[..n], gone), xs[n], kinds);
      assert Without(xs[..n], gone) + [] == Without(xs[..n], gone);
      assert OfKind(xs[..n], kinds) + [] == OfKind(xs[..n], kinds);
    }
  }

  // While the remedy is live a rule withholds it if it is toppled, and else what the rule contradicts.
  lemma RuleDecides(live: seq<Action>, rule: Rule, d: Action)
    requires OnlyOne(live, d) && rule.dominant == d.kind && d.kind !in rule.contradicted
    ensures forall a :: a in Without(live, Withholds(live, rule)) <==>
      a in live && (if Toppled(live, rule, d) then a.kind != d.kind else a.kind !in rule.contradicted)
  {
    var strong, weak := OfKind(live, {rule.dominant}), OfKind(live, rule.contradicted);
    KindsSplit(live, {rule.dominant});
    KindsSplit(live, rule.contradicted);
    KindsSplit(live, Withholds(live, rule));
    assert d in strong && strong[BestAt(strong, false)] in strong;
    if |weak| == 0 {
      forall a | a in live ensures a.kind !in rule.contradicted { assert a !in weak; }
    }
  }

  lemma {:induction false} NoneOf(xs: seq<Action>, kinds: set<Kind>)
    requires forall a :: a in xs ==> a.kind !in kinds
    ensures OfKind(xs, kinds) == []
  {
    if |xs| != 0 {
      NoneOf(xs[..|xs| - 1], kinds);
    }
  }

  // With no remedy live a rule withholds nothing.
  lemma RuleRests(live: seq<Action>, rule: Rule)
    requires forall a :: a in live ==> a.kind != rule.dominant
    ensures Without(live, Withholds(live, rule)) == live
  {
    NoneOf(live, {rule.dominant});
    NoKinds(live);
  }

  // Rules up to the n-th have toppled d.
  ghost predicate ToppledBy(live: seq<Action>, rules: seq<Rule>, n: nat, d: Action)
    requires n <= |rules|
  {
    exists m :: 0 <= m < n && Toppled(live, rules[m], d)
  }

  ghost predicate Spared(rules: seq<Rule>, n: nat, kind: Kind)
    requires n <= |rules|
  {
    forall m :: 0 <= m < n ==> kind !in rules[m].contradicted
  }

  // After n rules the remedy is live if none of them toppled it, and what a rule contradicts is
  // live if that rule or one before it did.
  ghost predicate Decided(live: seq<Action>, left: seq<Action>, rules: seq<Rule>, n: nat, d: Action)
    requires n <= |rules|
  {
    && (forall a :: a in left ==> a in live)
    && (forall a :: a in live && a.kind == d.kind ==> (a in left <==> !ToppledBy(live, rules, n, d)))
    && (forall m, a :: 0 <= m < n && a in live && a.kind in rules[m].contradicted ==>
          (a in left <==> ToppledBy(live, rules, m + 1, d)))
    && (forall a :: a in live && a.kind != d.kind && Spared(rules, n, a.kind) ==> a in left)
  }

  lemma WithholdsASide(live: seq<Action>, rule: Rule)
    ensures Withholds(live, rule) <= {rule.dominant} + rule.contradicted
  {
  }

  // What a rule contradicts is untouched until its turn.
  lemma {:induction false} SpeakersUntouched(live: seq<Action>, rules: seq<Rule>, n: nat, kinds: set<Kind>)
    requires n <= |rules| && forall m :: 0 <= m < n ==> rules[m].dominant !in kinds && rules[m].contradicted !! kinds
    ensures OfKind(Settle(live, rules[..n]), kinds) == OfKind(live, kinds)
  {
    if n > 0 {
      SpeakersUntouched(live, rules, n - 1, kinds);
      assert rules[..n][..n - 1] == rules[..n - 1];
      var before := Settle(live, rules[..n - 1]);
      WithholdsASide(before, rules[n - 1]);
      OthersUntouched(before, Withholds(before, rules[n - 1]), kinds);
    }
  }

  lemma ToppledNext(live: seq<Action>, rules: seq<Rule>, n: nat, d: Action)
    requires n < |rules|
    ensures ToppledBy(live, rules, n + 1, d) <==> ToppledBy(live, rules, n, d) || Toppled(live, rules[n], d)
  {
  }

  lemma DecidedNext(live: seq<Action>, before: seq<Action>, left: seq<Action>, rules: seq<Rule>, n: nat, d: Action)
    requires n < |rules| && OneRemedy(rules, d.kind) && OnlyOne(live, d) && Decided(live, before, rules, n, d)
    requires Toppled(before, rules[n], d) <==> Toppled(live, rules[n], d)
    requires left == Without(before, Withholds(before, rules[n]))
    ensures Decided(live, left, rules, n + 1, d)
  {
    ToppledNext(live, rules, n, d);
    if d in before {
      RuleDecides(before, rules[n], d);
    } else {
      RuleRests(before, rules[n]);
    }
    forall m, a | 0 <= m < n + 1 && a in live && a.kind in rules[m].contradicted
      ensures a in left <==> ToppledBy(live, rules, m + 1, d)
    {
      if m == n {
        assert Spared(rules, n, a.kind);
      } else {
        assert a.kind !in rules[n].contradicted;
      }
    }
    forall a | a in live && a.kind != d.kind && Spared(rules, n + 1, a.kind) ensures a in left {
      assert Spared(rules, n, a.kind);
    }
  }

  lemma {:induction false} TableDecides(live: seq<Action>, rules: seq<Rule>, n: nat, d: Action)
    requires n <= |rules| && OneRemedy(rules, d.kind) && OnlyOne(live, d)
    ensures Decided(live, Settle(live, rules[..n]), rules, n, d)
  {
    if n > 0 {
      TableDecides(live, rules, n - 1, d);
      assert rules[..n][..n - 1] == rules[..n - 1];
      SpeakersUntouched(live, rules, n - 1, rules[n - 1].contradicted);
      DecidedNext(live, Settle(live, rules[..n - 1]), Settle(live, rules[..n]), rules, n - 1, d);
    }
  }

  lemma {:induction false} TableRests(live: seq<Action>, rules: seq<Rule>, remedy: Kind)
    requires forall r :: r in rules ==> r.dominant == remedy
    requires forall a :: a in live ==> a.kind != remedy
    ensures Settle(live, rules) == live
  {
    if |rules| != 0 {
      TableRests(live, rules[..|rules| - 1], remedy);
      RuleRests(live, rules[|rules| - 1]);
    }
  }

  // ---- the outcome by position ----

  // A workable proposal that goes before every other workable copy of its intent.
  ghost predicate Stands(xs: seq<Action>, i: nat) {
    && i < |xs| && !xs[i].blocking
    && forall j :: 0 <= j < |xs| && j != i && !xs[j].blocking && SameIntent(xs[i], xs[j]) ==>
         KeptOver(xs[i], xs[j], i < j)
  }

  ghost predicate StandsAmong(xs: seq<Action>, k: nat, d: nat, kinds: set<Kind>)
    requires d < |xs|
  {
    Stands(xs, k) && xs[k].campaign == xs[d].campaign && xs[k].creative == xs[d].creative && xs[k].kind in kinds
  }

  // Speaks for these kinds in d's bucket.
  ghost predicate Speaks(xs: seq<Action>, k: nat, d: nat, kinds: set<Kind>)
    requires d < |xs|
  {
    StandsAmong(xs, k, d, kinds)
    && forall j :: 0 <= j < |xs| && j != k && StandsAmong(xs, j, d, kinds) ==> SpeaksOver(xs[k], xs[j], k < j)
  }

  ghost predicate Overruled(xs: seq<Action>, d: nat, kinds: set<Kind>)
    requires d < |xs|
  {
    exists k: nat :: Speaks(xs, k, d, kinds) && Overrules(xs[k], xs[d])
  }

  lemma StandsIff(xs: seq<Action>, i: nat)
    requires DistinctIds(xs) && i < |xs|
    ensures Stands(xs, i) <==> xs[i].id !in AfterRepeats(xs, Blocked(xs))
  {
    forall j: nat | j < |xs| ensures xs[j].id in Blocked(xs) <==> xs[j].blocking { BlockedIs(xs, xs[j]); }
    if !xs[i].blocking {
      StrongestCopyStays(xs, Blocked(xs), i);
    }
  }

  // The proposals of these kinds in d's bucket that are still live are those that stand.
  ghost predicate StandingLive(xs: seq<Action>, dropped: set<string>, d: nat, kinds: set<Kind>)
    requires d < |xs|
  {
    forall k :: 0 <= k < |xs| && SameGroup(xs[k], xs[d]) && xs[k].kind in kinds ==>
      (xs[k].id !in dropped <==> Stands(xs, k))
  }

  lemma ChosenStand(xs: seq<Action>, dropped: set<string>, scope: Scope, d: nat, kinds: set<Kind>, k: nat)
    requires d < |xs| && k < |xs| && scope in {Group, ConcreteCreative} && KeyOf(scope, xs[d]).Some?
    requires StandingLive(xs, dropped, d, kinds)
    ensures Chosen(xs[k], dropped, scope, KeyOf(scope, xs[d]).value, kinds) <==> StandsAmong(xs, k, d, kinds)
  {
  }

  lemma SpeakerGoesFirst(from: seq<nat>, xs: seq<Action>, weak: seq<Action>, j: nat)
    requires |from| == |weak| > 0 && forall i :: 0 <= i < |from| ==> from[i] < |xs| && weak[i] == xs[from[i]]
    requires (forall i, k :: 0 <= i < k < |from| ==> from[i] < from[k]) && j in from
    ensures var at := from[BestAt(weak, false)];
      j != at ==> SpeaksOver(xs[at], xs[j], at < j) && !SpeaksOver(xs[j], xs[at], j < at)
  {
    var q :| 0 <= q < |from| && from[q] == j;
    FirstOfBest(weak, false, q);
  }

  lemma ToppledIff(xs: seq<Action>, dropped: set<string>, scope: Scope, d: nat, rule: Rule)
    requires d < |xs| && scope in {Group, ConcreteCreative} && KeyOf(scope, xs[d]).Some?
    requires StandingLive(xs, dropped, d, rule.contradicted)
    ensures Toppled(Members(xs, dropped, scope, KeyOf(scope, xs[d]).value), rule, xs[d])
       <==> Overruled(xs, d, rule.contradicted)
  {
    var key, kinds := KeyOf(scope, xs[d]).value, rule.contradicted;
    var weak := OfKind(Members(xs, dropped, scope, key), kinds);
    var from := SelectedFrom(xs, dropped, scope, key, kinds);
    forall k: nat | k < |xs| ensures k in from <==> StandsAmong(xs, k, d, kinds) {
      ChosenStand(xs, dropped, scope, d, kinds, k);
    }
    if |weak| > 0 {
      var at := from[BestAt(weak, false)];
      assert at in from;
      forall j | 0 <= j < |xs| && j != at && StandsAmong(xs, j, d, kinds)
        ensures SpeaksOver(xs[at], xs[j], at < j) && !SpeaksOver(xs[j], xs[at], j < at)
      {
        SpeakerGoesFirst(from, xs, weak, j);
      }
      assert Speaks(xs, at, d, kinds);
      OrdersAre(xs[at], xs[d]);
    }
  }

  ghost predicate OverruledBy(xs: seq<Action>, rules: seq<Rule>, n: nat, d: nat)
    requires n <= |rules| && d < |xs|
  {
    exists m :: 0 <= m < n && Overruled(xs, d, rules[m].contradicted)
  }

  // What a table with one remedy leaves: the remedy if no rule overrules it, and what a rule
  // contradicts if there is no remedy or that rule or an earlier one overrules it.
  ghost predicate TableLeaves(xs: seq<Action>, rules: seq<Rule>, remedy: Kind, i: nat)
    requires i < |xs|
  {
    && (xs[i].kind == remedy ==> !OverruledBy(xs, rules, |rules|, i))
    && forall n: nat, p: nat ::
         n < |rules| && xs[i].kind in rules[n].contradicted && StandsAmong(xs, p, i, {remedy}) ==>
         OverruledBy(xs, rules, n + 1, p)
  }

  lemma LosesIff(xs: seq<Action>, dropped: set<string>, scope: Scope, rules: seq<Rule>, i: nat)
    requires DistinctIds(xs) && i < |xs| && xs[i].id !in dropped && KeyOf(scope, xs[i]).Some?
    ensures xs[i] in Members(xs, dropped, scope, KeyOf(scope, xs[i]).value)
    ensures xs[i].id !in AfterConflicts(xs, dropped, scope, rules) <==>
      xs[i] in Settle(Members(xs, dropped, scope, KeyOf(scope, xs[i]).value), rules)
  {
    MembersAre(xs, dropped, scope, KeyOf(scope, xs[i]).value);
    forall b | b in xs && b.id == xs[i].id ensures b == xs[i] { SameId(xs, b, xs[i]); }
  }

  // All that a table speaks about and that is still live stands.
  ghost predicate Ready(xs: seq<Action>, dropped: set<string>, rules: seq<Rule>, remedy: Kind, d: nat)
    requires d < |xs|
  {
    && StandingLive(xs, dropped, d, {remedy})
    && forall r :: r in rules ==> StandingLive(xs, dropped, d, r.contradicted)
  }

  lemma SameBucket(xs: seq<Action>, dropped: set<string>, scope: Scope, rules: seq<Rule>, remedy: Kind, i: nat, p: nat)
    requires i < |xs| && p < |xs| && SameGroup(xs[i], xs[p]) && scope in {Group, ConcreteCreative}
    ensures KeyOf(scope, xs[i]) == KeyOf(scope, xs[p])
    ensures Ready(xs, dropped, rules, remedy, i) ==> Ready(xs, dropped, rules, remedy, p)
  {
  }

  lemma StandsOnce(xs: seq<Action>, i: nat, j: nat)
    requires Stands(xs, i) && Stands(xs, j) && SameIntent(xs[i], xs[j])
    ensures i == j
  {
  }

  // The bucket of a table holds at most one remedy, the one that stands.
  lemma OneRemedyLive(xs: seq<Action>, dropped: set<string>, scope: Scope, d: nat)
    requires DistinctIds(xs) && d < |xs| && scope in {Group, ConcreteCreative} && KeyOf(scope, xs[d]).Some?
    requires StandingLive(xs, dropped, d, {xs[d].kind}) && Stands(xs, d)
    ensures OnlyOne(Members(xs, dropped, scope, KeyOf(scope, xs[d]).value), xs[d])
  {
    var live := Members(xs, dropped, scope, KeyOf(scope, xs[d]).value);
    MembersAre(xs, dropped, scope, KeyOf(scope, xs[d]).value);
    forall a | a in live && a.kind == xs[d].kind ensures a == xs[d] {
      var j :| 0 <= j < |xs| && xs[j] == a;
      StandsOnce(xs, d, j);
    }
  }

  lemma ToppledByIff(xs: seq<Action>, dropped: set<string>, scope: Scope, rules: seq<Rule>, remedy: Kind, n: nat, d: nat)
    requires d < |xs| && scope in {Group, ConcreteCreative} && KeyOf(scope, xs[d]).Some? && n <= |rules|
    requires Ready(xs, dropped, rules, remedy, d)
    ensures ToppledBy(Members(xs, dropped, scope, KeyOf(scope, xs[d]).value), rules, n, xs[d])
       <==> OverruledBy(xs, rules, n, d)
  {
    forall m | 0 <= m < n
      ensures Toppled(Members(xs, dropped, scope, KeyOf(scope, xs[d]).value), rules[m], xs[d])
         <==> Overruled(xs, d, rules[m].contradicted)
    {
      ToppledIff(xs, dropped, scope, d, rules[m]);
    }
  }

  lemma NoRemedyLive(xs: seq<Action>, dropped: set<string>, scope: Scope, remedy: Kind, i: nat)
    requires DistinctIds(xs) && i < |xs| && scope in {Group, ConcreteCreative} && KeyOf(scope, xs[i]).Some?
    requires StandingLive(xs, dropped, i, {remedy}) && forall p: nat :: !StandsAmong(xs, p, i, {remedy})
    ensures forall a :: a in Members(xs, dropped, scope, KeyOf(scope, xs[i]).value) ==> a.kind != remedy
  {
    MembersAre(xs, dropped, scope, KeyOf(scope, xs[i]).value);
    forall a | a in Members(xs, dropped, scope, KeyOf(scope, xs[i]).value) ensures a.kind != remedy {
      var j :| 0 <= j < |xs| && xs[j] == a;
      assert !StandsAmong(xs, j, i, {remedy});
    }
  }

  lemma TableWithRemedy(xs: seq<Action>, dropped: set<string>, scope: Scope, rules: seq<Rule>, i: nat, p: nat)
    requires DistinctIds(xs) && i < |xs| && p < |xs| && scope in {Group, ConcreteCreative}
    requires xs[i].id !in dropped && KeyOf(scope, xs[i]).Some?
    requires OneRemedy(rules, xs[p].kind) && Ready(xs, dropped, rules, xs[p].kind, i)
    requires StandsAmong(xs, p, i, {xs[p].kind}) && (xs[i].kind == xs[p].kind ==> Stands(xs, i))
    ensures xs[i] in Settle(Members(xs, dropped, scope, KeyOf(scope, xs[i]).value), rules) <==>
      TableLeaves(xs, rules, xs[p].kind, i)
  {
    var live := Members(xs, dropped, scope, KeyOf(scope, xs[i]).value);
    LosesIff(xs, dropped, scope, rules, i);
    SameBucket(xs, dropped, scope, rules, xs[p].kind, i, p);
    OneRemedyLive(xs, dropped, scope, p);
    TableDecides(live, rules, |rules|, xs[p]);
    assert rules[..|rules|] == rules;
    forall n: nat | n <= |rules| ensures ToppledBy(live, rules, n, xs[p]) <==> OverruledBy(xs, rules, n, p) {
      ToppledByIff(xs, dropped, scope, rules, xs[p].kind, n, p);
    }
    LeavesIffDecided(xs, live, Settle(live, rules), rules, i, p);
  }

  lemma LeavesIffDecided(xs: seq<Action>, live: seq<Action>, left: seq<Action>, rules: seq<Rule>, i: nat, p: nat)
    requires i < |xs| && p < |xs| && StandsAmong(xs, p, i, {xs[p].kind}) && xs[i] in live
    requires OneRemedy(rules, xs[p].kind) && Decided(live, left, rules, |rules|, xs[p]) && OnlyOne(live, xs[p])
    requires forall n: nat :: n <= |rules| ==> (ToppledBy(live, rules, n, xs[p]) <==> OverruledBy(xs, rules, n, p))
    requires xs[i].kind == xs[p].kind ==> Stands(xs, i)
    ensures xs[i] in left <==> TableLeaves(xs, rules, xs[p].kind, i)
  {
    RemedyOrOther(xs, i, p);
    if xs[i].kind == xs[p].kind {
      StandsOnce(xs, i, p);
      assert forall n :: 0 <= n < |rules| ==> xs[i].kind !in rules[n].contradicted;
    } else if n: nat :| n < |rules| && xs[i].kind in rules[n].contradicted {
      assert forall m :: 0 <= m < |rules| && xs[i].kind in rules[m].contradicted ==> m == n;
    } else {
      assert Spared(rules, |rules|, xs[i].kind);
    }
  }

  // In p's bucket the only remedy that stands is p.
  lemma RemedyOrOther(xs: seq<Action>, i: nat, p: nat)
    requires i < |xs| && p < |xs| && StandsAmong(xs, p, i, {xs[p].kind})
    ensures forall q: nat :: StandsAmong(xs, q, i, {xs[p].kind}) ==> q == p
  {
    forall q: nat | StandsAmong(xs, q, i, {xs[p].kind}) ensures q == p {
      StandsOnce(xs, p, q);
    }
  }

  lemma TableOutcome(xs: seq<Action>, dropped: set<string>, scope: Scope, rules: seq<Rule>, remedy: Kind, i: nat)
    requires DistinctIds(xs) && i < |xs| && scope in {Group, ConcreteCreative}
    requires xs[i].id !in dropped && KeyOf(scope, xs[i]).Some?
    requires OneRemedy(rules, remedy) && Ready(xs, dropped, rules, remedy, i)
    ensures xs[i].id !in AfterConflicts(xs, dropped, scope, rules) <==> TableLeaves(xs, rules, remedy, i)
  {
    LosesIff(xs, dropped, scope, rules, i);
    if p: nat :| StandsAmong(xs, p, i, {remedy}) {
      TableWithRemedy(xs, dropped, scope, rules, i, p);
    } else {
      NoRemedyLive(xs, dropped, scope, remedy, i);
      TableRests(Members(xs, dropped, scope, KeyOf(scope, xs[i]).value), rules, remedy);
    }
  }

  // ---- the outcome of a whole review ----

  // What stopping and running a campaign decide about a proposal of its bucket.
  ghost predicate CampaignAllows(xs: seq<Action>, i: nat)
    requires i < |xs|
  {
    match xs[i].kind
    case PauseCampaign =>
      && !Overruled(xs, i, {AdjustBudget, AdjustBid}) && !Overruled(xs, i, {ResumeCampaign})
      && !Overruled(xs, i, {StartAbTest})
    case AdjustBudget =>
      forall p: nat :: StandsAmong(xs, p, i, {PauseCampaign}) ==> Overruled(xs, p, {AdjustBudget, AdjustBid})
    case AdjustBid =>
      forall p: nat :: StandsAmong(xs, p, i, {PauseCampaign}) ==> Overruled(xs, p, {AdjustBudget, AdjustBid})
    case ResumeCampaign =>
      forall p: nat :: StandsAmong(xs, p, i, {PauseCampaign}) ==>
        Overruled(xs, p, {AdjustBudget, AdjustBid}) || Overruled(xs, p, {ResumeCampaign})
    case StartAbTest =>
      forall p: nat :: StandsAmong(xs, p, i, {PauseCampaign}) ==>
        Overruled(xs, p, {AdjustBudget, AdjustBid}) || Overruled(xs, p, {ResumeCampaign})
        || Overruled(xs, p, {StartAbTest})
    case _ => true
  }

  // The same for one concrete creative.
  ghost predicate CreativeAllows(xs: seq<Action>, i: nat)
    requires i < |xs|
  {
    match xs[i].kind
    case PauseCreative => !Overruled(xs, i, {ResumeCreative}) && !Overruled(xs, i, {RefreshCreative})
    case ResumeCreative =>
      forall p: nat :: StandsAmong(xs, p, i, {PauseCreative}) ==> Overruled(xs, p, {ResumeCreative})
    case RefreshCreative =>
      forall p: nat :: StandsAmong(xs, p, i, {PauseCreative}) ==>
        Overruled(xs, p, {ResumeCreative}) || Overruled(xs, p, {RefreshCreative})
    case _ => true
  }

  lemma NextRule(xs: seq<Action>, rules: seq<Rule>, n: nat, d: nat)
    requires n < |rules| && d < |xs|
    ensures OverruledBy(xs, rules, n + 1, d) <==>
      OverruledBy(xs, rules, n, d) || Overruled(xs, d, rules[n].contradicted)
  {
  }

  lemma CampaignRules(xs: seq<Action>, d: nat)
    requires d < |xs|
    ensures OverruledBy(xs, CAMPAIGN_CONFLICTS, 1, d) <==> Overruled(xs, d, {AdjustBudget, AdjustBid})
    ensures OverruledBy(xs, CAMPAIGN_CONFLICTS, 2, d) <==>
      Overruled(xs, d, {AdjustBudget, AdjustBid}) || Overruled(xs, d, {ResumeCampaign})
    ensures OverruledBy(xs, CAMPAIGN_CONFLICTS, 3, d) <==>
      Overruled(xs, d, {AdjustBudget, AdjustBid}) || Overruled(xs, d, {ResumeCampaign})
      || Overruled(xs, d, {StartAbTest})
  {
    NextRule(xs, CAMPAIGN_CONFLICTS, 0, d);
    NextRule(xs, CAMPAIGN_CONFLICTS, 1, d);
    NextRule(xs, CAMPAIGN_CONFLICTS, 2, d);
  }

  lemma CreativeRules(xs: seq<Action>, d: nat)
    requires d < |xs|
    ensures OverruledBy(xs, CREATIVE_CONFLICTS, 1, d) <==> Overruled(xs, d, {ResumeCreative})
    ensures OverruledBy(xs, CREATIVE_CONFLICTS, 2, d) <==>
      Overruled(xs, d, {ResumeCreative}) || Overruled(xs, d, {RefreshCreative})
  {
    NextRule(xs, CREATIVE_CONFLICTS, 0, d);
    NextRule(xs, CREATIVE_CONFLICTS, 1, d);
  }

  // Of a table only the rule that contradicts the kind decides about it.
  lemma LeavesByRule(xs: seq<Action>, rules: seq<Rule>, remedy: Kind, i: nat, n: nat)
    requires i < |xs| && n < |rules| && OneRemedy(rules, remedy) && xs[i].kind in rules[n].contradicted
    ensures TableLeaves(xs, rules, remedy, i) <==>
      forall p: nat :: StandsAmong(xs, p, i, {remedy}) ==> OverruledBy(xs, rules, n + 1, p)
  {
    assert forall m :: 0 <= m < |rules| && xs[i].kind in rules[m].contradicted ==> m == n;
  }

  lemma LeavesOthers(xs: seq<Action>, rules: seq<Rule>, remedy: Kind, i: nat)
    requires i < |xs| && forall r :: r in rules ==> xs[i].kind !in r.contradicted
    ensures TableLeaves(xs, rules, remedy, i) <==> (xs[i].kind == remedy ==> !OverruledBy(xs, rules, |rules|, i))
  {
  }

  lemma CampaignLeaves(xs: seq<Action>, i: nat)
    requires i < |xs|
    ensures TableLeaves(xs, CAMPAIGN_CONFLICTS, PauseCampaign, i) <==> CampaignAllows(xs, i)
  {
    forall d: nat | d < |xs| { CampaignRules(xs, d); }
    TablesHaveOneRemedy();
    match xs[i].kind
    case AdjustBudget => LeavesByRule(xs, CAMPAIGN_CONFLICTS, PauseCampaign, i, 0);
    case AdjustBid => LeavesByRule(xs, CAMPAIGN_CONFLICTS, PauseCampaign, i, 0);
    case ResumeCampaign => LeavesByRule(xs, CAMPAIGN_CONFLICTS, PauseCampaign, i, 1);
    case StartAbTest => LeavesByRule(xs, CAMPAIGN_CONFLICTS, PauseCampaign, i, 2);
    case _ => LeavesOthers(xs, CAMPAIGN_CONFLICTS, PauseCampaign, i);
  }

  lemma CreativeLeaves(xs: seq<Action>, i: nat)
    requires i < |xs|
    ensures TableLeaves(xs, CREATIVE_CONFLICTS, PauseCreative, i) <==> CreativeAllows(xs, i)
  {
    forall d: nat | d < |xs| { CreativeRules(xs, d); }
    TablesHaveOneRemedy();
    match xs[i].kind
    case ResumeCreative => LeavesByRule(xs, CREATIVE_CONFLICTS, PauseCreative, i, 0);
    case RefreshCreative => LeavesByRule(xs, CREATIVE_CONFLICTS, PauseCreative, i, 1);
    case _ => LeavesOthers(xs, CREATIVE_CONFLICTS, PauseCreative, i);
  }

  lemma TablesHaveOneRemedy()
    ensures OneRemedy(CAMPAIGN_CONFLICTS, PauseCampaign) && OneRemedy(CREATIVE_CONFLICTS, PauseCreative)
  {
  }

  lemma AfterCampaignTable(xs: seq<Action>, i: nat)
    requires DistinctIds(xs) && i < |xs|
    ensures xs[i].id !in AfterConflicts(xs, AfterRepeats(xs, Blocked(xs)), Group, CAMPAIGN_CONFLICTS) <==>
      Stands(xs, i) && CampaignAllows(xs, i)
  {
    var s1 := AfterRepeats(xs, Blocked(xs));
    forall k: nat | k < |xs| ensures Stands(xs, k) <==> xs[k].id !in s1 { StandsIff(xs, k); }
    if xs[i].id !in s1 {
      TablesHaveOneRemedy();
      TableOutcome(xs, s1, Group, CAMPAIGN_CONFLICTS, PauseCampaign, i);
      CampaignLeaves(xs, i);
    }
  }

  ghost predicate LetThrough(xs: seq<Action>, i: nat)
    requires i < |xs|
  {
    Stands(xs, i) && CampaignAllows(xs, i) && (xs[i].creative != "" ==> CreativeAllows(xs, i))
  }

  // A review lets a proposal through if and only if it stands among the workable copies of its
  // intent and neither its campaign's nor its creative's remedies decide against it.
  lemma ReviewOutcome(xs: seq<Action>, i: nat)
    requires DistinctIds(xs) && i < |xs|
    ensures xs[i].id !in Verdict(xs) <==> LetThrough(xs, i)
  {
    var s2 := AfterConflicts(xs, AfterRepeats(xs, Blocked(xs)), Group, CAMPAIGN_CONFLICTS);
    AfterCampaignTable(xs, i);
    if xs[i].id !in s2 {
      if xs[i].creative != "" {
        CreativeReady(xs, i);
        TablesHaveOneRemedy();
        TableOutcome(xs, s2, ConcreteCreative, CREATIVE_CONFLICTS, PauseCreative, i);
        CreativeLeaves(xs, i);
      } else {
        NoCreativeNoTable(xs, s2, i);
      }
    }
  }

  lemma CreativeReady(xs: seq<Action>, i: nat)
    requires DistinctIds(xs) && i < |xs|
    ensures var s2 := AfterConflicts(xs, AfterRepeats(xs, Blocked(xs)), Group, CAMPAIGN_CONFLICTS);
      Ready(xs, s2, CREATIVE_CONFLICTS, PauseCreative, i)
  {
    var s2 := AfterConflicts(xs, AfterRepeats(xs, Blocked(xs)), Group, CAMPAIGN_CONFLICTS);
    forall k: nat | k < |xs| && xs[k].kind in {PauseCreative, ResumeCreative, RefreshCreative}
      ensures xs[k].id !in s2 <==> Stands(xs, k)
    {
      AfterCampaignTable(xs, k);
    }
  }

  lemma NoCreativeNoTable(xs: seq<Action>, dropped: set<string>, i: nat)
    requires DistinctIds(xs) && i < |xs| && xs[i].id !in dropped && xs[i].creative == ""
    ensures xs[i].id !in AfterConflicts(xs, dropped, ConcreteCreative, CREATIVE_CONFLICTS)
  {
    forall b | b in xs && b.id == xs[i].id ensures b == xs[i] { SameId(xs, b, xs[i]); }
  }

  // ---- the outcome of a run ----

  // The position is let through by the review that follows the n-th batch, if it is there by then.
  ghost predicate PassesReview(batches: seq<seq<Action>>, n: nat, i: nat)
    requires n <= |batches|
  {
    i < |Concat(batches[..n])| ==> LetThrough(Concat(batches[..n]), i)
  }

  lemma NotYetProposed(xs: seq<Action>, ys: seq<Action>, i: nat)
    requires DistinctIds(ys) && xs <= ys && |xs| <= i < |ys| && DistinctIds(xs)
    ensures ys[i].id !in Verdict(xs)
  {
    VerdictNamesProposals(xs);
    forall a | a in xs ensures a.id != ys[i].id {
      var j :| 0 <= j < |xs| && xs[j] == a;
      assert ys[j] == a;
    }
  }

  lemma ReviewOfRun(batches: seq<seq<Action>>, i: nat, n: nat)
    requires DistinctIds(Concat(batches)) && n <= |batches| && i < |Concat(batches)|
    ensures DistinctIds(Concat(batches[..n]))
    ensures Concat(batches)[i].id !in Verdict(Concat(batches[..n])) <==> PassesReview(batches, n, i)
  {
    var xs := Concat(batches[..n]);
    DistinctUpTo(batches, n);
    ConcatPrefix(batches, n);
    if i < |xs| {
      ReviewOutcome(xs, i);
    } else {
      NotYetProposed(xs, Concat(batches), i);
    }
  }

  lemma LastReview(batches: seq<seq<Action>>)
    requires DistinctIds(Concat(batches)) && |batches| > 0
    ensures DistinctIds(Concat(batches[..|batches| - 1]))
    ensures RunVerdict(batches) == RunVerdict(batches[..|batches| - 1]) + Verdict(Concat(batches))
  {
    PrefixDistinct(batches);
  }

  // Dropped by none of the first n reviews.
  ghost predicate PassesAll(batches: seq<seq<Action>>, n: nat, i: nat)
    requires n <= |batches|
  {
    forall m :: 0 < m <= n ==> PassesReview(batches, m, i)
  }

  lemma NextReview(batches: seq<seq<Action>>, n: nat, i: nat)
    requires DistinctIds(Concat(batches)) && 0 < n <= |batches| && i < |Concat(batches)|
    ensures DistinctIds(Concat(batches[..n])) && DistinctIds(Concat(batches[..n - 1]))
    ensures Concat(batches)[i].id !in RunVerdict(batches[..n]) <==>
      Concat(batches)[i].id !in RunVerdict(batches[..n - 1]) && PassesReview(batches, n, i)
  {
    DistinctUpTo(batches, n);
    DistinctUpTo(batches, n - 1);
    ReviewOfRun(batches, i, n);
    LastReview(batches[..n]);
    assert batches[..n][..n - 1] == batches[..n - 1];
  }

  lemma PassesNext(batches: seq<seq<Action>>, n: nat, i: nat)
    requires n <= |batches|
    ensures PassesAll(batches, n, i) <==> n == 0 || (PassesAll(batches, n - 1, i) && PassesReview(batches, n, i))
  {
  }

  lemma {:induction false} RunOutcomeUpTo(batches: seq<seq<Action>>, i: nat, n: nat)
    requires DistinctIds(Concat(batches)) && n <= |batches| && i < |Concat(batches)|
    ensures DistinctIds(Concat(batches[..n]))
    ensures Concat(batches)[i].id !in RunVerdict(batches[..n]) <==> PassesAll(batches, n, i)
  {
    DistinctUpTo(batches, n);
    PassesNext(batches, n, i);
    if n > 0 {
      RunOutcomeUpTo(batches, i, n - 1);
      NextReview(batches, n, i);
    }
  }

  // A run lets a proposal through if and only if every review it was part of did.
  lemma RunOutcome(batches: seq<seq<Action>>, i: nat)
    requires DistinctIds(Concat(batches)) && i < |Concat(batches)|
    ensures Concat(batches)[i].id !in RunVerdict(batches) <==>
      forall n :: 0 < n <= |batches| ==> PassesReview(batches, n, i)
  {
    RunOutcomeUpTo(batches, i, |batches|);
    assert batches[..|batches|] == batches;
  }
}
