/** Which buckets a whole run keeps a proposal for, and what it takes to empty one. */
module CriticBuckets {
  import opened Common
  import opened Critic
  import opened CriticReview
  import opened CriticRun
  import opened CriticSurvival

  // ---- every review of a run sees a prefix of its proposals ----

  lemma {:induction false} ConcatPrefix(batches: seq<seq<Action>>, n: nat)
    requires n <= |batches|
    ensures Concat(batches[..n]) <= Concat(batches)
    decreases |batches| - n
  {
    if n == |batches| {
      assert batches[..n] == batches;
    } else {
      ConcatPrefix(batches, n + 1);
      assert batches[..n + 1][..n] == batches[..n];
    }
  }

  lemma {:induction false} MembersPrefix(ys: seq<Action>, m: nat, suppressed: set<string>, scope: Scope, key: Key)
    requires m <= |ys|
    ensures Members(ys[..m], suppressed, scope, key) <= Members(ys, suppressed, scope, key)
    decreases |ys|
  {
    if m < |ys| {
      var n := |ys| - 1;
      MembersPrefix(ys[..n], m, suppressed, scope, key);
      assert ys[..n][..m] == ys[..m];
    } else {
      assert ys[..m] == ys;
    }
  }

  lemma {:induction false} MembersSame(xs: seq<Action>, s: set<string>, t: set<string>, scope: Scope, key: Key)
    requires forall a :: a in xs ==> (a.id in s <==> a.id in t)
    ensures Members(xs, s, scope, key) == Members(xs, t, scope, key)
  {
    if |xs| != 0 {
      MembersSame(xs[..|xs| - 1], s, t, scope, key);
    }
  }

  lemma PrefixIsDistinct(ys: seq<Action>, m: nat)
    requires DistinctIds(ys) && m <= |ys|
    ensures DistinctIds(ys[..m])
  {
  }

  lemma CopiesPrefix(ys: seq<Action>, m: nat, a: Action)
    requires DistinctIds(ys) && m <= |ys|
    ensures Copies(ys[..m], a) <= Copies(ys, a)
  {
    PrefixIsDistinct(ys, m);
    var key := KeyOf(Intent, a).value;
    forall b | b in ys[..m] ensures b.id in Blocked(ys) <==> b.id in Blocked(ys[..m]) {
      BlockedIs(ys, b);
      BlockedIs(ys[..m], b);
    }
    MembersSame(ys[..m], Blocked(ys), Blocked(ys[..m]), Intent, key);
    MembersPrefix(ys, m, Blocked(ys), Intent, key);
  }

  lemma {:induction false} BestInPrefix(copies: seq<Action>, m: nat)
    requires 0 < m <= |copies| && BestAt(copies, true) < m
    ensures BestAt(copies[..m], true) == BestAt(copies, true)
    decreases |copies|
  {
    if m < |copies| {
      var n := |copies| - 1;
      BestInPrefix(copies[..n], m);
      assert copies[..n][..m] == copies[..m];
    } else {
      assert copies[..m] == copies;
    }
  }

  lemma IndexOfCopy(ys: seq<Action>, a: Action) returns (i: nat)
    requires DistinctIds(ys) && a in ys && !a.blocking
    ensures i < |Copies(ys, a)| && Copies(ys, a)[i] == a
    ensures forall j :: 0 <= j < |Copies(ys, a)| && Copies(ys, a)[j] == a ==> j == i
  {
    BlockedIs(ys, a);
    MembersAre(ys, Blocked(ys), Intent, KeyOf(Intent, a).value);
    assert a in Copies(ys, a);
    i :| 0 <= i < |Copies(ys, a)| && Copies(ys, a)[i] == a;
  }

  // The copy kept at the end was kept ever since it was there.
  lemma KeptInPrefix(ys: seq<Action>, m: nat, a: Action)
    requires DistinctIds(ys) && m <= |ys| && Kept(ys, a) && a in ys[..m]
    ensures Kept(ys[..m], a)
  {
    PrefixIsDistinct(ys, m);
    CopiesPrefix(ys, m, a);
    var some, all := Copies(ys[..m], a), Copies(ys, a);
    var i := IndexOfCopy(ys[..m], a);
    var k := IndexOfCopy(ys, a);
    assert all[i] == some[i] == a;
    BestInPrefix(all, |some|);
    assert all[..|some|] == some;
  }

  // A later copy replaces an earlier one only by being stronger.
  lemma LaterIsStronger(ys: seq<Action>, m: nat, a: Action, b: Action)
    requires DistinctIds(ys) && m <= |ys| && a in ys[..m] && !a.blocking
    requires Kept(ys, b) && b !in ys[..m] && KeyOf(Intent, a) == KeyOf(Intent, b)
    ensures Weaker(a, b, true)
  {
    PrefixIsDistinct(ys, m);
    CopiesPrefix(ys, m, a);
    var some, all := Copies(ys[..m], a), Copies(ys, a);
    var i := IndexOfCopy(ys[..m], a);
    var k := IndexOfCopy(ys, b);
    assert all == Copies(ys, b) && all[i] == some[i] == a;
    MembersAre(ys[..m], Blocked(ys[..m]), Intent, KeyOf(Intent, a).value);
    assert forall j :: 0 <= j < |some| ==> some[j] in ys[..m];
  }

  // ---- what no review of a run withholds ----

  // The workable proposals of a's campaign and creative.
  ghost function Bucket(ys: seq<Action>, a: Action): seq<Action> {
    Members(ys, Blocked(ys), Group, KeyOf(Group, a).value)
  }

  lemma BucketAre(ys: seq<Action>, a: Action)
    requires DistinctIds(ys)
    ensures forall b :: b in Bucket(ys, a) <==> b in ys && !b.blocking && SameGroup(a, b)
  {
    MembersAre(ys, Blocked(ys), Group, KeyOf(Group, a).value);
    forall b | b in ys ensures b.id in Blocked(ys) <==> b.blocking { BlockedIs(ys, b); }
  }

  lemma UnbeatenInPrefix(ys: seq<Action>, m: nat, a: Action)
    requires DistinctIds(ys) && m <= |ys| && Kept(ys, a) && UnbeatenInBucket(Bucket(ys, a), a)
    ensures DistinctIds(ys[..m]) && a.id !in Verdict(ys[..m])
  {
    var xs, pool := ys[..m], Bucket(ys, a);
    PrefixIsDistinct(ys, m);
    if a in xs {
      KeptInPrefix(ys, m, a);
      KeptIff(xs, a);
      BucketAre(ys, a);
      forall b | b in xs && SameGroup(a, b) && b.id !in AfterRepeats(xs, Blocked(xs)) ensures b in pool {
        BlockedIs(xs, b);
      }
      UnbeatenSurvives(xs, pool, a);
    } else {
      VerdictNamesProposals(xs);
      forall b | b in xs ensures b.id != a.id {
        assert b.id == a.id ==> b == a by { SameIdInWhole(ys, a, b); }
      }
    }
  }

  lemma SameIdInWhole(ys: seq<Action>, a: Action, b: Action)
    requires DistinctIds(ys) && a in ys && b in ys
    ensures a.id == b.id ==> a == b
  {
  }

  // A proposal that is the copy kept at the end and unbeaten in its whole bucket survives every
  // review from the first that saw it.
  lemma {:induction false} UnbeatenInRun(batches: seq<seq<Action>>, n: nat, a: Action)
    requires n <= |batches| && DistinctIds(Concat(batches))
    requires Kept(Concat(batches), a) && UnbeatenInBucket(Bucket(Concat(batches), a), a)
    ensures DistinctIds(Concat(batches[..n])) && a.id !in RunVerdict(batches[..n])
  {
    var ys := Concat(batches);
    ConcatPrefix(batches, n);
    var m := |Concat(batches[..n])|;
    assert Concat(batches[..n]) == ys[..m];
    UnbeatenInPrefix(ys, m, a);
    if n > 0 {
      UnbeatenInRun(batches, n - 1, a);
      assert batches[..n][..n - 1] == batches[..n - 1];
    }
  }

  lemma UnbeatenSurvivesRun(batches: seq<seq<Action>>, a: Action)
    requires DistinctIds(Concat(batches))
    requires Kept(Concat(batches), a) && UnbeatenInBucket(Bucket(Concat(batches), a), a)
    ensures a.id !in RunVerdict(batches)
  {
    UnbeatenInRun(batches, |batches|, a);
    assert batches[..|batches|] == batches;
  }

  // ---- proposals of top standing ----

  // Outranked by nothing in the pool.
  ghost predicate Top(pool: seq<Action>, t: Action) {
    t in pool && forall b :: b in pool ==> !Outranks(b, t)
  }

  lemma {:induction false} TopExists(pool: seq<Action>) returns (t: Action)
    requires |pool| > 0
    ensures Top(pool, t)
  {
    var n := |pool| - 1;
    assert pool == pool[..n] + [pool[n]];
    t := pool[n];
    if n > 0 {
      var u := TopExists(pool[..n]);
      if !Outranks(t, u) {
        t := u;
      } else {
        forall b | b in pool[..n] ensures !Outranks(b, t) {
          OutranksIsStrict(b, t, u);
          OutranksIsStrict(t, u, b);
        }
      }
    }
  }

  const CREATIVE_KINDS: set<Kind> := {PauseCreative, ResumeCreative, RefreshCreative}

  // Some rule speaks about the proposal.
  predicate Contested(a: Action) {
    || a.kind == PauseCampaign || a.kind in CONTRADICTED_BY_PAUSE
    || (a.creative != "" && a.kind in CREATIVE_KINDS)
  }

  lemma BystanderUnbeaten(pool: seq<Action>, a: Action)
    requires !Contested(a)
    ensures UnbeatenInBucket(pool, a)
  {
  }

  // Where no proposal is merely critical, rank and standing are one order.
  lemma OneOrder(a: Action, b: Action)
    requires !Marginal(a) && !Marginal(b)
    ensures RankBelow(a, b) <==> Outranks(b, a)
  {
  }

  // A top proposal that stops spending if any top one does, and then stops a creative if any does.
  ghost predicate FirstChoice(pool: seq<Action>, t: Action) {
    && Top(pool, t)
    && (t.kind == PauseCampaign || forall d :: Top(pool, d) ==> d.kind != PauseCampaign)
    && (t.kind in {PauseCampaign, PauseCreative} || forall d :: Top(pool, d) ==> d.kind != PauseCreative)
  }

  lemma FirstChoiceExists(pool: seq<Action>) returns (t: Action)
    requires |pool| > 0
    ensures FirstChoice(pool, t)
  {
    t := TopExists(pool);
    if d :| Top(pool, d) && d.kind == PauseCampaign {
      t := d;
    } else if d :| Top(pool, d) && d.kind == PauseCreative {
      t := d;
    }
  }

  lemma FirstChoiceAgainst(pool: seq<Action>, rule: Rule, t: Action)
    requires FirstChoice(pool, t) && forall b :: b in pool ==> !Marginal(b)
    requires rule in CAMPAIGN_CONFLICTS + CREATIVE_CONFLICTS
    ensures Unbeaten(pool, rule, t)
  {
    DominantsUncontradicted(rule, rule);
    forall d, c | d in pool && c in pool && Contradict(rule, d, c)
      ensures t.kind == rule.dominant && !RankBelow(d, t) ==> !Outranks(c, d)
      ensures t.kind in rule.contradicted && !RankBelow(c, t) ==> Outranks(c, d)
    {
      OneOrder(d, t);
      OneOrder(c, t);
      OutranksIsStrict(c, d, t);
      if t.kind in rule.contradicted {
        assert !Top(pool, d);
        var b :| b in pool && Outranks(b, d);
        OutranksIsStrict(b, d, t);
        OutranksIsStrict(t, d, c);
      }
    }
  }

  lemma KeptTopCopy(ys: seq<Action>, pool: seq<Action>, t: Action) returns (k: Action)
    requires DistinctIds(ys) && pool == Bucket(ys, t) && FirstChoice(pool, t)
    requires forall b :: b in pool ==> !Marginal(b)
    ensures Kept(ys, k) && SameGroup(t, k) && FirstChoice(pool, k)
  {
    BucketAre(ys, t);
    k := KeptCopy(ys, t);
    OneOrder(k, t);
    forall b | b in pool ensures !Outranks(b, k) {
      OutranksIsStrict(b, k, t);
    }
  }

  // A bucket with a workable proposal keeps one through a run of any length, if no workable
  // proposal of it that some rule speaks about is critical without being clearly so.
  lemma NoMarginalKeepsBucket(batches: seq<seq<Action>>, a: Action)
    requires DistinctIds(Concat(batches)) && a in Concat(batches) && !a.blocking
    requires forall b :: b in Concat(batches) && !b.blocking && SameGroup(a, b) && Contested(b) ==> !Marginal(b)
    ensures HasSurvivor(Concat(batches), RunVerdict(batches), a)
  {
    var ys := Concat(batches);
    var pool, k := Bucket(ys, a), a;
    BucketAre(ys, a);
    if b :| b in pool && !Contested(b) {
      k := KeptCopy(ys, b);
      BystanderUnbeaten(Bucket(ys, k), k);
    } else {
      assert a in pool;
      var t := FirstChoiceExists(pool);
      assert Bucket(ys, t) == pool;
      k := KeptTopCopy(ys, pool, t);
      assert Bucket(ys, k) == pool;
      forall r | r in CAMPAIGN_CONFLICTS + CREATIVE_CONFLICTS ensures Unbeaten(pool, r, k) {
        FirstChoiceAgainst(pool, r, k);
      }
    }
    UnbeatenSurvivesRun(batches, k);
    assert SameGroup(a, k);
  }

  // ---- a later copy that empties a bucket ----

  // A pause or a like remedy, something it contradicts, and in the next iteration a copy of one.
  ghost predicate TwoRounds(batches: seq<seq<Action>>, rule: Rule, d: Action, c: Action, later: Action) {
    && batches == [[d, c], [later]] && DistinctIds([d, c] + [later])
    && !d.blocking && !c.blocking && !later.blocking && SameGroup(d, c) && SameGroup(d, later)
    && Applies(rule, d) && Contradict(rule, d, c)
  }

  ghost predicate AllWithheld(batches: seq<seq<Action>>, d: Action, c: Action, later: Action)
    requires DistinctIds(Concat(batches))
  {
    d.id in RunVerdict(batches) && c.id in RunVerdict(batches) && later.id in RunVerdict(batches)
  }

  lemma LaterUnseen(xs: seq<Action>, later: Action)
    requires DistinctIds(xs + [later])
    ensures DistinctIds(xs) && later.id !in Verdict(xs)
  {
    var ys := xs + [later];
    assert ys[..|xs|] == xs && ys[|xs|] == later;
    PrefixIsDistinct(ys, |xs|);
    VerdictNamesProposals(xs);
    forall a | a in xs ensures a.id != later.id {
      var i :| 0 <= i < |xs| && xs[i] == a;
      assert ys[i] == a;
    }
  }

  lemma RoundsOf(batches: seq<seq<Action>>, rule: Rule, d: Action, c: Action, later: Action)
    requires TwoRounds(batches, rule, d, c, later)
    ensures var xs, ys := [d, c], [d, c] + [later];
      && DistinctIds(xs) && Concat(batches) == ys
      && RunVerdict(batches) == Verdict(xs) + Verdict(ys)
      && later.id !in Verdict(xs)
  {
    LaterUnseen([d, c], later);
    TwoBatches(batches, [d, c], [later]);
  }

  lemma FirstRound(xs: seq<Action>, rule: Rule, d: Action, c: Action)
    requires xs == [d, c] && DistinctIds(xs) && !d.blocking && !c.blocking && SameGroup(d, c)
    requires Applies(rule, d) && Contradict(rule, d, c)
    ensures c.id !in Verdict(xs) <==> Outranks(c, d)
    ensures d.id !in Verdict(xs) <==> !Outranks(c, d)
  {
    DominantsUncontradicted(rule, rule);
    StrongestIsKept(xs, d);
    StrongestIsKept(xs, c);
    PairDecides(xs, rule, d, c);
  }

  // The second review of three, of which two are copies: the stronger copy is kept, the first if
  // neither is.
  lemma CopyKept(ys: seq<Action>, first: Action, later: Action)
    requires DistinctIds(ys) && 2 <= |ys| && first in ys[..2] && later in ys && later !in ys[..2]
    requires !first.blocking && !later.blocking && KeyOf(Intent, first) == KeyOf(Intent, later)
    requires forall b :: b in ys && KeyOf(Intent, b) == KeyOf(Intent, first) ==> b == first || b == later
    ensures Kept(ys, later) <==> Weaker(first, later, true)
    ensures Kept(ys, first) <==> !Weaker(first, later, true)
  {
    var k := KeptCopy(ys, later);
    if k == later {
      LaterIsStronger(ys, 2, first, later);
      if Kept(ys, first) { KeptOnce(ys, first, later); }
    } else {
      if Kept(ys, later) { KeptOnce(ys, first, later); }
    }
  }

  lemma RoundMembers(ys: seq<Action>, d: Action, c: Action, later: Action)
    requires ys == [d, c] + [later] && DistinctIds(ys)
    ensures ys[..2] == [d, c] && d in ys && c in ys && later in ys && later !in [d, c]
    ensures forall b :: b in ys ==> b == d || b == c || b == later
  {
    assert ys[0] == d && ys[1] == c && ys[2] == later;
  }

  // A later copy of the contradicted proposal.
  lemma SecondRoundContradicted(ys: seq<Action>, rule: Rule, d: Action, c: Action, later: Action)
    requires ys == [d, c] + [later] && DistinctIds(ys) && later.kind == c.kind
    requires !d.blocking && !c.blocking && !later.blocking && SameGroup(d, c) && SameGroup(d, later)
    requires Applies(rule, d) && Contradict(rule, d, c)
    ensures var kept := if Weaker(c, later, true) then later else c;
      && (kept.id !in Verdict(ys) <==> Outranks(kept, d))
      && (d.id !in Verdict(ys) <==> !Outranks(kept, d))
    ensures Weaker(c, later, true) ==> c.id in Verdict(ys)
    ensures !Weaker(c, later, true) ==> later.id in Verdict(ys)
  {
    RoundMembers(ys, d, c, later);
    DominantsUncontradicted(rule, rule);
    StrongestIsKept(ys, d);
    CopyKept(ys, c, later);
    var kept, other := if Weaker(c, later, true) then later else c, if Weaker(c, later, true) then c else later;
    NotKeptIsWithheld(ys, other);
    PairDecides(ys, rule, d, kept);
  }

  // A later copy of the dominant one.
  lemma SecondRoundDominant(ys: seq<Action>, rule: Rule, d: Action, c: Action, later: Action)
    requires ys == [d, c] + [later] && DistinctIds(ys) && later.kind == d.kind
    requires !d.blocking && !c.blocking && !later.blocking && SameGroup(d, c) && SameGroup(d, later)
    requires Applies(rule, d) && Contradict(rule, d, c)
    ensures var kept := if Weaker(d, later, true) then later else d;
      && (c.id !in Verdict(ys) <==> Outranks(c, kept))
      && (kept.id !in Verdict(ys) <==> !Outranks(c, kept))
    ensures Weaker(d, later, true) ==> d.id in Verdict(ys)
    ensures !Weaker(d, later, true) ==> later.id in Verdict(ys)
  {
    RoundMembers(ys, d, c, later);
    DominantsUncontradicted(rule, rule);
    StrongestIsKept(ys, c);
    CopyKept(ys, d, later);
    var kept, other := if Weaker(d, later, true) then later else d, if Weaker(d, later, true) then d else later;
    NotKeptIsWithheld(ys, other);
    PairDecides(ys, rule, kept, c);
  }

  // One review keeps a proposal of every workable bucket; a run need not. When a copy of the
  // contradicted proposal comes later, the two reviews together withhold all three if and only if
  // the first outranked the remedy and the copy replaces it without outranking the remedy too.
  lemma RunCanEmptyABucket(batches: seq<seq<Action>>, rule: Rule, d: Action, c: Action, later: Action)
    requires TwoRounds(batches, rule, d, c, later) && later.kind == c.kind
    ensures DistinctIds(Concat(batches))
    ensures AllWithheld(batches, d, c, later) <==>
      Outranks(c, d) && Weaker(c, later, true) && !Outranks(later, d)
  {
    RoundsOf(batches, rule, d, c, later);
    FirstRound([d, c], rule, d, c);
    SecondRoundContradicted([d, c] + [later], rule, d, c, later);
  }

  // The same with a later copy of the remedy.
  lemma LaterRemedyCanEmptyABucket(batches: seq<seq<Action>>, rule: Rule, d: Action, c: Action, later: Action)
    requires TwoRounds(batches, rule, d, c, later) && later.kind == d.kind
    ensures DistinctIds(Concat(batches))
    ensures AllWithheld(batches, d, c, later) <==>
      !Outranks(c, d) && Weaker(d, later, true) && Outranks(c, later)
  {
    RoundsOf(batches, rule, d, c, later);
    FirstRound([d, c], rule, d, c);
    SecondRoundDominant([d, c] + [later], rule, d, c, later);
  }

  // ---- exactly the merely critical proposals can do it ----

  // A run in which a is the only proposal of its bucket that may be merely critical and after
  // which nothing of that bucket is left.
  ghost predicate EmptiedBy(batches: seq<seq<Action>>, a: Action) {
    && DistinctIds(Concat(batches)) && a in Concat(batches)
    && (forall b :: b in Concat(batches) && SameGroup(a, b) && b != a ==> !Marginal(b))
    && !HasSurvivor(Concat(batches), RunVerdict(batches), a)
  }

  lemma NothingLeft(xs: seq<Action>, after: set<string>, d: Action, c: Action, later: Action)
    requires xs == [d, c] + [later] && DistinctIds(xs) && !Marginal(d) && !Marginal(c)
    requires d.id in after && c.id in after && later.id in after
    ensures later in xs && forall b :: b in xs && b != later ==> !Marginal(b)
    ensures !HasSurvivor(xs, after, later)
  {
    RoundMembers(xs, d, c, later);
  }

  lemma ThreeWithheld(batches: seq<seq<Action>>, rule: Rule, d: Action, c: Action, later: Action)
    requires TwoRounds(batches, rule, d, c, later)
    requires DistinctIds(Concat(batches)) && AllWithheld(batches, d, c, later) && !Marginal(d) && !Marginal(c)
    ensures EmptiedBy(batches, later)
  {
    RoundsOf(batches, rule, d, c, later);
    NothingLeft(Concat(batches), RunVerdict(batches), d, c, later);
  }

  lemma DistinctTriple(d: Action, c: Action, later: Action)
    requires d.id != c.id && d.id != later.id && c.id != later.id
    ensures DistinctIds([d, c] + [later])
  {
  }

  lemma NamesApart(id: string)
    ensures id + "d" != id + "c" && id + "d" != id && id + "c" != id
  {
    assert (id + "d")[|id|] == 'd' && (id + "c")[|id|] == 'c';
  }

  // Any merely critical proposal on the contradicted side.
  lemma ContradictedEmpties(a: Action, rule: Rule) returns (batches: seq<seq<Action>>)
    requires !a.blocking && Marginal(a) && Applies(rule, a) && a.kind in rule.contradicted
    ensures EmptiedBy(batches, a)
  {
    var d := a.(id := a.id + "d", kind := rule.dominant, critical := false);
    var c := a.(id := a.id + "c", urgency := Some(1.0), iteration := a.iteration - 1);
    NamesApart(a.id);
    DistinctTriple(d, c, a);
    batches := [[d, c], [a]];
    RunCanEmptyABucket(batches, rule, d, c, a);
    ThreeWithheld(batches, rule, d, c, a);
  }

  // And on the dominant side.
  lemma DominantEmpties(a: Action, rule: Rule, rival: Kind) returns (batches: seq<seq<Action>>)
    requires !a.blocking && Marginal(a) && Applies(rule, a) && a.kind == rule.dominant && rival in rule.contradicted
    ensures EmptiedBy(batches, a)
  {
    var d := a.(id := a.id + "d", urgency := Some(1.0), iteration := a.iteration - 1);
    var c := a.(id := a.id + "c", kind := rival, urgency := Some(1.0));
    NamesApart(a.id);
    DistinctTriple(d, c, a);
    batches := [[d, c], [a]];
    LaterRemedyCanEmptyABucket(batches, rule, d, c, a);
    ThreeWithheld(batches, rule, d, c, a);
  }

  lemma SpeakingRule(a: Action) returns (rule: Rule)
    requires Contested(a)
    ensures Applies(rule, a) && (a.kind == rule.dominant || a.kind in rule.contradicted)
  {
    if a.kind == PauseCampaign || a.kind in SPEND_ACTIONS {
      rule := CAMPAIGN_CONFLICTS[0];
    } else if a.kind == ResumeCampaign {
      rule := CAMPAIGN_CONFLICTS[1];
    } else if a.kind == StartAbTest {
      rule := CAMPAIGN_CONFLICTS[2];
    } else if a.kind == RefreshCreative {
      rule := CREATIVE_CONFLICTS[1];
    } else {
      rule := CREATIVE_CONFLICTS[0];
    }
  }

  lemma RivalOf(rule: Rule) returns (rival: Kind)
    requires rule in CAMPAIGN_CONFLICTS + CREATIVE_CONFLICTS
    ensures rival in rule.contradicted
  {
    assert AdjustBid in SPEND_ACTIONS;
    rival :| rival in rule.contradicted;
  }

  lemma MarginalEmpties(a: Action) returns (batches: seq<seq<Action>>)
    requires !a.blocking && Marginal(a) && Contested(a)
    ensures EmptiedBy(batches, a)
  {
    var rule := SpeakingRule(a);
    if a.kind in rule.contradicted {
      batches := ContradictedEmpties(a, rule);
    } else {
      var rival := RivalOf(rule);
      batches := DominantEmpties(a, rule, rival);
    }
  }

  // A workable proposal can be the undoing of its whole bucket, in a run where no other proposal
  // of the bucket is critical without being clearly so, if and only if it is itself such a one and
  // some rule speaks about it.
  lemma EmptiedOnlyByMarginals(a: Action)
    requires !a.blocking
    ensures (exists batches :: EmptiedBy(batches, a)) <==> Marginal(a) && Contested(a)
  {
    forall batches | EmptiedBy(batches, a) ensures Marginal(a) && Contested(a) {
      if !(Marginal(a) && Contested(a)) {
        NoMarginalKeepsBucket(batches, a);
      }
    }
    if Marginal(a) && Contested(a) {
      var batches := MarginalEmpties(a);
    }
  }
}
