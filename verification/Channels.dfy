/**
 * What the channels of the state hold after a run, in terms of what its agents returned.
 *
 * The agents of a run are those its trace lists, at the step of their position in it.
 */
module Channels {
  import opened Supervisor

  // What the j-th agent of the run returned; an agent that raised returned nothing.
  function Returned(agents: Agents, trace: Trace, j: nat): State
    requires j < |trace|
  {
    var outcome := agents.execute(trace[j].0, j, trace[j].1);
    if outcome.Ok? then outcome.update else map[]
  }

  function AllReturned(agents: Agents, trace: Trace): (updates: seq<State>)
    ensures |updates| == |trace|
  {
    seq(|trace|, j requires 0 <= j < |trace| => Returned(agents, trace, j))
  }

  function Folded(s: State, updates: seq<State>): State {
    if |updates| == 0 then s else ApplyUpdate(Folded(s, updates[..|updates| - 1]), updates[|updates| - 1])
  }

  // ---- every state of a run is the fold of what was returned before ----

  ghost predicate Seen(agents: Agents, s: State, trace: Trace) {
    forall j :: 0 <= j < |trace| ==> trace[j].1 == Folded(s, AllReturned(agents, trace[..j]))
  }

  // The trace of a run that has come to the state t.
  ghost predicate Leads(agents: Agents, s: State, trace: Trace, t: State) {
    Seen(agents, s, trace) && t == Folded(s, AllReturned(agents, trace))
  }

  lemma ReturnedNext(agents: Agents, trace: Trace, node: Node, t: State)
    ensures var done := trace + [(node, t)];
      var outcome := agents.execute(node, |trace|, t);
      && done[..|trace|] == trace
      && AllReturned(agents, done) == AllReturned(agents, trace) + [if outcome.Ok? then outcome.update else map[]]
  {
    var done := trace + [(node, t)];
    assert forall j :: 0 <= j < |trace| ==> done[j] == trace[j];
  }

  lemma SeenNext(agents: Agents, s: State, trace: Trace, node: Node, t: State)
    requires Leads(agents, s, trace, t)
    ensures Seen(agents, s, trace + [(node, t)])
  {
    var done := trace + [(node, t)];
    assert done[..|trace|] == trace;
    forall j | 0 <= j < |done| ensures done[j].1 == Folded(s, AllReturned(agents, done[..j])) {
      assert j < |trace| ==> done[..j] == trace[..j];
    }
  }

  lemma LeadsNext(agents: Agents, s: State, trace: Trace, node: Node, t: State)
    requires Leads(agents, s, trace, t) && agents.execute(node, |trace|, t).Ok?
    ensures Leads(agents, s, trace + [(node, t)], ApplyUpdate(t, agents.execute(node, |trace|, t).update))
  {
    SeenNext(agents, s, trace, node, t);
    ReturnedNext(agents, trace, node, t);
    var before, update := AllReturned(agents, trace), agents.execute(node, |trace|, t).update;
    assert (before + [update])[..|before|] == before;
  }

  ghost predicate Explained(agents: Agents, s: State, r: Result) {
    && Seen(agents, s, r.trace)
    && (r.Finished? ==> r.state == Folded(s, AllReturned(agents, r.trace)))
  }

  // How the graph goes on after an agent that returned.
  lemma GraphNext(agents: Agents, node: Node, t: State, limit: int, trace: Trace)
    requires |trace| < limit && Proceeds(agents, node, t, |trace|)
    ensures var next, done := ApplyUpdate(t, agents.execute(node, |trace|, t).update), trace + [(node, t)];
      GraphFrom(agents, node, t, |trace|, limit, trace) ==
        if node == Critic && EndAfterCritic(next) then Finished(next, done)
        else GraphFrom(agents, if node == Critic then Monitor else node.Next(), next, |done|, limit, done)
  {
  }

  lemma GraphOnwards(agents: Agents, node: Node, t: State, limit: int, trace: Trace) returns (next: State)
    requires |trace| < limit && Proceeds(agents, node, t, |trace|)
    ensures var done := trace + [(node, t)];
      GraphFrom(agents, node, t, |trace|, limit, trace) ==
        if node == Critic && EndAfterCritic(next) then Finished(next, done)
        else GraphFrom(agents, if node == Critic then Monitor else node.Next(), next, |done|, limit, done)
  {
    next := ApplyUpdate(t, agents.execute(node, |trace|, t).update);
    GraphNext(agents, node, t, limit, trace);
  }

  lemma GraphStops(agents: Agents, s: State, node: Node, t: State, limit: int, trace: Trace)
    requires Leads(agents, s, trace, t) && !(|trace| < limit && Proceeds(agents, node, t, |trace|))
    ensures Explained(agents, s, GraphFrom(agents, node, t, |trace|, limit, trace))
  {
    SeenNext(agents, s, trace, node, t);
  }

  lemma {:induction false} GraphExplained(agents: Agents, s: State, node: Node, t: State, limit: int, trace: Trace)
    requires Leads(agents, s, trace, t)
    ensures Explained(agents, s, GraphFrom(agents, node, t, |trace|, limit, trace))
    decreases limit - |trace|
  {
    if |trace| < limit && Proceeds(agents, node, t, |trace|) {
      LeadsNext(agents, s, trace, node, t);
      GraphExplained(agents, s, if node == Critic then Monitor else node.Next(),
                     ApplyUpdate(t, agents.execute(node, |trace|, t).update), limit, trace + [(node, t)]);
      GraphNext(agents, node, t, limit, trace);
    } else {
      GraphStops(agents, s, node, t, limit, trace);
    }
  }

  ghost predicate RoundLeads(agents: Agents, s: State, round: Round, length: nat) {
    match round
    case Done(t, trace) => Leads(agents, s, trace, t) && |trace| == length
    case Stopped(result) => !result.Finished? && Explained(agents, s, result)
  }

  lemma RoundEnds(agents: Agents, s: State, node: Node, t: State, trace: Trace)
    requires Leads(agents, s, trace, t) && (node == Critic || !Proceeds(agents, node, t, |trace|))
    ensures RoundLeads(agents, s, RoundFrom(agents, node, t, |trace|, trace), |trace| + 1)
  {
    if !agents.cancelled(|trace|) {
      SeenNext(agents, s, trace, node, t);
      if agents.execute(node, |trace|, t).Ok? {
        LeadsNext(agents, s, trace, node, t);
      }
    }
  }

  lemma RoundNext(agents: Agents, node: Node, t: State, trace: Trace)
    requires node != Critic && Proceeds(agents, node, t, |trace|)
    ensures RoundFrom(agents, node, t, |trace|, trace)
         == RoundFrom(agents, node.Next(), ApplyUpdate(t, agents.execute(node, |trace|, t).update),
                      |trace + [(node, t)]|, trace + [(node, t)])
  {
  }

  lemma {:induction false} RoundExplained(agents: Agents, s: State, node: Node, t: State, trace: Trace)
    requires Leads(agents, s, trace, t)
    ensures RoundLeads(agents, s, RoundFrom(agents, node, t, |trace|, trace), |trace| + node.After() + 1)
    decreases node.After()
  {
    if node != Critic && Proceeds(agents, node, t, |trace|) {
      var next, done := ApplyUpdate(t, agents.execute(node, |trace|, t).update), trace + [(node, t)];
      LeadsNext(agents, s, trace, node, t);
      RoundExplained(agents, s, node.Next(), next, done);
      RoundNext(agents, node, t, trace);
    } else {
      RoundEnds(agents, s, node, t, trace);
    }
  }

  lemma {:induction false} RoundsExplained(agents: Agents, s: State, t: State, rounds: int, trace: Trace)
    requires Leads(agents, s, trace, t)
    ensures Explained(agents, s, RoundsFrom(agents, t, |trace|, rounds, trace))
    decreases rounds
  {
    if rounds > 0 {
      RoundExplained(agents, s, Monitor, t, trace);
      var round := RoundFrom(agents, Monitor, t, |trace|, trace);
      if round.Done? && !Complete(round.state) && HasAlerts(round.state) {
        RoundsExplained(agents, s, round.state, rounds - 1, round.trace);
      }
    }
  }

  // What either executor makes of a state.
  ghost predicate RunOf(agents: Agents, s: State, r: Result) {
    || r == GraphFrom(agents, Monitor, s, 0, Limit(s), [])
    || r == RoundsFrom(agents, s, 0, MaxIterations(s), [])
  }

  // Every agent of a run sees, and a finished run ends in, the start with all that the agents
  // before returned folded in.
  lemma RunIsExplained(agents: Agents, s: State, r: Result)
    requires RunOf(agents, s, r)
    ensures Explained(agents, s, r)
  {
    assert AllReturned(agents, []) == [];
    GraphExplained(agents, s, Monitor, s, Limit(s), []);
    RoundsExplained(agents, s, s, MaxIterations(s), []);
  }

  // ---- one channel over one update ----

  lemma UpdateSkips(s: State, update: State, key: string)
    requires key !in update
    ensures Get(ApplyUpdate(s, update), key) == Get(s, key) && (key in ApplyUpdate(s, update) <==> key in s)
  {
  }

  lemma UpdateReduces(s: State, update: State, key: string)
    requires key in update
    ensures Get(ApplyUpdate(s, update), key) == Reduce(key, Get(s, key), update[key])
  {
  }

  const REPLACED_CHANNELS: set<string> := {"metrics", "audience_observations", "bidding_decisions",
                                           "budget_allocations", "alerts", "platform_checks"}
  const APPENDED_CHANNELS: set<string> := {"new_creatives", "optimization_actions", "critic_findings",
                                           "tool_preflights", "agent_messages"}
  const MERGED_CHANNELS: set<string> := {"daily_budgets", "audience_insights", "health", "usage"}

  predicate Replaces(update: State, key: string) { key in update && update[key] != None }

  lemma UpdateReplaces(s: State, update: State, key: string)
    requires key in REPLACED_CHANNELS
    ensures Replaces(update, key) ==> Get(ApplyUpdate(s, update), key) == update[key]
    ensures !Replaces(update, key) ==> Items(Get(ApplyUpdate(s, update), key)) == Items(Get(s, key))
    ensures !Replaces(update, key) && Get(s, key).List? ==> Get(ApplyUpdate(s, update), key) == Get(s, key)
  {
    if key in update {
      UpdateReduces(s, update, key);
    }
  }

  function Addition(update: State, key: string): seq<Value> {
    if key in update && update[key].List? then update[key].xs else []
  }

  lemma UpdateAppends(s: State, update: State, key: string)
    requires key in APPENDED_CHANNELS
    ensures Items(Get(ApplyUpdate(s, update), key)) == Items(Get(s, key)) + Addition(update, key)
  {
    if key in update {
      UpdateReduces(s, update, key);
    } else {
      assert Items(Get(s, key)) + [] == Items(Get(s, key));
    }
  }

  // The update sets this entry of the channel.
  predicate SetsEntry(update: State, key: string, entry: string) {
    key in update && update[key].Dict? && entry in update[key].m
  }

  function Entry(s: State, key: string, entry: string): Value {
    if key in s && s[key].Dict? && entry in s[key].m then s[key].m[entry] else None
  }

  lemma UpdateMerges(s: State, update: State, key: string, entry: string)
    requires key in MERGED_CHANNELS
    ensures SetsEntry(update, key, entry) ==>
              SetsEntry(ApplyUpdate(s, update), key, entry)
              && Entry(ApplyUpdate(s, update), key, entry) == update[key].m[entry]
    ensures !SetsEntry(update, key, entry) ==>
              (SetsEntry(ApplyUpdate(s, update), key, entry) <==> SetsEntry(s, key, entry))
              && Entry(ApplyUpdate(s, update), key, entry) == Entry(s, key, entry)
  {
    if key in update {
      UpdateReduces(s, update, key);
    }
  }

  // The count an update claims; none is zero.
  function Claimed(update: State): int {
    if "iteration" in update && update["iteration"].Num? then update["iteration"].n else 0
  }

  lemma UpdateCounts(s: State, update: State)
    requires Iteration(s) >= 0
    ensures Iteration(ApplyUpdate(s, update)) == if Claimed(update) > Iteration(s) then Claimed(update) else Iteration(s)
  {
    if "iteration" in update {
      UpdateReduces(s, update, "iteration");
    }
  }

  // ---- one channel over a fold ----

  lemma LastUpdate(s: State, updates: seq<State>)
    requires |updates| > 0
    ensures Folded(s, updates) == ApplyUpdate(Folded(s, updates[..|updates| - 1]), updates[|updates| - 1])
  {
  }

  lemma {:induction false} FoldUntouched(s: State, updates: seq<State>, key: string)
    requires forall j :: 0 <= j < |updates| ==> key !in updates[j]
    ensures Get(Folded(s, updates), key) == Get(s, key) && (key in Folded(s, updates) <==> key in s)
  {
    if |updates| > 0 {
      var front, last := updates[..|updates| - 1], updates[|updates| - 1];
      FoldUntouched(s, front, key);
      LastUpdate(s, updates);
      UpdateSkips(Folded(s, front), last, key);
    }
  }

  ghost predicate NotReplacedFrom(updates: seq<State>, j: nat, key: string) {
    forall k :: j <= k < |updates| ==> !Replaces(updates[k], key)
  }

  lemma {:induction false} FoldReplaced(s: State, updates: seq<State>, key: string, j: nat)
    requires key in REPLACED_CHANNELS && j < |updates|
    requires Replaces(updates[j], key) && NotReplacedFrom(updates, j + 1, key)
    ensures updates[j][key].List? ==> Get(Folded(s, updates), key) == updates[j][key]
    ensures Items(Get(Folded(s, updates), key)) == Items(updates[j][key])
  {
    var front, last := updates[..|updates| - 1], updates[|updates| - 1];
    if j < |updates| - 1 {
      FoldReplaced(s, front, key, j);
    }
    LastUpdate(s, updates);
    UpdateReplaces(Folded(s, front), last, key);
  }

  lemma {:induction false} FoldNotReplaced(s: State, updates: seq<State>, key: string)
    requires key in REPLACED_CHANNELS && NotReplacedFrom(updates, 0, key)
    ensures Items(Get(Folded(s, updates), key)) == Items(Get(s, key))
  {
    if |updates| > 0 {
      var front, last := updates[..|updates| - 1], updates[|updates| - 1];
      FoldNotReplaced(s, front, key);
      LastUpdate(s, updates);
      UpdateReplaces(Folded(s, front), last, key);
    }
  }

  // All that was returned for an accumulating channel, in order.
  function Additions(updates: seq<State>, key: string): seq<Value> {
    if |updates| == 0 then [] else Additions(updates[..|updates| - 1], key) + Addition(updates[|updates| - 1], key)
  }

  lemma {:induction false} FoldAppended(s: State, updates: seq<State>, key: string)
    requires key in APPENDED_CHANNELS
    ensures Items(Get(Folded(s, updates), key)) == Items(Get(s, key)) + Additions(updates, key)
  {
    if |updates| > 0 {
      var front, last := updates[..|updates| - 1], updates[|updates| - 1];
      FoldAppended(s, front, key);
      LastUpdate(s, updates);
      UpdateAppends(Folded(s, front), last, key);
      Regroup(Items(Get(s, key)), Additions(front, key), Addition(last, key));
    }
  }

  lemma Regroup<T>(a: seq<T>, b: seq<T>, c: seq<T>)
    ensures a + b + c == a + (b + c)
  {
  }

  ghost predicate NotSetFrom(updates: seq<State>, j: nat, key: string, entry: string) {
    forall k :: j <= k < |updates| ==> !SetsEntry(updates[k], key, entry)
  }

  lemma {:induction false} FoldMerged(s: State, updates: seq<State>, key: string, entry: string, j: nat)
    requires key in MERGED_CHANNELS && j < |updates|
    requires SetsEntry(updates[j], key, entry) && NotSetFrom(updates, j + 1, key, entry)
    ensures SetsEntry(Folded(s, updates), key, entry)
    ensures Entry(Folded(s, updates), key, entry) == updates[j][key].m[entry]
  {
    var front, last := updates[..|updates| - 1], updates[|updates| - 1];
    if j < |updates| - 1 {
      FoldMerged(s, front, key, entry, j);
    }
    LastUpdate(s, updates);
    UpdateMerges(Folded(s, front), last, key, entry);
  }

  lemma {:induction false} FoldNotMerged(s: State, updates: seq<State>, key: string, entry: string)
    requires key in MERGED_CHANNELS && NotSetFrom(updates, 0, key, entry)
    ensures SetsEntry(Folded(s, updates), key, entry) <==> SetsEntry(s, key, entry)
    ensures Entry(Folded(s, updates), key, entry) == Entry(s, key, entry)
  {
    if |updates| > 0 {
      var front, last := updates[..|updates| - 1], updates[|updates| - 1];
      FoldNotMerged(s, front, key, entry);
      LastUpdate(s, updates);
      UpdateMerges(Folded(s, front), last, key, entry);
    }
  }

  // The largest of the start and everything claimed.
  ghost predicate Largest(last: int, start: int, updates: seq<State>) {
    && start <= last && (forall j :: 0 <= j < |updates| ==> Claimed(updates[j]) <= last)
    && (last == start || exists j :: 0 <= j < |updates| && Claimed(updates[j]) == last)
  }

  lemma LargestNext(last: int, start: int, front: seq<State>, update: State)
    requires Largest(last, start, front)
    ensures Largest(if Claimed(update) > last then Claimed(update) else last, start, front + [update])
  {
    var updates := front + [update];
    assert updates[|front|] == update;
    assert forall j :: 0 <= j < |front| ==> updates[j] == front[j];
    if last != start {
      var j :| 0 <= j < |front| && Claimed(front[j]) == last;
      assert Claimed(updates[j]) == last;
    }
  }

  lemma {:induction false} FoldIteration(s: State, updates: seq<State>, end: State)
    requires Iteration(s) >= 0 && end == Folded(s, updates)
    ensures Largest(Iteration(end), Iteration(s), updates)
  {
    if |updates| > 0 {
      var front, last := updates[..|updates| - 1], updates[|updates| - 1];
      var before := Folded(s, front);
      LastUpdate(s, updates);
      FoldIteration(s, front, before);
      UpdateCounts(before, last);
      LargestNext(Iteration(before), Iteration(s), front, last);
      assert updates == front + [last];
    }
  }

  // ---- the channels of a finished run ----

  // A replaced channel holds the last list any agent returned for it.
  lemma ReplacedChannel(agents: Agents, s: State, r: Result, key: string, j: nat)
    requires RunOf(agents, s, r) && r.Finished? && j < |r.trace|
    requires key in {"metrics", "audience_observations", "bidding_decisions", "budget_allocations", "alerts",
                     "platform_checks"}
    requires Replaces(Returned(agents, r.trace, j), key) && Returned(agents, r.trace, j)[key].List?
    requires forall k :: j < k < |r.trace| ==> !Replaces(Returned(agents, r.trace, k), key)
    ensures key in r.state && r.state[key] == Returned(agents, r.trace, j)[key]
  {
    RunIsExplained(agents, s, r);
    FoldReplaced(s, AllReturned(agents, r.trace), key, j);
  }

  // One that no agent returned a list for holds what it held.
  lemma UnreplacedChannel(agents: Agents, s: State, r: Result, key: string)
    requires RunOf(agents, s, r) && r.Finished?
    requires key in {"metrics", "audience_observations", "bidding_decisions", "budget_allocations", "alerts",
                     "platform_checks"}
    requires forall k :: 0 <= k < |r.trace| ==> !Replaces(Returned(agents, r.trace, k), key)
    ensures Items(Get(r.state, key)) == Items(Get(s, key))
  {
    RunIsExplained(agents, s, r);
    FoldNotReplaced(s, AllReturned(agents, r.trace), key);
  }

  // An accumulating channel holds what it held and then all that was returned for it, in order.
  lemma AppendedChannel(agents: Agents, s: State, r: Result, key: string)
    requires RunOf(agents, s, r) && r.Finished?
    requires key in {"new_creatives", "optimization_actions", "critic_findings", "tool_preflights", "agent_messages"}
    ensures Items(Get(r.state, key)) == Items(Get(s, key)) + Additions(AllReturned(agents, r.trace), key)
  {
    RunIsExplained(agents, s, r);
    FoldAppended(s, AllReturned(agents, r.trace), key);
  }

  // An entry of a merged channel holds the last value returned for that entry.
  lemma MergedChannel(agents: Agents, s: State, r: Result, key: string, entry: string, j: nat)
    requires RunOf(agents, s, r) && r.Finished? && j < |r.trace|
    requires key in {"daily_budgets", "audience_insights", "health", "usage"}
    requires SetsEntry(Returned(agents, r.trace, j), key, entry)
    requires forall k :: j < k < |r.trace| ==> !SetsEntry(Returned(agents, r.trace, k), key, entry)
    ensures SetsEntry(r.state, key, entry) && r.state[key].m[entry] == Returned(agents, r.trace, j)[key].m[entry]
  {
    RunIsExplained(agents, s, r);
    FoldMerged(s, AllReturned(agents, r.trace), key, entry, j);
  }

  // One that no agent set is there if and only if it was, with the value it had.
  lemma UnmergedEntry(agents: Agents, s: State, r: Result, key: string, entry: string)
    requires RunOf(agents, s, r) && r.Finished?
    requires key in {"daily_budgets", "audience_insights", "health", "usage"}
    requires forall k :: 0 <= k < |r.trace| ==> !SetsEntry(Returned(agents, r.trace, k), key, entry)
    ensures SetsEntry(r.state, key, entry) <==> SetsEntry(s, key, entry)
    ensures SetsEntry(s, key, entry) ==> r.state[key].m[entry] == s[key].m[entry]
  {
    RunIsExplained(agents, s, r);
    FoldNotMerged(s, AllReturned(agents, r.trace), key, entry);
  }

  // The iteration is the largest of the start and all that was returned for it.
  lemma IterationOfRun(agents: Agents, s: State, r: Result)
    requires RunOf(agents, s, r) && r.Finished? && Iteration(s) >= 0
    ensures Largest(Iteration(r.state), Iteration(s), AllReturned(agents, r.trace))
  {
    RunIsExplained(agents, s, r);
    FoldIteration(s, AllReturned(agents, r.trace), r.state);
  }

  lemma PlainReduces(key: string, existing: Value, incoming: Value)
    requires key in {"run_id", "campaign_ids", "window_days", "max_iterations", "current_agent", "is_complete"}
    ensures Reduce(key, existing, incoming) == incoming
  {
  }

  lemma {:induction false} FoldPlain(s: State, updates: seq<State>, key: string, j: nat)
    requires key in {"run_id", "campaign_ids", "window_days", "max_iterations", "current_agent", "is_complete"}
    requires j < |updates| && key in updates[j] && forall k :: j < k < |updates| ==> key !in updates[k]
    ensures Get(Folded(s, updates), key) == updates[j][key]
  {
    var front, last := updates[..|updates| - 1], updates[|updates| - 1];
    LastUpdate(s, updates);
    if j < |updates| - 1 {
      FoldPlain(s, front, key, j);
      UpdateSkips(Folded(s, front), last, key);
    } else {
      UpdateReduces(Folded(s, front), last, key);
      PlainReduces(key, Get(Folded(s, front), key), last[key]);
    }
  }

  // Any other channel holds the last value returned for it.
  lemma PlainChannel(agents: Agents, s: State, r: Result, key: string, j: nat)
    requires RunOf(agents, s, r) && r.Finished? && j < |r.trace|
    requires key in {"run_id", "campaign_ids", "window_days", "max_iterations", "current_agent", "is_complete"}
    requires key in Returned(agents, r.trace, j)
    requires forall k :: j < k < |r.trace| ==> key !in Returned(agents, r.trace, k)
    ensures Get(r.state, key) == Returned(agents, r.trace, j)[key]
  {
    RunIsExplained(agents, s, r);
    FoldPlain(s, AllReturned(agents, r.trace), key, j);
  }

  // And a channel nobody wrote is as it was.
  lemma UntouchedChannel(agents: Agents, s: State, r: Result, key: string)
    requires RunOf(agents, s, r) && r.Finished?
    requires forall k :: 0 <= k < |r.trace| ==> key !in Returned(agents, r.trace, k)
    ensures (key in r.state <==> key in s) && Get(r.state, key) == Get(s, key)
  {
    RunIsExplained(agents, s, r);
    FoldUntouched(s, AllReturned(agents, r.trace), key);
  }

  // ---- the rounds of a run ----

  predicate Falsy(v: Value) { v in {None, Num(0), Flag(false), Text(""), List([]), Dict(map[])} }

  function Count(s: State): int { if "iteration" in s && s["iteration"].Num? then s["iteration"].n else 0 }

  function Cap(s: State): int {
    if "max_iterations" in s && s["max_iterations"].Num? && s["max_iterations"].n != 0 then s["max_iterations"].n else 3
  }

  // A round of six agents that ends like this is followed by another. The graph looks at the cap
  // itself; the sequential executor has counted its rounds beforehand.
  predicate GoesOn(s: State, capped: bool) {
    && (if "is_complete" in s then Falsy(s["is_complete"]) else true)
    && "alerts" in s && !Falsy(s["alerts"]) && (capped ==> Count(s) < Cap(s))
  }

  lemma GoesOnIff(s: State)
    ensures GoesOn(s, true) <==> !EndAfterCritic(s)
    ensures GoesOn(s, false) <==> !Complete(s) && HasAlerts(s)
    ensures MaxIterations(s) == Cap(s) && Iteration(s) == Count(s)
  {
    FalsyIff(Get(s, "is_complete"));
    FalsyIff(Get(s, "alerts"));
  }

  lemma FalsyIff(v: Value)
    ensures Falsy(v) <==> !Truthy(v)
  {
  }

  function AgentAt(j: nat): Node {
    match j % 6
    case 0 => Monitor
    case 1 => Audience
    case 2 => Creative
    case 3 => Bidding
    case 4 => Optimize
    case 5 => Critic
  }

  // Six agents a round, always in the same order, each round but the first after one that goes on.
  ghost predicate InRounds(trace: Trace, capped: bool) {
    forall j :: 0 <= j < |trace| ==>
      trace[j].0 == AgentAt(j) && (j > 0 && j % 6 == 0 ==> GoesOn(trace[j].1, capped))
  }

  lemma NextAgent(j: nat)
    ensures AgentAt(j) != Critic ==> AgentAt(j + 1) == AgentAt(j).Next() && (j + 1) % 6 != 0
    ensures AgentAt(j) == Critic <==> (j + 1) % 6 == 0
    ensures AgentAt(j) == Critic ==> AgentAt(j + 1) == Monitor
    ensures AgentAt(j).After() == 5 - j % 6
  {
  }

  // The state is one a round may start from, if it is the turn of one.
  ghost predicate Enters(t: State, n: nat, capped: bool) { n > 0 && n % 6 == 0 ==> GoesOn(t, capped) }

  lemma EntersNext(next: State, n: nat)
    requires !(AgentAt(n) == Critic && EndAfterCritic(next))
    ensures Enters(next, n + 1, true)
    ensures AgentAt(n + 1) == if AgentAt(n) == Critic then Monitor else AgentAt(n).Next()
  {
    NextAgent(n);
    GoesOnIff(next);
  }

  lemma InRoundsNext(trace: Trace, t: State, capped: bool)
    requires InRounds(trace, capped) && Enters(t, |trace|, capped)
    ensures InRounds(trace + [(AgentAt(|trace|), t)], capped)
  {
    var done := trace + [(AgentAt(|trace|), t)];
    assert forall j :: 0 <= j < |trace| ==> done[j] == trace[j];
  }

  ghost predicate GraphShape(r: Result, limit: int, started: bool) {
    && InRounds(r.trace, true)
    && (r.Finished? ==> |r.trace| % 6 == 0 && |r.trace| > 0 && !GoesOn(r.state, true))
    && (r.RecursionLimit? && started ==> |r.trace| == limit)
  }

  lemma GraphStopsInRounds(agents: Agents, t: State, limit: int, trace: Trace)
    requires InRounds(trace, true) && Enters(t, |trace|, true)
    requires !(|trace| < limit && Proceeds(agents, AgentAt(|trace|), t, |trace|))
    ensures GraphShape(GraphFrom(agents, AgentAt(|trace|), t, |trace|, limit, trace), limit, |trace| <= limit)
  {
    InRoundsNext(trace, t, true);
  }

  lemma GraphEndsInRounds(next: State, done: Trace, limit: int)
    requires InRounds(done, true) && |done| > 0 && AgentAt(|done| - 1) == Critic && EndAfterCritic(next)
    ensures GraphShape(Finished(next, done), limit, true)
  {
    NextAgent(|done| - 1);
    GoesOnIff(next);
  }

  lemma {:induction false} GraphInRounds(agents: Agents, t: State, limit: int, trace: Trace)
    requires InRounds(trace, true) && Enters(t, |trace|, true)
    ensures GraphShape(GraphFrom(agents, AgentAt(|trace|), t, |trace|, limit, trace), limit, |trace| <= limit)
    decreases limit - |trace|
  {
    var node := AgentAt(|trace|);
    if |trace| < limit && Proceeds(agents, node, t, |trace|) {
      var done := trace + [(node, t)];
      InRoundsNext(trace, t, true);
      var next := GraphOnwards(agents, node, t, limit, trace);
      if node == Critic && EndAfterCritic(next) {
        GraphEndsInRounds(next, done, limit);
      } else {
        EntersNext(next, |trace|);
        GraphInRounds(agents, next, limit, done);
      }
    } else {
      GraphStopsInRounds(agents, t, limit, trace);
    }
  }

  // The graph runs its agents round after round, goes on exactly while the run is not complete,
  // the cap is not reached and there are alerts, and gives up only after six agents per allowed
  // iteration and eight more.
  lemma GraphRounds(agents: Agents, s: State)
    ensures var r := GraphFrom(agents, Monitor, s, 0, Limit(s), []);
      && InRounds(r.trace, true)
      && (r.Finished? ==> |r.trace| % 6 == 0 && |r.trace| > 0 && !GoesOn(r.state, true))
      && (r.RecursionLimit? && Cap(s) >= 0 ==> |r.trace| == 6 * Cap(s) + 8)
  {
    GraphInRounds(agents, s, Limit(s), []);
    GoesOnIff(s);
  }

  ghost predicate RoundShape(round: Round, length: nat) {
    match round
    case Done(_, trace) => InRounds(trace, false) && |trace| == length
    case Stopped(result) => InRounds(result.trace, false) && !result.Finished? && !result.RecursionLimit?
  }

  lemma RoundStopsInRounds(agents: Agents, t: State, trace: Trace)
    requires InRounds(trace, false) && Enters(t, |trace|, false)
    requires AgentAt(|trace|) == Critic || !Proceeds(agents, AgentAt(|trace|), t, |trace|)
    ensures RoundShape(RoundFrom(agents, AgentAt(|trace|), t, |trace|, trace), |trace| + 1)
  {
    InRoundsNext(trace, t, false);
  }

  lemma {:induction false} RoundInRounds(agents: Agents, t: State, trace: Trace)
    requires InRounds(trace, false) && Enters(t, |trace|, false)
    ensures RoundShape(RoundFrom(agents, AgentAt(|trace|), t, |trace|, trace), |trace| + AgentAt(|trace|).After() + 1)
    decreases AgentAt(|trace|).After()
  {
    var node := AgentAt(|trace|);
    NextAgent(|trace|);
    if node != Critic && Proceeds(agents, node, t, |trace|) {
      var next, done := ApplyUpdate(t, agents.execute(node, |trace|, t).update), trace + [(node, t)];
      InRoundsNext(trace, t, false);
      RoundInRounds(agents, next, done);
      RoundNext(agents, node, t, trace);
    } else {
      RoundStopsInRounds(agents, t, trace);
    }
  }

  // A whole round, from where one may start.
  lemma RoundAtBoundary(agents: Agents, t: State, trace: Trace)
    requires InRounds(trace, false) && |trace| % 6 == 0 && (|trace| > 0 ==> GoesOn(t, false))
    ensures RoundShape(RoundFrom(agents, Monitor, t, |trace|, trace), |trace| + 6)
    ensures (|trace| + 6) % 6 == 0
  {
    assert AgentAt(|trace|) == Monitor;
    RoundInRounds(agents, t, trace);
  }

  ghost predicate RoundsShape(r: Result, before: nat, rounds: int) {
    && InRounds(r.trace, false) && !r.RecursionLimit?
    && (r.Finished? && rounds > 0 ==> |r.trace| == before + 6 * rounds || !GoesOn(r.state, false))
  }

  lemma OneMoreRound(r: Result, before: nat, rounds: int)
    requires RoundsShape(r, before + 6, rounds) && rounds > 0
    ensures RoundsShape(r, before, rounds + 1)
  {
  }

  lemma LastRound(agents: Agents, t: State, step: nat, trace: Trace)
    requires InRounds(trace, false)
    ensures RoundsFrom(agents, t, step, 0, trace) == Finished(t, trace)
  {
  }

  lemma {:induction false} RoundsInRounds(agents: Agents, t: State, rounds: int, trace: Trace)
    requires InRounds(trace, false) && |trace| % 6 == 0 && (|trace| > 0 ==> GoesOn(t, false))
    ensures RoundsShape(RoundsFrom(agents, t, |trace|, rounds, trace), |trace|, rounds)
    decreases rounds
  {
    if rounds > 0 {
      RoundAtBoundary(agents, t, trace);
      var round := RoundFrom(agents, Monitor, t, |trace|, trace);
      if round.Done? {
        GoesOnIff(round.state);
        if GoesOn(round.state, false) {
          RoundsInRounds(agents, round.state, rounds - 1, round.trace);
          if rounds > 1 {
            OneMoreRound(RoundsFrom(agents, round.state, |round.trace|, rounds - 1, round.trace), |trace|, rounds - 1);
          } else {
            LastRound(agents, round.state, |round.trace|, round.trace);
          }
        }
      }
    }
  }

  // The sequential executor runs the same rounds, and goes on exactly while the run is not complete
  // and there are alerts, for as many rounds as the cap allows at the start.
  lemma SequentialRounds(agents: Agents, s: State)
    ensures var r := RoundsFrom(agents, s, 0, MaxIterations(s), []);
      && InRounds(r.trace, false) && !r.RecursionLimit?
      && (r.Finished? && Cap(s) > 0 ==> |r.trace| == 6 * Cap(s) || !GoesOn(r.state, false))
      && (Cap(s) <= 0 ==> r == Finished(s, []))
  {
    RoundsInRounds(agents, s, MaxIterations(s), []);
    GoesOnIff(s);
  }

  // ---- when a well-behaved round completes the run ----

  lemma OptimizerCompletes(agents: Agents, s: State, step: nat)
    requires WellBehaved(agents) && agents.execute(Optimize, step, s).Ok?
    ensures var update := agents.execute(Optimize, step, s).update;
      Complete(ApplyUpdate(s, update)) <==>
        || Count(s) + 1 >= Cap(s)
        || "alerts" !in s || Falsy(s["alerts"])
        || "optimization_actions" !in update || Items(update["optimization_actions"]) == []
  {
    var update := agents.execute(Optimize, step, s).update;
    UpdateReduces(s, update, "is_complete");
    PlainReduces("is_complete", Get(s, "is_complete"), update["is_complete"]);
    GoesOnIff(s);
    FalsyIff(Get(s, "alerts"));
  }

  lemma NextInRound(agents: Agents, node: Node, s: State, step: nat, trace: Trace) returns (next: State)
    requires node != Critic && RoundFrom(agents, node, s, step, trace).Done?
    ensures RoundFrom(agents, node, s, step, trace)
         == RoundFrom(agents, node.Next(), next, step + 1, trace + [(node, s)])
    ensures agents.execute(node, step, s).Ok? && next == ApplyUpdate(s, agents.execute(node, step, s).update)
  {
    next := ApplyUpdate(s, agents.execute(node, step, s).update);
  }

  lemma Onwards(agents: Agents, node: Node, s: State, step: nat, trace: Trace) returns (next: State)
    requires node != Critic && RoundFrom(agents, node, s, step, trace).Done?
    ensures RoundFrom(agents, node, s, step, trace)
         == RoundFrom(agents, node.Next(), next, step + 1, trace + [(node, s)])
  {
    next := NextInRound(agents, node, s, step, trace);
  }

  lemma LastInRound(agents: Agents, s: State, step: nat, trace: Trace)
    requires RoundFrom(agents, Critic, s, step, trace).Done?
    ensures agents.execute(Critic, step, s).Ok?
    ensures RoundFrom(agents, Critic, s, step, trace)
         == Done(ApplyUpdate(s, agents.execute(Critic, step, s).update), trace + [(Critic, s)])
  {
  }

  // The round went through the optimizer at this state, and is complete if that left it complete.
  ghost predicate ThroughOptimizer(agents: Agents, r: Round, at: nat, seen: State) {
    && r.Done? && |r.trace| >= 2 && r.trace[|r.trace| - 2] == (Optimize, seen) && agents.execute(Optimize, at, seen).Ok?
    && (Complete(r.state) <==> Complete(ApplyUpdate(seen, agents.execute(Optimize, at, seen).update)))
  }

  lemma CriticKeepsComplete(agents: Agents, next: State, step: nat)
    requires WellBehaved(agents) && agents.execute(Critic, step, next).Ok?
    ensures Complete(ApplyUpdate(next, agents.execute(Critic, step, next).update)) <==> Complete(next)
  {
    OthersKeepControl(agents, Critic, next, step);
  }

  lemma RoundFromOptimizer(agents: Agents, r: Round, s: State, step: nat, trace: Trace)
    requires WellBehaved(agents)
    requires r == RoundFrom(agents, Optimize, s, step, trace) && r.Done?
    ensures ThroughOptimizer(agents, r, step, s)
  {
    var next := NextInRound(agents, Optimize, s, step, trace);
    LastInRound(agents, next, step + 1, trace + [(Optimize, s)]);
    CriticKeepsComplete(agents, next, step + 1);
  }

  lemma TwoOnwards(agents: Agents, node: Node, s: State, step: nat, trace: Trace) returns (later: State, done: Trace)
    requires node in {Monitor, Audience, Creative, Bidding} && RoundFrom(agents, node, s, step, trace).Done?
    ensures RoundFrom(agents, node, s, step, trace)
         == RoundFrom(agents, node.Next().Next(), later, step + 2, done)
  {
    var next := Onwards(agents, node, s, step, trace);
    later := Onwards(agents, node.Next(), next, step + 1, trace + [(node, s)]);
    done := trace + [(node, s)] + [(node.Next(), next)];
  }

  // A round completes the run exactly when the optimizer saw its last allowed iteration or no
  // alerts, or proposed nothing.
  lemma RoundCompletes(agents: Agents, s: State, step: nat, trace: Trace) returns (seen: State, update: State)
    requires WellBehaved(agents) && RoundFrom(agents, Monitor, s, step, trace).Done?
    ensures var r := RoundFrom(agents, Monitor, s, step, trace);
      && |r.trace| >= 2 && r.trace[|r.trace| - 2] == (Optimize, seen)
      && agents.execute(Optimize, step + 4, seen) == Ok(update)
      && (Complete(r.state) <==>
            || Count(seen) + 1 >= Cap(seen)
            || "alerts" !in seen || Falsy(seen["alerts"])
            || "optimization_actions" !in update || Items(update["optimization_actions"]) == [])
  {
    var t, done := TwoOnwards(agents, Monitor, s, step, trace);
    seen, done := TwoOnwards(agents, Creative, t, step + 2, done);
    RoundFromOptimizer(agents, RoundFrom(agents, Monitor, s, step, trace), seen, step + 4, done);
    update := agents.execute(Optimize, step + 4, seen).update;
    OptimizerCompletes(agents, seen, step + 4);
  }
}
