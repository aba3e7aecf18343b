/**
 * The supervisor loop: the node graph and the sequential executor, and why they agree.
 *
 * An agent is any function of the step it runs at and the state it sees, so effects outside
 * the state (models, databases, the clock) are covered by the step.
 */
module Supervisor {

  datatype Value =
    | None
    | Num(n: int)
    | Flag(b: bool)
    | Text(t: string)
    | List(xs: seq<Value>)
    | Dict(m: map<string, Value>)

  type State = map<string, Value>

  predicate Truthy(v: Value) {
    match v
    case None => false
    case Num(n) => n != 0
    case Flag(b) => b
    case Text(t) => t != ""
    case List(xs) => xs != []
    case Dict(m) => m != map[]
  }

  function Get(s: State, key: string): Value { if key in s then s[key] else None }

  // int(state.get(key, fallback) or fallback) for the numeric channels.
  function IntOr(v: Value, fallback: int): int {
    if v.Num? && v.n != 0 then v.n else fallback
  }

  function Items(v: Value): seq<Value> { if v.List? then v.xs else [] }
  function Entries(v: Value): map<string, Value> { if v.Dict? then v.m else map[] }

  function Iteration(s: State): int { IntOr(Get(s, "iteration"), 0) }
  function MaxIterations(s: State): int { IntOr(Get(s, "max_iterations"), 3) }
  predicate Complete(s: State) { Truthy(Get(s, "is_complete")) }
  predicate HasAlerts(s: State) { Truthy(Get(s, "alerts")) }

  // ---- reducers ----

  const REPLACED: set<string> := {"metrics", "audience_observations", "bidding_decisions", "budget_allocations",
                                  "alerts", "platform_checks"}
  const APPENDED: set<string> := {"new_creatives", "optimization_actions", "critic_findings", "tool_preflights",
                                  "agent_messages"}
  const MERGED: set<string> := {"daily_budgets", "audience_insights", "health", "usage"}

  function Max(a: int, b: int): int { if a < b then b else a }

  function Reduce(key: string, existing: Value, incoming: Value): Value {
    if key in REPLACED then (if incoming.None? then List(Items(existing)) else incoming)
    else if key in APPENDED then List(Items(existing) + Items(incoming))
    else if key in MERGED then Dict(Entries(existing) + Entries(incoming))
    else if key == "iteration" then Num(Max(IntOr(existing, 0), IntOr(incoming, 0)))
    else incoming
  }

  function ApplyUpdate(s: State, update: State): State {
    s + map key | key in update :: Reduce(key, Get(s, key), update[key])
  }

  // ---- agents ----

  datatype Outcome = Ok(update: State) | Raised(error: string)

  datatype Node = Monitor | Audience | Creative | Bidding | Optimize | Critic {
    function Next(): Node
      requires this != Critic
    {
      match this
      case Monitor => Audience
      case Audience => Creative
      case Creative => Bidding
      case Bidding => Optimize
      case Optimize => Critic
    }

    // How many agents of a round run after this one.
    function After(): nat {
      match this
      case Monitor => 5
      case Audience => 4
      case Creative => 3
      case Bidding => 2
      case Optimize => 1
      case Critic => 0
    }
  }

  const ORDERED_AGENTS: seq<Node> := [Monitor, Audience, Creative, Bidding, Optimize, Critic]

  datatype Agents = Agents(execute: (Node, nat, State) -> Outcome, cancelled: nat -> bool)

  predicate ShouldComplete(iteration: int, s: State, actions: seq<Value>) {
    iteration >= MaxIterations(s) || !HasAlerts(s) || actions == []
  }

  const CONTROL: set<string> := {"iteration", "is_complete", "max_iterations"}

  // Only the optimizer writes the control channels: it bumps the iteration and completes by the rule.
  ghost predicate WellBehaved(agents: Agents) {
    && (forall node, step, s :: node != Optimize && agents.execute(node, step, s).Ok? ==>
          agents.execute(node, step, s).update.Keys !! CONTROL)
    && (forall step, s :: agents.execute(Optimize, step, s).Ok? ==>
          var update := agents.execute(Optimize, step, s).update;
          && "max_iterations" !in update && "iteration" in update && "is_complete" in update
          && update["iteration"] == Num(Iteration(s) + 1)
          && update["is_complete"] == Flag(ShouldComplete(Iteration(s) + 1, s, Items(Get(update, "optimization_actions")))))
  }

  // ---- results; the trace lists every agent run with the state it saw ----

  type Trace = seq<(Node, State)>

  datatype Result =
    | Finished(state: State, trace: Trace)
    | Failed(error: string, trace: Trace)
    | Cancelled(trace: Trace)
    | RecursionLimit(trace: Trace)

  predicate EndAfterCritic(s: State) {
    Complete(s) || Iteration(s) >= MaxIterations(s) || !HasAlerts(s)
  }

  // The compiled graph: one node per step until the conditional edge ends it or the limit is hit.
  function GraphFrom(agents: Agents, node: Node, s: State, step: nat, limit: int, trace: Trace): Result
    decreases limit - step
  {
    if step >= limit then RecursionLimit(trace)
    else if agents.cancelled(step) then Cancelled(trace)
    else
      match agents.execute(node, step, s)
      case Raised(e) => Failed(e, trace + [(node, s)])
      case Ok(update) =>
        var next := ApplyUpdate(s, update);
        var done := trace + [(node, s)];
        if node != Critic then GraphFrom(agents, node.Next(), next, step + 1, limit, done)
        else if EndAfterCritic(next) then Finished(next, done)
        else GraphFrom(agents, Monitor, next, step + 1, limit, done)
  }

  function Limit(s: State): int { 6 * MaxIterations(s) + 8 }

  method InvokeGraph(agents: Agents, state: State) returns (r: Result)
    ensures r == GraphFrom(agents, Monitor, state, 0, Limit(state), [])
  {
    var current, node, step, trace := state, Monitor, 0, [];
    while step < Limit(state)
      invariant 0 <= step
      invariant GraphFrom(agents, node, current, step, Limit(state), trace)
             == GraphFrom(agents, Monitor, state, 0, Limit(state), [])
    {
      if agents.cancelled(step) {
        return Cancelled(trace);
      }
      var outcome := agents.execute(node, step, current);
      trace := trace + [(node, current)];
      if outcome.Raised? {
        return Failed(outcome.error, trace);
      }
      current := ApplyUpdate(current, outcome.update);
      step := step + 1;
      if node == Critic {
        if EndAfterCritic(current) {
          return Finished(current, trace);
        }
        node := Monitor;
      } else {
        node := node.Next();
      }
    }
    r := RecursionLimit(trace);
  }

  // ---- the sequential executor ----

  datatype Round = Done(state: State, trace: Trace) | Stopped(result: Result)

  function RoundFrom(agents: Agents, node: Node, s: State, step: nat, trace: Trace): Round
    decreases node.After(), step
  {
    if agents.cancelled(step) then Stopped(Cancelled(trace))
    else
      match agents.execute(node, step, s)
      case Raised(e) => Stopped(Failed(e, trace + [(node, s)]))
      case Ok(update) =>
        var next := ApplyUpdate(s, update);
        var done := trace + [(node, s)];
        if node == Critic then Done(next, done)
        else RoundFrom(agents, node.Next(), next, step + 1, done)
  }

  function RoundsFrom(agents: Agents, s: State, step: nat, rounds: int, trace: Trace): Result
    decreases rounds
  {
    if rounds <= 0 then Finished(s, trace)
    else
      match RoundFrom(agents, Monitor, s, step, trace)
      case Stopped(result) => result
      case Done(next, done) =>
        if Complete(next) || !HasAlerts(next) then Finished(next, done)
        else RoundsFrom(agents, next, step + 6, rounds - 1, done)
  }

  // The inner loop: every agent once, in order.
  method RunAgents(agents: Agents, state: State, start: nat, seen: Trace) returns (round: Round)
    ensures round == RoundFrom(agents, Monitor, state, start, seen)
  {
    var current, trace := state, seen;
    var n := 0;
    while n < 6
      invariant 0 <= n <= 6
      invariant if n < 6
                then RoundFrom(agents, ORDERED_AGENTS[n], current, start + n, trace)
                  == RoundFrom(agents, Monitor, state, start, seen)
                else RoundFrom(agents, Monitor, state, start, seen) == Done(current, trace)
    {
      if agents.cancelled(start + n) {
        return Stopped(Cancelled(trace));
      }
      var node := ORDERED_AGENTS[n];
      var outcome := agents.execute(node, start + n, current);
      trace := trace + [(node, current)];
      if outcome.Raised? {
        return Stopped(Failed(outcome.error, trace));
      }
      current := ApplyUpdate(current, outcome.update);
      n := n + 1;
    }
    round := Done(current, trace);
  }

  method InvokeSequential(agents: Agents, state: State) returns (r: Result)
    ensures r == RoundsFrom(agents, state, 0, MaxIterations(state), [])
  {
    var current, step: nat, trace := state, 0, [];
    var rounds := MaxIterations(state);
    ghost var whole := RoundsFrom(agents, state, 0, rounds, []);
    while rounds > 0
      invariant RoundsFrom(agents, current, step, rounds, trace) == whole
    {
      var round := RunAgents(agents, current, step, trace);
      if round.Stopped? {
        return round.result;
      }
      current, trace := round.state, round.trace;
      if Complete(current) || !HasAlerts(current) {
        return Finished(current, trace);
      }
      step, rounds := step + 6, rounds - 1;
    }
    r := Finished(current, trace);
  }

  // ---- agreement ----

  function AfterRound(agents: Agents, round: Round, step: nat, limit: int): Result {
    match round
    case Stopped(result) => result
    case Done(next, done) =>
      if EndAfterCritic(next) then Finished(next, done)
      else GraphFrom(agents, Monitor, next, step, limit, done)
  }

  predicate Proceeds(agents: Agents, node: Node, s: State, step: nat) {
    !agents.cancelled(step) && agents.execute(node, step, s).Ok?
  }

  // Up to the critic both executors move to the next agent with the same state.
  lemma BothMoveOn(agents: Agents, node: Node, s: State, step: nat, limit: int, trace: Trace)
    requires step < limit && node != Critic && Proceeds(agents, node, s, step)
    ensures var next := ApplyUpdate(s, agents.execute(node, step, s).update);
      var done := trace + [(node, s)];
      && GraphFrom(agents, node, s, step, limit, trace) == GraphFrom(agents, node.Next(), next, step + 1, limit, done)
      && RoundFrom(agents, node, s, step, trace) == RoundFrom(agents, node.Next(), next, step + 1, done)
  {
  }

  // At the critic, a cancellation or a failure the round is over for both.
  lemma RoundOver(agents: Agents, node: Node, s: State, step: nat, limit: int, trace: Trace)
    requires step < limit && (node == Critic || !Proceeds(agents, node, s, step))
    ensures GraphFrom(agents, node, s, step, limit, trace)
         == AfterRound(agents, RoundFrom(agents, node, s, step, trace), step + 1, limit)
  {
  }

  // A whole round of the graph is a round of the sequential executor followed by the edge.
  lemma {:induction false} GraphRound(agents: Agents, node: Node, s: State, step: nat, limit: int, trace: Trace)
    returns (next: nat)
    requires step + node.After() < limit
    ensures GraphFrom(agents, node, s, step, limit, trace)
         == AfterRound(agents, RoundFrom(agents, node, s, step, trace), next, limit)
    ensures RoundFrom(agents, node, s, step, trace).Done? ==> next == step + node.After() + 1
    decreases node.After()
  {
    if node != Critic && Proceeds(agents, node, s, step) {
      BothMoveOn(agents, node, s, step, limit, trace);
      next := GraphRound(agents, node.Next(), ApplyUpdate(s, agents.execute(node, step, s).update), step + 1, limit,
                         trace + [(node, s)]);
    } else {
      RoundOver(agents, node, s, step, limit, trace);
      next := step + 1;
    }
  }

  predicate SameControl(s: State, t: State) {
    && Get(t, "max_iterations") == Get(s, "max_iterations")
    && Get(t, "iteration") == Get(s, "iteration") && Get(t, "is_complete") == Get(s, "is_complete")
  }

  lemma OthersKeepControl(agents: Agents, node: Node, s: State, step: nat)
    requires WellBehaved(agents) && node != Optimize && agents.execute(node, step, s).Ok?
    ensures SameControl(s, ApplyUpdate(s, agents.execute(node, step, s).update))
  {
    var update := agents.execute(node, step, s).update;
    assert "max_iterations" in CONTROL && "iteration" in CONTROL && "is_complete" in CONTROL;
  }

  lemma OptimizeSetsControl(agents: Agents, s: State, step: nat)
    requires WellBehaved(agents) && agents.execute(Optimize, step, s).Ok? && Iteration(s) >= 0
    ensures var next := ApplyUpdate(s, agents.execute(Optimize, step, s).update);
      && MaxIterations(next) == MaxIterations(s)
      && Iteration(next) == Iteration(s) + 1
      && (Iteration(s) + 1 >= MaxIterations(s) ==> Complete(next))
  {
    var update := agents.execute(Optimize, step, s).update;
    var next := ApplyUpdate(s, update);
    assert next["iteration"] == Reduce("iteration", Get(s, "iteration"), update["iteration"]);
    assert next["is_complete"] == Reduce("is_complete", Get(s, "is_complete"), update["is_complete"]);
  }

  // What a well-behaved round does to the control channels: the cap is kept, the iteration goes
  // up by one, and reaching the cap completes the run.
  lemma {:induction false} RoundControl(agents: Agents, node: Node, s: State, step: nat, trace: Trace)
    requires WellBehaved(agents) && node != Critic
    requires RoundFrom(agents, node, s, step, trace).Done? && Iteration(s) >= 0
    ensures var r := RoundFrom(agents, node, s, step, trace);
      && MaxIterations(r.state) == MaxIterations(s)
      && Iteration(r.state) == Iteration(s) + 1
      && (Iteration(s) + 1 >= MaxIterations(s) ==> Complete(r.state))
      && |r.trace| == |trace| + node.After() + 1
    decreases node.After()
  {
    var next := ApplyUpdate(s, agents.execute(node, step, s).update);
    if node == Optimize {
      OptimizeSetsControl(agents, s, step);
      OthersKeepControl(agents, Critic, next, step + 1);
    } else {
      OthersKeepControl(agents, node, s, step);
      RoundControl(agents, node.Next(), next, step + 1, trace + [(node, s)]);
    }
  }

  lemma {:induction false} RoundsAgree(agents: Agents, s: State, step: nat, rounds: int, limit: int, trace: Trace)
    requires WellBehaved(agents) && rounds >= 1 && limit >= step + 6 * rounds
    requires Iteration(s) >= 0 && Iteration(s) + rounds >= MaxIterations(s)
    ensures GraphFrom(agents, Monitor, s, step, limit, trace) == RoundsFrom(agents, s, step, rounds, trace)
    decreases rounds
  {
    var after := GraphRound(agents, Monitor, s, step, limit, trace);
    match RoundFrom(agents, Monitor, s, step, trace)
    case Stopped(result) =>
    case Done(next, done) =>
      RoundControl(agents, Monitor, s, step, trace);
      if !EndAfterCritic(next) {
        RoundsAgree(agents, next, step + 6, rounds - 1, limit, done);
      }
  }

  // The two executors run the same agents on the same states and end the same way, failures and
  // cancellations included, whenever the cap is at least one.
  lemma ExecutorsAgree(agents: Agents, s: State)
    requires WellBehaved(agents) && Iteration(s) >= 0 && MaxIterations(s) >= 1
    ensures GraphFrom(agents, Monitor, s, 0, Limit(s), []) == RoundsFrom(agents, s, 0, MaxIterations(s), [])
  {
    RoundsAgree(agents, s, 0, MaxIterations(s), Limit(s), []);
  }

  // A cap below one, which a state can only hold as a negative number, always separates them:
  // the sequential executor runs nothing and the graph stops at its limit or earlier, unfinished.
  lemma NegativeCapSeparates(agents: Agents, s: State)
    requires MaxIterations(s) < 1
    ensures RoundsFrom(agents, s, 0, MaxIterations(s), []) == Finished(s, [])
    ensures !GraphFrom(agents, Monitor, s, 0, Limit(s), []).Finished?
  {
    assert MaxIterations(s) <= -1;
    var r := GraphFrom(agents, Monitor, s, 0, Limit(s), []);
    if Limit(s) == 2 && !agents.cancelled(0) && agents.execute(Monitor, 0, s).Ok? {
      var s1 := ApplyUpdate(s, agents.execute(Monitor, 0, s).update);
      assert r == GraphFrom(agents, Audience, s1, 1, 2, [] + [(Monitor, s)]);
    }
  }

  lemma CapDecidesAgreement(agents: Agents, s: State)
    requires WellBehaved(agents) && Iteration(s) >= 0
    ensures GraphFrom(agents, Monitor, s, 0, Limit(s), []) == RoundsFrom(agents, s, 0, MaxIterations(s), [])
            <==> MaxIterations(s) >= 1
  {
    if MaxIterations(s) >= 1 {
      ExecutorsAgree(agents, s);
    } else {
      NegativeCapSeparates(agents, s);
    }
  }

  // A run never takes more than six agents per allowed iteration, so it stays eight steps clear of
  // the recursion limit, and a finished run reports as many iterations as it took rounds.
  lemma RunIsBounded(agents: Agents, s: State)
    requires WellBehaved(agents) && Iteration(s) >= 0 && MaxIterations(s) >= 1
    ensures var r := GraphFrom(agents, Monitor, s, 0, Limit(s), []);
      && !r.RecursionLimit?
      && |r.trace| <= 6 * MaxIterations(s)
      && (r.Finished? ==> |r.trace| == 6 * (Iteration(r.state) - Iteration(s)))
  {
    ExecutorsAgree(agents, s);
    RoundsBounded(agents, s, 0, MaxIterations(s), []);
  }

  lemma {:induction false} StoppedRound(agents: Agents, node: Node, s: State, step: nat, trace: Trace)
    requires RoundFrom(agents, node, s, step, trace).Stopped?
    ensures var r := RoundFrom(agents, node, s, step, trace).result;
      (r.Failed? || r.Cancelled?) && |r.trace| <= |trace| + node.After() + 1
    decreases node.After()
  {
    if !agents.cancelled(step) && node != Critic && agents.execute(node, step, s).Ok? {
      StoppedRound(agents, node.Next(), ApplyUpdate(s, agents.execute(node, step, s).update), step + 1, trace + [(node, s)]);
    }
  }

  lemma {:induction false} RoundsBounded(agents: Agents, s: State, step: nat, rounds: int, trace: Trace)
    requires WellBehaved(agents) && Iteration(s) >= 0 && rounds >= 0
    ensures var r := RoundsFrom(agents, s, step, rounds, trace);
      && !r.RecursionLimit?
      && |r.trace| <= |trace| + 6 * rounds
      && (r.Finished? ==> |r.trace| == |trace| + 6 * (Iteration(r.state) - Iteration(s)))
    decreases rounds
  {
    if rounds > 0 {
      match RoundFrom(agents, Monitor, s, step, trace)
      case Stopped(result) => StoppedRound(agents, Monitor, s, step, trace);
      case Done(next, done) =>
        RoundControl(agents, Monitor, s, step, trace);
        if !Complete(next) && HasAlerts(next) {
          RoundsBounded(agents, next, step + 6, rounds - 1, done);
        }
    }
  }

  // ---- no agent can rewrite history ----

  ghost predicate Extends(s: State, t: State) {
    && (forall key :: key in APPENDED ==> Items(Get(s, key)) <= Items(Get(t, key)))
    && Iteration(s) <= Iteration(t)
  }

  lemma AppendedGrows(s: State, update: State, key: string)
    requires key in APPENDED
    ensures Items(Get(s, key)) <= Items(Get(ApplyUpdate(s, update), key))
  {
    if key in update {
      assert ApplyUpdate(s, update)[key] == Reduce(key, Get(s, key), update[key]);
    }
  }

  lemma IterationGrows(s: State, update: State)
    requires Iteration(s) >= 0
    ensures Iteration(ApplyUpdate(s, update)) >= Iteration(s)
  {
    if "iteration" in update {
      assert ApplyUpdate(s, update)["iteration"] == Reduce("iteration", Get(s, "iteration"), update["iteration"]);
    }
  }

  lemma UpdateExtends(s: State, update: State)
    requires Iteration(s) >= 0
    ensures Extends(s, ApplyUpdate(s, update)) && Iteration(ApplyUpdate(s, update)) >= 0
  {
    forall key | key in APPENDED ensures Items(Get(s, key)) <= Items(Get(ApplyUpdate(s, update), key)) {
      AppendedGrows(s, update, key);
    }
    IterationGrows(s, update);
  }

  lemma {:induction false} RoundExtends(agents: Agents, node: Node, s: State, step: nat, trace: Trace)
    requires RoundFrom(agents, node, s, step, trace).Done? && Iteration(s) >= 0
    ensures var t := RoundFrom(agents, node, s, step, trace).state; Extends(s, t) && Iteration(t) >= 0
    decreases node.After()
  {
    var next := ApplyUpdate(s, agents.execute(node, step, s).update);
    UpdateExtends(s, agents.execute(node, step, s).update);
    if node != Critic {
      RoundExtends(agents, node.Next(), next, step + 1, trace + [(node, s)]);
    }
  }

  // Whatever the agents return, well-behaved or not, a run keeps everything the accumulating
  // channels ever held, in order, and never rewinds the iteration.
  lemma {:induction false} HistoryIsKept(agents: Agents, s: State, step: nat, rounds: int, trace: Trace)
    requires Iteration(s) >= 0
    requires RoundsFrom(agents, s, step, rounds, trace).Finished?
    ensures Extends(s, RoundsFrom(agents, s, step, rounds, trace).state)
    decreases rounds
  {
    if rounds > 0 {
      var round := RoundFrom(agents, Monitor, s, step, trace);
      if round.Stopped? {
        StoppedRound(agents, Monitor, s, step, trace);
      } else {
        RoundExtends(agents, Monitor, s, step, trace);
        if !Complete(round.state) && HasAlerts(round.state) {
          HistoryIsKept(agents, round.state, step + 6, rounds - 1, round.trace);
        }
      }
    }
  }

  lemma ExtendsChain(s: State, t: State, u: State)
    requires Extends(s, t) && Extends(t, u)
    ensures Extends(s, u)
  {
  }

  // The graph keeps it as well, at every step of a run of any agents.
  lemma {:induction false} GraphKeepsHistory(agents: Agents, node: Node, s: State, step: nat, limit: int, trace: Trace)
    requires Iteration(s) >= 0
    requires GraphFrom(agents, node, s, step, limit, trace).Finished?
    ensures Extends(s, GraphFrom(agents, node, s, step, limit, trace).state)
    decreases limit - step
  {
    var next := ApplyUpdate(s, agents.execute(node, step, s).update);
    var done := trace + [(node, s)];
    UpdateExtends(s, agents.execute(node, step, s).update);
    if node != Critic {
      GraphKeepsHistory(agents, node.Next(), next, step + 1, limit, done);
      ExtendsChain(s, next, GraphFrom(agents, node.Next(), next, step + 1, limit, done).state);
    } else if !EndAfterCritic(next) {
      GraphKeepsHistory(agents, Monitor, next, step + 1, limit, done);
      ExtendsChain(s, next, GraphFrom(agents, Monitor, next, step + 1, limit, done).state);
    }
  }
}
