/**
 * A monthly spend cap checked before each model call and charged after it, with other calls at
 * any stage in between.
 *
 * A call reads the ledger, decides, may be answered from the cache, waits for one of a few slots,
 * calls the provider, writes the ledger and then the tally of its run. Each of these is a step, and
 * steps of different calls interleave freely. The ledger is that of one month.
 */
module Gateway {
  import opened Common

  datatype Result = Result(prompt: nat, completion: nat, cost: real)
  datatype Tally = Tally(prompt: int, completion: int, cost: real, calls: int)

  const NONE := Tally(0, 0, 0.0, 0)

  function Plus(t: Tally, r: Result): Tally {
    Tally(t.prompt + r.prompt, t.completion + r.completion, t.cost + r.cost, t.calls + 1)
  }

  datatype Entry = Entry(run: string, result: Result)

  function Spent(ledger: seq<Entry>): real {
    if |ledger| == 0 then 0.0 else Spent(ledger[..|ledger| - 1]) + ledger[|ledger| - 1].result.cost
  }

  // What the ledger holds for one run.
  function Booked(ledger: seq<Entry>, run: string): Tally {
    if |ledger| == 0 then NONE
    else
      var before, last := Booked(ledger[..|ledger| - 1], run), ledger[|ledger| - 1];
      if last.run == run then Plus(before, last.result) else before
  }

  function UsageOf(usage: map<string, Tally>, run: string): Tally { if run in usage then usage[run] else NONE }

  // A call for no run is not tallied.
  function Tallied(usage: map<string, Tally>, run: string, r: Result): map<string, Tally> {
    if run == "" then usage else usage[run := Plus(UsageOf(usage, run), r)]
  }

  // ---- the gateway's own state ----

  datatype Verdict = Refuse | Pass | ReadLedgerFirst

  function FirstVerdict(limit: real, exceeded: bool): Verdict {
    if exceeded then Refuse else if limit <= 0.0 then Pass else ReadLedgerFirst
  }

  class LLMGateway {
    const limit: real
    var budgetExceeded: bool
    var usageByRun: map<string, Tally>

    constructor (limit: real)
      ensures this.limit == limit && !budgetExceeded && usageByRun == map[]
    {
      this.limit := limit;
      budgetExceeded, usageByRun := false, map[];
    }

    // Up to the first read of the ledger.
    method BeginCheck() returns (v: Verdict)
      ensures v == FirstVerdict(limit, budgetExceeded)
    {
      if limit <= 0.0 || budgetExceeded {
        if budgetExceeded {
          return Refuse;
        }
        return Pass;
      }
      return ReadLedgerFirst;
    }

    // From what the ledger said on: over the cap the latch is set for good.
    method FinishCheck(spent: real) returns (refused: bool)
      modifies this`budgetExceeded
      ensures refused <==> spent >= limit
      ensures budgetExceeded <==> old(budgetExceeded) || refused
    {
      if spent >= limit {
        budgetExceeded := true;
        return true;
      }
      return false;
    }

    method TallyUsage(run: string, r: Result)
      modifies this`usageByRun
      ensures usageByRun == Tallied(old(usageByRun), run, r)
      ensures run == "" ==> usageByRun == old(usageByRun)
      ensures run != "" ==>
                var was := if run in old(usageByRun) then old(usageByRun)[run] else Tally(0, 0, 0.0, 0);
                usageByRun == old(usageByRun)[run := Tally(was.prompt + r.prompt, was.completion + r.completion,
                                                           was.cost + r.cost, was.calls + 1)]
    {
      if run == "" {
        return;
      }
      if run !in usageByRun {
        usageByRun := usageByRun[run := NONE];
      }
      var tally := usageByRun[run];
      usageByRun := usageByRun[run := Plus(tally, r)];
    }
  }

  // ---- interleaved calls ----

  datatype Phase =
    | Checking
    | Read(spent: real)
    | Passed
    | Calling
    | Answered(result: Result)
    | Recorded(result: Result)

  datatype Caller = Caller(run: string, phase: Phase)

  // A call that is over, refused or failed is no longer among the callers.
  datatype State = State(exceeded: bool, ledger: seq<Entry>, usage: map<string, Tally>, callers: map<nat, Caller>)

  datatype Config = Config(limit: real, slots: nat)

  datatype Step =
    | Arrive(id: nat, run: string)
    | ReadLedger(id: nat)
    | Decide(id: nat)
    | CacheHit(id: nat)
    | Call(id: nat)
    | Answer(id: nat, result: Result)
    | Fail(id: nat)
    | Record(id: nat)
    | TallyUp(id: nat)

  function Busy(callers: map<nat, Caller>): set<nat> { set i | i in callers && callers[i].phase.Calling? }

  predicate Enabled(g: Config, s: State, step: Step) {
    if step.Arrive? then step.id !in s.callers
    else
      && step.id in s.callers
      && var phase := s.callers[step.id].phase;
        match step
        case ReadLedger(_) => phase.Checking?
        case Decide(_) => phase.Read?
        case CacheHit(_) => phase.Passed?
        case Call(_) => phase.Passed? && |Busy(s.callers)| < g.slots
        case Answer(_, _) => phase.Calling?
        case Fail(_) => phase.Calling?
        case Record(_) => phase.Answered?
        case TallyUp(_) => phase.Recorded?
  }

  function At(s: State, id: nat, phase: Phase): State
    requires id in s.callers
  {
    s.(callers := s.callers[id := s.callers[id].(phase := phase)])
  }

  function Gone(s: State, id: nat): State { s.(callers := s.callers - {id}) }

  function Apply(g: Config, s: State, step: Step): State
    requires Enabled(g, s, step)
  {
    match step
    case Arrive(id, run) =>
      (match FirstVerdict(g.limit, s.exceeded)
       case Refuse => s
       case Pass => s.(callers := s.callers[id := Caller(run, Passed)])
       case ReadLedgerFirst => s.(callers := s.callers[id := Caller(run, Checking)]))
    case ReadLedger(id) => At(s, id, Read(Spent(s.ledger)))
    case Decide(id) =>
      if s.callers[id].phase.spent >= g.limit then Gone(s, id).(exceeded := true) else At(s, id, Passed)
    case CacheHit(id) => Gone(s, id)
    case Call(id) => At(s, id, Calling)
    case Answer(id, result) => At(s, id, Answered(result))
    case Fail(id) => Gone(s, id)
    case Record(id) =>
      var c := s.callers[id];
      At(s, id, Recorded(c.phase.result)).(ledger := s.ledger + [Entry(c.run, c.phase.result)])
    case TallyUp(id) =>
      var c := s.callers[id];
      Gone(s, id).(usage := Tallied(s.usage, c.run, c.phase.result))
  }

  // ---- who may still spend ----

  // Past a read of the ledger below the cap, and not yet charged.
  predicate Committed(g: Config, phase: Phase) {
    match phase
    case Checking => false
    case Read(spent) => spent < g.limit
    case Passed => true
    case Calling => true
    case Answered(_) => true
    case Recorded(_) => false
  }

  function InFlight(g: Config, s: State): set<nat> {
    set i | i in s.callers && Committed(g, s.callers[i].phase)
  }

  predicate Costs(step: Step, c: real) { step.Answer? ==> 0.0 <= step.result.cost <= c }

  ghost predicate Inv(g: Config, s: State, c: real) {
    && (forall i :: i in s.callers && s.callers[i].phase.Read? ==> s.callers[i].phase.spent <= Spent(s.ledger))
    && (forall i :: i in s.callers && s.callers[i].phase.Answered? ==> 0.0 <= s.callers[i].phase.result.cost <= c)
    && (s.exceeded ==> g.limit > 0.0 && Spent(s.ledger) >= g.limit)
  }

  lemma SpentPush(ledger: seq<Entry>, e: Entry)
    ensures Spent([]) == 0.0 && Spent(ledger + [e]) == Spent(ledger) + e.result.cost
  {
    assert (ledger + [e])[..|ledger|] == ledger;
  }

  lemma StepKeepsInv(g: Config, s: State, step: Step, c: real)
    requires g.limit > 0.0 && Inv(g, s, c) && Enabled(g, s, step) && Costs(step, c)
    ensures Inv(g, Apply(g, s, step), c)
    ensures Spent(Apply(g, s, step).ledger)
         == Spent(s.ledger) + (if step.Record? then s.callers[step.id].phase.result.cost else 0.0)
  {
    if step.Record? {
      SpentPush(s.ledger, Entry(s.callers[step.id].run, s.callers[step.id].phase.result));
    }
  }

  // The one way into the set of those who may still spend is a read of the ledger below the cap.
  lemma InFlightAfter(g: Config, s: State, step: Step)
    requires g.limit > 0.0 && Enabled(g, s, step)
    ensures InFlight(g, Apply(g, s, step))
         == if step.ReadLedger? && Spent(s.ledger) < g.limit then InFlight(g, s) + {step.id}
            else if step.CacheHit? || step.Fail? || step.Record? then InFlight(g, s) - {step.id}
            else InFlight(g, s)
  {
  }

  // ---- runs ----

  predicate Feasible(g: Config, s: State, steps: seq<Step>, c: real)
    decreases |steps|
  {
    |steps| > 0 ==> Enabled(g, s, steps[0]) && Costs(steps[0], c) && Feasible(g, Apply(g, s, steps[0]), steps[1..], c)
  }

  function Final(g: Config, s: State, steps: seq<Step>, c: real): State
    requires Feasible(g, s, steps, c)
    decreases |steps|
  {
    if |steps| == 0 then s else Final(g, Apply(g, s, steps[0]), steps[1..], c)
  }

  // Never more than n calls between their read of the ledger and their charge to it.
  ghost predicate AtMost(g: Config, s: State, steps: seq<Step>, c: real, n: nat)
    requires Feasible(g, s, steps, c)
    decreases |steps|
  {
    |InFlight(g, s)| <= n && (|steps| > 0 ==> AtMost(g, Apply(g, s, steps[0]), steps[1..], c, n))
  }

  lemma OneMore(k: nat, c: real)
    ensures (k + 1) as real * c == k as real * c + c
  {
  }

  lemma NoMoreThan(k: nat, n: nat, c: real)
    requires k <= n && c >= 0.0
    ensures k as real * c <= n as real * c
  {
  }

  // Room for every call in flight to cost what it may.
  ghost predicate Room(g: Config, s: State, c: real, n: nat) {
    Below(Spent(s.ledger), |InFlight(g, s)|, c, g.limit, n)
  }

  ghost predicate Below(spent: real, k: nat, c: real, limit: real, n: nat) {
    spent + k as real * c < limit + n as real * c
  }

  lemma BelowByCount(spent: real, k: nat, c: real, limit: real, n: nat)
    requires spent < limit && k <= n && c >= 0.0
    ensures Below(spent, k, c, limit, n)
  {
    NoMoreThan(k, n, c);
  }

  lemma BelowAfterCharge(spent: real, cost: real, k: nat, c: real, limit: real, n: nat)
    requires Below(spent, k + 1, c, limit, n) && cost <= c
    ensures Below(spent + cost, k, c, limit, n)
  {
    OneMore(k, c);
  }

  // A call that leaves the set makes room for what it charged, if anything.
  lemma LeavingKeepsRoom(g: Config, s: State, step: Step, c: real, n: nat)
    requires g.limit > 0.0 && c >= 0.0 && Inv(g, s, c) && Enabled(g, s, step) && Costs(step, c)
    requires Room(g, s, c, n) && (step.CacheHit? || step.Fail? || step.Record?)
    ensures Room(g, Apply(g, s, step), c, n)
  {
    var t := Apply(g, s, step);
    StepKeepsInv(g, s, step, c);
    InFlightAfter(g, s, step);
    assert step.id in InFlight(g, s) && |InFlight(g, s)| == |InFlight(g, t)| + 1;
    BelowAfterCharge(Spent(s.ledger), Spent(t.ledger) - Spent(s.ledger), |InFlight(g, t)|, c, g.limit, n);
  }

  lemma StepKeepsRoom(g: Config, s: State, step: Step, c: real, n: nat)
    requires g.limit > 0.0 && c >= 0.0 && Inv(g, s, c) && Enabled(g, s, step) && Costs(step, c)
    requires Room(g, s, c, n) && |InFlight(g, Apply(g, s, step))| <= n
    ensures Room(g, Apply(g, s, step), c, n)
  {
    if step.CacheHit? || step.Fail? || step.Record? {
      LeavingKeepsRoom(g, s, step, c, n);
    } else {
      StepKeepsInv(g, s, step, c);
      if step.ReadLedger? && Spent(s.ledger) < g.limit {
        BelowByCount(Spent(s.ledger), |InFlight(g, Apply(g, s, step))|, c, g.limit, n);
      } else {
        InFlightAfter(g, s, step);
      }
    }
  }

  lemma {:induction false} RunKeepsRoom(g: Config, s: State, steps: seq<Step>, c: real, n: nat)
    requires g.limit > 0.0 && c >= 0.0 && Inv(g, s, c) && Feasible(g, s, steps, c) && AtMost(g, s, steps, c, n)
    requires Room(g, s, c, n)
    ensures Room(g, Final(g, s, steps, c), c, n) && Inv(g, Final(g, s, steps, c), c)
    decreases |steps|
  {
    if |steps| > 0 {
      StepKeepsInv(g, s, steps[0], c);
      StepKeepsRoom(g, s, steps[0], c, n);
      RunKeepsRoom(g, Apply(g, s, steps[0]), steps[1..], c, n);
    }
  }

  lemma StepKeepsSlots(g: Config, s: State, step: Step)
    requires Enabled(g, s, step) && |Busy(s.callers)| <= g.slots
    ensures |Busy(Apply(g, s, step).callers)| <= g.slots
  {
    var t := Apply(g, s, step);
    if step.Call? {
      assert Busy(t.callers) == Busy(s.callers) + {step.id};
    } else {
      Fewer(Busy(t.callers), Busy(s.callers));
    }
  }

  // Never more calls at the provider at once than there are slots.
  lemma {:induction false} SlotsHold(g: Config, s: State, steps: seq<Step>, c: real)
    requires Feasible(g, s, steps, c) && |Busy(s.callers)| <= g.slots
    ensures |Busy(Final(g, s, steps, c).callers)| <= g.slots
    decreases |steps|
  {
    if |steps| > 0 {
      StepKeepsSlots(g, s, steps[0]);
      SlotsHold(g, Apply(g, s, steps[0]), steps[1..], c);
    }
  }

  function Started(ledger: seq<Entry>): State { State(false, ledger, map[], map[]) }

  // In every interleaving the month's spend stays below the cap plus what the calls that can be
  // between check and charge at one time may cost.
  lemma SpendStaysBelow(g: Config, ledger: seq<Entry>, steps: seq<Step>, c: real, n: nat)
    requires g.limit > 0.0 && c >= 0.0 && Spent(ledger) < g.limit
    requires Feasible(g, Started(ledger), steps, c) && AtMost(g, Started(ledger), steps, c, n)
    ensures Spent(Final(g, Started(ledger), steps, c).ledger) < g.limit + n as real * c
  {
    var s := Started(ledger);
    assert InFlight(g, s) == {};
    BelowByCount(Spent(ledger), 0, c, g.limit, n);
    RunKeepsRoom(g, s, steps, c, n);
    NoMoreThan(0, |InFlight(g, Final(g, s, steps, c))|, c);
  }

  // A call is refused only once the cap has really been reached.
  lemma RefusedOnlyOverCap(g: Config, s: State, step: Step, c: real)
    requires g.limit > 0.0 && Inv(g, s, c) && Enabled(g, s, step)
    requires (step.Arrive? && FirstVerdict(g.limit, s.exceeded).Refuse?)
          || (step.Decide? && step.id !in Apply(g, s, step).callers)
    ensures Spent(s.ledger) >= g.limit && Apply(g, s, step).exceeded
  {
  }

  // ---- without a cap ----

  ghost predicate Unchecked(s: State) {
    !s.exceeded && forall i :: i in s.callers ==> !s.callers[i].phase.Checking? && !s.callers[i].phase.Read?
  }

  // A cap of zero or less is none: no call is checked or refused, and every one may go to the
  // provider, in every interleaving.
  lemma {:induction false} UncappedNeverRefuses(g: Config, s: State, steps: seq<Step>, c: real, id: nat, run: string)
    requires g.limit <= 0.0 && Unchecked(s) && Feasible(g, s, steps, c)
    ensures var t := Final(g, s, steps, c);
            && Unchecked(t)
            && (id !in t.callers ==> Apply(g, t, Arrive(id, run)) == t.(callers := t.callers[id := Caller(run, Passed)]))
    decreases |steps|
  {
    if |steps| > 0 {
      assert Unchecked(Apply(g, s, steps[0]));
      UncappedNeverRefuses(g, Apply(g, s, steps[0]), steps[1..], c, id, run);
    }
  }

  // ---- once the latch is set ----

  lemma LatchedStep(g: Config, s: State, step: Step, c: real)
    requires g.limit > 0.0 && c >= 0.0 && Inv(g, s, c) && s.exceeded && Enabled(g, s, step) && Costs(step, c)
    ensures var t := Apply(g, s, step);
            && t.exceeded && Inv(g, t, c) && InFlight(g, t) <= InFlight(g, s) && s.ledger <= t.ledger
            && (if step.Record? then |t.ledger| == |s.ledger| + 1 && step.id in InFlight(g, s) - InFlight(g, t)
                else t.ledger == s.ledger)
  {
    StepKeepsInv(g, s, step, c);
    InFlightAfter(g, s, step);
  }

  lemma LeftAlongTheWay(a: set<nat>, b: set<nat>, c: set<nat>, id: nat)
    requires c <= b <= a
    ensures |b - c| <= |a - c| && (id in a - b ==> |b - c| + 1 <= |a - c|)
  {
    Fewer(b - c, a - c);
    if id in a - b {
      Fewer((b - c) + {id}, a - c);
    }
  }

  lemma {:induction false} LatchedRun(g: Config, s: State, steps: seq<Step>, c: real)
    requires g.limit > 0.0 && c >= 0.0 && Inv(g, s, c) && s.exceeded && Feasible(g, s, steps, c)
    ensures var t := Final(g, s, steps, c);
            && t.exceeded && InFlight(g, t) <= InFlight(g, s) && s.ledger <= t.ledger
            && |t.ledger| <= |s.ledger| + |InFlight(g, s) - InFlight(g, t)|
    decreases |steps|
  {
    if |steps| > 0 {
      var u, t := Apply(g, s, steps[0]), Final(g, s, steps, c);
      LatchedStep(g, s, steps[0], c);
      LatchedRun(g, u, steps[1..], c);
      LeftAlongTheWay(InFlight(g, s), InFlight(g, u), InFlight(g, t), steps[0].id);
    }
  }

  ghost predicate Charges(g: Config, s: State, steps: seq<Step>, c: real) {
    Feasible(g, s, steps, c) && Final(g, s, steps, c).ledger != s.ledger
  }

  const FREE := Result(0, 0, 0.0)

  lemma ThenCharges(g: Config, s: State, step: Step, rest: seq<Step>, c: real)
    requires Enabled(g, s, step) && Costs(step, c) && !step.Record? && Charges(g, Apply(g, s, step), rest, c)
    ensures Charges(g, s, [step] + rest, c)
  {
    assert ([step] + rest)[1..] == rest;
  }

  lemma AnsweredCharges(g: Config, s: State, id: nat, c: real) returns (steps: seq<Step>)
    requires id in s.callers && s.callers[id].phase.Answered?
    ensures Charges(g, s, steps, c)
  {
    steps := [Record(id)];
    assert steps[1..] == [];
    assert |Apply(g, s, Record(id)).ledger| == |s.ledger| + 1;
  }

  lemma CallingCharges(g: Config, s: State, id: nat, c: real) returns (steps: seq<Step>)
    requires id in s.callers && s.callers[id].phase.Calling? && c >= 0.0
    ensures Charges(g, s, steps, c)
  {
    var rest := AnsweredCharges(g, Apply(g, s, Answer(id, FREE)), id, c);
    steps := [Answer(id, FREE)] + rest;
    ThenCharges(g, s, Answer(id, FREE), rest, c);
  }

  lemma PassedCharges(g: Config, s: State, id: nat, c: real) returns (steps: seq<Step>)
    requires id in s.callers && s.callers[id].phase.Passed? && c >= 0.0 && g.slots >= 1
    ensures Charges(g, s, steps, c)
  {
    if Busy(s.callers) == {} {
      var rest := CallingCharges(g, Apply(g, s, Call(id)), id, c);
      steps := [Call(id)] + rest;
      ThenCharges(g, s, Call(id), rest, c);
    } else {
      var other :| other in Busy(s.callers);
      steps := CallingCharges(g, s, other, c);
    }
  }

  lemma InFlightCharges(g: Config, s: State, id: nat, c: real) returns (steps: seq<Step>)
    requires id in InFlight(g, s) && c >= 0.0 && g.slots >= 1
    ensures Charges(g, s, steps, c)
  {
    match s.callers[id].phase
    case Read(_) =>
      var rest := PassedCharges(g, Apply(g, s, Decide(id)), id, c);
      steps := [Decide(id)] + rest;
      ThenCharges(g, s, Decide(id), rest, c);
    case Passed => steps := PassedCharges(g, s, id, c);
    case Calling => steps := CallingCharges(g, s, id, c);
    case Answered(_) => steps := AnsweredCharges(g, s, id, c);
  }

  // The latch alone does not end the month's spending: after it the ledger can still change if and
  // only if some call had read it below the cap and is not yet charged.
  lemma LatchEndsSpendingIff(g: Config, s: State, c: real)
    requires g.limit > 0.0 && c >= 0.0 && g.slots >= 1 && Inv(g, s, c) && s.exceeded
    ensures (exists steps :: Charges(g, s, steps, c)) <==> InFlight(g, s) != {}
  {
    forall steps | Charges(g, s, steps, c) ensures InFlight(g, s) != {} {
      LatchedRun(g, s, steps, c);
    }
    if InFlight(g, s) != {} {
      var id :| id in InFlight(g, s);
      var steps := InFlightCharges(g, s, id, c);
    }
  }

  // ---- the slots are not the bound ----

  ghost predicate Waiting(s: State, k: nat) {
    && (forall i :: i in s.callers <==> 0 <= i < k)
    && (forall i :: i in s.callers ==> s.callers[i].phase.Passed?)
  }

  // From s a run with at most n calls in flight charges this much more.
  ghost predicate Reaches(g: Config, s: State, c: real, n: nat, more: real) {
    exists steps :: Feasible(g, s, steps, c) && AtMost(g, s, steps, c, n)
                    && Spent(Final(g, s, steps, c).ledger) == Spent(s.ledger) + more
  }

  lemma ReachesAfter(g: Config, s: State, step: Step, c: real, n: nat, more: real)
    requires g.limit > 0.0 && Enabled(g, s, step) && Costs(step, c) && |InFlight(g, s)| <= n && Inv(g, s, c)
    requires Reaches(g, Apply(g, s, step), c, n, more)
    ensures Reaches(g, s, c, n, more + if step.Record? then s.callers[step.id].phase.result.cost else 0.0)
  {
    var t := Apply(g, s, step);
    var rest :| Feasible(g, t, rest, c) && AtMost(g, t, rest, c, n)
                && Spent(Final(g, t, rest, c).ledger) == Spent(t.ledger) + more;
    StepKeepsInv(g, s, step, c);
    assert ([step] + rest)[1..] == rest;
    assert Feasible(g, s, [step] + rest, c);
  }

  lemma {:induction false} SizeUpTo(some: set<nat>, k: nat)
    requires forall i: nat :: i in some <==> i < k
    ensures |some| == k
  {
    if k == 0 {
      assert some == {};
    } else {
      SizeUpTo(some - {k - 1}, k - 1);
    }
  }

  lemma WaitingCount(g: Config, s: State, k: nat)
    requires Waiting(s, k)
    ensures |InFlight(g, s)| == k && Busy(s.callers) == {}
  {
    SizeUpTo(InFlight(g, s), k);
  }

  // The call of one waiting caller, from its slot to its charge; others cost what they cost.
  lemma CallAndAnswer(g: Config, s: State, id: nat, c: real, n: nat, more: real) returns (t: State)
    requires g.limit > 0.0 && g.slots >= 1 && c >= 0.0 && Inv(g, s, c) && |InFlight(g, s)| <= n
    requires id in s.callers && s.callers[id].phase.Passed? && Busy(s.callers) == {}
    ensures Inv(g, t, c) && InFlight(g, t) == InFlight(g, s)
    ensures t == At(s, id, Answered(Result(0, 0, c)))
    ensures Reaches(g, t, c, n, more) ==> Reaches(g, s, c, n, more)
  {
    var called := Apply(g, s, Call(id));
    StepKeepsInv(g, s, Call(id), c);
    InFlightAfter(g, s, Call(id));
    var answer := Answer(id, Result(0, 0, c));
    t := Apply(g, called, answer);
    StepKeepsInv(g, called, answer, c);
    InFlightAfter(g, called, answer);
    if Reaches(g, t, c, n, more) {
      ReachesAfter(g, called, answer, c, n, more);
      ReachesAfter(g, s, Call(id), c, n, more);
    }
  }

  lemma RecordAndTally(g: Config, s: State, id: nat, c: real, n: nat, more: real) returns (t: State)
    requires g.limit > 0.0 && Inv(g, s, c) && |InFlight(g, s)| <= n
    requires id in s.callers && s.callers[id].phase.Answered?
    ensures Inv(g, t, c) && t.callers == s.callers - {id}
    ensures Reaches(g, t, c, n, more) ==> Reaches(g, s, c, n, more + s.callers[id].phase.result.cost)
  {
    var recorded := Apply(g, s, Record(id));
    StepKeepsInv(g, s, Record(id), c);
    InFlightAfter(g, s, Record(id));
    Fewer(InFlight(g, recorded), InFlight(g, s));
    t := Apply(g, recorded, TallyUp(id));
    StepKeepsInv(g, recorded, TallyUp(id), c);
    if Reaches(g, t, c, n, more) {
      ReachesAfter(g, recorded, TallyUp(id), c, n, more);
      ReachesAfter(g, s, Record(id), c, n, more);
    }
  }

  lemma CallThrough(g: Config, s: State, id: nat, c: real, n: nat, more: real) returns (t: State)
    requires g.limit > 0.0 && g.slots >= 1 && c >= 0.0 && Inv(g, s, c) && |InFlight(g, s)| <= n
    requires id in s.callers && s.callers[id].phase.Passed? && Busy(s.callers) == {}
    ensures Inv(g, t, c) && t.callers == s.callers - {id}
    ensures Reaches(g, t, c, n, more) ==> Reaches(g, s, c, n, more + c)
  {
    var answered := CallAndAnswer(g, s, id, c, n, more + c);
    t := RecordAndTally(g, answered, id, c, n, more);
    assert answered.callers - {id} == s.callers - {id};
  }

  lemma ReachesNow(g: Config, s: State, c: real, n: nat)
    requires |InFlight(g, s)| <= n
    ensures Reaches(g, s, c, n, 0.0)
  {
    var none: seq<Step> := [];
    assert Feasible(g, s, none, c);
  }

  lemma OneLessWaiting(s: State, t: State, k: nat)
    requires Waiting(s, k) && k > 0 && t.callers == s.callers - {k - 1}
    ensures Waiting(t, k - 1)
  {
  }

  lemma SpendLast(g: Config, s: State, k: nat, c: real, n: nat, more: real) returns (t: State)
    requires g.limit > 0.0 && g.slots >= 1 && c >= 0.0 && Inv(g, s, c) && Waiting(s, k) && 0 < k <= n
    ensures Inv(g, t, c) && Waiting(t, k - 1)
    ensures Reaches(g, t, c, n, more) ==> Reaches(g, s, c, n, more + c)
  {
    WaitingCount(g, s, k);
    t := CallThrough(g, s, k - 1, c, n, more);
    OneLessWaiting(s, t, k);
  }

  lemma Times(k: nat, c: real, total: real)
    requires total == k as real * c
    ensures k == 0 ==> total == 0.0
    ensures k > 0 ==> total - c == (k - 1) as real * c
  {
  }

  lemma {:induction false} SpendEach(g: Config, s: State, k: nat, c: real, n: nat, total: real)
    requires g.limit > 0.0 && g.slots >= 1 && c >= 0.0 && Inv(g, s, c) && Waiting(s, k) && k <= n
    requires total == k as real * c
    ensures Reaches(g, s, c, n, total)
    decreases k
  {
    Times(k, c, total);
    if k == 0 {
      WaitingCount(g, s, k);
      ReachesNow(g, s, c, n);
    } else {
      var done := SpendLast(g, s, k, c, n, total - c);
      SpendEach(g, done, k - 1, c, n, total - c);
    }
  }

  lemma ArriveAndPass(g: Config, s: State, id: nat, c: real, n: nat, more: real) returns (t: State)
    requires g.limit > 0.0 && Inv(g, s, c) && id !in s.callers && |InFlight(g, s)| < n
    requires !s.exceeded && Spent(s.ledger) < g.limit
    ensures Inv(g, t, c) && t == s.(callers := s.callers[id := Caller("", Passed)])
    ensures Reaches(g, t, c, n, more) ==> Reaches(g, s, c, n, more)
  {
    var arrive := Arrive(id, "");
    var arrived := Apply(g, s, arrive);
    StepKeepsInv(g, s, arrive, c);
    InFlightAfter(g, s, arrive);
    var read := Apply(g, arrived, ReadLedger(id));
    StepKeepsInv(g, arrived, ReadLedger(id), c);
    InFlightAfter(g, arrived, ReadLedger(id));
    t := Apply(g, read, Decide(id));
    StepKeepsInv(g, read, Decide(id), c);
    assert t.callers == s.callers[id := Caller("", Passed)];
    if Reaches(g, t, c, n, more) {
      ReachesAfter(g, read, Decide(id), c, n, more);
      ReachesAfter(g, arrived, ReadLedger(id), c, n, more);
      ReachesAfter(g, s, arrive, c, n, more);
    }
  }

  lemma ArriveNext(g: Config, s: State, k: nat, c: real, n: nat, more: real) returns (t: State)
    requires g.limit > 0.0 && Inv(g, s, c) && Waiting(s, k) && k < n
    requires !s.exceeded && Spent(s.ledger) < g.limit
    ensures Inv(g, t, c) && Waiting(t, k + 1) && !t.exceeded && t.ledger == s.ledger
    ensures Reaches(g, t, c, n, more) ==> Reaches(g, s, c, n, more)
  {
    WaitingCount(g, s, k);
    t := ArriveAndPass(g, s, k, c, n, more);
  }

  lemma {:induction false} ArriveEach(g: Config, s: State, k: nat, c: real, n: nat, total: real)
    requires g.limit > 0.0 && g.slots >= 1 && c >= 0.0 && Inv(g, s, c) && Waiting(s, k) && k <= n
    requires !s.exceeded && Spent(s.ledger) < g.limit && total == n as real * c
    ensures Reaches(g, s, c, n, total)
    decreases n - k
  {
    if k == n {
      SpendEach(g, s, k, c, n, total);
    } else {
      var t := ArriveNext(g, s, k, c, n, total);
      ArriveEach(g, t, k + 1, c, n, total);
    }
  }

  // The bound is tight, with a single slot too: calls wait for their slot after the check, so
  // however few may call at once, all that passed it are charged.
  lemma SlotsDoNotBoundSpend(g: Config, ledger: seq<Entry>, c: real, n: nat)
    requires g.limit > 0.0 && g.slots >= 1 && c >= 0.0 && Spent(ledger) < g.limit
    ensures Reaches(g, Started(ledger), c, n, n as real * c)
  {
    ArriveEach(g, Started(ledger), 0, c, n, n as real * c);
  }

  // ---- the tallies ----

  ghost predicate AddsUp(total: Tally, before: Tally, tallied: Tally, owed: Tally) {
    && total.prompt == before.prompt + tallied.prompt + owed.prompt
    && total.completion == before.completion + tallied.completion + owed.completion
    && total.cost == before.cost + tallied.cost + owed.cost
    && total.calls == before.calls + tallied.calls + owed.calls
  }

  function Charge(t: Tally, c: Caller, run: string): Tally {
    if c.phase.Recorded? && c.run == run then Plus(t, c.phase.result) else t
  }

  // What is in the ledger for a run and not yet in its tally.
  ghost function Owed(callers: map<nat, Caller>, run: string): Tally
    decreases callers.Keys
  {
    if callers == map[] then NONE else
      var i: nat :| i in callers;
      Charge(Owed(callers - {i}, run), callers[i], run)
  }

  lemma ChargesCommute(t: Tally, a: Caller, b: Caller, run: string)
    ensures Charge(Charge(t, a, run), b, run) == Charge(Charge(t, b, run), a, run)
  {
  }

  lemma {:induction false} OwedTake(callers: map<nat, Caller>, i: nat, run: string)
    requires i in callers
    ensures Owed(callers, run) == Charge(Owed(callers - {i}, run), callers[i], run)
    decreases callers.Keys
  {
    var j: nat :| j in callers && Owed(callers, run) == Charge(Owed(callers - {j}, run), callers[j], run);
    if j != i {
      var others := callers - {j} - {i};
      OwedTake(callers - {j}, i, run);
      OwedTake(callers - {i}, j, run);
      assert callers - {i} - {j} == others;
      ChargesCommute(Owed(others, run), callers[i], callers[j], run);
    }
  }

  // The ledger holds, beyond what it held before this process began, each run's tally and what is
  // still owed to it.
  ghost predicate Balanced(s: State, before: seq<Entry>, run: string) {
    AddsUp(Booked(s.ledger, run), Booked(before, run), UsageOf(s.usage, run), Owed(s.callers, run))
  }

  lemma BookedPush(ledger: seq<Entry>, e: Entry, run: string)
    ensures Booked(ledger + [e], run)
         == if e.run == run then Plus(Booked(ledger, run), e.result) else Booked(ledger, run)
  {
    assert (ledger + [e])[..|ledger|] == ledger;
  }

  // A caller's own change of phase is all that changes what is owed.
  lemma OwedSplit(callers: map<nat, Caller>, id: nat, run: string)
    ensures Owed(callers, run)
         == if id in callers then Charge(Owed(callers - {id}, run), callers[id], run) else Owed(callers - {id}, run)
  {
    if id in callers {
      OwedTake(callers, id, run);
    } else {
      assert callers - {id} == callers;
    }
  }

  lemma OthersStay(g: Config, s: State, step: Step)
    requires Enabled(g, s, step)
    ensures Apply(g, s, step).callers - {step.id} == s.callers - {step.id}
  {
  }

  lemma OwedAfter(g: Config, s: State, step: Step, run: string)
    requires Enabled(g, s, step)
    ensures var t := Apply(g, s, step);
            if step.Record? && s.callers[step.id].run == run then
              Owed(t.callers, run) == Plus(Owed(s.callers, run), s.callers[step.id].phase.result)
            else if step.TallyUp? && s.callers[step.id].run == run then
              Owed(s.callers, run) == Plus(Owed(t.callers, run), s.callers[step.id].phase.result)
            else Owed(t.callers, run) == Owed(s.callers, run)
  {
    OthersStay(g, s, step);
    OwedSplit(s.callers, step.id, run);
    OwedSplit(Apply(g, s, step).callers, step.id, run);
  }

  lemma UsageAfter(usage: map<string, Tally>, own: string, r: Result, run: string)
    requires run != ""
    ensures UsageOf(Tallied(usage, own, r), run)
         == if own == run then Plus(UsageOf(usage, run), r) else UsageOf(usage, run)
  {
  }

  lemma RecordKeepsBalance(g: Config, s: State, id: nat, before: seq<Entry>, run: string)
    requires run != "" && Enabled(g, s, Record(id)) && Balanced(s, before, run)
    ensures Balanced(Apply(g, s, Record(id)), before, run)
  {
    OwedAfter(g, s, Record(id), run);
    BookedPush(s.ledger, Entry(s.callers[id].run, s.callers[id].phase.result), run);
  }

  lemma TallyKeepsBalance(g: Config, s: State, id: nat, before: seq<Entry>, run: string)
    requires run != "" && Enabled(g, s, TallyUp(id)) && Balanced(s, before, run)
    ensures Balanced(Apply(g, s, TallyUp(id)), before, run)
  {
    OwedAfter(g, s, TallyUp(id), run);
    UsageAfter(s.usage, s.callers[id].run, s.callers[id].phase.result, run);
  }

  lemma SameBalance(s: State, t: State, before: seq<Entry>, run: string)
    requires Balanced(s, before, run)
    requires t.ledger == s.ledger && t.usage == s.usage && Owed(t.callers, run) == Owed(s.callers, run)
    ensures Balanced(t, before, run)
  {
  }

  lemma BooksUntouched(g: Config, s: State, step: Step)
    requires Enabled(g, s, step)
    ensures !step.Record? ==> Apply(g, s, step).ledger == s.ledger
    ensures !step.TallyUp? ==> Apply(g, s, step).usage == s.usage
  {
  }

  lemma OtherKeepsBalance(g: Config, s: State, step: Step, before: seq<Entry>, run: string)
    requires Enabled(g, s, step) && !step.Record? && !step.TallyUp? && Balanced(s, before, run)
    ensures Balanced(Apply(g, s, step), before, run)
  {
    var t := Apply(g, s, step);
    BooksUntouched(g, s, step);
    assert Owed(t.callers, run) == Owed(s.callers, run) by { OwedAfter(g, s, step, run); }
    SameBalance(s, t, before, run);
  }

  lemma StepKeepsBalance(g: Config, s: State, step: Step, before: seq<Entry>, run: string)
    requires run != "" && Enabled(g, s, step) && Balanced(s, before, run)
    ensures Balanced(Apply(g, s, step), before, run)
  {
    match step
    case Record(id) => RecordKeepsBalance(g, s, id, before, run);
    case TallyUp(id) => TallyKeepsBalance(g, s, id, before, run);
    case _ => OtherKeepsBalance(g, s, step, before, run);
  }

  lemma {:induction false} RunKeepsBalance(g: Config, s: State, steps: seq<Step>, c: real,
                                           before: seq<Entry>, run: string)
    requires run != "" && Feasible(g, s, steps, c) && Balanced(s, before, run)
    ensures Balanced(Final(g, s, steps, c), before, run)
    decreases |steps|
  {
    if |steps| > 0 {
      StepKeepsBalance(g, s, steps[0], before, run);
      RunKeepsBalance(g, Apply(g, s, steps[0]), steps[1..], c, before, run);
    }
  }

  // No call of the run is between its ledger entry and its tally.
  ghost predicate Settled(callers: map<nat, Caller>, run: string) {
    forall i :: i in callers ==> !(callers[i].phase.Recorded? && callers[i].run == run)
  }

  lemma {:induction false} NothingOwed(callers: map<nat, Caller>, run: string)
    requires Settled(callers, run)
    ensures Owed(callers, run) == NONE
    decreases callers.Keys
  {
    if callers != map[] {
      var i: nat :| i in callers;
      OwedTake(callers, i, run);
      NothingOwed(callers - {i}, run);
    }
  }

  lemma StartsBalanced(s: State, run: string)
    requires s.callers == map[] && s.usage == map[]
    ensures Balanced(s, s.ledger, run)
  {
    NothingOwed(s.callers, run);
    assert UsageOf(s.usage, run) == NONE;
  }

  lemma SettledBalance(g: Config, before: seq<Entry>, steps: seq<Step>, c: real, run: string)
    requires run != "" && Feasible(g, Started(before), steps, c)
    requires Settled(Final(g, Started(before), steps, c).callers, run)
    ensures var t := Final(g, Started(before), steps, c);
            AddsUp(Booked(t.ledger, run), Booked(before, run), UsageOf(t.usage, run), NONE)
  {
    var s, t := Started(before), Final(g, Started(before), steps, c);
    StartsBalanced(s, run);
    RunKeepsBalance(g, s, steps, c, before, run);
    NothingOwed(t.callers, run);
  }

  // ---- what the ledger holds for a run ----

  function PromptFor(ledger: seq<Entry>, run: string): nat {
    if |ledger| == 0 then 0
    else PromptFor(ledger[..|ledger| - 1], run)
         + (if ledger[|ledger| - 1].run == run then ledger[|ledger| - 1].result.prompt else 0)
  }

  function CompletionFor(ledger: seq<Entry>, run: string): nat {
    if |ledger| == 0 then 0
    else CompletionFor(ledger[..|ledger| - 1], run)
         + (if ledger[|ledger| - 1].run == run then ledger[|ledger| - 1].result.completion else 0)
  }

  function CostFor(ledger: seq<Entry>, run: string): real {
    if |ledger| == 0 then 0.0
    else CostFor(ledger[..|ledger| - 1], run)
         + (if ledger[|ledger| - 1].run == run then ledger[|ledger| - 1].result.cost else 0.0)
  }

  function CallsFor(ledger: seq<Entry>, run: string): nat {
    if |ledger| == 0 then 0
    else CallsFor(ledger[..|ledger| - 1], run) + (if ledger[|ledger| - 1].run == run then 1 else 0)
  }

  lemma {:induction false} BookedSums(before: seq<Entry>, own: seq<Entry>, run: string)
    ensures AddsUp(Booked(before + own, run), Booked(before, run),
                   Tally(PromptFor(own, run), CompletionFor(own, run), CostFor(own, run), CallsFor(own, run)), NONE)
  {
    if |own| == 0 {
      assert before + own == before;
    } else {
      var n := |own| - 1;
      BookedSums(before, own[..n], run);
      assert before + own == before + own[..n] + [own[n]];
      BookedPush(before + own[..n], own[n], run);
    }
  }

  lemma {:induction false} LedgerGrows(g: Config, s: State, steps: seq<Step>, c: real)
    requires Feasible(g, s, steps, c)
    ensures s.ledger <= Final(g, s, steps, c).ledger
    decreases |steps|
  {
    if |steps| > 0 {
      LedgerGrows(g, Apply(g, s, steps[0]), steps[1..], c);
    }
  }

  // After any interleaving, once no call of a run is between its ledger entry and its tally, the
  // tally is the sum of what this process has entered in the ledger for the run: tokens, cost, calls.
  lemma TallyAgreesWithLedger(g: Config, before: seq<Entry>, steps: seq<Step>, c: real, run: string)
    requires run != "" && Feasible(g, Started(before), steps, c)
    requires Settled(Final(g, Started(before), steps, c).callers, run)
    ensures var t := Final(g, Started(before), steps, c);
            && before <= t.ledger
            && var own := t.ledger[|before|..];
               UsageOf(t.usage, run)
               == Tally(PromptFor(own, run), CompletionFor(own, run), CostFor(own, run), CallsFor(own, run))
  {
    var t := Final(g, Started(before), steps, c);
    LedgerGrows(g, Started(before), steps, c);
    SettledBalance(g, before, steps, c, run);
    assert t.ledger == before + t.ledger[|before|..];
    BookedSums(before, t.ledger[|before|..], run);
  }
}
