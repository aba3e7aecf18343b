/** The event bus: publishing in two halves around its suspension point, bounded queues, replay. */
module EventBus {

  datatype Event = Event(run: string, number: nat, kind: string)

  const TERMINAL_EVENTS: set<string> := {"run.succeeded", "run.failed", "run.cancelled"}
  const HISTORY_LIMIT: nat := 2000

  predicate Terminal(e: Event) { e.kind in TERMINAL_EVENTS }

  // ---- bounded buffers ----

  function Trim(history: seq<Event>): seq<Event> {
    if |history| > HISTORY_LIMIT then history[|history| - HISTORY_LIMIT..] else history
  }

  // A full queue drops its oldest entry; a size of zero means unbounded.
  predicate Full(queue: seq<Event>, size: nat) { size != 0 && |queue| >= size }

  function Push(queue: seq<Event>, e: Event, size: nat): seq<Event> {
    if Full(queue, size) then queue[1..] + [e] else queue + [e]
  }

  function PushAll(queue: seq<Event>, es: seq<Event>, size: nat): seq<Event> {
    if |es| == 0 then queue else Push(PushAll(queue, es[..|es| - 1], size), es[|es| - 1], size)
  }

  function Retained(history: seq<Event>, after: int): seq<Event> {
    if |history| == 0 then []
    else
      var n := |history| - 1;
      Retained(history[..n], after) + (if history[n].number > after then [history[n]] else [])
  }

  // The newest of a sequence, at most this many.
  function Newest(all: seq<Event>, size: nat): seq<Event> {
    if |all| <= size then all else all[|all| - size..]
  }

  lemma PushNewest(all: seq<Event>, e: Event, size: nat)
    requires 0 < size
    ensures Push(Newest(all, size), e, size) == Newest(all + [e], size)
  {
  }

  // However many events arrive, a bounded queue holds exactly the newest ones, so what overflow
  // loses is always the oldest and never the event just published.
  lemma {:induction false} OverflowLosesOldest(queue: seq<Event>, es: seq<Event>, size: nat)
    requires 0 < size && |queue| <= size
    ensures PushAll(queue, es, size) == Newest(queue + es, size)
  {
    if |es| == 0 {
      assert queue + es == queue;
    } else {
      var n := |es| - 1;
      OverflowLosesOldest(queue, es[..n], size);
      PushNewest(queue + es[..n], es[n], size);
      assert queue + es == queue + es[..n] + [es[n]];
    }
  }

  datatype Subscriber = Subscriber(run: string, queue: seq<Event>)

  function Offered(s: Subscriber, e: Event, size: nat): Subscriber {
    if s.run == e.run then Subscriber(s.run, Push(s.queue, e, size)) else s
  }

  // One event offered to all subscribers of all runs.
  function Fanned(subscribers: map<string, Subscriber>, e: Event, size: nat): map<string, Subscriber> {
    map id | id in subscribers :: Offered(subscribers[id], e, size)
  }

  // ---- the bus ----

  // What the bus does, its publishes split where they are suspended.
  datatype BusStep =
    | Begun(run: string, kind: string)
    | Offering(e: Event)
    | Subscribed(run: string, id: string)
    | Unsubscribed(id: string)

  datatype Bus = Bus(counters: map<string, nat>, history: map<string, seq<Event>>, subscribers: map<string, Subscriber>)

  const NoBus := Bus(map[], map[], map[])

  function Taken(b: Bus, step: BusStep, size: nat): Bus {
    match step
    case Begun(run, kind) =>
      var e := Event(run, (if run in b.counters then b.counters[run] else 0) + 1, kind);
      b.(counters := b.counters[run := e.number],
         history := b.history[run := Trim((if run in b.history then b.history[run] else []) + [e])])
    case Offering(e) => b.(subscribers := Fanned(b.subscribers, e, size))
    case Subscribed(run, id) => b.(subscribers := b.subscribers[id := Subscriber(run, [])])
    case Unsubscribed(id) => b.(subscribers := b.subscribers - {id})
  }

  class EventBus {
    const queueSize: nat
    var counters: map<string, nat>
    var history: map<string, seq<Event>>
    var subscribers: map<string, Subscriber>

    constructor (queueSize: nat)
      ensures this.queueSize == queueSize
      ensures counters == map[] && history == map[] && subscribers == map[]
    {
      this.queueSize := queueSize;
      counters, history, subscribers := map[], map[], map[];
    }

    ghost function State(): Bus
      reads this
    {
      Bus(counters, history, subscribers)
    }

    function Counter(run: string): nat
      reads this
    {
      if run in counters then counters[run] else 0
    }

    function History(run: string): seq<Event>
      reads this
    {
      if run in history then history[run] else []
    }

    // The half of publish before the sink is awaited: number the event and remember it.
    method BeginPublish(run: string, kind: string) returns (e: Event)
      modifies this`counters, this`history
      ensures e == Event(run, old(Counter(run)) + 1, kind)
      ensures State() == Taken(old(State()), Begun(run, kind), queueSize)
      ensures counters == old(counters)[run := e.number]
      ensures history == old(history)[run := Trim(old(History(run)) + [e])]
    {
      var current := Counter(run) + 1;
      counters := counters[run := current];
      e := Event(run, current, kind);
      var events := History(run) + [e];
      if |events| > HISTORY_LIMIT {
        events := events[|events| - HISTORY_LIMIT..];
      }
      history := history[run := events];
    }

    // The half after it: offer the event to every subscriber of the run and to no other. A full
    // queue makes room by dropping its oldest event.
    method FanOut(e: Event)
      modifies this`subscribers
      ensures State() == Taken(old(State()), Offering(e), queueSize)
      ensures subscribers.Keys == old(subscribers).Keys
      ensures forall id :: id in subscribers && subscribers[id].run != e.run ==> subscribers[id] == old(subscribers)[id]
      ensures forall id :: id in subscribers && subscribers[id].run == e.run ==>
                var queue := old(subscribers)[id].queue;
                old(subscribers)[id].run == e.run && subscribers[id].queue ==
                  if queueSize != 0 && |queue| >= queueSize then (queue + [e])[1..] else queue + [e]
    {
      var left := subscribers.Keys;
      while left != {}
        invariant left <= subscribers.Keys == old(subscribers).Keys
        invariant forall id :: id in subscribers && id in left ==> subscribers[id] == old(subscribers)[id]
        invariant forall id :: id in subscribers && id !in left ==>
                    subscribers[id] == Offered(old(subscribers)[id], e, queueSize)
        decreases left
      {
        var id :| id in left;
        left := left - {id};
        var s := subscribers[id];
        if s.run != e.run {
          continue;
        }
        var queue := s.queue;
        if Full(queue, queueSize) {
          queue := queue[1..];
        }
        subscribers := subscribers[id := Subscriber(s.run, queue + [e])];
      }
    }

    // Ids are unique per subscription.
    method Subscribe(run: string, id: string)
      requires id !in subscribers
      modifies this`subscribers
      ensures State() == Taken(old(State()), Subscribed(run, id), queueSize)
      ensures subscribers == old(subscribers)[id := Subscriber(run, [])]
    {
      subscribers := subscribers[id := Subscriber(run, [])];
    }

    method Unsubscribe(id: string)
      modifies this`subscribers
      ensures State() == Taken(old(State()), Unsubscribed(id), queueSize)
      ensures subscribers == old(subscribers) - {id}
    {
      subscribers := subscribers - {id};
    }

    method Replay(run: string, after: int) returns (events: seq<Event>)
      ensures events == Retained(History(run), after)
    {
      events := [];
      var buffered := History(run);
      var n := 0;
      while n < |buffered|
        invariant 0 <= n <= |buffered|
        invariant events == Retained(buffered[..n], after)
      {
        assert buffered[..n + 1][..n] == buffered[..n];
        if buffered[n].number > after {
          events := events + [buffered[n]];
        }
        n := n + 1;
      }
      assert buffered[..n] == buffered;
    }
  }

  // ---- what a cursor lets through ----

  // The events that exceed everything before them: all a monotone cursor can pass on.
  function Records(es: seq<Event>, cursor: int): seq<Event> {
    if |es| == 0 then []
    else if es[0].number > cursor then [es[0]] + Records(es[1..], es[0].number)
    else Records(es[1..], cursor)
  }

  function CursorAfter(es: seq<Event>, cursor: int): int {
    if |es| == 0 then cursor
    else CursorAfter(es[1..], if es[0].number > cursor then es[0].number else cursor)
  }

  function Last(es: seq<Event>, after: int): int {
    if |es| == 0 then after else es[|es| - 1].number
  }

  ghost predicate Increasing(es: seq<Event>, after: int) {
    && (forall i :: 0 <= i < |es| ==> es[i].number > after)
    && (forall i, j :: 0 <= i < j < |es| ==> es[i].number < es[j].number)
  }

  lemma {:induction false} RecordsSnoc(es: seq<Event>, e: Event, cursor: int)
    ensures Records(es + [e], cursor) == Records(es, cursor) + (if e.number > CursorAfter(es, cursor) then [e] else [])
    ensures CursorAfter(es + [e], cursor)
         == (if e.number > CursorAfter(es, cursor) then e.number else CursorAfter(es, cursor))
  {
    if |es| == 0 {
      assert es + [e] == [e] && [e][1..] == [];
    } else {
      assert (es + [e])[1..] == es[1..] + [e];
      RecordsSnoc(es[1..], e, if es[0].number > cursor then es[0].number else cursor);
    }
  }

  lemma {:induction false} RecordsIncrease(es: seq<Event>, cursor: int)
    ensures Increasing(Records(es, cursor), cursor)
    ensures CursorAfter(es, cursor) == Last(Records(es, cursor), cursor) >= cursor
  {
    if |es| != 0 {
      RecordsIncrease(es[1..], if es[0].number > cursor then es[0].number else cursor);
    }
  }

  lemma {:induction false} RecordsOfIncreasing(es: seq<Event>, cursor: int)
    requires Increasing(es, cursor)
    ensures Records(es, cursor) == es
  {
    if |es| != 0 {
      RecordsOfIncreasing(es[1..], es[0].number);
    }
  }

  // What a lower threshold removes, a higher cursor would have ignored.
  lemma {:induction false} RecordsIgnoreLower(es: seq<Event>, low: int, cursor: int)
    requires low <= cursor
    ensures Records(es, cursor) == Records(Past(es, low), cursor)
  {
    if |es| != 0 {
      var rest := Past(es[1..], low);
      assert ([es[0]] + rest)[1..] == rest;
      assert [] + rest == rest;
      RecordsIgnoreLower(es[1..], low, if es[0].number > cursor then es[0].number else cursor);
    }
  }

  function Past(es: seq<Event>, cursor: int): seq<Event> {
    if |es| == 0 then []
    else (if es[0].number > cursor then [es[0]] else []) + Past(es[1..], cursor)
  }

  // A cursor passes on everything past it if and only if it arrived in increasing order.
  lemma NothingOvertaken(es: seq<Event>, cursor: int)
    ensures Records(es, cursor) == Past(es, cursor) <==> Increasing(Past(es, cursor), cursor)
  {
    RecordsIncrease(es, cursor);
    RecordsIgnoreLower(es, cursor, cursor);
    if Increasing(Past(es, cursor), cursor) {
      RecordsOfIncreasing(Past(es, cursor), cursor);
    }
  }

  // ---- every run at once ----

  function AllTaken(b: Bus, steps: seq<BusStep>, size: nat): Bus {
    if |steps| == 0 then b else Taken(AllTaken(b, steps[..|steps| - 1], size), steps[|steps| - 1], size)
  }

  // The events of one run among those offered, in order.
  function OfferedTo(steps: seq<BusStep>, run: string): seq<Event> {
    if |steps| == 0 then []
    else
      var last := steps[|steps| - 1];
      OfferedTo(steps[..|steps| - 1], run) + (if last.Offering? && last.e.run == run then [last.e] else [])
  }

  predicate Concerns(step: BusStep, id: string) {
    (step.Subscribed? && step.id == id) || (step.Unsubscribed? && step.id == id)
  }

  // The last of a sequence, at most so many; no bound when size is zero.
  ghost predicate HoldsLast(queue: seq<Event>, all: seq<Event>, size: nat) {
    if size == 0 || |all| <= size then queue == all else queue == all[|all| - size..]
  }

  lemma PushHoldsLast(queue: seq<Event>, all: seq<Event>, e: Event, size: nat)
    requires HoldsLast(queue, all, size)
    ensures HoldsLast(Push(queue, e, size), all + [e], size)
  {
  }

  // Whatever is published on whatever runs, in whatever order the halves of the publishes and the
  // comings and goings of other subscribers come: a subscriber's queue holds the newest of what it
  // held and the events offered to its own run, and nothing else.
  lemma {:induction false} QueuesHoldTheirRun(b: Bus, steps: seq<BusStep>, size: nat, id: string)
    requires id in b.subscribers && (size == 0 || |b.subscribers[id].queue| <= size)
    requires forall k :: 0 <= k < |steps| ==> !Concerns(steps[k], id)
    ensures var after := AllTaken(b, steps, size).subscribers;
      && id in after && after[id].run == b.subscribers[id].run
      && HoldsLast(after[id].queue, b.subscribers[id].queue + OfferedTo(steps, b.subscribers[id].run), size)
  {
    var was := b.subscribers[id];
    if |steps| == 0 {
      assert was.queue + [] == was.queue;
    } else {
      var front, last := steps[..|steps| - 1], steps[|steps| - 1];
      QueuesHoldTheirRun(b, front, size, id);
      assert !Concerns(last, id);
      var before, all := AllTaken(b, front, size).subscribers[id], was.queue + OfferedTo(front, was.run);
      if last.Offering? && last.e.run == was.run {
        PushHoldsLast(before.queue, all, last.e, size);
        assert was.queue + OfferedTo(steps, was.run) == all + [last.e];
      } else {
        assert OfferedTo(steps, was.run) == OfferedTo(front, was.run) + [] == OfferedTo(front, was.run);
      }
    }
  }

  // The kinds of the events begun on one run, in order.
  function BegunOn(steps: seq<BusStep>, run: string): seq<string> {
    if |steps| == 0 then []
    else
      var last := steps[|steps| - 1];
      BegunOn(steps[..|steps| - 1], run) + (if last.Begun? && last.run == run then [last.kind] else [])
  }

  function NumberedOn(run: string, kinds: seq<string>): seq<Event> {
    seq(|kinds|, i requires 0 <= i < |kinds| => Event(run, i + 1, kinds[i]))
  }

  function CountOf(b: Bus, run: string): nat { if run in b.counters then b.counters[run] else 0 }
  function HistoryOf(b: Bus, run: string): seq<Event> { if run in b.history then b.history[run] else [] }

  lemma TrimHoldsLast(history: seq<Event>, all: seq<Event>, e: Event)
    requires HoldsLast(history, all, 2000)
    ensures HoldsLast(Trim(history + [e]), all + [e], 2000)
  {
  }

  lemma RunStep(b: Bus, step: BusStep, size: nat, run: string)
    ensures var after := Taken(b, step, size);
      if step.Begun? && step.run == run then
        CountOf(after, run) == CountOf(b, run) + 1
        && HistoryOf(after, run) == Trim(HistoryOf(b, run) + [Event(run, CountOf(b, run) + 1, step.kind)])
      else CountOf(after, run) == CountOf(b, run) && HistoryOf(after, run) == HistoryOf(b, run)
  {
  }

  ghost predicate Numbers(b: Bus, run: string, kinds: seq<string>) {
    CountOf(b, run) == |kinds| && HoldsLast(HistoryOf(b, run), NumberedOn(run, kinds), 2000)
  }

  lemma HistoryNext(history: seq<Event>, run: string, kinds: seq<string>, kind: string)
    requires HoldsLast(history, NumberedOn(run, kinds), 2000)
    ensures HoldsLast(Trim(history + [Event(run, |kinds| + 1, kind)]), NumberedOn(run, kinds + [kind]), 2000)
  {
    var e := Event(run, |kinds| + 1, kind);
    TrimHoldsLast(history, NumberedOn(run, kinds), e);
    assert NumberedOn(run, kinds + [kind]) == NumberedOn(run, kinds) + [e];
  }

  lemma NumbersNext(b: Bus, step: BusStep, size: nat, run: string, kinds: seq<string>)
    requires Numbers(b, run, kinds)
    ensures Numbers(Taken(b, step, size), run, kinds + (if step.Begun? && step.run == run then [step.kind] else []))
  {
    RunStep(b, step, size, run);
    if step.Begun? && step.run == run {
      HistoryNext(HistoryOf(b, run), run, kinds, step.kind);
    } else {
      assert kinds + [] == kinds;
    }
  }

  // Each run numbers its own events one, two, three and so on, and remembers the last 2000 of them.
  lemma {:induction false} RunsNumberTheirEvents(steps: seq<BusStep>, size: nat, run: string)
    ensures Numbers(AllTaken(NoBus, steps, size), run, BegunOn(steps, run))
  {
    if |steps| > 0 {
      var front, last := steps[..|steps| - 1], steps[|steps| - 1];
      RunsNumberTheirEvents(front, size, run);
      NumbersNext(AllTaken(NoBus, front, size), last, size, run, BegunOn(front, run));
    }
  }
}
