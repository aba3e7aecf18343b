/** One stream of one run: the generator's body, and every interleaving of it with publishers. */
module EventStream {
  import opened Common
  import opened EventBus

  // ---- the generator on whatever its queue hands it ----

  function UntilTerminal(es: seq<Event>): seq<Event> {
    if |es| == 0 then []
    else if Terminal(es[0]) then [es[0]]
    else [es[0]] + UntilTerminal(es[1..])
  }

  // The events taken from the queue before the stream gives up idling; None is a timeout.
  function Heard(items: seq<Option<Event>>, heartbeats: nat, limit: Option<nat>): seq<Event> {
    if |items| == 0 then []
    else
      match items[0]
      case Some(e) => [e] + Heard(items[1..], heartbeats, limit)
      case None =>
        if limit.Some? && heartbeats + 1 >= limit.value then []
        else Heard(items[1..], heartbeats + 1, limit)
  }

  lemma {:induction false} UntilTerminalAppend(a: seq<Event>, b: seq<Event>)
    requires forall e :: e in a ==> !Terminal(e)
    ensures UntilTerminal(a + b) == a + UntilTerminal(b)
  {
    if |a| == 0 {
      assert a + b == b;
    } else {
      assert (a + b)[1..] == a[1..] + b;
      UntilTerminalAppend(a[1..], b);
    }
  }

  lemma {:induction false} CursorOverPrefix(es: seq<Event>, cursor: int, n: nat)
    requires n < |es|
    ensures CursorAfter(es[..n + 1], cursor)
         == (if es[n].number > CursorAfter(es[..n], cursor) then es[n].number else CursorAfter(es[..n], cursor))
  {
    assert es[..n + 1] == es[..n] + [es[n]];
    RecordsSnoc(es[..n], es[n], cursor);
  }

  // What is still to be yielded from position k of the queue's items.
  function Rest(items: seq<Option<Event>>, k: nat, heartbeats: nat, limit: Option<nat>, seen: int): seq<Event>
    requires k <= |items|
  {
    UntilTerminal(Records(Heard(items[k..], heartbeats, limit), seen))
  }

  lemma RestStep(items: seq<Option<Event>>, k: nat, heartbeats: nat, limit: Option<nat>, seen: int)
    requires k < |items|
    ensures Rest(items, k, heartbeats, limit, seen) ==
      match items[k]
      case None =>
        if limit.Some? && heartbeats + 1 >= limit.value then [] else Rest(items, k + 1, heartbeats + 1, limit, seen)
      case Some(e) =>
        if e.number <= seen then Rest(items, k + 1, heartbeats, limit, seen)
        else if Terminal(e) then [e]
        else [e] + Rest(items, k + 1, heartbeats, limit, e.number)
  {
    assert items[k..][1..] == items[k + 1..];
    if items[k].Some? {
      var e := items[k].value;
      var later := Heard(items[k + 1..], heartbeats, limit);
      assert ([e] + later)[1..] == later;
      assert ([e] + Records(later, e.number))[1..] == Records(later, e.number);
    }
  }

  // Yields the replay up to the first terminal event.
  method YieldReplay(replay: seq<Event>, after: int) returns (out: seq<Event>, seen: int, ended: bool)
    ensures out == UntilTerminal(replay)
    ensures ended <==> exists e :: e in replay && Terminal(e)
    ensures !ended ==> out == replay && seen == CursorAfter(replay, after)
  {
    out, seen := [], after;
    var n := 0;
    while n < |replay|
      invariant 0 <= n <= |replay| && out == replay[..n]
      invariant forall e :: e in out ==> !Terminal(e)
      invariant seen == CursorAfter(replay[..n], after)
    {
      var e := replay[n];
      CursorOverPrefix(replay, after, n);
      assert replay == out + ([e] + replay[n + 1..]);
      UntilTerminalAppend(out, [e] + replay[n + 1..]);
      seen := if e.number > seen then e.number else seen;
      out := out + [e];
      if Terminal(e) {
        return out, seen, true;
      }
      n := n + 1;
    }
    assert replay[..n] == replay == replay + [];
    UntilTerminalAppend(replay, []);
    ended := false;
  }

  lemma {:induction false} TerminalInside(a: seq<Event>, b: seq<Event>)
    requires exists e :: e in a && Terminal(e)
    ensures UntilTerminal(a + b) == UntilTerminal(a)
  {
    assert (a + b)[1..] == a[1..] + b;
    if !Terminal(a[0]) {
      TerminalInside(a[1..], b);
    }
  }

  // Replay, then everything newer than what was already yielded, up to the first terminal event.
  method Stream(history: seq<Event>, after: int, items: seq<Option<Event>>, limit: Option<nat>)
    returns (out: seq<Event>)
    ensures var replay := Retained(history, after);
      out == UntilTerminal(replay + Records(Heard(items, 0, limit), CursorAfter(replay, after)))
  {
    var replay := Retained(history, after);
    ghost var tail := Records(Heard(items, 0, limit), CursorAfter(replay, after));
    var seen, ended;
    out, seen, ended := YieldReplay(replay, after);
    if ended {
      TerminalInside(replay, tail);
      return;
    }
    UntilTerminalAppend(replay, tail);
    assert items[0..] == items;
    var heartbeats, k := 0, 0;
    while k < |items|
      invariant 0 <= k <= |items|
      invariant out + Rest(items, k, heartbeats, limit, seen) == UntilTerminal(replay + tail)
    {
      var item := items[k];
      RestStep(items, k, heartbeats, limit, seen);
      k := k + 1;
      if item.None? {
        heartbeats := heartbeats + 1;
        if limit.Some? && heartbeats >= limit.value {
          return;
        }
      } else if item.value.number > seen {
        seen := item.value.number;
        out := out + [item.value];
        if Terminal(item.value) {
          return;
        }
      }
    }
  }

  // What the generator yields of a sequence: all of it, or all up to its first terminal event.
  lemma {:induction false} EndsAtTerminal(es: seq<Event>) returns (n: nat)
    ensures n <= |es| && UntilTerminal(es) == es[..n]
    ensures forall i :: 0 <= i < n - 1 ==> es[i].kind !in {"run.succeeded", "run.failed", "run.cancelled"}
    ensures n < |es| ==> n > 0 && es[n - 1].kind in {"run.succeeded", "run.failed", "run.cancelled"}
  {
    n := 0;
    if |es| > 0 {
      if Terminal(es[0]) {
        n := 1;
      } else {
        var m := EndsAtTerminal(es[1..]);
        n := m + 1;
        assert es[..n] == [es[0]] + es[1..][..m];
      }
    }
  }

  // The events among the first n items.
  function Events(items: seq<Option<Event>>): seq<Event> {
    if |items| == 0 then []
    else Events(items[..|items| - 1]) + (if items[|items| - 1].Some? then [items[|items| - 1].value] else [])
  }

  function Timeouts(items: seq<Option<Event>>): nat {
    if |items| == 0 then 0 else Timeouts(items[..|items| - 1]) + (if items[|items| - 1].None? then 1 else 0)
  }

  lemma {:induction false} FirstItem(items: seq<Option<Event>>)
    requires |items| > 0
    ensures Events(items) == (if items[0].Some? then [items[0].value] else []) + Events(items[1..])
    ensures Timeouts(items) == (if items[0].None? then 1 else 0) + Timeouts(items[1..])
  {
    var n := |items| - 1;
    if n == 0 {
      assert items[..0] == [] && items[1..] == [];
    } else {
      FirstItem(items[..n]);
      assert items[..n][1..] == items[1..][..n - 1];
    }
  }

  // The stream gives up at the timeout that reaches the limit and not before; events do not reset
  // the count.
  lemma {:induction false} HeardUntilLimit(items: seq<Option<Event>>, heartbeats: nat, limit: Option<nat>) returns (p: nat)
    ensures p <= |items| && Heard(items, heartbeats, limit) == Events(items[..p])
    ensures p < |items| ==>
              limit.Some? && p > 0 && items[p - 1].None? && heartbeats + Timeouts(items[..p]) >= limit.value
    ensures limit.Some? ==> forall q :: 0 < q < p && items[q - 1].None? ==> heartbeats + Timeouts(items[..q]) < limit.value
  {
    p := 0;
    if |items| > 0 {
      if items[0].None? && limit.Some? && heartbeats + 1 >= limit.value {
        p := 1;
        FirstItems(items, 1);
      } else {
        var idle := heartbeats + (if items[0].None? then 1 else 0);
        var more := HeardUntilLimit(items[1..], idle, limit);
        p := more + 1;
        FirstItems(items, p);
        if limit.Some? {
          NotYet(items, heartbeats, idle, limit.value, p);
        }
      }
    }
  }

  lemma NotYet(items: seq<Option<Event>>, heartbeats: nat, idle: nat, limit: nat, p: nat)
    requires 0 < p <= |items| && idle == heartbeats + (if items[0].None? then 1 else 0)
    requires items[0].None? ==> idle < limit
    requires forall q :: 0 < q < p - 1 && items[1..][q - 1].None? ==> idle + Timeouts(items[1..][..q]) < limit
    ensures forall q :: 0 < q < p && items[q - 1].None? ==> heartbeats + Timeouts(items[..q]) < limit
  {
    forall q | 0 < q < p && items[q - 1].None? ensures heartbeats + Timeouts(items[..q]) < limit {
      FirstItems(items, q);
      assert q > 1 ==> items[1..][q - 2] == items[q - 1];
    }
  }

  lemma FirstItems(items: seq<Option<Event>>, p: nat)
    requires 0 < p <= |items|
    ensures Events(items[..p]) == (if items[0].Some? then [items[0].value] else []) + Events(items[1..][..p - 1])
    ensures Timeouts(items[..p]) == (if items[0].None? then 1 else 0) + Timeouts(items[1..][..p - 1])
  {
    FirstItem(items[..p]);
    assert items[..p][1..] == items[1..][..p - 1];
  }

  // ---- every interleaving ----

  datatype Cursor = Cursor(live: bool, done: bool, pending: seq<Event>, queue: seq<Event>, seen: int, out: seq<Event>)

  // The bus as one run's stream sees it. The last five fields only record what happened: the
  // replay snapshot and its threshold, the events offered to the queue, those already numbered
  // but not yet offered at subscription, those numbered since, and whether the queue overflowed.
  datatype System = System(
    counter: nat, history: seq<Event>, inflight: seq<Event>, stream: Option<Cursor>,
    base: seq<Event>, after: int, arrived: seq<Event>, carried: seq<Event>, begun: seq<Event>, overflowed: bool)

  datatype Step =
    | Begin(kind: string)
    | Offer(i: nat)
    | Open(after: int)
    | ReplayOne
    | GoLive
    | Receive
    | Heartbeat(stop: bool)

  const RUN := "run"

  const Start := System(0, [], [], None, [], 0, [], [], [], false)

  predicate Enabled(s: System, step: Step) {
    match step
    case Begin(_) => true
    case Offer(i) => i < |s.inflight|
    case Open(_) => s.stream.None?
    case ReplayOne => s.stream.Some? && !s.stream.value.live && !s.stream.value.done && s.stream.value.pending != []
    case GoLive => s.stream.Some? && !s.stream.value.live && !s.stream.value.done && s.stream.value.pending == []
    case Receive => s.stream.Some? && s.stream.value.live && !s.stream.value.done && s.stream.value.queue != []
    case Heartbeat(_) => s.stream.Some? && s.stream.value.live && !s.stream.value.done
  }

  function Yield(c: Cursor, e: Event): Cursor {
    c.(seen := if e.number > c.seen then e.number else c.seen, out := c.out + [e], done := Terminal(e))
  }

  function Apply(s: System, step: Step, size: nat): System
    requires Enabled(s, step)
  {
    match step
    case Begin(kind) =>
      var e := Event(RUN, s.counter + 1, kind);
      s.(counter := s.counter + 1, history := Trim(s.history + [e]), inflight := s.inflight + [e],
         begun := if s.stream.Some? then s.begun + [e] else [])
    case Offer(i) =>
      var e := s.inflight[i];
      var left := s.(inflight := s.inflight[..i] + s.inflight[i + 1..]);
      if s.stream.None? || s.stream.value.done then left
      else
        var c := s.stream.value;
        left.(stream := Some(c.(queue := Push(c.queue, e, size))), arrived := s.arrived + [e],
              overflowed := s.overflowed || Full(c.queue, size))
    case Open(after) =>
      var base := Retained(s.history, after);
      s.(stream := Some(Cursor(false, false, base, [], after, [])), base := base, after := after,
         arrived := [], carried := s.inflight, begun := [])
    case ReplayOne =>
      var c := s.stream.value;
      s.(stream := Some(Yield(c, c.pending[0]).(pending := c.pending[1..])))
    case GoLive => s.(stream := Some(s.stream.value.(live := true)))
    case Receive =>
      var c := s.stream.value;
      var rest := c.(queue := c.queue[1..]);
      s.(stream := Some(if c.queue[0].number <= c.seen then rest else Yield(rest, c.queue[0])))
    case Heartbeat(stop) => s.(stream := Some(s.stream.value.(done := stop)))
  }

  ghost predicate ValidRun(states: seq<System>, steps: seq<Step>, size: nat) {
    && |states| == |steps| + 1 && states[0] == Start
    && forall i :: 0 <= i < |steps| ==> Enabled(states[i], steps[i]) && states[i + 1] == Apply(states[i], steps[i], size)
  }

  // ---- order, under any interleaving ----

  ghost predicate Numbered(s: System) {
    && Increasing(s.history, 0)
    && (forall e :: e in s.history ==> e.number <= s.counter)
    && (forall e :: e in s.inflight ==> 0 < e.number <= s.counter)
  }

  ghost predicate OrderedCursor(c: Cursor, after: int) {
    && Increasing(c.out + c.pending, after)
    && c.seen == Last(c.out, after)
    && (c.live ==> c.pending == [])
    && (forall i :: 0 <= i < |c.out| && Terminal(c.out[i]) ==> i == |c.out| - 1 && c.done)
  }

  ghost predicate Ordered(s: System) {
    Numbered(s) && (s.stream.Some? ==> OrderedCursor(s.stream.value, s.after))
  }

  lemma {:induction false} RetainedAre(history: seq<Event>, after: int)
    ensures forall e :: e in Retained(history, after) <==> e in history && e.number > after
  {
    if |history| != 0 {
      var n := |history| - 1;
      RetainedAre(history[..n], after);
      assert history == history[..n] + [history[n]];
    }
  }

  lemma IncreasingSnoc(es: seq<Event>, e: Event, after: int)
    requires Increasing(es, after) && e.number > after && forall x :: x in es ==> x.number < e.number
    ensures Increasing(es + [e], after)
  {
    forall i | 0 <= i < |es| ensures es[i].number < e.number {
      assert es[i] in es;
    }
  }

  lemma {:induction false} RetainedIncreases(history: seq<Event>, low: int, after: int)
    requires Increasing(history, low)
    ensures Increasing(Retained(history, after), after)
    ensures forall e :: e in Retained(history, after) <==> e in history && e.number > after
  {
    RetainedAre(history, after);
    if |history| != 0 {
      var n := |history| - 1;
      RetainedIncreases(history[..n], low, after);
      if history[n].number > after {
        forall x | x in Retained(history[..n], after) ensures x.number < history[n].number {
          var i :| 0 <= i < n && history[i] == x;
        }
        IncreasingSnoc(Retained(history[..n], after), history[n], after);
      }
    }
  }

  lemma YieldOrdered(c: Cursor, e: Event, pending: seq<Event>, after: int)
    requires OrderedCursor(c, after) && !c.done && e.number > c.seen
    requires c.pending == [e] + pending || (c.pending == [] && pending == [])
    ensures OrderedCursor(Yield(c, e).(pending := pending), after)
  {
    var next := Yield(c, e).(pending := pending);
    if c.pending == [e] + pending {
      assert next.out + next.pending == c.out + c.pending;
    } else {
      assert c.out + c.pending == c.out && next.out + next.pending == c.out + [e];
    }
  }

  lemma SuffixIncreases(es: seq<Event>, k: nat, low: int)
    requires Increasing(es, low) && k <= |es|
    ensures Increasing(es[k..], low)
    ensures forall x :: x in es[k..] ==> x in es
  {
  }

  lemma TrimIncreases(history: seq<Event>, e: Event, counter: nat)
    requires Increasing(history, 0) && e.number == counter + 1
    requires forall x :: x in history ==> x.number <= counter
    ensures Increasing(Trim(history + [e]), 0)
    ensures forall x :: x in Trim(history + [e]) ==> x.number <= counter + 1
  {
    var all := history + [e];
    IncreasingSnoc(history, e, 0);
    SuffixIncreases(all, if |all| > HISTORY_LIMIT then |all| - HISTORY_LIMIT else 0, 0);
    assert all[0..] == all;
  }

  lemma BeginNumbered(s: System, kind: string, size: nat)
    requires Numbered(s)
    ensures Numbered(Apply(s, Begin(kind), size))
  {
    var e, t := Event(RUN, s.counter + 1, kind), Apply(s, Begin(kind), size);
    TrimIncreases(s.history, e, s.counter);
    assert t.history == Trim(s.history + [e]) && t.inflight == s.inflight + [e];
  }

  lemma StepNumbered(s: System, step: Step, size: nat)
    requires Numbered(s) && Enabled(s, step)
    ensures Numbered(Apply(s, step, size))
  {
    match step
    case Begin(kind) => BeginNumbered(s, kind, size);
    case Offer(i) =>
      var left := s.inflight[..i] + s.inflight[i + 1..];
      assert forall e :: e in left ==> e in s.inflight;
    case _ =>
  }

  lemma StepCursor(s: System, step: Step, size: nat)
    requires Ordered(s) && Enabled(s, step) && (step.ReplayOne? || step.Receive?)
    ensures OrderedCursor(Apply(s, step, size).stream.value, s.after)
  {
    var c := s.stream.value;
    if step.ReplayOne? {
      assert (c.out + c.pending)[|c.out|] == c.pending[0];
      if |c.out| > 0 {
        assert (c.out + c.pending)[|c.out| - 1] == c.out[|c.out| - 1];
      }
      assert c.pending == [c.pending[0]] + c.pending[1..];
      YieldOrdered(c, c.pending[0], c.pending[1..], s.after);
    } else if c.queue[0].number > c.seen {
      var rest := c.(queue := c.queue[1..]);
      YieldOrdered(rest, c.queue[0], [], s.after);
    }
  }

  lemma StepOrdered(s: System, step: Step, size: nat)
    requires Ordered(s) && Enabled(s, step)
    ensures Ordered(Apply(s, step, size))
  {
    StepNumbered(s, step, size);
    if step.ReplayOne? || step.Receive? {
      StepCursor(s, step, size);
    } else if step.Open? {
      RetainedIncreases(s.history, 0, step.after);
      assert [] + Retained(s.history, step.after) == Retained(s.history, step.after);
    }
  }

  lemma {:induction false} RunOrdered(states: seq<System>, steps: seq<Step>, size: nat, n: nat)
    requires ValidRun(states, steps, size) && n < |states|
    ensures Ordered(states[n])
  {
    if n > 0 {
      RunOrdered(states, steps, size, n - 1);
      StepOrdered(states[n - 1], steps[n - 1], size);
    }
  }

  // In every interleaving a stream's events have strictly increasing numbers past its threshold,
  // and a terminal event is the last thing it yields.
  lemma StreamIsOrdered(states: seq<System>, steps: seq<Step>, size: nat, n: nat)
    requires ValidRun(states, steps, size) && n < |states| && states[n].stream.Some?
    ensures var c := states[n].stream.value;
      && Increasing(c.out, states[n].after)
      && forall i :: 0 <= i < |c.out| && c.out[i].kind in {"run.succeeded", "run.failed", "run.cancelled"} ==>
           i == |c.out| - 1 && c.done
  {
    RunOrdered(states, steps, size, n);
    var c := states[n].stream.value;
    assert forall i :: 0 <= i < |c.out| ==> c.out[i] == (c.out + c.pending)[i];
  }

  // ---- what overflow may lose ----

  ghost predicate Suffix(queue: seq<Event>, all: seq<Event>) {
    |queue| <= |all| && all[|all| - |queue|..] == queue
  }

  ghost predicate HoldsNewest(s: System, size: nat) {
    s.stream.Some? ==>
      && Suffix(s.stream.value.queue, s.arrived)
      && (size > 0 ==> |s.stream.value.queue| <= size)
  }

  lemma PushKeepsSuffix(queue: seq<Event>, all: seq<Event>, e: Event, size: nat)
    requires Suffix(queue, all)
    ensures Suffix(Push(queue, e, size), all + [e])
    ensures |Push(queue, e, size)| > 0 && Push(queue, e, size)[|Push(queue, e, size)| - 1] == e
  {
    var rest := if Full(queue, size) then queue[1..] else queue;
    assert all[|all| - |rest|..] == rest;
    assert (all + [e])[|all| - |rest|..] == all[|all| - |rest|..] + [e];
  }

  lemma StepHoldsNewest(s: System, step: Step, size: nat)
    requires HoldsNewest(s, size) && Enabled(s, step)
    ensures HoldsNewest(Apply(s, step, size), size)
  {
    match step
    case Offer(i) =>
      if s.stream.Some? {
        PushKeepsSuffix(s.stream.value.queue, s.arrived, s.inflight[i], size);
      }
    case Receive =>
      var queue := s.stream.value.queue;
      assert s.arrived[|s.arrived| - |queue[1..]|..] == queue[1..];
    case _ =>
  }

  lemma {:induction false} RunHoldsNewest(states: seq<System>, steps: seq<Step>, size: nat, n: nat)
    requires ValidRun(states, steps, size) && n < |states|
    ensures HoldsNewest(states[n], size)
  {
    if n > 0 {
      RunHoldsNewest(states, steps, size, n - 1);
      StepHoldsNewest(states[n - 1], steps[n - 1], size);
    }
  }

  // In every interleaving of publishers and the reader, overflowed or not, the queue holds exactly
  // the newest of the events offered to it and never more than its size; the event just offered is
  // there, last.
  lemma OverflowSparesNewest(states: seq<System>, steps: seq<Step>, size: nat, n: nat)
    requires ValidRun(states, steps, size) && n < |steps| && states[n + 1].stream.Some?
    ensures var queue, arrived := states[n + 1].stream.value.queue, states[n + 1].arrived;
      && Suffix(queue, arrived) && (size > 0 ==> |queue| <= size)
      && (steps[n].Offer? && !states[n].stream.value.done ==>
            |queue| > 0 && queue[|queue| - 1] == states[n].inflight[steps[n].i])
  {
    RunHoldsNewest(states, steps, size, n + 1);
    RunHoldsNewest(states, steps, size, n);
    if steps[n].Offer? {
      PushKeepsSuffix(states[n].stream.value.queue, states[n].arrived, states[n].inflight[steps[n].i], size);
    }
  }

  // ---- nothing lost without overflow ----

  // A replay, and then what a cursor that read all of it passes on.
  function ReplayThen(base: seq<Event>, es: seq<Event>, after: int): seq<Event> {
    base + Records(es, Last(base, after))
  }

  function Delivered(s: System): seq<Event> { ReplayThen(s.base, s.arrived, s.after) }

  // What the stream yielded or still holds is exactly what its cursor could pass on.
  ghost predicate FaithfulTo(c: Cursor, after: int, delivered: seq<Event>) {
    c.out <= delivered && (!c.done ==> ReplayThen(c.out + c.pending, c.queue, after) == delivered)
  }

  ghost predicate Faithful(s: System) {
    s.stream.Some? && !s.overflowed ==> FaithfulTo(s.stream.value, s.after, Delivered(s))
  }

  lemma LastOfRecords(base: seq<Event>, es: seq<Event>, after: int)
    ensures Last(ReplayThen(base, es, after), after) == CursorAfter(es, Last(base, after))
  {
    RecordsIncrease(es, Last(base, after));
  }

  // One more event extends it by the event itself or by nothing, depending on what it ends with.
  lemma OneMore(base: seq<Event>, es: seq<Event>, e: Event, after: int)
    ensures var before := ReplayThen(base, es, after);
      ReplayThen(base, es + [e], after) == before + (if e.number > Last(before, after) then [e] else [])
  {
    LastOfRecords(base, es, after);
    RecordsSnoc(es, e, Last(base, after));
  }

  lemma OfferFaithful(c: Cursor, e: Event, base: seq<Event>, arrived: seq<Event>, after: int)
    requires !c.done && FaithfulTo(c, after, ReplayThen(base, arrived, after))
    ensures FaithfulTo(c.(queue := c.queue + [e]), after, ReplayThen(base, arrived + [e], after))
  {
    OneMore(base, arrived, e, after);
    OneMore(c.out + c.pending, c.queue, e, after);
  }

  lemma ReplayFaithful(c: Cursor, after: int, delivered: seq<Event>)
    requires FaithfulTo(c, after, delivered) && !c.done && c.pending != []
    ensures FaithfulTo(Yield(c, c.pending[0]).(pending := c.pending[1..]), after, delivered)
  {
    assert c.out + [c.pending[0]] + c.pending[1..] == c.out + c.pending;
  }

  // Taking the head of the queue moves it to the output or drops it.
  lemma TakeHead(base: seq<Event>, es: seq<Event>, after: int)
    requires |es| > 0
    ensures ReplayThen(base, es, after)
         == if es[0].number > Last(base, after) then ReplayThen(base + [es[0]], es[1..], after)
            else ReplayThen(base, es[1..], after)
  {
    if es[0].number > Last(base, after) {
      var rest := Records(es[1..], es[0].number);
      assert base + ([es[0]] + rest) == base + [es[0]] + rest;
    }
  }

  lemma ReceiveFaithful(c: Cursor, after: int, delivered: seq<Event>)
    requires FaithfulTo(c, after, delivered) && !c.done && c.queue != []
    requires c.pending == [] && c.seen == Last(c.out, after)
    ensures var rest := c.(queue := c.queue[1..]);
      FaithfulTo(if c.queue[0].number <= c.seen then rest else Yield(rest, c.queue[0]), after, delivered)
  {
    var e := c.queue[0];
    assert c.out + [] == c.out && c.out + [e] + [] == c.out + [e];
    TakeHead(c.out, c.queue, after);
  }

  lemma OfferStepFaithful(s: System, i: nat, size: nat)
    requires Faithful(s) && Enabled(s, Offer(i))
    ensures Faithful(Apply(s, Offer(i), size))
  {
    if s.stream.Some? && !s.stream.value.done && !s.overflowed {
      OfferFaithful(s.stream.value, s.inflight[i], s.base, s.arrived, s.after);
    }
  }

  lemma OpenFaithful(s: System, after: int, size: nat)
    requires Enabled(s, Open(after))
    ensures Faithful(Apply(s, Open(after), size))
  {
    var t := Apply(s, Open(after), size);
    assert [] + t.base == t.base && t.base + [] == t.base;
  }

  lemma StepFaithful(s: System, step: Step, size: nat)
    requires Ordered(s) && Faithful(s) && Enabled(s, step)
    ensures Faithful(Apply(s, step, size))
  {
    match step
    case Offer(i) => OfferStepFaithful(s, i, size);
    case Open(after) => OpenFaithful(s, after, size);
    case ReplayOne =>
      if !s.overflowed { ReplayFaithful(s.stream.value, s.after, Delivered(s)); }
    case Receive =>
      if !s.overflowed { ReceiveFaithful(s.stream.value, s.after, Delivered(s)); }
    case _ =>
  }

  // In every interleaving without overflow, a stream that has caught up yielded its replay and
  // then every later arrival that was newer than all before it; one that ended yielded a prefix.
  lemma {:induction false} RunFaithful(states: seq<System>, steps: seq<Step>, size: nat, n: nat)
    requires ValidRun(states, steps, size) && n < |states|
    ensures Faithful(states[n])
  {
    if n > 0 {
      RunFaithful(states, steps, size, n - 1);
      RunOrdered(states, steps, size, n - 1);
      StepFaithful(states[n - 1], steps[n - 1], size);
    }
  }

  // ---- publishes that do not overlap ----

  // Each publish offers its event before the next one takes a number.
  ghost predicate Serial(states: seq<System>, steps: seq<Step>)
    requires |states| == |steps| + 1
  {
    forall i :: 0 <= i < |steps| && steps[i].Begin? ==> states[i].inflight == []
  }

  ghost predicate InOrder(s: System) {
    && |s.inflight| <= 1
    && (forall e :: e in s.inflight ==> e.number == s.counter && |s.history| > 0 && s.history[|s.history| - 1] == e)
    && (s.stream.Some? ==>
          && s.arrived <= s.carried + s.begun
          && (!s.stream.value.done ==> s.arrived + s.inflight == s.carried + s.begun)
          && (forall e :: e in s.carried ==> e.number <= Last(s.base, s.after))
          && Increasing(s.begun, Last(s.base, -1))
          && (forall e :: e in s.carried + s.begun ==> e.number <= s.counter)
          && (forall e :: e in s.base ==> e.number <= s.counter))
  }

  lemma BeginInOrder(s: System, kind: string, size: nat)
    requires Ordered(s) && InOrder(s) && s.inflight == []
    ensures InOrder(Apply(s, Begin(kind), size))
  {
    var t := Apply(s, Begin(kind), size);
    if s.stream.Some? {
      assert s.carried + (s.begun + t.inflight) == s.carried + s.begun + t.inflight;
      assert s.base == [] || s.base[|s.base| - 1] in s.base;
    }
  }

  lemma OfferInOrder(s: System, i: nat, size: nat)
    requires Ordered(s) && InOrder(s) && Enabled(s, Offer(i))
    ensures InOrder(Apply(s, Offer(i), size))
  {
    var t := Apply(s, Offer(i), size);
    assert s.inflight == [s.inflight[0]] && t.inflight == [];
    if s.stream.Some? && !s.stream.value.done {
      assert t.arrived + [] == s.carried + s.begun;
    }
  }

  lemma CarriedInBase(s: System, after: int)
    requires Ordered(s) && InOrder(s)
    ensures forall e :: e in s.inflight ==> e.number <= Last(Retained(s.history, after), after)
  {
    var base := Retained(s.history, after);
    RetainedIncreases(s.history, 0, after);
    LastAtLeast(base, after);
    forall e | e in s.inflight ensures e.number <= Last(base, after) {
      if e.number > after {
        assert e in base;
        var i :| 0 <= i < |base| && base[i] == e;
      }
    }
  }

  lemma OpenInOrder(s: System, after: int, size: nat)
    requires Ordered(s) && InOrder(s) && Enabled(s, Open(after))
    ensures InOrder(Apply(s, Open(after), size))
  {
    var t := Apply(s, Open(after), size);
    CarriedInBase(s, after);
    RetainedIncreases(s.history, 0, after);
    assert t.arrived + t.inflight == t.inflight == t.carried + t.begun;
  }

  lemma StepInOrder(s: System, step: Step, size: nat)
    requires Ordered(s) && InOrder(s) && Enabled(s, step)
    requires step.Begin? ==> s.inflight == []
    ensures InOrder(Apply(s, step, size))
  {
    match step
    case Begin(kind) => BeginInOrder(s, kind, size);
    case Offer(i) => OfferInOrder(s, i, size);
    case Open(after) => OpenInOrder(s, after, size);
    case _ =>
  }

  lemma LastAtLeast(es: seq<Event>, after: int)
    requires Increasing(es, after)
    ensures Last(es, after) >= after
  {
  }

  lemma {:induction false} RunInOrder(states: seq<System>, steps: seq<Step>, size: nat, n: nat)
    requires ValidRun(states, steps, size) && Serial(states, steps) && n < |states|
    ensures InOrder(states[n])
  {
    if n > 0 {
      RunInOrder(states, steps, size, n - 1);
      RunOrdered(states, steps, size, n - 1);
      StepInOrder(states[n - 1], steps[n - 1], size);
    }
  }

  lemma {:induction false} RecordsAppend(a: seq<Event>, b: seq<Event>, cursor: int)
    ensures Records(a + b, cursor) == Records(a, cursor) + Records(b, CursorAfter(a, cursor))
  {
    if |a| == 0 {
      assert a + b == b;
    } else {
      assert (a + b)[1..] == a[1..] + b;
      RecordsAppend(a[1..], b, if a[0].number > cursor then a[0].number else cursor);
    }
  }

  lemma {:induction false} OldAreIgnored(es: seq<Event>, cursor: int)
    requires forall e :: e in es ==> e.number <= cursor
    ensures Records(es, cursor) == [] && CursorAfter(es, cursor) == cursor
  {
    if |es| != 0 {
      assert es[0] in es;
      OldAreIgnored(es[1..], cursor);
    }
  }

  lemma {:induction false} RecordsOfNew(es: seq<Event>, low: int, after: int, cursor: int)
    requires Increasing(es, low) && after <= cursor <= (if low > after then low else after)
    ensures Records(es, cursor) == Past(es, after)
  {
    if |es| != 0 {
      assert es[0].number > low;
      if es[0].number > cursor {
        RecordsOfNew(es[1..], es[0].number, after, es[0].number);
      } else {
        RecordsOfNew(es[1..], es[0].number, after, cursor);
      }
    }
  }

  // When publishes of a run do not overlap and the queue never overflowed, the stream yields
  // every retained event past its threshold and every one published since, each once and in
  // order: all of them once it has caught up, and always a prefix of them.
  lemma SerialStreamIsComplete(states: seq<System>, steps: seq<Step>, size: nat, n: nat)
    requires ValidRun(states, steps, size) && Serial(states, steps) && n < |states|
    requires states[n].stream.Some? && !states[n].overflowed
    ensures var s := states[n];
      var c := s.stream.value;
      && c.out <= s.base + Past(s.begun, s.after)
      && (!c.done && c.pending == [] && c.queue == [] && s.inflight == [] ==>
            c.out == s.base + Past(s.begun, s.after))
  {
    var s := states[n];
    var c := s.stream.value;
    RunFaithful(states, steps, size, n);
    RunInOrder(states, steps, size, n);
    RunBase(states, steps, size, n);
    var cursor := Last(s.base, s.after);
    OldAreIgnored(s.carried, cursor);
    RecordsAppend(s.carried, s.begun, cursor);
    LastAtLeast(s.base, s.after);
    RecordsOfNew(s.begun, Last(s.base, -1), s.after, cursor);
    assert Records(s.carried + s.begun, cursor) == Past(s.begun, s.after);
    var rest := (s.carried + s.begun)[|s.arrived|..];
    assert s.carried + s.begun == s.arrived + rest;
    RecordsAppend(s.arrived, rest, cursor);
    assert Delivered(s) <= s.base + Past(s.begun, s.after);
    if !c.done && c.pending == [] && c.queue == [] && s.inflight == [] {
      assert s.arrived == s.arrived + s.inflight == s.carried + s.begun;
      assert c.out == c.out + c.pending + Records(c.queue, Last(c.out + c.pending, s.after));
    }
  }

  lemma {:induction false} RunBase(states: seq<System>, steps: seq<Step>, size: nat, n: nat)
    requires ValidRun(states, steps, size) && n < |states|
    ensures states[n].stream.Some? ==> Increasing(states[n].base, states[n].after)
  {
    if n > 0 {
      RunBase(states, steps, size, n - 1);
      RunOrdered(states, steps, size, n - 1);
      if steps[n - 1].Open? {
        RetainedIncreases(states[n - 1].history, 0, steps[n - 1].after);
      }
    }
  }

  // ---- the same by number ----

  ghost predicate HasNumber(es: seq<Event>, k: int) { exists i :: 0 <= i < |es| && es[i].number == k }

  // The last so many numbers up to this one, in order.
  ghost predicate Counts(es: seq<Event>, last: int) {
    forall i :: 0 <= i < |es| ==> es[i].number == last - |es| + 1 + i
  }

  // The run's last number when the stream subscribed.
  function Opened(s: System): int { s.counter - |s.begun| }

  // The history holds the newest 2000 numbers, a replay those of them past the threshold, and all
  // numbers taken since are on record.
  ghost predicate Consecutive(s: System) {
    && Counts(s.history, s.counter) && |s.history| == (if s.counter <= 2000 then s.counter else 2000)
    && (s.stream.Some? ==>
          && Counts(s.begun, s.counter) && 0 <= Opened(s)
          && forall k :: HasNumber(s.base, k) <==> 0 < k <= Opened(s) && k > s.after && k > Opened(s) - 2000)
  }

  lemma CountsHave(es: seq<Event>, last: int, k: int)
    requires Counts(es, last)
    ensures HasNumber(es, k) <==> last - |es| < k <= last
  {
    if last - |es| < k <= last {
      assert es[k - (last - |es| + 1)].number == k;
    }
  }

  lemma RetainedHave(history: seq<Event>, after: int, k: int)
    ensures HasNumber(Retained(history, after), k) <==> HasNumber(history, k) && k > after
  {
    RetainedAre(history, after);
    var some := Retained(history, after);
    if HasNumber(some, k) {
      var i :| 0 <= i < |some| && some[i].number == k;
      assert some[i] in some;
      var j :| 0 <= j < |history| && history[j] == some[i];
    }
    if HasNumber(history, k) && k > after {
      var i :| 0 <= i < |history| && history[i].number == k;
      assert history[i] in history;
      var j :| 0 <= j < |some| && some[j] == history[i];
    }
  }

  lemma BeginConsecutive(s: System, kind: string, size: nat)
    requires Consecutive(s)
    ensures Consecutive(Apply(s, Begin(kind), size))
  {
    var e, t := Event(RUN, s.counter + 1, kind), Apply(s, Begin(kind), size);
    assert t.history == Trim(s.history + [e]);
    assert Counts(s.history + [e], t.counter);
    assert s.stream.Some? ==> t.begun == s.begun + [e] && Opened(t) == Opened(s) && t.base == s.base;
  }

  lemma OpenConsecutive(s: System, after: int, size: nat)
    requires Consecutive(s) && Enabled(s, Open(after))
    ensures Consecutive(Apply(s, Open(after), size))
  {
    forall k ensures HasNumber(Retained(s.history, after), k) <==>
                       0 < k <= s.counter && k > after && k > s.counter - 2000
    {
      RetainedHave(s.history, after, k);
      CountsHave(s.history, s.counter, k);
    }
  }

  lemma {:induction false} RunConsecutive(states: seq<System>, steps: seq<Step>, size: nat, n: nat)
    requires ValidRun(states, steps, size) && n < |states|
    ensures Consecutive(states[n])
  {
    if n > 0 {
      var s, step := states[n - 1], steps[n - 1];
      RunConsecutive(states, steps, size, n - 1);
      match step
      case Begin(kind) => BeginConsecutive(s, kind, size);
      case Open(after) => OpenConsecutive(s, after, size);
      case _ => SameRecord(s, Apply(s, step, size));
    }
  }

  lemma SameRecord(s: System, t: System)
    requires Consecutive(s) && t.history == s.history && t.counter == s.counter && t.begun == s.begun
    requires t.base == s.base && t.after == s.after && (t.stream.Some? ==> s.stream.Some?)
    ensures Consecutive(t)
  {
  }

  lemma BothHave(a: seq<Event>, b: seq<Event>, k: int)
    ensures HasNumber(a + b, k) <==> HasNumber(a, k) || HasNumber(b, k)
  {
    if HasNumber(a, k) {
      var i :| 0 <= i < |a| && a[i].number == k;
      assert (a + b)[i].number == k;
    }
    if HasNumber(b, k) {
      var i :| 0 <= i < |b| && b[i].number == k;
      assert (a + b)[|a| + i].number == k;
    }
  }

  lemma {:induction false} PastHave(es: seq<Event>, after: int, k: int)
    ensures HasNumber(Past(es, after), k) <==> HasNumber(es, k) && k > after
  {
    if |es| != 0 {
      PastHave(es[1..], after, k);
      BothHave([es[0]], es[1..], k);
      BothHave(if es[0].number > after then [es[0]] else [], Past(es[1..], after), k);
      assert es == [es[0]] + es[1..];
      assert HasNumber([es[0]], k) <==> es[0].number == k;
    }
  }

  // When publishes do not overlap and the queue never overflowed, a stream that has caught up has
  // yielded exactly the numbers past its threshold up to the run's last, as far back as the 2000
  // that were remembered when it subscribed.
  lemma EveryNumberIsYielded(states: seq<System>, steps: seq<Step>, size: nat, n: nat, k: int)
    requires ValidRun(states, steps, size) && Serial(states, steps) && n < |states|
    requires states[n].stream.Some? && !states[n].overflowed && states[n].inflight == []
    requires var c := states[n].stream.value; !c.done && c.pending == [] && c.queue == []
    ensures var s := states[n];
      HasNumber(s.stream.value.out, k) <==> 0 < k <= s.counter && k > s.after && k > Opened(s) - 2000
  {
    var s := states[n];
    SerialStreamIsComplete(states, steps, size, n);
    RunConsecutive(states, steps, size, n);
    BothHave(s.base, Past(s.begun, s.after), k);
    PastHave(s.begun, s.after, k);
    CountsHave(s.begun, s.counter, k);
  }

  // Overlapping or not: a stream that has caught up without overflow lost nothing if and only if
  // the events past its replay reached its queue in the order of their numbers.
  lemma CompleteIffOfferedInOrder(states: seq<System>, steps: seq<Step>, size: nat, n: nat)
    requires ValidRun(states, steps, size) && n < |states|
    requires states[n].stream.Some? && !states[n].overflowed
    requires var c := states[n].stream.value; !c.done && c.pending == [] && c.queue == []
    ensures var s := states[n];
      var cursor := Last(s.base, s.after);
      s.stream.value.out == s.base + Past(s.arrived, cursor) <==> Increasing(Past(s.arrived, cursor), cursor)
  {
    var s := states[n];
    var c := s.stream.value;
    var cursor := Last(s.base, s.after);
    RunFaithful(states, steps, size, n);
    assert c.out == c.out + c.pending + Records(c.queue, Last(c.out + c.pending, s.after)) == Delivered(s);
    NothingOvertaken(s.arrived, cursor);
    assert c.out[|s.base|..] == Records(s.arrived, cursor);
    assert (s.base + Past(s.arrived, cursor))[|s.base|..] == Past(s.arrived, cursor);
  }

  lemma Extend(states: seq<System>, steps: seq<Step>, size: nat, step: Step, next: System)
    requires ValidRun(states, steps, size) && Enabled(states[|steps|], step)
    requires next == Apply(states[|steps|], step, size)
    ensures ValidRun(states + [next], steps + [step], size)
  {
  }

  predicate OwnStep(step: Step) { step.ReplayOne? || step.GoLive? || step.Receive? }

  // Nothing is left for the stream to do until something arrives, or it is over.
  predicate CaughtUp(c: Cursor) { c.done || (c.live && c.pending == [] && c.queue == []) }

  lemma NextOwnStep(s: System, size: nat) returns (step: Step)
    requires Ordered(s) && s.stream.Some? && !CaughtUp(s.stream.value)
    ensures OwnStep(step) && Enabled(s, step) && Apply(s, step, size).stream.Some?
    ensures var c, d := s.stream.value, Apply(s, step, size).stream.value;
      |d.pending| + |d.queue| + (if d.live then 0 else 1) < |c.pending| + |c.queue| + (if c.live then 0 else 1)
  {
    var c := s.stream.value;
    step := if c.live then Receive else if c.pending != [] then ReplayOne else GoLive;
  }

  // In every interleaving a stream that is left to itself catches up: its own steps suffice, one
  // for each event it still has to read and one to go live.
  lemma {:induction false} LeftAloneItCatchesUp(states: seq<System>, steps: seq<Step>, size: nat)
    returns (allStates: seq<System>, allSteps: seq<Step>)
    requires ValidRun(states, steps, size) && states[|steps|].stream.Some?
    ensures ValidRun(allStates, allSteps, size) && steps <= allSteps && states <= allStates
    ensures forall i :: |steps| <= i < |allSteps| ==> OwnStep(allSteps[i])
    ensures allStates[|allSteps|].stream.Some? && CaughtUp(allStates[|allSteps|].stream.value)
    decreases var c := states[|steps|].stream.value; |c.pending| + |c.queue| + (if c.live then 0 else 1)
  {
    allStates, allSteps := states, steps;
    var s := states[|steps|];
    if !CaughtUp(s.stream.value) {
      RunOrdered(states, steps, size, |steps|);
      var step := NextOwnStep(s, size);
      Extend(states, steps, size, step, Apply(s, step, size));
      allStates, allSteps := LeftAloneItCatchesUp(states + [Apply(s, step, size)], steps + [step], size);
    }
  }

  const EARLY := Event(RUN, 1, "a")
  const LATE := Event(RUN, 2, "b")

  lemma OverlapBegins() returns (states: seq<System>, steps: seq<Step>)
    ensures ValidRun(states, steps, 512)
    ensures states[|steps|] == System(2, [EARLY, LATE], [EARLY, LATE], Some(Cursor(true, false, [], [], 0, [])),
                                      [], 0, [], [], [EARLY, LATE], false)
  {
    var s1 := Start.(stream := Some(Cursor(false, false, [], [], 0, [])));
    var s2 := s1.(stream := Some(Cursor(true, false, [], [], 0, [])));
    var s3 := s2.(counter := 1, history := [EARLY], inflight := [EARLY], begun := [EARLY]);
    states, steps := [Start], [];
    Extend(states, steps, 512, Open(0), s1);
    states, steps := states + [s1], steps + [Open(0)];
    Extend(states, steps, 512, GoLive, s2);
    states, steps := states + [s2], steps + [GoLive];
    Extend(states, steps, 512, Begin("a"), s3);
    states, steps := states + [s3], steps + [Begin("a")];
    var s4 := s3.(counter := 2, history := [EARLY, LATE], inflight := [EARLY, LATE], begun := [EARLY, LATE]);
    Extend(states, steps, 512, Begin("b"), s4);
    states, steps := states + [s4], steps + [Begin("b")];
  }

  // Overlapping publishes can reach the queue in reverse order, and then the earlier event is
  // lost: this run ends caught up, with nothing in flight, having yielded only the later one.
  lemma OverlapLosesAnEvent() returns (states: seq<System>, steps: seq<Step>)
    ensures ValidRun(states, steps, 512)
    ensures var s := states[|steps|];
      && s.inflight == [] && !s.overflowed && s.begun == [EARLY, LATE]
      && s.stream == Some(Cursor(true, false, [], [], 2, [LATE]))
  {
    states, steps := OverlapBegins();
    var s4 := states[|steps|];
    assert |LATE.kind| == 1 && !Terminal(LATE);
    assert [LATE][1..] == [] && [] + [LATE] == [LATE] && [EARLY][1..] == [] && [] + [EARLY] == [EARLY];
    assert [EARLY][..0] + [EARLY][1..] == [];
    var s5 := s4.(inflight := [EARLY], stream := Some(Cursor(true, false, [], [LATE], 0, [])), arrived := [LATE]);
    assert [EARLY, LATE][..1] + [EARLY, LATE][2..] == [EARLY];
    Extend(states, steps, 512, Offer(1), s5);
    states, steps := states + [s5], steps + [Offer(1)];
    var s6 := s5.(stream := Some(Cursor(true, false, [], [], 2, [LATE])));
    Extend(states, steps, 512, Receive, s6);
    states, steps := states + [s6], steps + [Receive];
    var s7 := s6.(inflight := [], stream := Some(Cursor(true, false, [], [EARLY], 2, [LATE])), arrived := [LATE, EARLY]);
    Extend(states, steps, 512, Offer(0), s7);
    states, steps := states + [s7], steps + [Offer(0)];
    var s8 := s7.(stream := Some(Cursor(true, false, [], [], 2, [LATE])));
    Extend(states, steps, 512, Receive, s8);
    states, steps := states + [s8], steps + [Receive];
  }
}
