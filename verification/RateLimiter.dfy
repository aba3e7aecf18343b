/**
 * A fixed-window limiter in process memory: one bucket a key, replaced when its window is over,
 * and stale buckets dropped once there are many.
 *
 * Times are whole seconds.
 */
module RateLimiter {

  type Pos = n: nat | n > 0 witness 1

  datatype Bucket = Bucket(start: int, count: int)
  datatype Request = Request(now: nat, key: string, limit: int, window: Pos)
  datatype Outcome = Outcome(windows: map<string, Bucket>, allowed: bool)

  const CROWDED := 4096
  const STALE := 300

  function Start(now: nat, window: Pos): int {
    now - now % window
  }

  function Max(a: int, b: int): int { if a >= b then a else b }
  function Min(a: int, b: int): int { if a <= b then a else b }

  function Pruned(windows: map<string, Bucket>, now: nat): map<string, Bucket> {
    if |windows| < CROWDED then windows
    else map k | k in windows && !(windows[k].start < now - STALE) :: windows[k]
  }

  function Step(windows: map<string, Bucket>, r: Request): Outcome {
    var start := Start(r.now, r.window);
    if r.key !in windows || windows[r.key].start != start then
      Outcome(Pruned(windows[r.key := Bucket(start, 1)], r.now), true)
    else if windows[r.key].count >= r.limit then
      Outcome(windows, false)
    else
      Outcome(windows[r.key := Bucket(start, windows[r.key].count + 1)], true)
  }

  // ---- runs ----

  function After(trace: seq<Request>): map<string, Bucket> {
    if |trace| == 0 then map[] else Step(After(trace[..|trace| - 1]), trace[|trace| - 1]).windows
  }

  function Allowed(trace: seq<Request>, i: nat): bool
    requires i < |trace|
  {
    Step(After(trace[..i]), trace[i]).allowed
  }

  lemma AfterPush(trace: seq<Request>, r: Request)
    ensures After(trace + [r]) == Step(After(trace), r).windows
    ensures Allowed(trace + [r], |trace|) == Step(After(trace), r).allowed
  {
    var longer := trace + [r];
    assert longer[..|trace|] == trace && longer[|trace|] == r;
  }

  class InMemoryRateLimiter {
    var windows: map<string, Bucket>
    ghost var trace: seq<Request>

    ghost predicate Valid()
      reads this
    {
      windows == After(trace)
    }

    constructor ()
      ensures Valid() && trace == []
    {
      windows, trace := map[], [];
    }

    method Allow(now: nat, key: string, limit: int, window: Pos) returns (allowed: bool, reset: int)
      requires Valid()
      modifies this
      ensures Valid() && trace == old(trace) + [Request(now, key, limit, window)]
      ensures allowed == Allowed(trace, |trace| - 1)
      ensures if allowed then reset == window else reset == Start(now, window) + window - now && reset >= 1
    {
      ghost var r := Request(now, key, limit, window);
      AfterPush(trace, r);
      trace := trace + [r];
      var start := now - now % window;
      if key !in windows || windows[key].start != start {
        windows := windows[key := Bucket(start, 1)];
        Prune(now);
        return true, window;
      }
      var count := windows[key].count;
      if count >= limit {
        return false, Max(1, start + window - now);
      }
      windows := windows[key := Bucket(start, count + 1)];
      return true, window;
    }

    method Prune(now: nat)
      modifies this`windows
      ensures windows == Pruned(old(windows), now)
      ensures |old(windows)| < 4096 ==> windows == old(windows)
      ensures |old(windows)| >= 4096 ==>
                windows == map k | k in old(windows) && old(windows)[k].start >= now - 300 :: old(windows)[k]
    {
      if |windows| < CROWDED {
        return;
      }
      var cutoff := now - STALE;
      var stale := set k | k in windows && windows[k].start < cutoff;
      while stale != {}
        invariant stale <= old(windows).Keys
        invariant forall k :: k in stale ==> old(windows)[k].start < cutoff
        invariant forall k :: k in windows <==>
          k in old(windows) && (old(windows)[k].start < cutoff ==> k in stale)
        invariant forall k :: k in windows ==> windows[k] == old(windows)[k]
        decreases stale
      {
        var k :| k in stale;
        windows := windows - {k};
        stale := stale - {k};
      }
    }
  }

  // ---- one key over a whole run ----

  // A clock that never runs back.
  predicate Timely(trace: seq<Request>) {
    forall i, j :: 0 <= i <= j < |trace| ==> trace[i].now <= trace[j].now
  }

  // The key always asks with the same limit and window.
  ghost predicate Steady(trace: seq<Request>, key: string, limit: int, window: Pos) {
    forall i :: 0 <= i < |trace| && trace[i].key == key ==> trace[i].limit == limit && trace[i].window == window
  }

  predicate Asks(r: Request, key: string, window: Pos, start: int) {
    r.key == key && Start(r.now, window) == start
  }

  // How often the key asked in the window that starts then.
  function Asked(trace: seq<Request>, key: string, window: Pos, start: int): nat {
    if |trace| == 0 then 0
    else Asked(trace[..|trace| - 1], key, window, start)
         + (if Asks(trace[|trace| - 1], key, window, start) then 1 else 0)
  }

  lemma StartsInOrder(earlier: nat, later: nat, window: Pos)
    requires earlier <= later
    ensures Start(earlier, window) <= Start(later, window) <= later < Start(later, window) + window
  {
    StartIsMultiple(earlier, window);
    StartIsMultiple(later, window);
    if Start(later, window) < Start(earlier, window) {
      MultiplesApart(later / window, earlier / window, window);
    }
  }

  lemma StartIsMultiple(now: nat, window: Pos)
    ensures Start(now, window) == (now / window) * window && Start(now, window) <= now < Start(now, window) + window
  {
  }

  lemma NotPositive(d: int, n: nat)
    ensures d <= 0 ==> d * n <= 0
  {
  }

  lemma NotNegative(d: int, n: nat)
    ensures d >= 0 ==> d * n >= 0
  {
  }

  lemma MultiplesApart(a: int, b: int, window: Pos)
    requires a * window < b * window
    ensures a * window + window <= b * window
  {
    var d := b - a;
    assert d * window == b * window - a * window;
    NotPositive(d, window);
    assert (d - 1) * window == d * window - window;
    NotNegative(d - 1, window);
  }

  lemma {:induction false} NoneAskedLater(trace: seq<Request>, key: string, window: Pos, start: int)
    requires forall i :: 0 <= i < |trace| && trace[i].key == key ==> Start(trace[i].now, window) < start
    ensures Asked(trace, key, window, start) == 0
  {
    if |trace| > 0 {
      NoneAskedLater(trace[..|trace| - 1], key, window, start);
    }
  }

  // What the bucket of a key knows: every request counted in the window of the last one, or, when
  // there is no bucket, that every window the key asked in began too long ago to matter.
  ghost predicate Knows(windows: map<string, Bucket>, trace: seq<Request>, key: string, limit: int, window: Pos) {
    if key in windows then
      var b := windows[key];
      && b.count == Min(Asked(trace, key, window, b.start), Max(1, limit)) && b.count >= 1
      && |trace| > 0 && b.start <= Start(trace[|trace| - 1].now, window)
      && (forall i :: 0 <= i < |trace| && trace[i].key == key ==> Start(trace[i].now, window) <= b.start)
    else
      forall i :: 0 <= i < |trace| && trace[i].key == key ==>
        Start(trace[i].now, window) < trace[|trace| - 1].now - STALE
  }

  lemma KnowsAfterOther(windows: map<string, Bucket>, trace: seq<Request>, r: Request,
                        key: string, limit: int, window: Pos)
    requires r.key != key && Timely(trace + [r])
    requires Knows(windows, trace, key, limit, window)
    ensures Knows(Step(windows, r).windows, trace + [r], key, limit, window)
  {
    var longer, after := trace + [r], Step(windows, r).windows;
    assert longer[..|trace|] == trace;
    assert forall i :: 0 <= i < |trace| ==> longer[i] == trace[i];
    if key in after {
      assert longer[|trace| - 1].now <= longer[|trace|].now;
      StartsInOrder(trace[|trace| - 1].now, r.now, window);
      assert after[key] == windows[key];
      assert Asked(longer, key, window, windows[key].start) == Asked(trace, key, window, windows[key].start);
    }
  }

  // A request is let through exactly when fewer than the limit came before it in its window, the
  // first of a window always.
  lemma KnowsAfterOwn(windows: map<string, Bucket>, trace: seq<Request>, r: Request,
                      key: string, limit: int, window: Pos)
    requires window <= STALE + 1 && r == Request(r.now, key, limit, window) && Timely(trace + [r])
    requires Knows(windows, trace, key, limit, window)
    ensures Knows(Step(windows, r).windows, trace + [r], key, limit, window)
    ensures Step(windows, r).allowed <==> Asked(trace, key, window, Start(r.now, window)) < Max(1, limit)
  {
    var longer, after, start := trace + [r], Step(windows, r).windows, Start(r.now, window);
    assert longer[..|trace|] == trace;
    assert forall i :: 0 <= i < |trace| ==> longer[i] == trace[i];
    forall i | 0 <= i < |trace| ensures Start(trace[i].now, window) <= start {
      assert longer[i].now <= longer[|trace|].now;
      StartsInOrder(trace[i].now, r.now, window);
    }
    StartsInOrder(r.now, r.now, window);
    if key !in windows || windows[key].start != start {
      NoneBefore(windows, trace, r, key, limit, window);
      NoneAskedLater(trace, key, window, start);
      assert after[key] == Bucket(start, 1);
    }
  }

  lemma NoneBefore(windows: map<string, Bucket>, trace: seq<Request>, r: Request, key: string, limit: int, window: Pos)
    requires window <= STALE + 1 && Timely(trace + [r])
    requires Knows(windows, trace, key, limit, window)
    requires key in windows ==> windows[key].start != Start(r.now, window)
    ensures forall i :: 0 <= i < |trace| && trace[i].key == key ==> Start(trace[i].now, window) < Start(r.now, window)
  {
    var longer, start := trace + [r], Start(r.now, window);
    StartsInOrder(r.now, r.now, window);
    forall i | 0 <= i < |trace| && trace[i].key == key ensures Start(trace[i].now, window) < start {
      assert longer[i] == trace[i] && longer[|trace| - 1] == trace[|trace| - 1];
      assert longer[|trace| - 1].now <= longer[|trace|].now;
      StartsInOrder(trace[i].now, r.now, window);
      StartsInOrder(trace[|trace| - 1].now, r.now, window);
    }
  }

  lemma FrontKeeps(trace: seq<Request>, key: string, limit: int, window: Pos)
    requires |trace| > 0 && Timely(trace) && Steady(trace, key, limit, window)
    ensures Timely(trace[..|trace| - 1]) && Steady(trace[..|trace| - 1], key, limit, window)
  {
  }

  lemma KnowsAfter(windows: map<string, Bucket>, trace: seq<Request>, r: Request,
                   key: string, limit: int, window: Pos)
    requires window <= STALE + 1 && Timely(trace + [r])
    requires r.key == key ==> r.limit == limit && r.window == window
    requires Knows(windows, trace, key, limit, window)
    ensures Knows(Step(windows, r).windows, trace + [r], key, limit, window)
  {
    if r.key == key {
      KnowsAfterOwn(windows, trace, r, key, limit, window);
    } else {
      KnowsAfterOther(windows, trace, r, key, limit, window);
    }
  }

  lemma {:induction false} RunKnows(trace: seq<Request>, key: string, limit: int, window: Pos)
    requires window <= STALE + 1 && Timely(trace) && Steady(trace, key, limit, window)
    ensures Knows(After(trace), trace, key, limit, window)
  {
    if |trace| > 0 {
      var front, r := trace[..|trace| - 1], trace[|trace| - 1];
      assert front + [r] == trace;
      FrontKeeps(trace, key, limit, window);
      RunKnows(front, key, limit, window);
      KnowsAfter(After(front), front, r, key, limit, window);
    }
  }

  // Whatever other keys do, whatever is pruned: a request is let through if and only if fewer than
  // the limit came from its key before it in its aligned window, the first one always.
  lemma AllowedExactly(trace: seq<Request>, i: nat, key: string, limit: int, window: Pos)
    requires window <= 301 && Timely(trace) && Steady(trace, key, limit, window)
    requires i < |trace| && trace[i].key == key
    ensures Allowed(trace, i) <==> Asked(trace[..i], key, window, Start(trace[i].now, window)) < Max(1, limit)
  {
    RunKnows(trace[..i], key, limit, window);
    assert trace[..i] + [trace[i]] == trace[..i + 1];
    KnowsAfterOwn(After(trace[..i]), trace[..i], trace[i], key, limit, window);
  }

  // ---- how many get through ----

  function AllowedInWindow(trace: seq<Request>, n: nat, key: string, window: Pos, start: int): nat
    requires n <= |trace|
  {
    if n == 0 then 0
    else AllowedInWindow(trace, n - 1, key, window, start)
         + (if Asks(trace[n - 1], key, window, start) && Allowed(trace, n - 1) then 1 else 0)
  }

  function AllowedBetween(trace: seq<Request>, n: nat, key: string, from: int, to: int): nat
    requires n <= |trace|
  {
    if n == 0 then 0
    else AllowedBetween(trace, n - 1, key, from, to)
         + (if trace[n - 1].key == key && from <= trace[n - 1].now < to && Allowed(trace, n - 1) then 1 else 0)
  }

  // In each aligned window all requests get through up to the limit and none beyond it.
  lemma {:induction false} AllowedPerWindow(trace: seq<Request>, n: nat, key: string, limit: int,
                                            window: Pos, start: int)
    requires window <= 301 && Timely(trace) && Steady(trace, key, limit, window) && n <= |trace|
    ensures AllowedInWindow(trace, n, key, window, start) == Min(Asked(trace[..n], key, window, start), Max(1, limit))
  {
    if n > 0 {
      AllowedPerWindow(trace, n - 1, key, limit, window, start);
      assert trace[..n][..n - 1] == trace[..n - 1] && trace[..n][n - 1] == trace[n - 1];
      if Asks(trace[n - 1], key, window, start) {
        AllowedExactly(trace, n - 1, key, limit, window);
      }
    }
  }

  lemma TwoWindows(now: nat, from: nat, window: Pos)
    requires from <= now < from + window
    ensures Start(now, window) == Start(from, window) || Start(now, window) == Start(from, window) + window
  {
    StartIsMultiple(now, window);
    StartIsMultiple(from, window);
    StartsInOrder(from, now, window);
    var first, later := from / window, now / window;
    assert first * window + window == (first + 1) * window && (first + 1) * window + window == (first + 2) * window;
    if later * window > (first + 1) * window {
      MultiplesApart(first + 1, later, window);
    }
    if first * window < later * window {
      MultiplesApart(first, later, window);
    }
  }

  lemma {:induction false} SpanInTwoWindows(trace: seq<Request>, n: nat, key: string, window: Pos, from: nat)
    requires n <= |trace|
    ensures AllowedBetween(trace, n, key, from, from + window)
         <= AllowedInWindow(trace, n, key, window, Start(from, window))
            + AllowedInWindow(trace, n, key, window, Start(from, window) + window)
  {
    if n > 0 {
      SpanInTwoWindows(trace, n - 1, key, window, from);
      if from <= trace[n - 1].now < from + window {
        TwoWindows(trace[n - 1].now, from, window);
      }
    }
  }

  // Over any span as long as the window at most twice the limit gets through.
  lemma AtMostTwiceInASpan(trace: seq<Request>, key: string, limit: int, window: Pos, from: nat)
    requires window <= 301 && Timely(trace) && Steady(trace, key, limit, window)
    ensures AllowedBetween(trace, |trace|, key, from, from + window) <= 2 * Max(1, limit)
  {
    SpanInTwoWindows(trace, |trace|, key, window, from);
    AllowedPerWindow(trace, |trace|, key, limit, window, Start(from, window));
    AllowedPerWindow(trace, |trace|, key, limit, window, Start(from, window) + window);
  }

  // ---- a longer window ----

  lemma TimelyPush(trace: seq<Request>, r: Request)
    requires Timely(trace) && forall i :: 0 <= i < |trace| ==> trace[i].now <= r.now
    ensures Timely(trace + [r])
  {
  }

  function Name(i: nat): (s: string)
    ensures |s| == i
  {
    seq(i, _ => 'k')
  }

  // Many keys ask once at time 0, one more once their buckets count as stale, and then the first
  // of them again.
  function Crowd(n: nat, window: Pos): (trace: seq<Request>)
    ensures |trace| == n && forall i :: 0 <= i < n ==> trace[i] == Request(0, Name(i), 1, window)
  {
    if n == 0 then [] else Crowd(n - 1, window) + [Request(0, Name(n - 1), 1, window)]
  }

  function LongRun(n: nat, window: Pos): seq<Request> {
    Crowd(n, window) + [Request(STALE + 1, Name(n), 1, window)] + [Request(STALE + 1, Name(0), 1, window)]
  }

  lemma EarlyInWindow(now: nat, window: Pos)
    requires now < window
    ensures Start(now, window) == 0
  {
  }

  // One bucket for each of n keys, all from one request at time 0; longer names are still to come.
  ghost predicate AskedByAll(windows: map<string, Bucket>, n: nat) {
    |windows| == n && forall k :: k in windows ==> |k| < n && windows[k] == Bucket(0, 1)
  }

  lemma NewBucket(windows: map<string, Bucket>, key: string, b: Bucket)
    requires key !in windows
    ensures |windows[key := b]| == |windows| + 1
  {
    assert windows[key := b].Keys == windows.Keys + {key};
  }

  lemma NothingStaleYet(windows: map<string, Bucket>, now: nat)
    requires forall k :: k in windows ==> windows[k].start == now
    ensures Pruned(windows, now) == windows
  {
  }

  lemma AskedByOneMore(windows: map<string, Bucket>, n: nat, r: Request)
    requires AskedByAll(windows, n) && r.now == 0 && |r.key| == n
    ensures AskedByAll(Step(windows, r).windows, n + 1)
  {
    var more := windows[r.key := Bucket(0, 1)];
    EarlyInWindow(r.now, r.window);
    NewBucket(windows, r.key, Bucket(0, 1));
    NothingStaleYet(more, r.now);
    assert Step(windows, r).windows == more;
  }

  lemma CrowdIsTimely(n: nat, window: Pos)
    ensures Timely(Crowd(n, window))
  {
  }

  lemma AfterLast(trace: seq<Request>)
    requires |trace| > 0
    ensures After(trace) == Step(After(trace[..|trace| - 1]), trace[|trace| - 1]).windows
  {
  }

  // Requests at time 0 from keys that each are new.
  ghost predicate AllNew(trace: seq<Request>) {
    forall i :: 0 <= i < |trace| ==> trace[i].now == 0 && |trace[i].key| == i
  }

  lemma {:induction false} AfterNew(trace: seq<Request>, n: nat)
    requires AllNew(trace) && n == |trace|
    ensures AskedByAll(After(trace), n)
    decreases n
  {
    if n > 0 {
      var front := trace[..n - 1];
      AfterNew(front, n - 1);
      AfterLast(trace);
      AskedByOneMore(After(front), n - 1, trace[n - 1]);
    }
  }

  lemma AllStale(windows: map<string, Bucket>)
    requires |windows| >= CROWDED && forall k :: k in windows ==> windows[k].start == 0
    ensures Pruned(windows, STALE + 1) == map[]
  {
  }

  lemma StepForgets(windows: map<string, Bucket>, r: Request)
    requires |windows| >= CROWDED && forall k :: k in windows ==> windows[k].start == 0
    requires r.key !in windows && r.now == STALE + 1 < r.window
    ensures Step(windows, r).windows == map[]
  {
    EarlyInWindow(r.now, r.window);
    NewBucket(windows, r.key, Bucket(0, 1));
    AllStale(windows[r.key := Bucket(0, 1)]);
  }

  lemma CrowdForgets(n: nat, window: Pos)
    requires n >= CROWDED && window > STALE + 1
    ensures Timely(Crowd(n, window) + [Request(STALE + 1, Name(n), 1, window)])
    ensures After(Crowd(n, window) + [Request(STALE + 1, Name(n), 1, window)]) == map[]
  {
    var r := Request(STALE + 1, Name(n), 1, window);
    AfterNew(Crowd(n, window), n);
    CrowdIsTimely(n, window);
    TimelyPush(Crowd(n, window), r);
    AfterPush(Crowd(n, window), r);
    StepForgets(After(Crowd(n, window)), r);
  }

  lemma {:induction false} FirstAsked(trace: seq<Request>, key: string, window: Pos, start: int)
    requires |trace| > 0 && Asks(trace[0], key, window, start)
    ensures Asked(trace, key, window, start) >= 1
  {
    if |trace| > 1 {
      FirstAsked(trace[..|trace| - 1], key, window, start);
    }
  }

  // The bound on the window is exact: with any longer one, a full table forgets a live bucket and
  // a key gets a request through that its limit of one has already been spent on.
  lemma LongerWindowOverruns(n: nat, window: Pos)
    requires n >= 4096 && window > 301
    ensures var trace := LongRun(n, window);
            && |trace| == n + 2 && Timely(trace) && Steady(trace, trace[n + 1].key, 1, window)
            && Allowed(trace, n + 1)
            && Asked(trace[..n + 1], trace[n + 1].key, window, Start(trace[n + 1].now, window)) >= 1
  {
    var before := Crowd(n, window) + [Request(STALE + 1, Name(n), 1, window)];
    var r := Request(STALE + 1, Name(0), 1, window);
    CrowdForgets(n, window);
    TimelyPush(before, r);
    AfterPush(before, r);
    assert (before + [r])[..n + 1] == before;
    EarlyInWindow(0, window);
    EarlyInWindow(r.now, window);
    FirstAsked(before, Name(0), window, 0);
  }
}
