/** The single-flight lease: its three database statements, and every interleaving of them. */
module Lease {
  import opened Common

  datatype Row = Row(holder: string, acquiredAt: int, expiresAt: Option<int>, lastOutcome: string, failures: nat)

  // The WHERE clause of the claim.
  predicate Free(row: Row, moment: int) {
    row.expiresAt.None? || row.expiresAt.value < moment
  }

  function Claimed(row: Row, holder: string, moment: int, ttl: int): Row {
    row.(holder := holder, acquiredAt := moment, expiresAt := Some(moment + ttl))
  }

  function Fresh(holder: string, moment: int, ttl: int): Row {
    Row(holder, moment, Some(moment + ttl), "", 0)
  }

  function Released(row: Row, outcome: string, failed: bool): Row {
    row.(holder := "", expiresAt := None, lastOutcome := outcome, failures := if failed then row.failures + 1 else 0)
  }

  class LeaseTable {
    var rows: map<string, Row>

    constructor ()
      ensures rows == map[]
    {
      rows := map[];
    }

    method UpdateIfFree(name: string, holder: string, ttl: int, moment: int) returns (rowcount: nat)
      modifies this
      ensures rowcount == (if name in old(rows) && Free(old(rows)[name], moment) then 1 else 0)
      ensures rows == if rowcount == 1 then old(rows)[name := Claimed(old(rows)[name], holder, moment, ttl)] else old(rows)
    {
      if name in rows && Free(rows[name], moment) {
        rows := rows[name := Claimed(rows[name], holder, moment, ttl)];
        return 1;
      }
      return 0;
    }

    method ByName(name: string) returns (row: Option<Row>)
      ensures row == if name in rows then Some(rows[name]) else None
    {
      row := if name in rows then Some(rows[name]) else None;
    }

    // The primary key arbitrates: the insert fails when the row exists.
    method Insert(name: string, row: Row) returns (inserted: bool)
      modifies this
      ensures inserted <==> name !in old(rows)
      ensures rows == if inserted then old(rows)[name := row] else old(rows)
    {
      inserted := name !in rows;
      if inserted {
        rows := rows[name := row];
      }
    }

    // With nothing interleaved, a caller wins exactly when the lease is absent or free.
    method Acquire(name: string, holder: string, ttl: int, now: int) returns (won: bool, row: Option<Row>)
      modifies this
      ensures won <==> name !in old(rows) || old(rows)[name].expiresAt.None? || old(rows)[name].expiresAt.value < now
      ensures !won ==> rows == old(rows)
      ensures won ==> rows == old(rows)[name :=
                if name in old(rows)
                then Row(holder, now, Some(now + ttl), old(rows)[name].lastOutcome, old(rows)[name].failures)
                else Row(holder, now, Some(now + ttl), "", 0)]
      ensures name in rows && row == Some(rows[name])
    {
      var rowcount := UpdateIfFree(name, holder, ttl, now);
      if rowcount == 1 {
        row := ByName(name);
        return true, row;
      }
      row := ByName(name);
      if row.Some? {
        return false, row;
      }
      won := Insert(name, Fresh(holder, now, ttl));
      row := ByName(name);
    }

    method RecordOutcome(name: string, holder: string, outcome: string, failed: bool) returns (released: bool)
      modifies this
      ensures released <==> name in old(rows) && old(rows)[name].holder == holder
      ensures !released ==> rows == old(rows)
      ensures released ==> rows == old(rows)[name :=
                Row("", old(rows)[name].acquiredAt, None, outcome, if failed then old(rows)[name].failures + 1 else 0)]
    {
      released := name in rows && rows[name].holder == holder;
      if released {
        rows := rows[name := Released(rows[name], outcome, failed)];
      }
    }
  }

  // ---- interleavings on one lease ----

  datatype Phase = Updating | Reading | Inserting | Finished(won: bool)
  datatype Attempt = Attempt(phase: Phase, moment: int, ttl: int)

  // The last three fields record what happened: the expiry each grant was given, who released,
  // and for every accepted outcome whether it was a failure.
  datatype System = System(
    now: int, row: Option<Row>, attempts: map<string, Attempt>,
    grants: map<string, int>, released: set<string>, outcomes: seq<bool>)

  datatype Step =
    | Tick(elapsed: nat)
    | Begin(holder: string, ttl: int)
    | Update(holder: string)
    | Read(holder: string)
    | Add(holder: string)
    | Record(holder: string, outcome: string, failed: bool)

  ghost predicate Initial(s: System) {
    s.row.None? && s.attempts == map[] && s.grants == map[] && s.released == {} && s.outcomes == []
  }

  // Holder tokens are non-empty and used for one acquisition.
  predicate Enabled(s: System, step: Step) {
    match step
    case Tick(_) => true
    case Begin(holder, _) => holder != "" && holder !in s.attempts
    case Update(holder) => holder in s.attempts && s.attempts[holder].phase == Updating
    case Read(holder) => holder in s.attempts && s.attempts[holder].phase == Reading
    case Add(holder) => holder in s.attempts && s.attempts[holder].phase == Inserting
    case Record(holder, _, _) => holder != ""
  }

  function Moved(s: System, holder: string, phase: Phase): System
    requires holder in s.attempts
  {
    s.(attempts := s.attempts[holder := s.attempts[holder].(phase := phase)])
  }

  function Granted(s: System, holder: string, row: Row): System
    requires holder in s.attempts
  {
    var a := s.attempts[holder];
    Moved(s, holder, Finished(true)).(row := Some(row), grants := s.grants[holder := a.moment + a.ttl])
  }

  predicate Holds(s: System, holder: string) { s.row.Some? && s.row.value.holder == holder }

  function Apply(s: System, step: Step): System
    requires Enabled(s, step)
  {
    match step
    case Tick(elapsed) => s.(now := s.now + elapsed)
    case Begin(holder, ttl) => s.(attempts := s.attempts[holder := Attempt(Updating, s.now, ttl)])
    case Update(holder) =>
      var a := s.attempts[holder];
      if s.row.Some? && Free(s.row.value, a.moment)
      then Granted(s, holder, Claimed(s.row.value, holder, a.moment, a.ttl))
      else Moved(s, holder, Reading)
    case Read(holder) => Moved(s, holder, if s.row.Some? then Finished(false) else Inserting)
    case Add(holder) =>
      var a := s.attempts[holder];
      if s.row.None? then Granted(s, holder, Fresh(holder, a.moment, a.ttl))
      else Moved(s, holder, Finished(false))
    case Record(holder, outcome, failed) =>
      if Holds(s, holder)
      then s.(row := Some(Released(s.row.value, outcome, failed)), released := s.released + {holder},
              outcomes := s.outcomes + [failed])
      else s
  }

  ghost predicate ValidRun(states: seq<System>, steps: seq<Step>) {
    && |states| == |steps| + 1 && Initial(states[0])
    && forall i :: 0 <= i < |steps| ==> Enabled(states[i], steps[i]) && states[i + 1] == Apply(states[i], steps[i])
  }

  function TrailingFailures(outcomes: seq<bool>): nat {
    if |outcomes| == 0 || !outcomes[|outcomes| - 1] then 0 else 1 + TrailingFailures(outcomes[..|outcomes| - 1])
  }

  ghost predicate Inv(s: System) {
    && "" !in s.attempts
    && (forall h :: h in s.attempts ==> s.attempts[h].moment <= s.now)
    && (forall h :: h in s.grants ==> h in s.attempts && s.attempts[h].phase == Finished(true))
    && s.released <= s.grants.Keys
    && (s.row.None? ==> s.grants == map[] && s.outcomes == [])
    && (s.row.Some? ==>
          var row := s.row.value;
          && row.failures == TrailingFailures(s.outcomes)
          && (row.holder == "" ==> row.expiresAt.None?)
          && (row.holder != "" ==>
                row.holder in s.grants && row.holder !in s.released && row.expiresAt == Some(s.grants[row.holder]))
          && (forall h :: h in s.grants && h !in s.released && h != row.holder ==> s.grants[h] < s.now))
  }

  lemma StepKeepsInv(s: System, step: Step)
    requires Inv(s) && Enabled(s, step)
    ensures Inv(Apply(s, step))
  {
    var t := Apply(s, step);
    if step.Record? && Holds(s, step.holder) {
      assert t.outcomes[..|s.outcomes|] == s.outcomes;
    }
  }

  lemma {:induction false} RunKeepsInv(states: seq<System>, steps: seq<Step>, n: nat)
    requires ValidRun(states, steps) && n < |states|
    ensures Inv(states[n])
  {
    if n > 0 {
      RunKeepsInv(states, steps, n - 1);
      StepKeepsInv(states[n - 1], steps[n - 1]);
    }
  }

  ghost predicate ActiveLease(s: System, holder: string) {
    holder in s.grants && holder !in s.released && s.grants[holder] >= s.now
  }

  // In every interleaving of claims, reads, inserts, releases and clock ticks, at most one
  // granted lease is neither released nor expired, and it is the one the table names.
  lemma MutualExclusion(states: seq<System>, steps: seq<Step>, n: nat, a: string, b: string)
    requires ValidRun(states, steps) && n < |states|
    requires ActiveLease(states[n], a) && ActiveLease(states[n], b)
    ensures a == b && Holds(states[n], a)
  {
    RunKeepsInv(states, steps, n);
  }

  // Whoever was overtaken stays overtaken.
  lemma {:induction false} OvertakenForGood(states: seq<System>, steps: seq<Step>, m: nat, n: nat, holder: string)
    requires ValidRun(states, steps) && m <= n < |states|
    requires holder in states[m].grants && !Holds(states[m], holder)
    ensures holder in states[n].grants && !Holds(states[n], holder)
  {
    if m < n {
      OvertakenForGood(states, steps, m, n - 1, holder);
      RunKeepsInv(states, steps, n - 1);
    }
  }

  // So from then on its release is refused and changes nothing: it cannot free its successor.
  lemma StaleReleaseChangesNothing(states: seq<System>, steps: seq<Step>, m: nat, n: nat, holder: string,
                                   outcome: string, failed: bool)
    requires ValidRun(states, steps) && m <= n < |states| && holder != ""
    requires holder in states[m].grants && !Holds(states[m], holder)
    ensures Apply(states[n], Record(holder, outcome, failed)) == states[n]
  {
    OvertakenForGood(states, steps, m, n, holder);
  }

  // The stored failure count is the length of the trailing run of failed outcomes, whoever held
  // the lease in between.
  lemma FailuresAreTrailing(states: seq<System>, steps: seq<Step>, n: nat)
    requires ValidRun(states, steps) && n < |states| && states[n].row.Some?
    ensures states[n].row.value.failures == TrailingFailures(states[n].outcomes)
  {
    RunKeepsInv(states, steps, n);
  }

  // What that number means: exactly the last that many outcomes failed.
  lemma {:induction false} TrailingFailuresMeaning(outcomes: seq<bool>)
    ensures var k := TrailingFailures(outcomes);
      && k <= |outcomes|
      && (forall i :: |outcomes| - k <= i < |outcomes| ==> outcomes[i])
      && (k < |outcomes| ==> !outcomes[|outcomes| - 1 - k])
  {
    if |outcomes| != 0 && outcomes[|outcomes| - 1] {
      TrailingFailuresMeaning(outcomes[..|outcomes| - 1]);
    }
  }

  // Once the table has a row and the holder's lease has run out, any claim that started after
  // the expiry takes over with its first statement.
  lemma ExpiredLeaseIsTaken(states: seq<System>, steps: seq<Step>, n: nat, holder: string)
    requires ValidRun(states, steps) && n < |states| && states[n].row.Some?
    requires Enabled(states[n], Update(holder))
    requires forall h :: h in states[n].grants && h !in states[n].released ==>
               states[n].grants[h] < states[n].attempts[holder].moment
    ensures Holds(Apply(states[n], Update(holder)), holder)
  {
    RunKeepsInv(states, steps, n);
  }

  // ---- one claim with nothing in between ----

  // An attempt's statements one after the other, up to the one that decides it.
  function Alone(s: System, holder: string, ttl: int): System
    requires holder != "" && holder !in s.attempts
  {
    var begun := Apply(s, Begin(holder, ttl));
    var updated := Apply(begun, Update(holder));
    if updated.attempts[holder].phase != Reading then updated
    else
      var read := Apply(updated, Read(holder));
      if read.attempts[holder].phase != Inserting then read else Apply(read, Add(holder))
  }

  // It wins exactly when there is no row or the row's lease has run out, takes the row for the
  // time it asked for, and otherwise changes nothing.
  lemma AloneWinsIfFree(s: System, holder: string, ttl: int)
    requires holder != "" && holder !in s.attempts
    ensures var t := Alone(s, holder, ttl);
      var free := s.row.None? || s.row.value.expiresAt.None? || s.row.value.expiresAt.value < s.now;
      && t.attempts[holder].phase == Finished(free)
      && t.grants == (if free then s.grants[holder := s.now + ttl] else s.grants)
      && t.row == if !free then s.row
                  else if s.row.None? then Some(Row(holder, s.now, Some(s.now + ttl), "", 0))
                  else Some(Row(holder, s.now, Some(s.now + ttl), s.row.value.lastOutcome, s.row.value.failures))
  {
  }
}
