/** Per-path circuit breakers. Recording an outcome takes several atomic steps. */
module Breaker {
  import opened Options
  import opened Status

  const MIN_REQUESTS := 10
  const RESET_AFTER_MS := 30000

  /** The error rate that trips a breaker, as num/den. */
  datatype Threshold = Threshold(num: nat, den: nat)

  /** One breaker's counters, with the path it was created for. */
  datatype Inner = Inner(path: Bytes, total: nat, failures: nat, trippedAt: Option<nat>)

  /** Every breaker ever created, and the one each path currently uses. */
  datatype Table = Table(inners: seq<Inner>, current: map<Bytes, nat>)

  predicate WellFormed(table: Table) {
    forall p | p in table.current :: table.current[p] < |table.inners| && table.inners[table.current[p]].path == p
  }

  function WithNew(table: Table, path: Bytes): Table {
    Table(table.inners + [Inner(path, 0, 0, None)], table.current[path := |table.inners|])
  }

  predicate ShouldTrip(threshold: Threshold, total: nat, failures: nat) {
    total >= MIN_REQUESTS && failures * threshold.den >= threshold.num * total
  }

  function TripAt(inner: Inner, now: nat): Inner {
    if inner.trippedAt.None? then inner.(trippedAt := Some(now)) else inner
  }

  datatype State = Closed | Open | HalfOpen

  function StateOf(inner: Inner, now: nat): State {
    match inner.trippedAt
    case None => Closed
    case Some(t) => if now > t + RESET_AFTER_MS then HalfOpen else Open
  }

  // ---------- recording, one atomic step at a time ----------

  datatype RecordPc =
    | Find | Create
    | AddTotal(b: nat) | AddFailure(b: nat)
    | ReadTotal(b: nat) | ReadFailures(b: nat, total: nat)
    | Trip(b: nat) | Done

  /** The breaker a recording has settled on, if any. */
  predicate Settled(pc: RecordPc) {
    !pc.Find? && !pc.Create? && !pc.Done?
  }

  function RecordStep(threshold: Threshold, table: Table, pc: RecordPc, path: Bytes, success: bool, now: nat)
    : (Table, RecordPc)
    requires WellFormed(table) && (Settled(pc) ==> pc.b < |table.inners|)
  {
    match pc
    case Find => (table, if path in table.current then AddTotal(table.current[path]) else Create)
    case Create => (WithNew(table, path), AddTotal(|table.inners|))
    case AddTotal(b) =>
      var inner := table.inners[b];
      (table.(inners := table.inners[b := inner.(total := inner.total + 1)]),
       if success then ReadTotal(b) else AddFailure(b))
    case AddFailure(b) =>
      var inner := table.inners[b];
      (table.(inners := table.inners[b := inner.(failures := inner.failures + 1)]), ReadTotal(b))
    case ReadTotal(b) => (table, ReadFailures(b, table.inners[b].total))
    case ReadFailures(b, total) =>
      (table, if ShouldTrip(threshold, total, table.inners[b].failures) then Trip(b) else Done)
    case Trip(b) => (table.(inners := table.inners[b := TripAt(table.inners[b], now)]), Done)
    case Done => (table, Done)
  }

  /** A breaker keeps its path, only counts up, and once tripped keeps the time it tripped. */
  ghost predicate Advances(inner: Inner, inner': Inner) {
    && inner'.path == inner.path && inner'.total >= inner.total && inner'.failures >= inner.failures
    && (inner.trippedAt.Some? ==> inner'.trippedAt == inner.trippedAt)
  }

  /** Breakers are only ever added, and each one advances. */
  ghost predicate Grows(table: Table, table': Table) {
    && |table.inners| <= |table'.inners|
    && (forall b | 0 <= b < |table.inners| :: Advances(table.inners[b], table'.inners[b]))
  }

  /** No breaker tripped in the future. */
  ghost predicate TripsPast(table: Table, now: nat) {
    forall b | 0 <= b < |table.inners| && table.inners[b].trippedAt.Some? :: table.inners[b].trippedAt.value <= now
  }

  lemma RecordStepGrows(threshold: Threshold, table: Table, pc: RecordPc, path: Bytes, success: bool, now: nat)
    requires WellFormed(table)
    requires Settled(pc) ==> pc.b < |table.inners| && table.inners[pc.b].path == path
    ensures var (table', pc') := RecordStep(threshold, table, pc, path, success, now);
            && WellFormed(table') && Grows(table, table')
            && (Settled(pc') ==> pc'.b < |table'.inners| && table'.inners[pc'.b].path == path)
            && (TripsPast(table, now) ==> TripsPast(table', now))
            && (success && !pc.AddFailure? ==> !pc'.AddFailure?)
  {
  }

  // ---------- recording without interference ----------

  function InnerRecorded(threshold: Threshold, inner: Inner, success: bool, now: nat): Inner {
    var counted := inner.(total := inner.total + 1, failures := inner.failures + if success then 0 else 1);
    if ShouldTrip(threshold, counted.total, counted.failures) then TripAt(counted, now) else counted
  }

  function Ensured(table: Table, path: Bytes): (t: Table)
    requires WellFormed(table)
    ensures WellFormed(t) && path in t.current
  {
    if path in table.current then table else WithNew(table, path)
  }

  function Recorded(threshold: Threshold, table: Table, path: Bytes, success: bool, now: nat): (t: Table)
    requires WellFormed(table)
    ensures WellFormed(t)
  {
    var found := Ensured(table, path);
    var b := found.current[path];
    found.(inners := found.inners[b := InnerRecorded(threshold, found.inners[b], success, now)])
  }

  ghost function RunSteps(threshold: Threshold, table: Table, pc: RecordPc, path: Bytes, success: bool, now: nat,
                          n: nat): (r: (Table, RecordPc))
    requires WellFormed(table) && (Settled(pc) ==> pc.b < |table.inners| && table.inners[pc.b].path == path)
    ensures WellFormed(r.0)
    decreases n
  {
    if n == 0 then (table, pc)
    else
      var (t, next) := RecordStep(threshold, table, pc, path, success, now);
      RunSteps(threshold, t, next, path, success, now, n - 1)
  }

  /** The atomic steps of one undisturbed recording add up to the sequential meaning. */
  lemma StepsRecord(threshold: Threshold, table: Table, path: Bytes, success: bool, now: nat)
    requires WellFormed(table)
    ensures RunSteps(threshold, table, Find, path, success, now, 7)
            == (Recorded(threshold, table, path, success, now), Done)
  {
    var found := Ensured(table, path);
    var b := found.current[path];
    var n := if path in table.current then 6 else 5;
    assert RunSteps(threshold, table, Find, path, success, now, 7)
           == RunSteps(threshold, found, AddTotal(b), path, success, now, n);
    CountingSteps(threshold, found, b, path, success, now, n);
  }

  lemma CountingSteps(threshold: Threshold, table: Table, b: nat, path: Bytes, success: bool, now: nat, n: nat)
    requires WellFormed(table) && path in table.current && table.current[path] == b && n >= 5
    ensures RunSteps(threshold, table, AddTotal(b), path, success, now, n)
            == (Recorded(threshold, table, path, success, now), Done)
  {
    var inner := table.inners[b];
    var t1 := table.(inners := table.inners[b := inner.(total := inner.total + 1)]);
    if success {
      var counted := inner.(total := inner.total + 1, failures := inner.failures + 0);
      assert counted == t1.inners[b];
      var recorded := InnerRecorded(threshold, inner, success, now);
      assert t1.inners[b := recorded] == table.inners[b := recorded];
      CheckSteps(threshold, t1, b, path, success, now, n - 1);
    } else {
      var counted := inner.(total := inner.total + 1, failures := inner.failures + 1);
      var t2 := t1.(inners := t1.inners[b := counted]);
      assert t2.inners == table.inners[b := counted];
      var recorded := InnerRecorded(threshold, inner, success, now);
      assert t2.inners[b := recorded] == table.inners[b := recorded];
      CheckSteps(threshold, t2, b, path, success, now, n - 2);
    }
  }

  lemma CheckSteps(threshold: Threshold, table: Table, b: nat, path: Bytes, success: bool, now: nat, n: nat)
    requires WellFormed(table) && b < |table.inners| && table.inners[b].path == path && n >= 3
    ensures var inner := table.inners[b];
            var tripped := if ShouldTrip(threshold, inner.total, inner.failures) then TripAt(inner, now) else inner;
            RunSteps(threshold, table, ReadTotal(b), path, success, now, n)
            == (table.(inners := table.inners[b := tripped]), Done)
  {
    var inner := table.inners[b];
    var pc2 := ReadFailures(b, inner.total);
    assert RunSteps(threshold, table, ReadTotal(b), path, success, now, n)
           == RunSteps(threshold, table, pc2, path, success, now, n - 1);
    if ShouldTrip(threshold, inner.total, inner.failures) {
      var t := table.(inners := table.inners[b := TripAt(inner, now)]);
      assert RunSteps(threshold, table, pc2, path, success, now, n - 1)
             == RunSteps(threshold, t, Done, path, success, now, n - 3);
      StaysDone(threshold, t, path, success, now, n - 3);
    } else {
      assert table.inners[b := inner] == table.inners;
      StaysDone(threshold, table, path, success, now, n - 2);
    }
  }

  lemma StaysDone(threshold: Threshold, table: Table, path: Bytes, success: bool, now: nat, n: nat)
    requires WellFormed(table)
    ensures RunSteps(threshold, table, Done, path, success, now, n) == (table, Done)
    decreases n
  {
    if n > 0 { StaysDone(threshold, table, path, success, now, n - 1); }
  }

  class CircuitBreakerMap {
    var table: Table
    const threshold: Threshold

    constructor (threshold: Threshold)
      ensures this.threshold == threshold && table == Table([], map[]) && WellFormed(table)
    {
      this.threshold := threshold;
      table := Table([], map[]);
    }

    method GetOrCreate(path: Bytes) returns (b: nat)
      requires WellFormed(table)
      modifies this
      ensures WellFormed(table) && table == Ensured(old(table), path) && b == table.current[path]
    {
      if path in table.current {
        return table.current[path];
      }
      b := |table.inners|;
      table := WithNew(table, path);
    }

    /** Whether a call may proceed: exactly when the path's breaker is not Open. */
    method Check(path: Bytes, now: nat) returns (mayProceed: bool)
      requires WellFormed(table)
      modifies this
      ensures WellFormed(table) && table == Ensured(old(table), path)
      ensures mayProceed <==> StateOf(table.inners[table.current[path]], now) != Open
    {
      var b := GetOrCreate(path);
      mayProceed := StateOf(table.inners[b], now) != Open;
    }

    method Record(path: Bytes, success: bool, now: nat)
      requires WellFormed(table)
      modifies this
      ensures WellFormed(table) && table == Recorded(threshold, old(table), path, success, now)
    {
      var b := GetOrCreate(path);
      ghost var found := table;
      table := table.(inners := table.inners[b := table.inners[b].(total := table.inners[b].total + 1)]);
      if !success {
        table := table.(inners := table.inners[b := table.inners[b].(failures := table.inners[b].failures + 1)]);
      }
      var total, failures := table.inners[b].total, table.inners[b].failures;
      if total >= MIN_REQUESTS {
        if failures * threshold.den >= threshold.num * total {
          if table.inners[b].trippedAt.None? {
            table := table.(inners := table.inners[b := table.inners[b].(trippedAt := Some(now))]);
          }
        }
      }
      assert table.inners == found.inners[b := InnerRecorded(threshold, found.inners[b], success, now)];
    }

    method Reset(path: Bytes)
      requires WellFormed(table)
      modifies this
      ensures WellFormed(table) && table.current == old(table.current)
      ensures path !in table.current ==> table == old(table)
      ensures path in table.current ==>
                table.inners == old(table.inners)[table.current[path] := Inner(path, 0, 0, None)]
    {
      if path in table.current {
        var b := table.current[path];
        table := table.(inners := table.inners[b := table.inners[b].(trippedAt := None, total := 0, failures := 0)]);
      }
    }
  }
}
