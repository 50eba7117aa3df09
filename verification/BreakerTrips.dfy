/** When a breaker trips and how long it rejects calls, told from the recorded outcomes alone. */
module BreakerTrips {
  import opened Options
  import opened Status
  import B = Breaker

  /** A recorded outcome, and when it was recorded. */
  datatype Event = Event(success: bool, at: nat)

  /** The table after recording the outcomes for one path in turn. */
  function RecordedAll(threshold: B.Threshold, table: B.Table, path: Bytes, events: seq<Event>): (t: B.Table)
    requires B.WellFormed(table)
    ensures B.WellFormed(t)
  {
    if events == [] then table
    else
      var last := events[|events| - 1];
      B.Recorded(threshold, RecordedAll(threshold, table, path, events[..|events| - 1]), path, last.success, last.at)
  }

  function Faults(events: seq<Event>): nat {
    if events == [] then 0 else Faults(events[..|events| - 1]) + if events[|events| - 1].success then 0 else 1
  }

  /** At least ten outcomes, of which at least the threshold's share are faults. */
  predicate Warrants(threshold: B.Threshold, events: seq<Event>) {
    |events| >= 10 && Faults(events) * threshold.den >= threshold.num * |events|
  }

  /** The first k outcomes are the shortest prefix that warrants tripping. */
  predicate FirstWarrant(threshold: B.Threshold, events: seq<Event>, k: nat) {
    && k <= |events| && Warrants(threshold, events[..k])
    && (forall j | 0 <= j < k :: !Warrants(threshold, events[..j]))
  }

  /** The breaker a path has, or would get. */
  function InnerOf(table: B.Table, path: Bytes): B.Inner
    requires B.WellFormed(table)
  {
    var found := B.Ensured(table, path);
    found.inners[found.current[path]]
  }

  lemma OneMore(threshold: B.Threshold, table: B.Table, path: Bytes, event: Event)
    requires B.WellFormed(table)
    ensures var inner := InnerOf(table, path);
            var inner' := InnerOf(B.Recorded(threshold, table, path, event.success, event.at), path);
            && inner'.path == inner.path && inner'.total == inner.total + 1
            && inner'.failures == inner.failures + (if event.success then 0 else 1)
            && inner'.trippedAt == (if inner.trippedAt.None? && inner'.total >= 10
                                       && inner'.failures * threshold.den >= threshold.num * inner'.total
                                    then Some(event.at) else inner.trippedAt)
  {
  }

  /** The length of the shortest prefix that warrants tripping. */
  function FirstWarranted(threshold: B.Threshold, events: seq<Event>): (r: Option<nat>)
    ensures r.Some? ==> 0 < r.value <= |events|
  {
    if events == [] then None
    else
      var earlier := FirstWarranted(threshold, events[..|events| - 1]);
      if earlier.Some? then earlier else if Warrants(threshold, events) then Some(|events|) else None
  }

  lemma {:induction false} FirstWarrantedIs(threshold: B.Threshold, events: seq<Event>, k: nat)
    requires k <= |events|
    ensures FirstWarranted(threshold, events) == Some(k) <==> FirstWarrant(threshold, events, k)
    ensures FirstWarranted(threshold, events).None? ==> !Warrants(threshold, events[..k])
  {
    if events != [] {
      var front := events[..|events| - 1];
      assert forall j | 0 <= j <= |front| :: front[..j] == events[..j];
      assert events[..|events|] == events;
      if k <= |front| { FirstWarrantedIs(threshold, front, k); }
      var earlier := FirstWarranted(threshold, front);
      if earlier.Some? {
        FirstWarrantedIs(threshold, front, earlier.value);
      } else {
        forall j | 0 <= j <= |front| ensures !Warrants(threshold, front[..j]) { FirstWarrantedIs(threshold, front, j); }
      }
    }
  }

  lemma {:induction false} Counts(threshold: B.Threshold, table: B.Table, path: Bytes, events: seq<Event>)
    requires B.WellFormed(table) && InnerOf(table, path) == B.Inner(path, 0, 0, None)
    ensures var tripped := match FirstWarranted(threshold, events)
                           case None => None
                           case Some(k) => Some(events[k - 1].at);
            InnerOf(RecordedAll(threshold, table, path, events), path)
            == B.Inner(path, |events|, Faults(events), tripped)
  {
    if events != [] {
      var front, last := events[..|events| - 1], events[|events| - 1];
      Counts(threshold, table, path, front);
      OneMore(threshold, RecordedAll(threshold, table, path, front), path, last);
    }
  }

  /** An untouched breaker that has recorded some outcomes is tripped exactly when some prefix of at least ten of them
      holds the threshold's share of faults, and its trip time is that of the first such prefix. */
  lemma TripsExactlyWhen(threshold: B.Threshold, table: B.Table, path: Bytes, events: seq<Event>)
    requires B.WellFormed(table) && InnerOf(table, path) == B.Inner(path, 0, 0, None)
    ensures var inner := InnerOf(RecordedAll(threshold, table, path, events), path);
            && inner.path == path && inner.total == |events| && inner.failures == Faults(events)
            && (inner.trippedAt.Some? <==> exists k | 0 <= k <= |events| :: Warrants(threshold, events[..k]))
            && (forall k: nat | FirstWarrant(threshold, events, k) :: inner.trippedAt == Some(events[k - 1].at))
  {
    Counts(threshold, table, path, events);
    var first := FirstWarranted(threshold, events);
    if first.Some? { FirstWarrantedIs(threshold, events, first.value); }
    forall k: nat | k <= |events| && first.None? ensures !Warrants(threshold, events[..k]) {
      FirstWarrantedIs(threshold, events, k);
    }
    forall k: nat | FirstWarrant(threshold, events, k) ensures first == Some(k) {
      FirstWarrantedIs(threshold, events, k);
    }
  }

  /** It then rejects calls for thirty seconds from that time on, and never otherwise. */
  lemma RejectsExactlyWhile(threshold: B.Threshold, table: B.Table, path: Bytes, events: seq<Event>, now: nat)
    requires B.WellFormed(table) && InnerOf(table, path) == B.Inner(path, 0, 0, None)
    ensures B.StateOf(InnerOf(RecordedAll(threshold, table, path, events), path), now) == B.Open
       <==> exists k: nat :: FirstWarrant(threshold, events, k) && now <= events[k - 1].at + 30000
  {
    Counts(threshold, table, path, events);
    var first := FirstWarranted(threshold, events);
    if first.Some? { FirstWarrantedIs(threshold, events, first.value); }
    forall k: nat | FirstWarrant(threshold, events, k) ensures first == Some(k) {
      FirstWarrantedIs(threshold, events, k);
    }
  }

  /** Recording on one path leaves every other path's breaker as it is. */
  lemma {:induction false} OtherPathsUntouched(threshold: B.Threshold, table: B.Table, path: Bytes,
                                               events: seq<Event>, other: Bytes)
    requires B.WellFormed(table) && other != path
    ensures InnerOf(RecordedAll(threshold, table, path, events), other) == InnerOf(table, other)
  {
    if events != [] { OtherPathsUntouched(threshold, table, path, events[..|events| - 1], other); }
  }
}
