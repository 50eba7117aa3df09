/** The round-robin connection pool. Each request picks a slot, looks at it, connects without holding
    the slot when it is empty or closed, and looks again before installing its connection. */
module Pool {
  import opened Options
  import opened Tally

  /** An upstream connection: whether it is closed, and the slot it was installed in. */
  datatype Conn = Conn(closed: bool, installedIn: Option<nat>)

  datatype Pc =
    | Idle
    | Picked(slot: nat)
    | Connecting(slot: nat)
    | Connected(slot: nat, spare: nat)

  /** A finished request: the slot it picked and the connection it got, if any. */
  datatype Served = Served(slot: nat, conn: Option<nat>)

  datatype State = State(
    tasks: seq<Pc>,
    slots: seq<Option<nat>>,
    conns: seq<Conn>,
    next: nat,
    picks: seq<nat>,
    served: seq<Served>)

  /** The counter is a 64-bit word. */
  const WRAP := 0x1_0000_0000_0000_0000

  predicate Init(size: nat, n: nat, s: State) {
    && |s.tasks| == n && (forall t | 0 <= t < n :: s.tasks[t] == Idle)
    && |s.slots| == (if size >= 1 then size else 1) && (forall k | 0 <= k < |s.slots| :: s.slots[k] == None)
    && s.conns == [] && s.next == 0 && s.picks == [] && s.served == []
  }

  predicate Live(conns: seq<Conn>, slot: Option<nat>) {
    slot.Some? && slot.value < |conns| && !conns[slot.value].closed
  }

  datatype Step =
    | Pick(t: nat)
    | Look(t: nat)
    | Connect(t: nat) | ConnectFails(t: nat)
    | Install(t: nat)
    | Close(conn: nat)

  predicate Enabled(s: State, step: Step) {
    match step
    case Pick(t) => t < |s.tasks| && s.tasks[t].Idle? && |s.slots| > 0
    case Look(t) => t < |s.tasks| && s.tasks[t].Picked? && s.tasks[t].slot < |s.slots|
    case Connect(t) => t < |s.tasks| && s.tasks[t].Connecting?
    case ConnectFails(t) => t < |s.tasks| && s.tasks[t].Connecting?
    case Install(t) =>
      && t < |s.tasks| && s.tasks[t].Connected? && s.tasks[t].slot < |s.slots| && s.tasks[t].spare < |s.conns|
    case Close(conn) => conn < |s.conns| && !s.conns[conn].closed
  }

  function Serve(s: State, t: nat, conn: Option<nat>): State
    requires t < |s.tasks| && !s.tasks[t].Idle?
  {
    s.(tasks := s.tasks[t := Idle], served := s.served + [Served(s.tasks[t].slot, conn)])
  }

  /** Whoever filled the slot meanwhile wins; a closed or missing connection is replaced. */
  function DoInstall(s: State, t: nat): State
    requires Enabled(s, Install(t))
  {
    var Connected(slot, spare) := s.tasks[t];
    if Live(s.conns, s.slots[slot]) then Serve(s, t, s.slots[slot])
    else
      Serve(s, t, Some(spare)).(
        slots := s.slots[slot := Some(spare)],
        conns := s.conns[spare := s.conns[spare].(installedIn := Some(slot))])
  }

  function Apply(s: State, step: Step): State
    requires Enabled(s, step)
  {
    match step
    case Pick(t) =>
      var slot := s.next % |s.slots|;
      s.(tasks := s.tasks[t := Picked(slot)], next := (s.next + 1) % WRAP, picks := s.picks + [slot])
    case Look(t) =>
      var slot := s.tasks[t].slot;
      if Live(s.conns, s.slots[slot]) then Serve(s, t, s.slots[slot])
      else s.(tasks := s.tasks[t := Connecting(slot)])
    case Connect(t) =>
      s.(tasks := s.tasks[t := Connected(s.tasks[t].slot, |s.conns|)], conns := s.conns + [Conn(false, None)])
    case ConnectFails(t) => Serve(s, t, None)
    case Install(t) => DoInstall(s, t)
    case Close(conn) => s.(conns := s.conns[conn := s.conns[conn].(closed := true)])
  }

  ghost predicate Next(s: State, s': State) {
    exists step :: Enabled(s, step) && s' == Apply(s, step)
  }

  ghost predicate IsRun(size: nat, n: nat, run: seq<State>) {
    && |run| > 0 && Init(size, n, run[0])
    && (forall i | 0 <= i < |run| - 1 :: Moves(run, i))
  }

  ghost predicate Moves(run: seq<State>, i: nat)
    requires i + 1 < |run|
  {
    Next(run[i], run[i + 1])
  }

  // ---------- invariant ----------

  ghost predicate TaskOk(s: State, pc: Pc) {
    && (!pc.Idle? ==> pc.slot < |s.slots|)
    && (pc.Connected? ==> pc.spare < |s.conns| && s.conns[pc.spare].installedIn.None?)
  }

  /** An installed connection that is still open is the one in its slot. */
  ghost predicate ConnOk(s: State, conn: nat)
    requires conn < |s.conns|
  {
    s.conns[conn].installedIn.Some? && !s.conns[conn].closed ==>
      var slot := s.conns[conn].installedIn.value;
      slot < |s.slots| && s.slots[slot] == Some(conn)
  }

  ghost predicate SlotOk(s: State, slot: nat)
    requires slot < |s.slots|
  {
    s.slots[slot].Some? ==>
      s.slots[slot].value < |s.conns| && s.conns[s.slots[slot].value].installedIn == Some(slot)
  }

  /** A request got the connection of the slot it picked, never one that was dropped. */
  ghost predicate ServedOk(s: State, served: Served) {
    && served.slot < |s.slots|
    && (served.conn.Some? ==>
          served.conn.value < |s.conns| && s.conns[served.conn.value].installedIn == Some(served.slot))
  }

  /** Until the counter wraps, the kth request picks slot k modulo the pool size. */
  ghost predicate PicksOk(picks: seq<nat>, next: nat, size: nat)
    requires size > 0
  {
    && next == |picks| % WRAP
    && (|picks| <= WRAP ==> forall k | 0 <= k < |picks| :: picks[k] == k % size)
  }

  ghost predicate Inv(s: State) {
    && |s.slots| > 0
    && (forall t | 0 <= t < |s.tasks| :: TaskOk(s, s.tasks[t]))
    && (forall t, u | 0 <= t < u < |s.tasks| && s.tasks[t].Connected? && s.tasks[u].Connected? ::
          s.tasks[t].spare != s.tasks[u].spare)
    && (forall conn | 0 <= conn < |s.conns| :: ConnOk(s, conn))
    && (forall slot | 0 <= slot < |s.slots| :: SlotOk(s, slot))
    && (forall k | 0 <= k < |s.served| :: ServedOk(s, s.served[k]))
    && PicksOk(s.picks, s.next, |s.slots|)
  }

  /** What every step keeps of connections and slots. */
  ghost predicate Keeps(s: State, s': State) {
    && |s'.slots| == |s.slots| && |s'.tasks| == |s.tasks| && |s.conns| <= |s'.conns|
    && (forall conn | 0 <= conn < |s.conns| ::
          s.conns[conn].installedIn.Some? ==> s'.conns[conn].installedIn == s.conns[conn].installedIn)
    && s.served <= s'.served && |s'.served| <= |s.served| + 1
  }

  lemma StepKeeps(s: State, step: Step)
    requires Inv(s) && Enabled(s, step)
    ensures Keeps(s, Apply(s, step))
    ensures |Apply(s, step).served| > |s.served| ==> ServedOk(Apply(s, step), Apply(s, step).served[|s.served|])
  {
    match step
    case Look(t) =>
      assert TaskOk(s, s.tasks[t]) && SlotOk(s, s.tasks[t].slot);
    case ConnectFails(t) =>
      assert TaskOk(s, s.tasks[t]);
    case Install(t) =>
      assert TaskOk(s, s.tasks[t]) && SlotOk(s, s.tasks[t].slot);
    case _ =>
  }

  lemma StepServed(s: State, step: Step)
    requires Inv(s) && Enabled(s, step)
    ensures var s' := Apply(s, step); forall k | 0 <= k < |s'.served| :: ServedOk(s', s'.served[k])
  {
    var s' := Apply(s, step);
    StepKeeps(s, step);
    forall k | 0 <= k < |s'.served| ensures ServedOk(s', s'.served[k]) {
      if k < |s.served| {
        assert s'.served[k] == s.served[k];
        assert ServedOk(s, s.served[k]);
      }
    }
  }

  lemma StepTasks(s: State, step: Step, t: nat)
    requires Inv(s) && Enabled(s, step) && t < |s.tasks|
    ensures |Apply(s, step).tasks| == |s.tasks| && TaskOk(Apply(s, step), Apply(s, step).tasks[t])
  {
    assert TaskOk(s, s.tasks[t]);
  }

  /** No two requests hold the same not yet installed connection. */
  lemma StepSpares(s: State, step: Step, t: nat, u: nat)
    requires Inv(s) && Enabled(s, step) && t < u < |s.tasks| == |Apply(s, step).tasks|
    requires Apply(s, step).tasks[t].Connected? && Apply(s, step).tasks[u].Connected?
    ensures Apply(s, step).tasks[t].spare != Apply(s, step).tasks[u].spare
  {
    assert TaskOk(s, s.tasks[t]) && TaskOk(s, s.tasks[u]);
  }

  lemma StepConns(s: State, step: Step, conn: nat)
    requires Inv(s) && Enabled(s, step) && conn < |Apply(s, step).conns|
    ensures ConnOk(Apply(s, step), conn)
  {
    if conn < |s.conns| { assert ConnOk(s, conn); }
    if step.Install? { assert TaskOk(s, s.tasks[step.t]); }
  }

  lemma StepSlots(s: State, step: Step, slot: nat)
    requires Inv(s) && Enabled(s, step) && slot < |s.slots|
    ensures |Apply(s, step).slots| == |s.slots| && SlotOk(Apply(s, step), slot)
  {
    assert SlotOk(s, slot);
    if step.Install? { assert TaskOk(s, s.tasks[step.t]); }
  }

  lemma WrapAround(count: nat)
    ensures (count % WRAP + 1) % WRAP == (count + 1) % WRAP
    ensures count < WRAP ==> count % WRAP == count
  {
  }

  lemma StepPicks(s: State, step: Step)
    requires Inv(s) && Enabled(s, step)
    ensures |Apply(s, step).slots| == |s.slots|
    ensures PicksOk(Apply(s, step).picks, Apply(s, step).next, |s.slots|)
  {
    WrapAround(|s.picks|);
  }

  lemma StepInv(s: State, step: Step)
    requires Inv(s) && Enabled(s, step)
    ensures Inv(Apply(s, step)) && Keeps(s, Apply(s, step))
  {
    var s' := Apply(s, step);
    StepKeeps(s, step);
    StepServed(s, step);
    StepPicks(s, step);
    forall t | 0 <= t < |s'.tasks| ensures TaskOk(s', s'.tasks[t]) { StepTasks(s, step, t); }
    forall t, u | 0 <= t < u < |s'.tasks| && s'.tasks[t].Connected? && s'.tasks[u].Connected?
      ensures s'.tasks[t].spare != s'.tasks[u].spare { StepSpares(s, step, t, u); }
    forall conn | 0 <= conn < |s'.conns| ensures ConnOk(s', conn) { StepConns(s, step, conn); }
    forall slot | 0 <= slot < |s'.slots| ensures SlotOk(s', slot) { StepSlots(s, step, slot); }
  }

  lemma {:induction false} RunInv(size: nat, n: nat, run: seq<State>, i: nat)
    requires IsRun(size, n, run) && i < |run|
    ensures Inv(run[i]) && |run[i].tasks| == n && |run[i].slots| == (if size >= 1 then size else 1)
  {
    if i > 0 {
      RunInv(size, n, run, i - 1);
      assert Moves(run, i - 1);
      var step :| Enabled(run[i - 1], step) && run[i] == Apply(run[i - 1], step);
      StepInv(run[i - 1], step);
    }
  }

  // ---------- guarantees ----------

  /** A slot's open connection is never replaced, whatever step is taken. */
  lemma OpenConnectionStays(s: State, step: Step, slot: nat)
    requires Enabled(s, step) && slot < |s.slots| && Live(s.conns, s.slots[slot])
    ensures slot < |Apply(s, step).slots| && Apply(s, step).slots[slot] == s.slots[slot]
  {
  }

  ghost function InstalledIn(slot: nat): Conn -> nat {
    (conn: Conn) => if conn.installedIn == Some(slot) then 1 else 0
  }

  ghost function ClosedIn(slot: nat): Conn -> nat {
    (conn: Conn) => if conn.installedIn == Some(slot) && conn.closed then 1 else 0
  }

  ghost function OpenIn(slot: nat): Conn -> nat {
    (conn: Conn) => if conn.installedIn == Some(slot) && !conn.closed then 1 else 0
  }

  /** Racing reconnects install one connection between two closings: the connections ever installed
      in a slot are those that have closed, plus the one it holds if that is open. */
  lemma OneInstallPerClosing(size: nat, n: nat, run: seq<State>, i: nat, slot: nat)
    requires IsRun(size, n, run) && i < |run| && slot < |run[i].slots|
    ensures var s := run[i];
            Sum(s.conns, InstalledIn(slot))
            == Sum(s.conns, ClosedIn(slot)) + (if Live(s.conns, s.slots[slot]) then 1 else 0)
  {
    var s := run[i];
    RunInv(size, n, run, i);
    SumSplit(s.conns, InstalledIn(slot), ClosedIn(slot), OpenIn(slot));
    assert SlotOk(s, slot);
    forall conn | 0 <= conn < |s.conns| ensures OpenIn(slot)(s.conns[conn]) == 1 ==> s.slots[slot] == Some(conn) {
      assert ConnOk(s, conn);
    }
    if Live(s.conns, s.slots[slot]) {
      SumSingle(s.conns, OpenIn(slot), s.slots[slot].value);
    } else {
      SumZero(s.conns, OpenIn(slot));
    }
  }

  ghost function Contents(slots: seq<Option<nat>>): (r: set<nat>)
    ensures |r| <= |slots|
    ensures forall k | 0 <= k < |slots| && slots[k].Some? :: slots[k].value in r
  {
    if slots == [] then {}
    else
      var last := slots[|slots| - 1];
      Contents(slots[..|slots| - 1]) + if last.Some? then {last.value} else {}
  }

  /** The pool keeps at most its size in open connections; a pool of size 0 has one slot. */
  lemma AtMostSizeOpen(size: nat, n: nat, run: seq<State>, i: nat, open: set<nat>)
    requires IsRun(size, n, run) && i < |run|
    requires forall conn | conn in open ::
               conn < |run[i].conns| && run[i].conns[conn].installedIn.Some? && !run[i].conns[conn].closed
    ensures |open| <= if size >= 1 then size else 1
  {
    var s := run[i];
    RunInv(size, n, run, i);
    forall conn | conn in open ensures conn in Contents(s.slots) {
      assert ConnOk(s, conn);
    }
    SubsetSize(open, Contents(s.slots));
  }

  ghost function PickOf(slot: nat): nat -> nat {
    (pick: nat) => if pick == slot then 1 else 0
  }

  /** How many of the first n requests pick this slot. */
  function Share(n: nat, size: nat, slot: nat): nat
    requires size > 0
  {
    n / size + if slot < n % size then 1 else 0
  }

  lemma ShareStep(n: nat, size: nat, slot: nat)
    requires slot < size
    ensures Share(n + 1, size, slot) == Share(n, size, slot) + if n % size == slot then 1 else 0
  {
    DivStep(n, size);
  }

  lemma {:induction false} RoundRobin(picks: seq<nat>, size: nat, slot: nat)
    requires slot < size && forall k | 0 <= k < |picks| :: picks[k] == k % size
    ensures Sum(picks, PickOf(slot)) == Share(|picks|, size, slot)
  {
    if picks != [] {
      var last := |picks| - 1;
      RoundRobin(picks[..last], size, slot);
      ShareStep(last, size, slot);
    } else {
      DivUnique(0, size, 0, 0);
    }
  }

  lemma {:induction false} MulAtLeast(a: nat, d: int)
    ensures d >= 1 ==> a * d >= a
    ensures d <= -1 ==> a * d + a <= 0
    decreases if d >= 0 then d else -d
  {
    if d > 1 {
      MulAtLeast(a, d - 1);
      assert a * d == a * (d - 1) + a;
    } else if d < -1 {
      MulAtLeast(a, d + 1);
      assert a * d == a * (d + 1) - a;
    }
  }
  lemma DivUnique(k: nat, size: nat, q: nat, r: nat)
    requires size > 0 && k == size * q + r && r < size
    ensures k / size == q && k % size == r
  {
    var q', r' := k / size, k % size;
    assert k == size * q' + r';
    MulAtLeast(size, q' - q);
    assert size * (q' - q) == size * q' - size * q;
  }
  lemma DivStep(k: nat, size: nat)
    requires size > 0
    ensures k % size == size - 1 ==> (k + 1) / size == k / size + 1 && (k + 1) % size == 0
    ensures k % size < size - 1 ==> (k + 1) / size == k / size && (k + 1) % size == k % size + 1
  {
    var q, r := k / size, k % size;
    assert k == size * q + r;
    if r == size - 1 {
      assert size * (q + 1) == size * q + size;
      DivUnique(k + 1, size, q + 1, 0);
    } else {
      DivUnique(k + 1, size, q, r + 1);
    }
  }

  /** Until the counter wraps, any two slots have served almost equally many requests. */
  lemma EvenSpread(size: nat, n: nat, run: seq<State>, i: nat, j: nat, k: nat)
    requires IsRun(size, n, run) && i < |run| && |run[i].picks| <= WRAP
    requires j < |run[i].slots| && k < |run[i].slots|
    ensures Sum(run[i].picks, PickOf(j)) <= Sum(run[i].picks, PickOf(k)) + 1
  {
    RunInv(size, n, run, i);
    RoundRobin(run[i].picks, |run[i].slots|, j);
    RoundRobin(run[i].picks, |run[i].slots|, k);
  }

  /** A served request got a connection that was installed in the slot it picked. */
  lemma ServedFromPool(size: nat, n: nat, run: seq<State>, i: nat, served: Served)
    requires IsRun(size, n, run) && i < |run| && served in run[i].served && served.conn.Some?
    ensures served.conn.value < |run[i].conns|
    ensures run[i].conns[served.conn.value].installedIn == Some(served.slot)
  {
    RunInv(size, n, run, i);
    assert ServedOk(run[i], served);
  }
}
