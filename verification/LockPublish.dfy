/** Publishing a rendered lock: a temporary file named after the process, then a rename. Writers of any number of
    processes interleave, fail and crash at every step, and crashed processes are started again. */
module LockPublish {
  import opened Options

  type Content = seq<char>

  datatype Path = LockFile | Temp(pid: nat, n: nat)

  datatype Pc =
    | Ready
    | Named(tmp: Path)
    | Writing(tmp: Path, inode: nat, done: nat)
    | Renaming(tmp: Path)
    | CleaningUp(tmp: Path)
    | Written
    | Failed
    | Crashed
  {
    predicate HasTemp() {
      Named? || Writing? || Renaming? || CleaningUp?
    }
  }

  /** One life of a process: its counter starts at 0, its pid may have been used before. */
  datatype Instance = Instance(pid: nat, counter: nat, alive: bool)

  /** A writer runs in one life of a process and publishes what it rendered. */
  datatype Writer = Writer(instance: nat, contents: Content, pc: Pc)

  /** A temporary name taken: by which life of a process, and its count there. */
  datatype Name = Name(instance: nat, n: nat)

  /** dir maps paths to files, whose contents are inodes; publisher is the last writer whose rename succeeded. */
  datatype State = State(
    instances: seq<Instance>,
    writers: seq<Writer>,
    dir: map<Path, nat>,
    inodes: seq<Content>,
    names: seq<Name>,
    publisher: nat)

  /** No two paths lead to one file. */
  ghost predicate DirOk(s: State) {
    && (forall p | p in s.dir :: s.dir[p] < |s.inodes|)
    && (forall p, q | p in s.dir && q in s.dir && p != q :: s.dir[p] != s.dir[q])
  }

  /** Any files may be there already; |writers| as publisher means nobody has published. */
  ghost predicate Init(s: State) {
    && (forall w | 0 <= w < |s.writers| :: s.writers[w].pc == Ready)
    && (forall x | 0 <= x < |s.instances| :: s.instances[x].counter == 0)
    && DirOk(s) && s.names == [] && s.publisher == |s.writers|
  }

  /** What a reader of the lock file sees. */
  function Visible(s: State): Option<Content> {
    if LockFile in s.dir && s.dir[LockFile] < |s.inodes| then Some(s.inodes[s.dir[LockFile]]) else None
  }

  // ---------- steps ----------

  datatype Action =
    | TakeName
    | Create
    | WriteMore(upTo: nat)
    | FinishWrite
    | WriteFails
    | Rename
    | RenameFails
    | RemoveTemp

  datatype Step = WriterStep(w: nat, act: Action) | Crash(instance: nat) | Start(pid: nat)

  predicate Running(s: State, x: nat) {
    x < |s.instances| && s.instances[x].alive
  }

  predicate WriterEnabled(s: State, writer: Writer, act: Action) {
    var pc := writer.pc;
    match act
    case TakeName => pc.Ready? && Running(s, writer.instance)
    case Create => pc.Named? && (pc.tmp in s.dir ==> s.dir[pc.tmp] < |s.inodes|)
    case WriteMore(upTo) => pc.Writing? && pc.inode < |s.inodes| && pc.done <= upTo <= |writer.contents|
    case FinishWrite => pc.Writing? && pc.done == |writer.contents|
    case WriteFails => pc.Named? || pc.Writing?
    case Rename => pc.Renaming? && pc.tmp in s.dir
    case RenameFails => pc.Renaming?
    case RemoveTemp => pc.CleaningUp?
  }

  predicate Enabled(s: State, step: Step) {
    match step
    case Crash(x) => x < |s.instances|
    case Start(_) => true
    case WriterStep(w, act) => w < |s.writers| && WriterEnabled(s, s.writers[w], act)
  }

  function WithPc(s: State, w: nat, pc: Pc): State
    requires w < |s.writers|
  {
    s.(writers := s.writers[w := s.writers[w].(pc := pc)])
  }

  function Zeros(n: nat): Content {
    seq(n, _ => '\0')
  }

  /** A file after bytes were written at an offset; a gap is filled with zeros. */
  function Overwritten(file: Content, at: nat, bytes: Content): Content {
    if |file| < at then file + Zeros(at - |file|) + bytes
    else file[..at] + bytes + if at + |bytes| < |file| then file[at + |bytes|..] else []
  }

  /** Opening for writing truncates a file that is there and makes a new one otherwise. */
  function Created(s: State, w: nat, tmp: Path): State
    requires w < |s.writers| && (tmp in s.dir ==> s.dir[tmp] < |s.inodes|)
  {
    if tmp in s.dir then WithPc(s, w, Writing(tmp, s.dir[tmp], 0)).(inodes := s.inodes[s.dir[tmp] := []])
    else
      WithPc(s, w, Writing(tmp, |s.inodes|, 0)).(inodes := s.inodes + [[]], dir := s.dir[tmp := |s.inodes|])
  }

  function TakenName(s: State, w: nat): State
    requires w < |s.writers| && s.writers[w].instance < |s.instances|
  {
    var x := s.writers[w].instance;
    var instance := s.instances[x];
    WithPc(s, w, Named(Temp(instance.pid, instance.counter))).(
      instances := s.instances[x := instance.(counter := instance.counter + 1)],
      names := s.names + [Name(x, instance.counter)])
  }

  function ApplyWriter(s: State, w: nat, act: Action): State
    requires Enabled(s, WriterStep(w, act))
  {
    var writer := s.writers[w];
    match act
    case TakeName => TakenName(s, w)
    case Create => Created(s, w, writer.pc.tmp)
    case WriteMore(upTo) =>
      var k := writer.pc.inode;
      WithPc(s, w, writer.pc.(done := upTo)).(
        inodes := s.inodes[k := Overwritten(s.inodes[k], writer.pc.done, writer.contents[writer.pc.done..upTo])])
    case FinishWrite => WithPc(s, w, Renaming(writer.pc.tmp))
    case WriteFails => WithPc(s, w, Failed)
    case Rename =>
      WithPc(s, w, Written).(
        dir := (s.dir - {writer.pc.tmp})[LockFile := s.dir[writer.pc.tmp]], publisher := w)
    case RenameFails => WithPc(s, w, CleaningUp(writer.pc.tmp))
    case RemoveTemp => WithPc(s, w, Failed).(dir := s.dir - {writer.pc.tmp})
  }

  function AfterCrash(writer: Writer, x: nat): Writer {
    if writer.instance == x && !writer.pc.Written? && !writer.pc.Failed? then writer.(pc := Crashed) else writer
  }

  /** A crash stops every unfinished writer of that life of the process, leaving its files as they are. */
  function ApplyCrash(s: State, x: nat): State
    requires x < |s.instances|
  {
    s.(instances := s.instances[x := s.instances[x].(alive := false)],
       writers := seq(|s.writers|, w requires 0 <= w < |s.writers| => AfterCrash(s.writers[w], x)))
  }

  function Apply(s: State, step: Step): State
    requires Enabled(s, step)
  {
    match step
    case WriterStep(w, act) => ApplyWriter(s, w, act)
    case Crash(x) => ApplyCrash(s, x)
    case Start(pid) => s.(instances := s.instances + [Instance(pid, 0, true)])
  }

  ghost predicate Next(s: State, s': State) {
    exists step :: Enabled(s, step) && s' == Apply(s, step)
  }

  ghost predicate IsRun(run: seq<State>) {
    && |run| > 0 && Init(run[0])
    && (forall i | 0 <= i < |run| - 1 :: Moves(run, i))
  }

  ghost predicate Moves(run: seq<State>, i: nat)
    requires i + 1 < |run|
  {
    Next(run[i], run[i + 1])
  }

  /** Writers of two processes that run at the same time under one pid. */
  predicate Share(s: State, v: nat, w: nat) {
    && v < |s.writers| && w < |s.writers| && s.writers[v].instance != s.writers[w].instance
    && Running(s, s.writers[v].instance) && Running(s, s.writers[w].instance)
    && s.instances[s.writers[v].instance].pid == s.instances[s.writers[w].instance].pid
  }

  /** No two writers' processes run under one pid at the same time; one after another they may. */
  ghost predicate PidsApart(s: State) {
    forall v, w :: !Share(s, v, w)
  }

  // ---------- invariant ----------

  ghost predicate NamesOk(s: State) {
    && (forall i, j | 0 <= i < j < |s.names| :: s.names[i] != s.names[j])
    && (forall i | 0 <= i < |s.names| ::
          s.names[i].instance < |s.instances| && s.names[i].n < s.instances[s.names[i].instance].counter)
  }

  ghost predicate WriterOk(s: State, w: nat)
    requires w < |s.writers|
  {
    var writer := s.writers[w];
    && (writer.pc.HasTemp() ==>
          && Running(s, writer.instance) && writer.pc.tmp.Temp?
          && writer.pc.tmp.pid == s.instances[writer.instance].pid
          && writer.pc.tmp.n < s.instances[writer.instance].counter)
    && (writer.pc.Writing? ==>
          && writer.pc.tmp in s.dir && s.dir[writer.pc.tmp] == writer.pc.inode < |s.inodes|
          && writer.pc.done <= |writer.contents| && s.inodes[writer.pc.inode] == writer.contents[..writer.pc.done])
    && (writer.pc.Renaming? ==>
          writer.pc.tmp in s.dir && s.dir[writer.pc.tmp] < |s.inodes|
          && s.inodes[s.dir[writer.pc.tmp]] == writer.contents)
  }

  ghost predicate WritersOk(s: State) {
    forall w | 0 <= w < |s.writers| :: WriterOk(s, w)
  }

  /** Writers under way never share a temporary path. */
  ghost predicate Apart(s: State) {
    forall v, w | 0 <= v < w < |s.writers| && s.writers[v].pc.HasTemp() && s.writers[w].pc.HasTemp() ::
      s.writers[v].pc.tmp != s.writers[w].pc.tmp
  }

  /** What the lock file shows: the initial content, or everything its last publisher rendered. */
  ghost predicate VisibleOk(initial: State, s: State) {
    if s.publisher < |s.writers|
    then s.writers[s.publisher].pc == Written && Visible(s) == Some(s.writers[s.publisher].contents)
    else Visible(s) == Visible(initial)
  }

  /** Writers keep their process and what they rendered. */
  ghost predicate SameWriters(initial: State, s: State) {
    && |s.writers| == |initial.writers|
    && (forall w | 0 <= w < |s.writers| ::
          s.writers[w].instance == initial.writers[w].instance && s.writers[w].contents == initial.writers[w].contents)
  }

  ghost predicate Inv(initial: State, s: State) {
    DirOk(s) && NamesOk(s) && WritersOk(s) && Apart(s) && VisibleOk(initial, s) && SameWriters(initial, s)
  }

  lemma StepDir(s: State, step: Step)
    requires DirOk(s) && WritersOk(s) && Enabled(s, step)
    ensures DirOk(Apply(s, step))
  {
    if step.WriterStep? { assert WriterOk(s, step.w); }
  }

  lemma StepNames(s: State, step: Step)
    requires NamesOk(s) && Enabled(s, step)
    ensures NamesOk(Apply(s, step)) && s.names <= Apply(s, step).names
  {
  }

  lemma StepApart(s: State, w: nat, act: Action)
    requires PidsApart(s) && Apart(s) && WritersOk(s) && Enabled(s, WriterStep(w, act))
    ensures Apart(ApplyWriter(s, w, act))
  {
    if act.TakeName? {
      var instance := s.instances[s.writers[w].instance];
      forall v | 0 <= v < |s.writers| && s.writers[v].pc.HasTemp()
        ensures s.writers[v].pc.tmp != Temp(instance.pid, instance.counter) {
        assert WriterOk(s, v) && !Share(s, v, w);
      }
    }
  }

  lemma CrashApart(s: State, x: nat)
    requires Apart(s) && x < |s.instances|
    ensures Apart(ApplyCrash(s, x))
  {
  }

  /** What a step of w leaves of another writer's file. */
  lemma StepOther(s: State, w: nat, act: Action, v: nat)
    requires DirOk(s) && Apart(s) && WritersOk(s) && Enabled(s, WriterStep(w, act)) && v < |s.writers| && v != w
    ensures v < |ApplyWriter(s, w, act).writers| && WriterOk(ApplyWriter(s, w, act), v)
  {
    assert WriterOk(s, v) && WriterOk(s, w);
  }

  lemma WrittenOn(file: Content, contents: Content, done: nat, upTo: nat)
    requires done <= upTo <= |contents| && file == contents[..done]
    ensures Overwritten(file, done, contents[done..upTo]) == contents[..upTo]
  {
  }

  lemma StepOwn(s: State, w: nat, act: Action)
    requires DirOk(s) && WritersOk(s) && Enabled(s, WriterStep(w, act))
    ensures w < |ApplyWriter(s, w, act).writers| && WriterOk(ApplyWriter(s, w, act), w)
  {
    var writer := s.writers[w];
    assert WriterOk(s, w);
    if act.WriteMore? { WrittenOn(s.inodes[writer.pc.inode], writer.contents, writer.pc.done, act.upTo); }
    if act.FinishWrite? { assert writer.contents[..|writer.contents|] == writer.contents; }
  }

  lemma StepWriters(s: State, w: nat, act: Action)
    requires DirOk(s) && Apart(s) && WritersOk(s) && Enabled(s, WriterStep(w, act))
    ensures WritersOk(ApplyWriter(s, w, act))
  {
    var s' := ApplyWriter(s, w, act);
    forall v | 0 <= v < |s'.writers| ensures WriterOk(s', v) {
      if v == w { StepOwn(s, w, act); } else { StepOther(s, w, act, v); }
    }
  }

  lemma CrashWriters(s: State, x: nat)
    requires WritersOk(s) && x < |s.instances|
    ensures WritersOk(ApplyCrash(s, x))
  {
    var s' := ApplyCrash(s, x);
    forall v | 0 <= v < |s'.writers| ensures WriterOk(s', v) { assert WriterOk(s, v); }
  }

  lemma StepVisible(initial: State, s: State, w: nat, act: Action)
    requires DirOk(s) && WritersOk(s) && VisibleOk(initial, s) && Enabled(s, WriterStep(w, act))
    ensures VisibleOk(initial, ApplyWriter(s, w, act))
  {
    assert WriterOk(s, w);
  }

  lemma WriterInv(initial: State, s: State, w: nat, act: Action)
    requires Inv(initial, s) && PidsApart(s) && Enabled(s, WriterStep(w, act))
    ensures var s' := ApplyWriter(s, w, act);
            WritersOk(s') && Apart(s') && VisibleOk(initial, s') && SameWriters(initial, s')
  {
    StepApart(s, w, act);
    StepVisible(initial, s, w, act);
    StepWriters(s, w, act);
  }

  lemma StepInv(initial: State, s: State, step: Step)
    requires Inv(initial, s) && PidsApart(s) && Enabled(s, step)
    ensures Inv(initial, Apply(s, step))
  {
    StepDir(s, step);
    StepNames(s, step);
    match step
    case WriterStep(w, act) => WriterInv(initial, s, w, act);
    case Crash(x) =>
      CrashApart(s, x);
      CrashWriters(s, x);
    case Start(pid) =>
      StartWriters(s, pid);
  }

  lemma StartWriters(s: State, pid: nat)
    requires WritersOk(s)
    ensures WritersOk(Apply(s, Start(pid)))
  {
    forall v | 0 <= v < |s.writers| ensures WriterOk(Apply(s, Start(pid)), v) { assert WriterOk(s, v); }
  }

  lemma RunStep(run: seq<State>, i: nat) returns (step: Step)
    requires IsRun(run) && i + 1 < |run|
    ensures Enabled(run[i], step) && run[i + 1] == Apply(run[i], step)
  {
    assert Moves(run, i);
    step :| Enabled(run[i], step) && run[i + 1] == Apply(run[i], step);
  }

  lemma {:induction false} RunInv(run: seq<State>, i: nat)
    requires IsRun(run) && i < |run| && forall k | 0 <= k < i :: PidsApart(run[k])
    ensures Inv(run[0], run[i])
  {
    if i > 0 {
      RunInv(run, i - 1);
      var step := RunStep(run, i - 1);
      StepInv(run[0], run[i - 1], step);
    }
  }

  // ---------- guarantees ----------

  /** While no two running processes share a pid, the lock file holds at any moment its initial content or one
      writer's complete rendering. */
  lemma NoPartialLock(run: seq<State>, i: nat)
    requires IsRun(run) && i < |run| && forall k | 0 <= k < i :: PidsApart(run[k])
    ensures !Torn(run[0], run[i])
  {
    RunInv(run, i);
  }

  /** The lock file shows neither what it showed initially nor all that some successful writer rendered. */
  ghost predicate Torn(initial: State, s: State) {
    && Visible(s) != Visible(initial)
    && forall w | 0 <= w < |s.writers| && s.writers[w].pc == Written :: Visible(s) != Some(s.writers[w].contents)
  }

  /** Nor do two writers under way then ever use the same temporary path. */
  lemma UnfinishedApart(run: seq<State>, i: nat, v: nat, w: nat)
    requires IsRun(run) && i < |run| && forall k | 0 <= k < i :: PidsApart(run[k])
    requires v < w < |run[i].writers| && run[i].writers[v].pc.HasTemp() && run[i].writers[w].pc.HasTemp()
    ensures run[i].writers[v].pc.tmp != run[i].writers[w].pc.tmp
  {
    RunInv(run, i);
  }

  /** A write that can still fail or crash has left no trace in the lock file. */
  lemma OnlyWrittenShows(run: seq<State>, i: nat)
    requires IsRun(run) && i < |run| && forall k | 0 <= k < i :: PidsApart(run[k])
    requires forall w | 0 <= w < |run[i].writers| :: run[i].writers[w].pc != Written
    ensures Visible(run[i]) == Visible(run[0])
  {
    RunInv(run, i);
  }

  // ---------- when names repeat ----------

  lemma {:induction false} RunNames(run: seq<State>, i: nat)
    requires IsRun(run) && i < |run|
    ensures NamesOk(run[i])
  {
    if i > 0 {
      RunNames(run, i - 1);
      var step := RunStep(run, i - 1);
      StepNames(run[i - 1], step);
    }
  }

  function PathOf(s: State, name: Name): Path
    requires name.instance < |s.instances|
  {
    Temp(s.instances[name.instance].pid, name.n)
  }

  /** Over a run with any processes, two writes get the same temporary path exactly when they are the equally numbered
      writes of two lives under one pid; within one life of a process never. */
  lemma NamesRepeatExactly(run: seq<State>, i: nat, a: nat, b: nat)
    requires IsRun(run) && i < |run| && a < b < |run[i].names|
    ensures run[i].names[a].instance < |run[i].instances| && run[i].names[b].instance < |run[i].instances|
    ensures var s := run[i];
            PathOf(s, s.names[a]) == PathOf(s, s.names[b])
            <==> && s.names[a].instance != s.names[b].instance && s.names[a].n == s.names[b].n
                 && s.instances[s.names[a].instance].pid == s.instances[s.names[b].instance].pid
  {
    RunNames(run, i);
    assert run[i].names[a] != run[i].names[b];
  }

  // ---------- shared pids tear ----------

  function Last(run: seq<State>): State
    requires run != []
  {
    run[|run| - 1]
  }

  lemma Takes(run: seq<State>, step: Step) returns (longer: seq<State>)
    requires IsRun(run) && Enabled(Last(run), step)
    ensures IsRun(longer) && longer[0] == run[0] && Last(longer) == Apply(Last(run), step)
  {
    longer := run + [Apply(Last(run), step)];
    forall i | 0 <= i < |longer| - 1 ensures Moves(longer, i) {
      if i < |run| - 1 { assert Moves(run, i); }
    }
  }

  /** Both writers take the same temporary path. */
  lemma TakeOneName(s: State, v: nat, w: nat) returns (run: seq<State>, tmp: Path)
    requires Init(s) && Share(s, v, w)
    ensures IsRun(run) && run[0] == s && |Last(run).instances| == |s.instances| && DirOk(Last(run))
    ensures |Last(run).writers| == |s.writers|
    ensures Last(run).writers == s.writers[w := s.writers[w].(pc := Named(tmp))][v := s.writers[v].(pc := Named(tmp))]
    ensures tmp != LockFile
  {
    run := [s];
    run := Takes(run, WriterStep(w, TakeName));
    run := Takes(run, WriterStep(v, TakeName));
    tmp := Last(run).writers[w].pc.tmp;
  }

  /** Only the named writer moved, and its path leads to a file. */
  ghost predicate OnlyMoves(s: State, t: State, v: nat, tmp: Path) {
    && t.instances == s.instances && |t.writers| == |s.writers| && v < |s.writers|
    && t.writers == s.writers[v := s.writers[v].(pc := t.writers[v].pc)]
    && DirOk(t) && tmp in t.dir
  }

  lemma WritesAll(start: seq<State>, tmp: Path, w: nat) returns (run: seq<State>)
    requires IsRun(start) && w < |Last(start).writers| && DirOk(Last(start)) && Last(start).writers[w].pc == Named(tmp)
    ensures IsRun(run) && run[0] == start[0] && OnlyMoves(Last(start), Last(run), w, tmp)
    ensures Last(run).writers[w].pc == Renaming(tmp)
  {
    run := Takes(start, WriterStep(w, Create));
    run := Takes(run, WriterStep(w, WriteMore(|Last(start).writers[w].contents|)));
    run := Takes(run, WriterStep(w, FinishWrite));
  }

  lemma WritesPart(start: seq<State>, tmp: Path, v: nat, done: nat) returns (run: seq<State>)
    requires IsRun(start) && v < |Last(start).writers| && DirOk(Last(start)) && Last(start).writers[v].pc == Named(tmp)
    requires done <= |Last(start).writers[v].contents|
    ensures IsRun(run) && run[0] == start[0] && OnlyMoves(Last(start), Last(run), v, tmp)
    ensures Last(run).writers[v].pc.Writing?
    ensures Last(run).inodes[Last(run).dir[tmp]] == Last(start).writers[v].contents[..done]
  {
    var b := Last(start).writers[v].contents;
    run := Takes(start, WriterStep(v, Create));
    assert Last(run).inodes[Last(run).writers[v].pc.inode] == [];
    run := Takes(run, WriterStep(v, WriteMore(done)));
    assert Overwritten([], 0, b[0..done]) == b[..done];
  }

  /** One writer has written everything to the path when the other opens it and gets as far as done. */
  lemma WriteOneFile(start: seq<State>, tmp: Path, v: nat, w: nat, done: nat) returns (run: seq<State>)
    requires IsRun(start) && v < |Last(start).writers| && w < |Last(start).writers| && v != w && DirOk(Last(start))
    requires Last(start).writers[v].pc == Named(tmp) && Last(start).writers[w].pc == Named(tmp)
    requires done <= |Last(start).writers[v].contents|
    ensures IsRun(run) && run[0] == start[0] && Last(run).instances == Last(start).instances
    ensures |Last(run).writers| == |Last(start).writers|
    ensures Last(run).writers[w].contents == Last(start).writers[w].contents
    ensures forall u | 0 <= u < |Last(run).writers| && u != v && u != w ::
              Last(run).writers[u] == Last(start).writers[u]
    ensures Last(run).writers[v].pc.Writing? && Last(run).writers[w].pc == Renaming(tmp)
    ensures tmp in Last(run).dir && Last(run).dir[tmp] < |Last(run).inodes|
    ensures Last(run).inodes[Last(run).dir[tmp]] == Last(start).writers[v].contents[..done]
  {
    run := WritesAll(start, tmp, w);
    run := WritesPart(run, tmp, v, done);
  }

  /** Two writers under one pid: what the lock file shows in the end is a proper part of what one of them rendered. */
  lemma SharedPidTears(s: State, v: nat, w: nat)
    requires Init(s) && Share(s, v, w) && forall u | 0 <= u < |s.writers| :: |s.writers[u].contents| >= 2
    ensures CanTear(s)
  {
    var done := if Visible(s) == Some([]) then 1 else 0;
    var named, tmp := TakeOneName(s, v, w);
    var run := WriteOneFile(named, tmp, v, w, done);
    run := Takes(run, WriterStep(w, Rename));
    var t := Last(run);
    assert |s.writers[v].contents[..done]| == done;
    forall u | 0 <= u < |t.writers| && t.writers[u].pc == Written ensures Visible(t) != Some(t.writers[u].contents) {
      assert u == w;
    }
    assert Torn(s, t);
    assert TearsIn(s, run);
  }

  ghost predicate TearsIn(s: State, run: seq<State>) {
    IsRun(run) && run[0] == s && |Last(run).instances| == |s.instances| && Torn(s, Last(run))
  }

  /** Some run of the given writers, with no further process started, tears the lock file. */
  ghost predicate CanTear(s: State) {
    exists run :: TearsIn(s, run)
  }

  /** Without new processes, pids stay and processes only stop. */
  ghost predicate Fixed(s: State, t: State) {
    && |t.instances| == |s.instances| && |t.writers| == |s.writers|
    && (forall x | 0 <= x < |s.instances| ::
          t.instances[x].pid == s.instances[x].pid && (t.instances[x].alive ==> s.instances[x].alive))
    && (forall w | 0 <= w < |s.writers| :: t.writers[w].instance == s.writers[w].instance)
  }

  lemma {:induction false} InstancesGrow(run: seq<State>, i: nat, j: nat)
    requires IsRun(run) && i <= j < |run|
    ensures |run[i].instances| <= |run[j].instances|
    decreases j - i
  {
    if i < j {
      InstancesGrow(run, i, j - 1);
      var step := RunStep(run, j - 1);
    }
  }

  lemma {:induction false} StaysFixed(run: seq<State>, i: nat)
    requires IsRun(run) && i < |run| && |run[i].instances| == |run[0].instances|
    ensures Fixed(run[0], run[i])
  {
    if i > 0 {
      InstancesGrow(run, 0, i - 1);
      InstancesGrow(run, i - 1, i);
      StaysFixed(run, i - 1);
      var step := RunStep(run, i - 1);
    }
  }

  /** Among given processes, some run tears the lock file exactly when two of the writers run under one pid at the same
      time (as in two containers over one volume). A rendering is never shorter than two characters. */
  lemma TornExactlyWhenShared(s: State)
    requires Init(s) && forall u | 0 <= u < |s.writers| :: |s.writers[u].contents| >= 2
    ensures CanTear(s) <==> !PidsApart(s)
  {
    if !PidsApart(s) {
      var v, w :| Share(s, v, w);
      SharedPidTears(s, v, w);
    } else if CanTear(s) {
      var run :| TearsIn(s, run);
      forall k | 0 <= k < |run| - 1 ensures PidsApart(run[k]) {
        InstancesGrow(run, 0, k);
        InstancesGrow(run, k, |run| - 1);
        StaysFixed(run, k);
        forall v, w ensures !Share(run[k], v, w) { assert !Share(s, v, w); }
      }
      NoPartialLock(run, |run| - 1);
    }
  }
}
