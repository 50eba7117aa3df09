/** A writer of the lock that is left alone publishes what it rendered, and one whose rename fails leaves no trace. */
module LockProgress {
  import opened Options
  import opened LockPublish

  /** Steps of writer w alone, none of which fails. */
  ghost predicate Leads(s: State, w: nat, steps: seq<Step>, t: State)
    decreases |steps|
  {
    if steps == [] then s == t
    else
      && steps[0].WriterStep? && steps[0].w == w && Succeeds(steps[0].act)
      && Enabled(s, steps[0]) && Leads(Apply(s, steps[0]), w, steps[1..], t)
  }

  predicate Succeeds(act: Action) {
    !act.WriteFails? && !act.RenameFails? && !act.RemoveTemp?
  }

  lemma LeadsFirst(s: State, w: nat, act: Action, steps: seq<Step>, t: State)
    requires Succeeds(act) && Enabled(s, WriterStep(w, act)) && Leads(Apply(s, WriterStep(w, act)), w, steps, t)
    ensures Leads(s, w, [WriterStep(w, act)] + steps, t)
  {
    assert ([WriterStep(w, act)] + steps)[1..] == steps;
  }

  predicate UnderWay(pc: Pc) {
    pc.Ready? || pc.Named? || pc.Writing? || pc.Renaming?
  }

  function NextAct(writer: Writer): Action {
    match writer.pc
    case Ready => TakeName
    case Named(_) => Create
    case Writing(_, _, done) => if done < |writer.contents| then WriteMore(|writer.contents|) else FinishWrite
    case _ => Rename
  }

  function ActsLeft(writer: Writer): nat {
    match writer.pc
    case Ready => 5
    case Named(_) => 4
    case Writing(_, _, done) => if done < |writer.contents| then 3 else 2
    case Renaming(_) => 1
    case _ => 0
  }

  /** Writer w published all it rendered; nobody else moved, and no new file but the lock is there. */
  ghost predicate Published(s: State, t: State, w: nat) {
    && w < |s.writers| && t.writers == s.writers[w := s.writers[w].(pc := Written)]
    && Visible(t) == Some(s.writers[w].contents) && t.dir.Keys <= s.dir.Keys + {LockFile}
  }

  /** What the steps to come rely on. */
  ghost predicate Good(s: State, w: nat) {
    && w < |s.writers| && DirOk(s) && WriterOk(s, w)
    && (s.writers[w].pc.Ready? ==> Running(s, s.writers[w].instance))
  }

  /** After a step other than the rename, the writer is nearer to publishing, and only its temporary file may be new. */
  lemma Nearer(s: State, w: nat)
    requires Good(s, w) && UnderWay(s.writers[w].pc) && !s.writers[w].pc.Renaming?
    ensures Enabled(s, WriterStep(w, NextAct(s.writers[w])))
    ensures var t := ApplyWriter(s, w, NextAct(s.writers[w]));
            && |t.writers| == |s.writers| && t.writers == s.writers[w := s.writers[w].(pc := t.writers[w].pc)]
            && UnderWay(t.writers[w].pc) && ActsLeft(t.writers[w]) < ActsLeft(s.writers[w])
            && t.dir.Keys <= s.dir.Keys + (if t.writers[w].pc.Writing? then {t.writers[w].pc.tmp} else {})
            && (s.writers[w].pc.HasTemp() ==> t.writers[w].pc.HasTemp() && t.writers[w].pc.tmp == s.writers[w].pc.tmp)
  {
  }

  lemma StaysGood(s: State, w: nat)
    requires Good(s, w) && UnderWay(s.writers[w].pc) && !s.writers[w].pc.Renaming?
    requires Enabled(s, WriterStep(w, NextAct(s.writers[w])))
    ensures w < |ApplyWriter(s, w, NextAct(s.writers[w])).writers|
    ensures Good(ApplyWriter(s, w, NextAct(s.writers[w])), w)
  {
    var writer := s.writers[w];
    if writer.pc.Writing? && writer.pc.done < |writer.contents| {
      WrittenOn(s.inodes[writer.pc.inode], writer.contents, writer.pc.done, |writer.contents|);
      assert writer.contents[..|writer.contents|] == writer.contents;
    } else if writer.pc.Writing? {
      assert writer.contents[..|writer.contents|] == writer.contents;
    }
  }

  lemma RenamePublishes(s: State, w: nat)
    requires Good(s, w) && s.writers[w].pc.Renaming?
    ensures Enabled(s, WriterStep(w, Rename))
    ensures var t := ApplyWriter(s, w, Rename);
            Published(s, t, w) && s.writers[w].pc.tmp !in t.dir
  {
  }

  lemma {:induction false} Publishes(s: State, w: nat) returns (steps: seq<Step>, t: State)
    requires Good(s, w) && UnderWay(s.writers[w].pc)
    ensures Leads(s, w, steps, t) && Published(s, t, w)
    ensures s.writers[w].pc.HasTemp() ==> s.writers[w].pc.tmp !in t.dir
    decreases ActsLeft(s.writers[w])
  {
    var act := NextAct(s.writers[w]);
    if s.writers[w].pc.Renaming? {
      RenamePublishes(s, w);
      t := ApplyWriter(s, w, Rename);
      assert Leads(t, w, [], t);
      LeadsFirst(s, w, Rename, [], t);
      steps := [WriterStep(w, Rename)] + [];
    } else {
      Nearer(s, w);
      StaysGood(s, w);
      var next := ApplyWriter(s, w, act);
      var rest;
      rest, t := Publishes(next, w);
      LeadsFirst(s, w, act, rest, t);
      steps := [WriterStep(w, act)] + rest;
      assert next.writers[w := next.writers[w].(pc := Written)] == s.writers[w := s.writers[w].(pc := Written)];
    }
  }

  /** From every state reached without a shared pid, each writer of a running process that has neither finished nor
      failed can go on to publish: the lock file then shows all it rendered, and no temporary file of its is left. */
  lemma EveryWriterCanPublish(run: seq<State>, i: nat, w: nat) returns (steps: seq<Step>, t: State)
    requires IsRun(run) && i < |run| && forall k | 0 <= k < i :: PidsApart(run[k])
    requires w < |run[i].writers| && UnderWay(run[i].writers[w].pc) && Running(run[i], run[i].writers[w].instance)
    ensures Leads(run[i], w, steps, t) && Published(run[i], t, w)
    ensures run[i].writers[w].pc.HasTemp() ==> run[i].writers[w].pc.tmp !in t.dir
  {
    RunInv(run, i);
    assert WriterOk(run[i], w);
    steps, t := Publishes(run[i], w);
  }

  /** When the rename fails, the temporary file is removed again and every other file is as it was. */
  lemma FailedRenameLeavesNothing(s: State, w: nat)
    requires Enabled(s, WriterStep(w, RenameFails))
    ensures var failed := ApplyWriter(s, w, RenameFails);
            && Enabled(failed, WriterStep(w, RemoveTemp))
            && var t := ApplyWriter(failed, w, RemoveTemp);
               && t.writers == s.writers[w := s.writers[w].(pc := Failed)]
               && t.dir == s.dir - {s.writers[w].pc.tmp} && t.inodes == s.inodes && t.publisher == s.publisher
  {
  }
}
