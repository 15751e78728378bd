/** Migration runners that interleave between transactions, crash and start again. */
module MigrationRunners {
  import opened Migrations

  datatype Phase =
    | Listed
    | Looking
    | Holding(content: string)
    | Finished
    | Stopped

  /** `known` is the table as the runner saw it at the start; `done` counts the files
      it has dealt with. */
  datatype Runner = Runner(
    files: seq<string>, known: Table, done: nat, applied: seq<string>, skipped: seq<string>, phase: Phase)

  datatype State = State(table: Table, executed: seq<Execution>, dir: Directory, runners: seq<Runner>)

  datatype Step =
    | Edit(dir: Directory)
    | Start(listing: seq<string>)
    | Survey(r: nat)
    | ReadFile(r: nat)
    | Commit(r: nat, scriptOk: bool)
    | Crash(r: nat)

  predicate Enabled(s: State, step: Step) {
    match step
    case Edit(_) => true
    case Start(listing) => forall n :: n in listing ==> n in s.dir
    case Survey(r) => r < |s.runners| && s.runners[r].phase.Listed?
    case ReadFile(r) => r < |s.runners| && s.runners[r].phase.Looking? && s.runners[r].done <= |s.runners[r].files|
    case Commit(r, _) => r < |s.runners| && s.runners[r].phase.Holding? && s.runners[r].done < |s.runners[r].files|
    case Crash(r) => r < |s.runners|
  }

  /** The next file is read: it is skipped, refused, or held for its transaction. */
  function AfterRead(q: Runner, dir: Directory): Runner
    requires q.done <= |q.files|
  {
    if q.done == |q.files| then q.(phase := Finished)
    else
      var file := q.files[q.done];
      if file !in dir then q.(phase := Stopped)
      else if file !in q.known then q.(phase := Holding(dir[file]))
      else if q.known[file] != Checksum(dir[file]) then q.(phase := Stopped)
      else q.(done := q.done + 1, skipped := q.skipped + [file])
  }

  function Next(s: State, step: Step): State
    requires Enabled(s, step)
  {
    match step
    case Edit(dir) => s.(dir := dir)
    case Start(listing) =>
      s.(runners := s.runners + [Runner(SortSql(listing), map[], 0, [], [], Listed)])
    case Survey(r) =>
      var q := s.runners[r];
      s.(runners := s.runners[r := q.(known := s.table,
           phase := if forall n :: n in s.table ==> n in q.files then Looking else Stopped)])
    case ReadFile(r) =>
      s.(runners := s.runners[r := AfterRead(s.runners[r], s.dir)])
    case Commit(r, scriptOk) =>
      var q := s.runners[r];
      var file, content := q.files[q.done], q.phase.content;
      if scriptOk && file !in s.table then
        s.(table := s.table[file := Checksum(content)],
           executed := s.executed + [(file, content)],
           runners := s.runners[r := q.(done := q.done + 1, applied := q.applied + [file], phase := Looking)])
      else
        s.(runners := s.runners[r := q.(phase := Stopped)])
    case Crash(r) =>
      s.(runners := s.runners[r := s.runners[r].(phase := Stopped)])
  }

  // ------------------------------------------------------------ the steps, one by one

  /** The survey stops a runner exactly if a recorded script is not on its list. */
  lemma SurveyMeans(s: State, r: nat)
    requires Enabled(s, Survey(r))
    ensures var s', gone := Next(s, Survey(r)), exists n <- s.table :: n !in s.runners[r].files;
            s' == s.(runners := s.runners[r :=
                       s.runners[r].(known := s.table, phase := if gone then Stopped else Looking)])
  {
    var q := s.runners[r];
    if n :| n in s.table && n !in q.files {
      assert !forall m :: m in s.table ==> m in q.files;
    }
  }

  /** Reading goes on past a script exactly if it was recorded with the text it has now, and
      holds it for execution exactly if it was not recorded. */
  lemma ReadMeans(s: State, r: nat)
    requires Enabled(s, ReadFile(r))
    ensures var q, q', s' := s.runners[r], Next(s, ReadFile(r)).runners[r], Next(s, ReadFile(r));
            && s' == s.(runners := s.runners[r := q'])
            && (q.done == |q.files| ==> q' == q.(phase := Finished))
            && (q.done < |q.files| ==>
                  var file := q.files[q.done];
                  var same := file in s.dir && file in q.known && Checksum(s.dir[file]) == q.known[file];
                  && (same ==> q' == q.(done := q.done + 1, skipped := q.skipped + [file]))
                  && (file in s.dir && file !in q.known ==> q' == q.(phase := Holding(s.dir[file])))
                  && (!same && (file in q.known || file !in s.dir) ==> q' == q.(phase := Stopped)))
  {
  }

  /** A held script is executed and recorded in one transaction, under the checksum of what
      was read, exactly if it does not fail and nobody has recorded it meanwhile. */
  lemma CommitMeans(s: State, r: nat, scriptOk: bool)
    requires Enabled(s, Commit(r, scriptOk))
    ensures var q, s' := s.runners[r], Next(s, Commit(r, scriptOk));
            var file, held := q.files[q.done], q.phase.content;
            if !scriptOk || file in s.table then s' == s.(runners := s.runners[r := q.(phase := Stopped)])
            else
              && s'.executed == s.executed + [(file, held)] && s'.table == s.table[file := Checksum(held)]
              && s'.runners == s.runners[r := s'.runners[r]] && s'.dir == s.dir
              && s'.runners[r] == q.(done := q.done + 1, applied := q.applied + [file], phase := Looking)
  {
  }

  predicate WasExecuted(executed: seq<Execution>, name: string) {
    exists i :: 0 <= i < |executed| && executed[i].0 == name
  }

  // ------------------------------------------------------------ the invariant

  /** The table is exactly what was executed, each script once, under its checksum. */
  ghost predicate TableIsHistory(table: Table, executed: seq<Execution>) {
    && (forall i, j :: 0 <= i < j < |executed| ==> executed[i].0 != executed[j].0)
    && (forall i :: 0 <= i < |executed| ==> executed[i].0 in table && table[executed[i].0] == Checksum(executed[i].1))
    && (forall n :: n in table ==> WasExecuted(executed, n))
  }

  /** Everything a runner has dealt with is recorded: what it skipped with the checksum it
      saw, what it applied because it executed it. */
  ghost predicate RunnerOk(s: State, q: Runner) {
    && q.done <= |q.files|
    && (forall n :: n in q.known ==> n in s.table && s.table[n] == q.known[n])
    && (forall i :: 0 <= i < q.done ==> q.files[i] in s.table)
    && (forall n :: n in q.applied ==> n in s.table && n !in q.known)
    && (q.phase.Finished? ==> q.done == |q.files|)
    && (q.phase.Listed? ==> q.done == 0 && q.known == map[] && q.applied == [])
    && (q.phase.Holding? ==> q.done < |q.files| && q.files[q.done] !in q.known)
  }

  ghost predicate Inv(s: State) {
    && TableIsHistory(s.table, s.executed)
    && forall r :: 0 <= r < |s.runners| ==> RunnerOk(s, s.runners[r])
  }

  /** Nothing recorded or executed is ever taken back or altered. */
  ghost predicate Grows(s: State, s': State) {
    && s.executed <= s'.executed
    && forall n :: n in s.table ==> n in s'.table && s'.table[n] == s.table[n]
  }

  lemma HistoryGrows(table: Table, executed: seq<Execution>, name: string, content: string)
    requires TableIsHistory(table, executed) && name !in table
    ensures TableIsHistory(table[name := Checksum(content)], executed + [(name, content)])
  {
    var executed' := executed + [(name, content)];
    assert executed'[|executed|].0 == name;
    forall n | n in table ensures WasExecuted(executed', n) {
      var i :| 0 <= i < |executed| && executed[i].0 == n;
      assert executed'[i].0 == n;
    }
  }

  lemma RunnerKeeps(s: State, s': State, q: Runner)
    requires RunnerOk(s, q) && Grows(s, s')
    ensures RunnerOk(s', q)
  {
  }

  lemma GrowsChain(a: State, b: State, c: State)
    requires Grows(a, b) && Grows(b, c)
    ensures Grows(a, c)
  {
    assert a.executed == b.executed[..|a.executed|] && b.executed == c.executed[..|b.executed|];
  }

  lemma GrowsAtOnce(s: State)
    ensures Grows(s, s)
  {
  }

  /** The runner that makes the step is in order afterwards. */
  lemma ActorOk(s: State, step: Step)
    requires Inv(s) && Enabled(s, step) && !step.Edit? && !step.Start?
    ensures RunnerOk(Next(s, step), Next(s, step).runners[step.r])
  {
    hide TableIsHistory, Inv;
    assert RunnerOk(s, s.runners[step.r]) by { InvRunner(s, step.r); }
    match step
    case Survey(r) =>
    case ReadFile(r) =>
    case Commit(r, scriptOk) => CommitterOk(s, r, scriptOk);
    case Crash(r) =>
  }

  lemma CommitterOk(s: State, r: nat, scriptOk: bool)
    requires Enabled(s, Commit(r, scriptOk)) && RunnerOk(s, s.runners[r])
    ensures RunnerOk(Next(s, Commit(r, scriptOk)), Next(s, Commit(r, scriptOk)).runners[r])
  {
    var q := s.runners[r];
    assert forall n :: n in q.applied + [q.files[q.done]] <==> n in q.applied || n == q.files[q.done];
  }

  lemma InvRunner(s: State, r: nat)
    requires Inv(s) && r < |s.runners|
    ensures RunnerOk(s, s.runners[r])
  {
  }

  lemma TableOk(s: State, step: Step)
    requires Inv(s) && Enabled(s, step)
    ensures Grows(s, Next(s, step)) && TableIsHistory(Next(s, step).table, Next(s, step).executed)
  {
    if step.Commit? {
      var q := s.runners[step.r];
      if step.scriptOk && q.files[q.done] !in s.table {
        HistoryGrows(s.table, s.executed, q.files[q.done], q.phase.content);
      }
    }
    hide TableIsHistory;
    hide RunnerOk;
  }

  /** Every step keeps the invariant and takes nothing back. */
  lemma StepOk(s: State, step: Step)
    requires Inv(s) && Enabled(s, step)
    ensures Inv(Next(s, step)) && Grows(s, Next(s, step))
  {
    var s' := Next(s, step);
    TableOk(s, step);
    hide TableIsHistory;
    hide RunnerOk;
    hide Grows;
    if !step.Edit? && !step.Start? {
      ActorOk(s, step);
    }
    forall r | 0 <= r < |s'.runners| ensures RunnerOk(s', s'.runners[r]) {
      if r < |s.runners| {
        RunnerKeeps(s, s', s.runners[r]);
      } else {
        FreshRunnerOk(s', s'.runners[r]);
      }
    }
  }

  lemma FreshRunnerOk(s: State, q: Runner)
    requires q == Runner(q.files, map[], 0, [], [], Listed)
    ensures RunnerOk(s, q)
  {
  }

  // ------------------------------------------------------------ every run

  ghost predicate IsRun(states: seq<State>, steps: seq<Step>) {
    && |states| == |steps| + 1
    && states[0].table == map[] && states[0].executed == [] && states[0].runners == []
    && forall i :: 0 <= i < |steps| ==> Enabled(states[i], steps[i]) && states[i + 1] == Next(states[i], steps[i])
  }

  lemma {:induction false} RunOk(states: seq<State>, steps: seq<Step>, n: nat)
    requires IsRun(states, steps) && n < |states|
    ensures Inv(states[n])
  {
    if n > 0 {
      RunOk(states, steps, n - 1);
      StepOk(states[n - 1], steps[n - 1]);
    }
  }

  /** Main result: at every moment of every run, on failing and crashing exits too, the
      table is exactly what was executed, and no file was executed twice. */
  lemma ExecutedOnce(states: seq<State>, steps: seq<Step>, n: nat)
    requires IsRun(states, steps) && n < |states|
    ensures TableIsHistory(states[n].table, states[n].executed)
  {
    RunOk(states, steps, n);
  }

  lemma RunStepGrows(states: seq<State>, steps: seq<Step>, i: nat)
    requires IsRun(states, steps) && i + 1 < |states|
    ensures Grows(states[i], states[i + 1])
  {
    hide Inv, Grows;
    RunOk(states, steps, i);
    var s, step := states[i], steps[i];
    assert Enabled(s, step) && states[i + 1] == Next(s, step);
    hide Enabled, Next, IsRun;
    StepOk(s, step);
  }

  /** Main result: what was executed and under which checksum never changes. */
  lemma {:induction false} NeverRewritten(states: seq<State>, steps: seq<Step>, m: nat, n: nat)
    requires IsRun(states, steps) && m <= n < |states|
    ensures Grows(states[m], states[n])
    decreases n
  {
    GrowsAtOnce(states[m]);
    if m < n {
      hide Grows, IsRun;
      NeverRewritten(states, steps, m, n - 1);
      RunStepGrows(states, steps, n - 1);
      GrowsChain(states[m], states[n - 1], states[n]);
    }
  }

  /** Main result: a runner that finishes leaves every file of its list recorded, and
      every file it reports as applied was executed after it had surveyed the table. */
  lemma FinishedMeansRecorded(states: seq<State>, steps: seq<Step>, n: nat, r: nat)
    requires IsRun(states, steps) && n < |states| && r < |states[n].runners|
    requires states[n].runners[r].phase.Finished?
    ensures var s, q := states[n], states[n].runners[r];
            && (forall f :: f in q.files ==> f in s.table)
            && (forall f :: f in q.applied ==> f !in q.known && WasExecuted(s.executed, f))
  {
    RunOk(states, steps, n);
    assert RunnerOk(states[n], states[n].runners[r]);
  }
}
