/**
 What the operations of the engine achieve: that a write, a flush, a compaction and a recovery can be carried through,
 and what there is then.
 */
module EngineProgress {
  import opened Options
  import opened LsmEntries
  import opened Compaction
  import opened Engine
  import opened EngineDurability
  import opened EngineReads

  lemma Prepend(s: State, step: Step, s': State, rest: seq<Step>)
    requires Can(s, step) && s' == Do(s, step) && IsRun(s', rest)
    ensures IsRun(s, [step] + rest) && After(s, [step] + rest) == After(s', rest)
  {
    assert ([step] + rest)[1..] == rest;
  }

  lemma Single(s: State, step: Step, s': State)
    requires Can(s, step) && s' == Do(s, step)
    ensures IsRun(s, [step]) && After(s, [step]) == s'
  {
    assert [step][1..] == [];
  }

  // ----- a write -----

  ghost function WriteSteps(batch: set<Entry>, last: nat): seq<Step> {
    [BeginWrite(batch, last)] + ([LogWrite] + ([ApplyWrite] + [FinishWrite]))
  }

  /** A write can be carried through; its entries are then in the log and in the memtable, and acknowledged. */
  lemma WriteAlone(s: State, batch: set<Entry>, last: nat)
    requires !Broken(s) && s.node.Up? && CanWrite(s, BeginWrite(batch, last))
    ensures IsRun(s, WriteSteps(batch, last))
    ensures var s' := After(s, WriteSteps(batch, last));
            && s'.node.Up? && s'.acked == s.acked + batch && s'.node.m.lastSeq == last
            && s'.node.m.mem == s.node.m.mem + batch && s'.node.m.logNumber == s.node.m.logNumber
            && s'.node.m.logNumber in s'.disk.logs && batch <= s'.disk.logs[s'.node.m.logNumber]
  {
    LogIsThere(s);
    var s1 := DoWrite(s, BeginWrite(batch, last));
    var s2 := DoWrite(s1, LogWrite);
    var s3 := DoWrite(s2, ApplyWrite);
    var s4 := DoWrite(s3, FinishWrite);
    Single(s3, FinishWrite, s4);
    Prepend(s2, ApplyWrite, s3, [FinishWrite]);
    Prepend(s1, LogWrite, s2, [ApplyWrite] + [FinishWrite]);
    Prepend(s, BeginWrite(batch, last), s1, [LogWrite] + ([ApplyWrite] + [FinishWrite]));
  }

  // ----- a flush -----

  ghost function FlushSteps(): seq<Step> {
    [StartFlush] + ([BuildTable] + ([PrepareFlush] + [CommitFlush(true)]))
  }

  /** A frozen memtable can be flushed; it is then in a table of its own, unless it is empty, and the version needs only
      the current log, so that the logs before it may go. */
  lemma FlushAlone(s: State)
    requires !Broken(s) && s.node.Up? && s.node.m.imm.Some? && s.node.m.flush.NoFlush? && !s.node.m.bgError
    requires !s.node.m.job.Installing?
    ensures IsRun(s, FlushSteps())
    ensures var s', m := After(s, FlushSteps()), s.node.m;
            && s'.node.Up?
            && var m' := s'.node.m;
               && m'.imm == None && m'.mem == m.mem && m'.flush == NoFlush && m'.logNumber == m.logNumber
               && m'.version.tables == m.version.tables + (if Imm(m) == {} then {} else {m.nextFile})
               && m.nextFile in s'.disk.tables && s'.disk.tables[m.nextFile] == Imm(m)
               && m'.version.logNumber == m.logNumber && s'.disk.man == m'.version && Written(m') == Written(m)
               && CanWork(s', DeleteObsolete(set l | l in s'.disk.logs && l < m.logNumber, {}))
  {
    LogIsThere(s);
    var s1 := DoWork(s, StartFlush);
    var s2 := DoWork(s1, BuildTable);
    var s3 := DoWork(s2, PrepareFlush);
    var s4 := DoWork(s3, CommitFlush(true));
    Single(s3, CommitFlush(true), s4);
    Prepend(s2, PrepareFlush, s3, [CommitFlush(true)]);
    Prepend(s1, BuildTable, s2, [PrepareFlush] + [CommitFlush(true)]);
    Prepend(s, StartFlush, s1, [BuildTable] + ([PrepareFlush] + [CommitFlush(true)]));
    assert s4.node.m.version.flushed + {} + s.node.m.mem == s.node.m.version.flushed + Imm(s.node.m) + s.node.m.mem;
  }

  /** The memtable can be frozen, and a new one goes with a new log. */
  lemma SwitchAlone(s: State)
    requires !Broken(s) && s.node.Up? && CanWrite(s, SwitchMemtable)
    ensures Can(s, SwitchMemtable)
    ensures var s', m := Do(s, SwitchMemtable), s.node.m;
            && s'.node.Up? && s'.node.m.imm == Some(m.mem) && s'.node.m.mem == {} && Written(s'.node.m) == Written(m)
            && m.logNumber < s'.node.m.logNumber && s'.node.m.logNumber in s'.disk.logs
            && s'.disk.logs[s'.node.m.logNumber] == {}
  {
    LogIsThere(s);
    assert MemInv(s.disk, s.node.m, s.acked, s.submitted);
    assert Do(s, SwitchMemtable) == DoWrite(s, SwitchMemtable);
  }

  // ----- a compaction -----

  ghost function CompactionSteps(inputs: set<nat>, oldest: nat, isBase: Key -> bool, file: nat, kept: set<Entry>)
    : seq<Step>
  {
    [StartCompaction(inputs, oldest, isBase)]
    + ([OpenOutput] + ([WriteTable(file, kept)] + ([PrepareInstall] + [Install(true, false)])))
  }

  /** A compaction can be carried through; the version then has, in the place of its inputs, one new table with what
      survives of them. */
  lemma CompactAlone(s: State, inputs: set<nat>, oldest: nat, isBase: Key -> bool)
    requires !Broken(s) && s.node.Up? && CanWork(s, StartCompaction(inputs, oldest, isBase))
    ensures var d, m := s.disk, s.node.m;
            var kept := Survivors(Contents(d.tables, inputs), oldest, isBase);
            var steps := CompactionSteps(inputs, oldest, isBase, m.nextFile, kept);
            && IsRun(s, steps)
            && var s' := After(s, steps);
               && s'.node.Up? && s'.node.m.job == NoJob && s'.disk.man == s'.node.m.version
               && s'.node.m.version.tables == m.version.tables - inputs + {m.nextFile}
               && m.nextFile in s'.disk.tables && s'.disk.tables[m.nextFile] == kept
               && s'.node.m.version.flushed == m.version.flushed && s'.node.m.mem == m.mem && Imm(s'.node.m) == Imm(m)
  {
    LogIsThere(s);
    var m := s.node.m;
    var file, kept := m.nextFile, Survivors(Contents(s.disk.tables, inputs), oldest, isBase);
    InputsStay(s, inputs, file, kept);
    var s1 := DoWork(s, StartCompaction(inputs, oldest, isBase));
    var s2 := DoWork(s1, OpenOutput);
    var s3 := DoWork(s2, WriteTable(file, kept));
    assert {} + {file} == {file};
    OutputIsKept(s3.disk.tables, file, kept);
    InstallAlone(s3, file);
    Prepend(s2, WriteTable(file, kept), s3, [PrepareInstall] + [Install(true, false)]);
    Prepend(s1, OpenOutput, s2, [WriteTable(file, kept)] + ([PrepareInstall] + [Install(true, false)]));
    Prepend(s, StartCompaction(inputs, oldest, isBase), s1,
            [OpenOutput] + ([WriteTable(file, kept)] + ([PrepareInstall] + [Install(true, false)])));
  }

  lemma OutputIsKept(tables: map<nat, set<Entry>>, file: nat, kept: set<Entry>)
    requires file in tables && tables[file] == kept
    ensures Contents(tables, {file}) == kept
  {
  }

  lemma InstallAlone(s: State, file: nat)
    requires s.node.Up? && s.node.m.logNumber in s.disk.logs && s.node.m.job.Compacting? && s.node.m.flush.NoFlush?
    requires var j := s.node.m.job;
             && j.outputs == {file} && file in s.disk.tables
             && Contents(s.disk.tables, {file}) == Survivors(Contents(s.disk.tables, j.inputs), j.oldest, j.isBase)
    ensures var steps := [PrepareInstall] + [Install(true, false)];
            && IsRun(s, steps)
            && var s', m := After(s, steps), s.node.m;
               && s'.node.Up? && s'.node.m.job == NoJob && s'.disk.man == s'.node.m.version
                  && s'.disk.tables == s.disk.tables
               && s'.node.m.version.tables == m.version.tables - m.job.inputs + {file}
               && s'.node.m.version.flushed == m.version.flushed && s'.node.m.mem == m.mem && s'.node.m.imm == m.imm
  {
    var s1 := DoWork(s, PrepareInstall);
    var s2 := DoWork(s1, Install(true, false));
    Single(s1, Install(true, false), s2);
    Prepend(s, PrepareInstall, s1, [Install(true, false)]);
  }

  lemma InputsStay(s: State, inputs: set<nat>, file: nat, kept: set<Entry>)
    requires !Broken(s) && s.node.Up? && inputs <= s.node.m.version.tables && file == s.node.m.nextFile
    ensures Contents(s.disk.tables[file := kept], inputs) == Contents(s.disk.tables, inputs)
  {
    assert MemInv(s.disk, s.node.m, s.acked, s.submitted);
    assert file !in inputs;
    SameContents(s.disk.tables, s.disk.tables[file := kept], inputs);
  }

  // ----- a recovery -----

  /** Recovering, or down, or just opened: the engine has exactly what was durable. */
  ghost predicate Restoring(s: State, durable: set<Entry>) {
    s.submitted == durable && (s.node.Up? ==> Written(s.node.m) == durable)
  }

  ghost predicate IsRecovery(steps: seq<Step>) {
    forall step :: step in steps ==>
      step.Reopen? || step.RecoverTable? || step.CreateLog? || step.OpenNewLog? || step.OpenSameLog?
  }

  lemma OpenRestores(s: State, step: Step)
    requires !Broken(s) && CanRecover(s, step) && (step.OpenNewLog? || step.OpenSameLog?)
    ensures var s' := DoRecover(s, step);
            s'.submitted == s.submitted && s'.node.Up? && Written(s'.node.m) == s.submitted
  {
    var s', n := DoRecover(s, step), s.node;
    if step.OpenNewLog? {
      NewLogDisk(s.disk, n, s.acked, s.submitted, step.save, step.last, s'.disk);
    } else {
      SameLogDisk(s.disk, n, s.acked, s.submitted, step.save, step.log, step.next, step.last, s'.disk);
    }
  }

  lemma StepRestores(s: State, step: Step, durable: set<Entry>)
    requires !Broken(s) && Can(s, step) && Restoring(s, durable) && IsRecovery([step])
    ensures Restoring(Do(s, step), durable)
  {
    assert step in [step];
    assert CanRecover(s, step);
    if step.OpenNewLog? || step.OpenSameLog? { OpenRestores(s, step); }
  }

  lemma {:induction false} RunRestores(s: State, steps: seq<Step>, durable: set<Entry>)
    requires !Broken(s) && IsRun(s, steps) && Restoring(s, durable) && IsRecovery(steps)
    ensures Restoring(After(s, steps), durable)
    decreases |steps|
  {
    if steps != [] {
      assert steps[0] in steps && forall step :: step in steps[1..] ==> step in steps;
      StepKeeps(s, steps[0]);
      StepRestores(s, steps[0], durable);
      RunRestores(Do(s, steps[0]), steps[1..], durable);
    }
  }

  lemma OpenReads(s: State, durable: set<Entry>, k: Key)
    requires !Broken(s) && s.node.Up? && Written(s.node.m) == durable
    ensures var m := s.node.m;
            FirstHit(m.mem, Imm(m), Contents(s.disk.tables, m.version.tables), k, m.lastSeq)
            == Lookup(durable, k, m.lastSeq)
  {
    StateReads(s, k, s.node.m.lastSeq);
  }

  /** After a crash at any time and any recovery from it, the engine has exactly what was durable at the crash, and a
      Get finds the newest of it. */
  lemma RecoveryRestoresAll(before: seq<Step>, recovery: seq<Step>, k: Key)
    requires IsRun(Init(), before) && IsRecovery(recovery)
    requires Can(After(Init(), before), Crash) && IsRun(Do(After(Init(), before), Crash), recovery)
    ensures var s, s' := After(Init(), before), After(Do(After(Init(), before), Crash), recovery);
            && s'.acked == s.acked <= Durable(s.disk)
            && (s'.node.Up? ==>
                  var m := s'.node.m;
                  && Written(m) == Durable(s.disk)
                  && FirstHit(m.mem, Imm(m), Contents(s'.disk.tables, m.version.tables), k, m.lastSeq)
                     == Lookup(Durable(s.disk), k, m.lastSeq))
  {
    InitIsGood();
    RunKeeps(Init(), before);
    var s := After(Init(), before);
    CrashBegins(s);
    RecoveryEnds(Do(s, Crash), recovery, Durable(s.disk), k);
  }

  lemma CrashBegins(s: State)
    requires !Broken(s) && Can(s, Crash)
    ensures var s' := Do(s, Crash);
            !Broken(s') && s'.node.Down? && s'.acked == s.acked <= Durable(s.disk) && Restoring(s', Durable(s.disk))
  {
    StepKeeps(s, Crash);
    assert DiskInv(s.disk, s.acked, s.submitted);
  }

  lemma RecoveryEnds(s: State, recovery: seq<Step>, durable: set<Entry>, k: Key)
    requires !Broken(s) && IsRun(s, recovery) && Restoring(s, durable) && IsRecovery(recovery)
    ensures var s' := After(s, recovery);
            && s'.acked == s.acked
            && (s'.node.Up? ==>
                  var m := s'.node.m;
                  && Written(m) == durable
                  && FirstHit(m.mem, Imm(m), Contents(s'.disk.tables, m.version.tables), k, m.lastSeq)
                     == Lookup(durable, k, m.lastSeq))
  {
    RunKeeps(s, recovery);
    RunRestores(s, recovery, durable);
    RecoveryKeepsAcked(s, recovery);
    if After(s, recovery).node.Up? { OpenReads(After(s, recovery), durable, k); }
  }

  lemma {:induction false} RecoveryKeepsAcked(s: State, steps: seq<Step>)
    requires IsRun(s, steps) && IsRecovery(steps)
    ensures After(s, steps).acked == s.acked
    decreases |steps|
  {
    if steps != [] {
      assert steps[0] in steps && forall step :: step in steps[1..] ==> step in steps;
      assert CanRecover(s, steps[0]);
      RecoveryKeepsAcked(Do(s, steps[0]), steps[1..]);
    }
  }

  ghost function RecoverySteps(todo: set<Entry>, newLog: nat, last: nat): seq<Step> {
    [Crash] + ([Reopen] + ([RecoverTable(todo)] + ([CreateLog(newLog)] + [OpenNewLog(last, true)])))
  }

  /** From any state, a crash can be recovered from. */
  lemma RecoverAlone(s: State) returns (newLog: nat, last: nat)
    requires !Broken(s)
    ensures var steps := RecoverySteps(LogsFrom(s.disk.logs, s.disk.man.logNumber), newLog, last);
            IsRun(s, steps) && After(s, steps).node.Up? && Written(After(s, steps).node.m) == Durable(s.disk)
  {
    var d, todo := s.disk, LogsFrom(s.disk.logs, s.disk.man.logNumber);
    var s1 := DoRecover(s, Crash);
    var s2 := DoRecover(s1, Reopen);
    var s3 := DoRecover(s2, RecoverTable(todo));
    newLog := AboveAll(d.logs.Keys, s3.node.nextFile);
    var s4 := DoRecover(s3, CreateLog(newLog));
    last := SeqAbove(todo, d.man.lastSeq);
    StepKeeps(s, Crash);
    StepKeeps(s1, Reopen);
    StepKeeps(s2, RecoverTable(todo));
    StepKeeps(s3, CreateLog(newLog));
    EmptyLogAddsNothing(d.logs, newLog, d.man.logNumber);
    var s5 := DoRecover(s4, OpenNewLog(last, true));
    OpenRestores(s4, OpenNewLog(last, true));
    Single(s4, OpenNewLog(last, true), s5);
    Prepend(s3, CreateLog(newLog), s4, [OpenNewLog(last, true)]);
    Prepend(s2, RecoverTable(todo), s3, [CreateLog(newLog)] + [OpenNewLog(last, true)]);
    Prepend(s1, Reopen, s2, [RecoverTable(todo)] + ([CreateLog(newLog)] + [OpenNewLog(last, true)]));
    Prepend(s, Crash, s1, [Reopen] + ([RecoverTable(todo)] + ([CreateLog(newLog)] + [OpenNewLog(last, true)])));
  }

  lemma {:induction false} AboveAll(xs: set<nat>, least: nat) returns (n: nat)
    ensures least <= n && forall x :: x in xs ==> x < n
    decreases |xs|
  {
    if xs == {} {
      n := least;
    } else {
      var y :| y in xs;
      var m := AboveAll(xs - {y}, least);
      n := if m <= y then y + 1 else m;
      assert xs == xs - {y} + {y};
    }
  }

  lemma SeqAbove(es: set<Entry>, least: nat) returns (n: nat)
    ensures least <= n && UpTo(es, n)
  {
    var seqnos := set e | e in es :: e.seqno;
    n := AboveAll(seqnos, least);
    forall e | e in es ensures e.seqno <= n { assert e.seqno in seqnos; }
  }

  // ----- obsolete files, and errors -----

  /** Obsolete files can be deleted, and are gone then, and no others. */
  lemma DeleteAlone(s: State, logs: set<nat>, tables: set<nat>)
    requires !Broken(s) && s.node.Up? && CanWork(s, DeleteObsolete(logs, tables))
    ensures Can(s, DeleteObsolete(logs, tables))
    ensures var d' := Do(s, DeleteObsolete(logs, tables)).disk;
            && (forall l :: l in d'.logs <==> l in s.disk.logs && l !in logs)
            && (forall f :: f in d'.tables <==> f in s.disk.tables && f !in tables)
            && (forall l :: l in d'.logs ==> d'.logs[l] == s.disk.logs[l])
            && (forall f :: f in d'.tables ==> d'.tables[f] == s.disk.tables[f])
  {
    LogIsThere(s);
  }

  /** The steps in which something fails for good: a sync, the build of a table, a commit, a compaction. */
  predicate Fails(step: Step) {
    step.SyncFails? || step.BuildFails? || step.CommitFlushFails? || step.InstallFails? || step.AbortCompaction?
  }

  ghost predicate InError(s: State) {
    s.node.Up? && s.node.m.bgError
  }

  lemma WorkKeepsError(s: State, step: Step)
    requires s.node.Up? && CanWork(s, step) && (s.node.m.bgError || Fails(step))
    ensures InError(DoWork(s, step))
  {
  }

  lemma StepKeepsError(s: State, step: Step)
    requires s.node.Up? && Can(s, step) && step != Crash && (s.node.m.bgError || Fails(step))
    ensures InError(Do(s, step))
  {
    if !CanRecover(s, step) && !CanWrite(s, step) && CanWork(s, step) { WorkKeepsError(s, step); }
  }

  lemma {:induction false} RunKeepsError(s: State, steps: seq<Step>)
    requires InError(s) && IsRun(s, steps) && Crash !in steps
    ensures InError(After(s, steps))
    decreases |steps|
  {
    if steps != [] {
      StepKeepsError(s, steps[0]);
      RunKeepsError(Do(s, steps[0]), steps[1..]);
    }
  }

  /** After any such failure, and until the node goes down, no write is begun, no memtable frozen, no compaction started
      and no file deleted. */
  lemma ErrorsStopTheEngine(s: State, step: Step, later: seq<Step>, next: Step)
    requires s.node.Up? && Can(s, step) && Fails(step) && IsRun(Do(s, step), later) && Crash !in later
    ensures var s' := After(Do(s, step), later);
            InError(s') && (Can(s', next) ==>
              !next.BeginWrite? && !next.SwitchMemtable? && !next.StartCompaction? && !next.DeleteObsolete?)
  {
    StepKeepsError(s, step);
    RunKeepsError(Do(s, step), later);
  }
}
