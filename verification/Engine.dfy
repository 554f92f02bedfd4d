/**
 The storage engine as a state machine: log, memtables, versions and table files on one side, and
 on the other the steps of writers, of the background job, of readers and of a crash followed by a
 recovery. A step is what happens between taking and releasing the engine's mutex, or one action
 on a file while it is released.
 */
module Engine {
  import opened Options
  import opened LsmEntries
  import opened Compaction

  /** What the manifest names: the live tables, the first log still needed, and two counters.
      `flushed` (every entry that ever reached a table) and `horizon` (the newest snapshot bound a
      compaction has used) are history, for stating what the tables mean. */
  datatype Manifest = Manifest(tables: set<nat>, logNumber: nat, nextFile: nat, lastSeq: nat,
                               flushed: set<Entry>, horizon: nat)

  datatype Disk = Disk(logs: map<nat, set<Entry>>, tables: map<nat, set<Entry>>, man: Manifest)

  /** The group being written by the writer at the head of the queue. */
  datatype Write =
    | NoWrite
    | Logging(batch: set<Entry>, last: nat)
    | Logged(batch: set<Entry>, last: nat)
    | Applied(batch: set<Entry>, last: nat)
    | Rejected(batch: set<Entry>, last: nat)

  /** CompactMemTable. `Committing` is LogAndApply, during which the mutex is free: the edit
      already holds the log number and the counters. */
  datatype Flush =
    | NoFlush
    | Building(file: nat)
    | Built(file: nat)
    | Committing(files: set<nat>, logNumber: nat, nextFile: nat, lastSeq: nat)

  datatype Job =
    | NoJob
    | Compacting(inputs: set<nat>, outputs: set<nat>, oldest: nat, isBase: Key -> bool)
    | Installing(inputs: set<nat>, outputs: set<nat>, oldest: nat, isBase: Key -> bool, nextFile: nat, lastSeq: nat)

  /** A Get in progress: what it took references on, and (history) what had been written then. Its
      memtable goes on growing under it as long as it is the current one. */
  datatype Read = Read(snapshot: nat, mem: set<Entry>, growing: bool, imm: set<Entry>, tables: set<nat>,
                       written: set<Entry>)

  datatype Mem = Mem(
    mem: set<Entry>, imm: Option<set<Entry>>, logNumber: nat, version: Manifest,
    nextFile: nat, lastSeq: nat, pending: set<nat>, bgError: bool, commitFailed: bool,
    write: Write, flush: Flush, job: Job, snapshots: multiset<nat>, readers: map<nat, Read>)

  datatype Node =
    | Down
    | Recovering(nextFile: nat, todo: set<Entry>, made: set<nat>, newLog: Option<nat>)
    | Up(m: Mem)

  /** `acked`: entries whose write returned OK; `submitted`: entries that may still turn up. */
  datatype State = State(disk: Disk, node: Node, acked: set<Entry>, submitted: set<Entry>)

  ghost function Contents(tables: map<nat, set<Entry>>, files: set<nat>): set<Entry> {
    set f, e | f in files && f in tables && e in tables[f] :: e
  }

  ghost function LogsFrom(logs: map<nat, set<Entry>>, n: nat): set<Entry> {
    set l, e | l in logs && n <= l && e in logs[l] :: e
  }

  ghost function Imm(m: Mem): set<Entry> {
    if m.imm.Some? then m.imm.value else {}
  }

  /** What a recovery from this disk starts from. */
  ghost function Recoverable(d: Disk): set<Entry> {
    Contents(d.tables, d.man.tables) + LogsFrom(d.logs, d.man.logNumber)
  }

  /** Everything that is written, as far as this disk can tell. */
  ghost function Durable(d: Disk): set<Entry> {
    d.man.flushed + LogsFrom(d.logs, d.man.logNumber)
  }

  /** Everything that is written, as far as a running engine can tell. */
  ghost function Written(m: Mem): set<Entry> {
    m.version.flushed + Imm(m) + m.mem
  }

  function Init(): State {
    State(Disk(map[], map[], Manifest({}, 0, 2, 0, {}, 0)), Down, {}, {})
  }

  datatype Step =
    // a writer
    | BeginWrite(batch: set<Entry>, last: nat)
    | LogWrite
    | LogWriteFails(written: bool)
    | SyncFails(written: bool)
    | ApplyWrite
    | FinishWrite
    | SwitchMemtable
    // the background job
    | StartFlush
    | BuildTable
    | BuildFails
    | PrepareFlush
    | CommitFlush(rewrite: bool)
    | CommitFlushFails(written: bool, rewrite: bool)
    | StartCompaction(inputs: set<nat>, oldest: nat, isBase: Key -> bool)
    | OpenOutput
    | PrepareInstall
    | Install(rewrite: bool, back: bool)
    | InstallFails(written: bool, rewrite: bool, back: bool)
    | AbortCompaction
    | WriteTable(file: nat, content: set<Entry>)
    | DeleteObsolete(logs: set<nat>, tables: set<nat>)
    // readers
    | TakeSnapshot
    | ReleaseSnapshot(s: nat)
    | StartRead(id: nat, s: nat)
    | FinishRead(id: nat)
    // failure and recovery
    | Crash
    | Reopen
    | RecoverTable(part: set<Entry>)
    | CreateLog(newLog: nat)
    | OpenNewLog(last: nat, save: bool)
    | OpenSameLog(log: nat, next: nat, last: nat, save: bool)

  // ----- the writer's steps -----

  ghost predicate CanWrite(s: State, step: Step)
    requires s.node.Up?
  {
    var m := s.node.m;
    match step
    case BeginWrite(batch, last) =>
      // MakeRoomForWrite found no error; the batch gets the numbers after the last one
      && m.write.NoWrite? && !m.bgError
      && m.lastSeq <= last && Unique(batch)
      && forall e :: e in batch ==> m.lastSeq < e.seqno <= last
    case LogWrite => m.write.Logging?
    case LogWriteFails(_) => m.write.Logging?
    case SyncFails(_) => m.write.Logging?
    case ApplyWrite => m.write.Logged?
    case FinishWrite => m.write.Applied? || m.write.Rejected?
    case SwitchMemtable => m.write.NoWrite? && m.imm.None? && !m.bgError
    case _ => false
  }

  ghost function AppendToLog(d: Disk, m: Mem, batch: set<Entry>): Disk
    requires m.logNumber in d.logs
  {
    d.(logs := d.logs[m.logNumber := d.logs[m.logNumber] + batch])
  }

  /** The batch shows in the memtables that are still the current one. */
  ghost function Grown(readers: map<nat, Read>, batch: set<Entry>): map<nat, Read> {
    map id | id in readers :: if readers[id].growing then readers[id].(mem := readers[id].mem + batch) else readers[id]
  }

  ghost function Grounded(readers: map<nat, Read>): map<nat, Read> {
    map id | id in readers :: readers[id].(growing := false)
  }

  ghost function DoWrite(s: State, step: Step): State
    requires s.node.Up? && s.node.m.logNumber in s.disk.logs && CanWrite(s, step)
  {
    var m := s.node.m;
    var w := m.write;
    match step
    case BeginWrite(batch, last) =>
      s.(node := Up(m.(write := Logging(batch, last))), submitted := s.submitted + batch)
    case LogWrite =>
      s.(disk := AppendToLog(s.disk, m, w.batch), node := Up(m.(write := Logged(w.batch, w.last))))
    case LogWriteFails(written) =>
      s.(disk := if written then AppendToLog(s.disk, m, w.batch) else s.disk,
         node := Up(m.(write := Rejected(w.batch, w.last))))
    case SyncFails(written) =>
      s.(disk := if written then AppendToLog(s.disk, m, w.batch) else s.disk,
         node := Up(m.(write := Rejected(w.batch, w.last), bgError := true)))
    case ApplyWrite =>
      s.(node := Up(m.(mem := m.mem + w.batch, write := Applied(w.batch, w.last),
                       readers := Grown(m.readers, w.batch))))
    case FinishWrite =>
      // the last sequence number moves on even when the write failed
      s.(node := Up(m.(write := NoWrite, lastSeq := w.last)),
         acked := if w.Applied? then s.acked + w.batch else s.acked)
    case SwitchMemtable =>
      s.(disk := s.disk.(logs := s.disk.logs[m.nextFile := {}]),
         node := Up(m.(mem := {}, imm := Some(m.mem), logNumber := m.nextFile, nextFile := m.nextFile + 1,
                       readers := Grounded(m.readers))))
  }

  // ----- the background job's steps: one thread, which may flush in the middle of a compaction -----

  ghost function FlushEdit(v: Manifest, f: Flush, imm: set<Entry>): Manifest
    requires f.Committing?
  {
    Manifest(v.tables + f.files, f.logNumber, f.nextFile, f.lastSeq, v.flushed + imm, v.horizon)
  }

  ghost function InstallEdit(v: Manifest, j: Job, logNumber: nat): Manifest
    requires j.Installing?
  {
    Manifest(v.tables - j.inputs + j.outputs, logNumber, j.nextFile, j.lastSeq, v.flushed,
             if v.horizon < j.oldest then j.oldest else v.horizon)
  }

  /** What a commit adds its edit to. They differ only after a commit that failed, and whose edit may be in
      the manifest nevertheless: then the version set either goes on with that manifest or starts a new one
      from the version in memory. */
  ghost function Base(d: Disk, m: Mem, rewrite: bool): Manifest {
    if rewrite then m.version else d.man
  }

  /** The log number that goes with a compaction's edit, which sets none: the version's, or the manifest's. */
  ghost function InstallLog(d: Disk, m: Mem, rewrite: bool, back: bool): nat {
    if back then m.version.logNumber else Base(d, m, rewrite).logNumber
  }

  /** DeleteObsoleteFiles' live set: pending outputs and the tables of every version in use. */
  ghost predicate IsLive(m: Mem, f: nat) {
    f in m.pending || f in m.version.tables || exists id :: id in m.readers && f in m.readers[id].tables
  }

  ghost predicate IsSmallestSnapshot(m: Mem, s: nat) {
    if m.snapshots == multiset{} then s == m.lastSeq
    else s in m.snapshots && forall t :: t in m.snapshots ==> s <= t
  }

  ghost predicate CanWork(s: State, step: Step)
    requires s.node.Up?
  {
    var m, d := s.node.m, s.disk;
    match step
    case StartFlush =>
      // a running compaction flushes without asking for errors
      m.flush.NoFlush? && m.imm.Some? && (!m.bgError || m.job.Compacting?) && !m.job.Installing?
    case BuildTable => m.flush.Building?
    case BuildFails => m.flush.Building? || m.flush.Built?
    case PrepareFlush => m.flush.Built? && m.imm.Some?
    case CommitFlush(_) => m.flush.Committing? && m.imm.Some?
    case CommitFlushFails(_, _) => m.flush.Committing? && m.imm.Some?
    case StartCompaction(inputs, oldest, isBase) =>
      // IsBaseLevelForKey holds only for keys with nothing older in the levels left alone
      && m.job.NoJob? && m.flush.NoFlush? && !m.bgError
      && inputs <= m.version.tables && IsSmallestSnapshot(m, oldest)
      && IsBaseFor(Contents(d.tables, inputs), Contents(d.tables, m.version.tables - inputs), isBase)
    case OpenOutput => m.job.Compacting? && m.flush.NoFlush?
    case PrepareInstall =>
      && m.job.Compacting? && m.flush.NoFlush?
      && m.job.outputs <= d.tables.Keys
      && Contents(d.tables, m.job.outputs) == Survivors(Contents(d.tables, m.job.inputs), m.job.oldest, m.job.isBase)
    case Install(_, _) => m.job.Installing?
    case InstallFails(_, _, _) => m.job.Installing?
    case AbortCompaction => m.job.Compacting? && m.flush.NoFlush?
    case WriteTable(file, content) =>
      (m.flush.Building? && file == m.flush.file) || (m.job.Compacting? && m.flush.NoFlush? && file in m.job.outputs)
    case DeleteObsolete(logs, tables) =>
      // the job itself deletes files, between flushes; no deletion after a background error
      && m.flush.NoFlush? && !m.bgError
      && (forall l :: l in logs ==> l < m.version.logNumber)
      && (forall f :: f in tables ==> !IsLive(m, f))
    case _ => false
  }

  ghost function DoWork(s: State, step: Step): State
    requires s.node.Up? && CanWork(s, step)
  {
    var m, d := s.node.m, s.disk;
    var f, j := m.flush, m.job;
    match step
    case StartFlush =>
      s.(node := Up(m.(flush := Building(m.nextFile), pending := m.pending + {m.nextFile}, nextFile := m.nextFile + 1)))
    case BuildTable =>
      s.(disk := d.(tables := d.tables[f.file := Imm(m)]), node := Up(m.(flush := Built(f.file))))
    case BuildFails =>
      s.(node := Up(m.(flush := NoFlush, pending := m.pending - {f.file}, bgError := true)))
    case PrepareFlush =>
      // a table without entries is not added
      s.(node := Up(m.(flush := Committing(if m.imm.value == {} then {} else {f.file}, m.logNumber, m.nextFile,
                                           m.lastSeq),
                       pending := m.pending - {f.file})))
    case CommitFlush(rewrite) =>
      s.(disk := d.(man := FlushEdit(Base(d, m, rewrite), f, m.imm.value)),
         node := Up(m.(version := FlushEdit(m.version, f, m.imm.value), imm := None, flush := NoFlush)))
    case CommitFlushFails(written, rewrite) =>
      s.(disk := if written then d.(man := FlushEdit(Base(d, m, rewrite), f, m.imm.value)) else d,
         node := Up(m.(flush := NoFlush, bgError := true, commitFailed := true)))
    case StartCompaction(inputs, oldest, isBase) =>
      s.(node := Up(m.(job := Compacting(inputs, {}, oldest, isBase))))
    case OpenOutput =>
      s.(node := Up(m.(job := Compacting(j.inputs, j.outputs + {m.nextFile}, j.oldest, j.isBase),
                       pending := m.pending + {m.nextFile}, nextFile := m.nextFile + 1)))
    case PrepareInstall =>
      s.(node := Up(m.(job := Installing(j.inputs, j.outputs, j.oldest, j.isBase, m.nextFile, m.lastSeq))))
    case Install(rewrite, back) =>
      s.(disk := d.(man := InstallEdit(Base(d, m, rewrite), j, InstallLog(d, m, rewrite, back))),
         node := Up(m.(version := InstallEdit(m.version, j, m.version.logNumber), job := NoJob,
                       pending := m.pending - j.outputs)))
    case InstallFails(written, rewrite, back) =>
      s.(disk := if written then d.(man := InstallEdit(Base(d, m, rewrite), j, InstallLog(d, m, rewrite, back))) else d,
         node := Up(m.(job := NoJob, pending := m.pending - j.outputs, bgError := true, commitFailed := true)))
    case AbortCompaction =>
      s.(node := Up(m.(job := NoJob, pending := m.pending - j.outputs, bgError := true)))
    case WriteTable(file, content) =>
      s.(disk := d.(tables := d.tables[file := content]))
    case DeleteObsolete(logs, tables) =>
      s.(disk := d.(logs := d.logs - logs, tables := d.tables - tables))
  }

  // ----- readers -----

  ghost predicate CanRead(s: State, step: Step)
    requires s.node.Up?
  {
    var m := s.node.m;
    match step
    case TakeSnapshot => true
    case ReleaseSnapshot(t) => t in m.snapshots
    case StartRead(id, t) => id !in m.readers && (t in m.snapshots || t == m.lastSeq)
    case FinishRead(id) => id in m.readers
    case _ => false
  }

  ghost function DoRead(s: State, step: Step): State
    requires s.node.Up? && CanRead(s, step)
  {
    var m := s.node.m;
    match step
    case TakeSnapshot => s.(node := Up(m.(snapshots := m.snapshots + multiset{m.lastSeq})))
    case ReleaseSnapshot(t) => s.(node := Up(m.(snapshots := m.snapshots - multiset{t})))
    case StartRead(id, t) =>
      s.(node := Up(m.(readers := m.readers[id := Read(t, m.mem, true, Imm(m), m.version.tables, Written(m))])))
    case FinishRead(id) => s.(node := Up(m.(readers := m.readers - {id})))
  }

  // ----- crash and recovery -----

  ghost predicate CanRecover(s: State, step: Step) {
    var d := s.disk;
    match step
    case Crash => true
    case Reopen => s.node.Down?
    case RecoverTable(part) => s.node.Recovering? && s.node.newLog.None? && part <= s.node.todo
    case CreateLog(newLog) =>
      && s.node.Recovering? && s.node.newLog.None? && s.node.todo == {}
      && s.node.nextFile <= newLog
      && (forall l :: l in d.logs && d.man.logNumber <= l ==> l < newLog)
    case OpenNewLog(last, save) =>
      && s.node.Recovering? && s.node.newLog.Some?
      && d.man.lastSeq <= last && UpTo(LogsFrom(d.logs, d.man.logNumber), last)
    case OpenSameLog(log, next, last, save) =>
      && s.node.Recovering? && s.node.newLog.None? && log in d.logs && s.node.todo == d.logs[log]
      && d.man.logNumber <= log && s.node.nextFile <= next
      && (forall l :: l in d.logs && d.man.logNumber <= l ==> l <= log < next)
      && d.man.lastSeq <= last && UpTo(LogsFrom(d.logs, d.man.logNumber), last)
    case _ => false
  }

  /** The manifest a recovery commits, if it made any table or starts a manifest anyway. */
  ghost function RecoveredManifest(d: Disk, save: bool, made: set<nat>, mem: set<Entry>, logNumber: nat, next: nat,
                                   last: nat)
    : Manifest
  {
    if made == {} && !save then d.man
    else Manifest(d.man.tables + made, logNumber, next, last,
                  d.man.flushed + (LogsFrom(d.logs, d.man.logNumber) - mem), d.man.horizon)
  }

  ghost function Opened(v: Manifest, mem: set<Entry>, logNumber: nat, next: nat, last: nat): Node {
    Up(Mem(mem, None, logNumber, v, next, last, {}, false, false, NoWrite, NoFlush, NoJob, multiset{}, map[]))
  }

  ghost function DoRecover(s: State, step: Step): State
    requires CanRecover(s, step)
  {
    var d := s.disk;
    match step
    case Crash => s.(node := Down, submitted := Durable(d))
    case Reopen => s.(node := Recovering(d.man.nextFile, LogsFrom(d.logs, d.man.logNumber), {}, None))
    case RecoverTable(part) =>
      var n := s.node;
      s.(disk := d.(tables := d.tables[n.nextFile := part]),
         node := Recovering(n.nextFile + 1, n.todo - part, n.made + {n.nextFile}, None))
    case CreateLog(newLog) =>
      s.(disk := d.(logs := d.logs[newLog := {}]), node := s.node.(nextFile := newLog + 1, newLog := Some(newLog)))
    case OpenNewLog(last, save) =>
      var n := s.node;
      var v := RecoveredManifest(d, save, n.made, {}, n.newLog.value, n.nextFile, last);
      s.(disk := d.(man := v), node := Opened(v, {}, n.newLog.value, n.nextFile, last))
    case OpenSameLog(log, next, last, save) =>
      var mem := s.node.todo;
      var v := RecoveredManifest(d, save, s.node.made, mem, log, next, last);
      s.(disk := d.(man := v), node := Opened(v, mem, log, next, last))
  }

  // ----- runs -----

  ghost predicate Can(s: State, step: Step) {
    || (s.node.Up? && s.node.m.logNumber in s.disk.logs && (CanWrite(s, step) || CanWork(s, step) || CanRead(s, step)))
    || CanRecover(s, step)
  }

  ghost function Do(s: State, step: Step): State
    requires Can(s, step)
  {
    if CanRecover(s, step) then DoRecover(s, step)
    else if CanWrite(s, step) then DoWrite(s, step)
    else if CanWork(s, step) then DoWork(s, step)
    else DoRead(s, step)
  }

  ghost predicate IsRun(s: State, steps: seq<Step>)
    decreases |steps|
  {
    steps == [] || (Can(s, steps[0]) && IsRun(Do(s, steps[0]), steps[1..]))
  }

  ghost function After(s: State, steps: seq<Step>): State
    requires IsRun(s, steps)
    decreases |steps|
  {
    if steps == [] then s else After(Do(s, steps[0]), steps[1..])
  }
}
