/**
 What every step of the engine keeps, and what follows for a crash at any moment: a recovery
 finds every write that was acknowledged, and no read ever notices a flush, a compaction or a
 file deletion.
 */
module EngineDurability {
  import opened Options
  import opened LsmEntries
  import opened Compaction
  import opened Engine

  // ----- what the tables of a version mean -----

  ghost predicate TablesMean(tables: map<nat, set<Entry>>, v: Manifest) {
    && v.tables <= tables.Keys
    && (forall f :: f in v.tables ==> f < v.nextFile)
    && v.logNumber < v.nextFile
    && Contents(tables, v.tables) <= v.flushed
    && SameReads(Contents(tables, v.tables), v.flushed, v.horizon)
    && v.horizon <= v.lastSeq && UpTo(v.flushed, v.lastSeq)
  }

  ghost predicate LogsInOrder(logs: map<nat, set<Entry>>, n: nat) {
    forall l, l' :: l in logs && l' in logs && n <= l < l' ==> Older(logs[l], logs[l'])
  }

  ghost predicate IsLast(logs: map<nat, set<Entry>>, l: nat) {
    l in logs && forall l' :: l' in logs ==> l' <= l
  }

  /** The logs from n on are newer than what is flushed, but for entries that are in both; the last log has
      none of those. */
  ghost predicate Above(flushed: set<Entry>, logs: map<nat, set<Entry>>, n: nat) {
    && Older(flushed - LogsFrom(logs, n), LogsFrom(logs, n))
    && forall l :: IsLast(logs, l) && n <= l ==> Older(flushed, logs[l])
  }

  ghost predicate DiskInv(d: Disk, acked: set<Entry>, submitted: set<Entry>) {
    && TablesMean(d.tables, d.man)
    && LogsInOrder(d.logs, d.man.logNumber)
    && Above(d.man.flushed, d.logs, d.man.logNumber)
    && acked <= Durable(d) <= submitted
    && Unique(submitted)
  }

  // ----- a running engine -----

  ghost function CurrentLog(d: Disk, m: Mem): set<Entry> {
    if m.logNumber in d.logs then d.logs[m.logNumber] else {}
  }

  /** How the manifest on disk may differ from the version in memory: it may have the memtable that is being
      flushed, in a table of its own or at least among what is flushed. The logs that the version still
      needs are all there. */
  ghost predicate Ahead(d: Disk, m: Mem, submitted: set<Entry>) {
    var v, logs := m.version, LogsFrom(d.logs, m.version.logNumber);
    && v.logNumber <= d.man.logNumber && d.man.lastSeq <= m.lastSeq
    && v.flushed <= d.man.flushed <= v.flushed + Imm(m)
    && (Imm(m) <= Contents(d.tables, d.man.tables - v.tables) || d.man.flushed == v.flushed)
    && logs <= submitted && LogsInOrder(d.logs, v.logNumber) && Older(d.man.flushed - logs, logs)
  }

  ghost predicate MemInv(d: Disk, m: Mem, acked: set<Entry>, submitted: set<Entry>) {
    && TablesMean(d.tables, m.version)
    && (if m.commitFailed then m.bgError else d.man == m.version)
    && Ahead(d, m, submitted)
    && m.version.logNumber <= m.logNumber < m.nextFile && m.version.nextFile <= m.nextFile
    && d.man.logNumber <= m.logNumber && d.man.nextFile <= m.nextFile
    && m.logNumber in d.logs && (forall l :: l in d.logs ==> l <= m.logNumber)
    && m.mem <= CurrentLog(d, m)
    && Imm(m) <= LogsFrom(d.logs, m.version.logNumber) && Older(Imm(m), CurrentLog(d, m))
    && Older(m.version.flushed, Imm(m) + CurrentLog(d, m))
    && m.version.lastSeq <= m.lastSeq && UpTo(Imm(m), m.lastSeq)
    && acked <= Written(m) <= submitted
  }

  ghost predicate WriteInv(d: Disk, m: Mem, submitted: set<Entry>) {
    && (m.write.NoWrite? ==> UpTo(submitted, m.lastSeq))
    && (!m.write.NoWrite? ==>
          && m.lastSeq <= m.write.last && UpTo(submitted, m.write.last)
          && m.write.batch <= submitted
          && forall e :: e in submitted ==> (e in m.write.batch <==> m.lastSeq < e.seqno))
    && (m.write.Logging? ==>
          UpTo(d.man.flushed + LogsFrom(d.logs, m.version.logNumber), m.lastSeq) && UpTo(m.mem, m.lastSeq))
    && (m.write.Logged? || m.write.Applied? ==> m.write.batch <= CurrentLog(d, m))
    && (m.write.Applied? ==> m.write.batch <= m.mem)
    && (m.write.Logged? || m.write.Rejected? ==> m.write.batch !! m.mem)
  }

  ghost predicate FileInv(d: Disk, m: Mem) {
    && (forall f :: f in m.pending ==> f < m.nextFile && f !in m.version.tables && f !in d.man.tables)
    && (m.flush.Building? || m.flush.Built? ==> m.imm.Some? && m.flush.file in m.pending)
    && (m.flush.Built? ==> m.flush.file in d.tables && d.tables[m.flush.file] == Imm(m))
    && (m.flush.Committing? ==>
          && m.imm.Some?
          && m.flush.files <= d.tables.Keys && Contents(d.tables, m.flush.files) == Imm(m)
          && m.flush.files !! m.version.tables && m.flush.files !! m.pending
          && m.flush.logNumber == m.logNumber < m.flush.nextFile <= m.nextFile
          && (forall f :: f in m.flush.files ==> f < m.flush.nextFile)
          && m.version.nextFile <= m.flush.nextFile && d.man.nextFile <= m.flush.nextFile
          && m.version.lastSeq <= m.flush.lastSeq <= m.lastSeq && d.man.lastSeq <= m.flush.lastSeq
          && UpTo(Imm(m), m.flush.lastSeq))
  }

  /** The inputs of a compaction, in the version or in the manifest on disk. */
  ghost predicate InputsIn(tables: map<nat, set<Entry>>, j: Job, v: Manifest)
    requires !j.NoJob?
  {
    && j.inputs <= v.tables
    && IsBaseFor(Contents(tables, j.inputs), Contents(tables, v.tables - j.inputs), j.isBase)
  }

  ghost predicate JobInv(d: Disk, m: Mem) {
    && (!m.job.NoJob? ==>
          && InputsIn(d.tables, m.job, m.version) && InputsIn(d.tables, m.job, d.man)
          && m.job.outputs <= m.pending
          && (m.flush.Building? || m.flush.Built? ==> m.flush.file !in m.job.outputs)
          && m.job.oldest <= m.lastSeq && forall t :: t in m.snapshots ==> m.job.oldest <= t)
    && (m.job.Installing? ==>
          && m.flush.NoFlush?
          && m.job.outputs <= d.tables.Keys
          && Contents(d.tables, m.job.outputs)
             == Survivors(Contents(d.tables, m.job.inputs), m.job.oldest, m.job.isBase)
          && (forall f :: f in m.job.outputs ==> f < m.job.nextFile)
          && m.version.nextFile <= m.job.nextFile <= m.nextFile && d.man.nextFile <= m.job.nextFile
          && m.version.lastSeq <= m.job.lastSeq <= m.lastSeq && d.man.lastSeq <= m.job.lastSeq
          && m.job.oldest <= m.job.lastSeq)
  }

  ghost function ReadTables(d: Disk, r: Read): set<Entry> {
    Contents(d.tables, r.tables)
  }

  /** A read in progress still finds what had been written when it began, and its three sources are in order
      of age. */
  ghost predicate ReadInv(d: Disk, m: Mem, r: Read) {
    && r.tables <= d.tables.Keys
    && (forall f :: f in r.tables ==> f < m.nextFile && f !in m.pending)
    && (m.flush.Committing? ==> r.tables !! m.flush.files)
    && InAgeOrder(ReadTables(d, r), r.imm, r.mem)
    && UpTo(ReadTables(d, r) + r.imm, m.lastSeq) && r.snapshot <= m.lastSeq
    && (r.growing ==> r.mem == m.mem)
    && forall k :: Lookup(ReadTables(d, r) + r.imm + r.mem, k, r.snapshot) == Lookup(r.written, k, r.snapshot)
  }

  ghost predicate InAgeOrder(tables: set<Entry>, imm: set<Entry>, mem: set<Entry>) {
    Unique(tables + imm + mem) && Older(tables, imm) && Older(tables, mem) && Older(imm, mem)
  }

  ghost predicate ReadersInv(d: Disk, m: Mem) {
    && (forall t :: t in m.snapshots ==> m.version.horizon <= t <= m.lastSeq)
    && forall id :: id in m.readers ==> ReadInv(d, m, m.readers[id])
  }

  ghost predicate UpInv(d: Disk, m: Mem, acked: set<Entry>, submitted: set<Entry>) {
    && MemInv(d, m, acked, submitted)
    && WriteInv(d, m, submitted)
    && FileInv(d, m)
    && JobInv(d, m)
    && ReadersInv(d, m)
  }

  ghost predicate RecoveringInv(d: Disk, n: Node)
    requires n.Recovering?
  {
    && d.man.nextFile <= n.nextFile
    && n.made <= d.tables.Keys && n.made !! d.man.tables
    && (forall f :: f in n.made ==> f < n.nextFile)
    && Contents(d.tables, n.made) + n.todo == LogsFrom(d.logs, d.man.logNumber)
    && Contents(d.tables, n.made) !! n.todo
    && (n.newLog.Some? ==>
          && n.todo == {} && IsLast(d.logs, n.newLog.value) && d.logs[n.newLog.value] == {}
          && d.man.logNumber <= n.newLog.value < n.nextFile)
  }

  ghost predicate Inv(s: State) {
    && DiskInv(s.disk, s.acked, s.submitted)
    && match s.node
       case Down => s.submitted == Durable(s.disk)
       case Recovering(_, _, _, _) => s.submitted == Durable(s.disk) && RecoveringInv(s.disk, s.node)
       case Up(m) => UpInv(s.disk, m, s.acked, s.submitted)
  }

  /** Proofs carry the invariant folded up, as "not broken". */
  ghost predicate Broken(s: State) { !Inv(s) }

  // ----- files and logs that a step leaves alone -----

  lemma SameContents(tables: map<nat, set<Entry>>, tables': map<nat, set<Entry>>, files: set<nat>)
    requires forall f :: f in files && f in tables ==> f in tables' && tables'[f] == tables[f]
    requires forall f :: f in files && f in tables' ==> f in tables
    ensures Contents(tables', files) == Contents(tables, files)
  {
  }

  lemma ContentsOfUnion(tables: map<nat, set<Entry>>, a: set<nat>, b: set<nat>)
    ensures Contents(tables, a + b) == Contents(tables, a) + Contents(tables, b)
  {
  }

  lemma AppendExtends(logs: map<nat, set<Entry>>, n: nat, batch: set<Entry>, from: nat)
    requires n in logs && from <= n
    ensures LogsFrom(logs[n := logs[n] + batch], from) == LogsFrom(logs, from) + batch
  {
    var logs' := logs[n := logs[n] + batch];
    assert forall e :: e in batch ==> e in logs'[n];
    assert forall l :: l in logs ==> logs[l] <= logs'[l];
  }

  lemma EmptyLogAddsNothing(logs: map<nat, set<Entry>>, n: nat, from: nat)
    requires n !in logs
    ensures LogsFrom(logs[n := {}], from) == LogsFrom(logs, from)
  {
    assert forall l :: l in logs ==> logs[n := {}][l] == logs[l];
  }

  // ----- the writer's steps -----

  /** A writer changes no table, version, job or reader. */
  ghost predicate WriterFrame(d: Disk, m: Mem, d': Disk, m': Mem) {
    && d'.tables == d.tables && d'.man == d.man && m'.version == m.version
    && m'.pending == m.pending && m'.flush == m.flush && m'.job == m.job
    && m'.snapshots == m.snapshots
    && m.nextFile <= m'.nextFile && m.lastSeq <= m'.lastSeq
    && (!m.flush.NoFlush? ==> m'.imm == m.imm && m'.logNumber == m.logNumber)
  }

  lemma WriterLeavesFiles(d: Disk, m: Mem, d': Disk, m': Mem)
    requires WriterFrame(d, m, d', m') && FileInv(d, m) && JobInv(d, m)
    ensures FileInv(d', m') && JobInv(d', m')
  {
  }

  lemma WriterLeavesReaders(d: Disk, m: Mem, d': Disk, m': Mem)
    requires WriterFrame(d, m, d', m') && ReadersInv(d, m) && m'.readers == m.readers && m'.mem == m.mem
    ensures ReadersInv(d', m')
  {
    forall id | id in m'.readers
      ensures ReadInv(d', m', m'.readers[id])
    {
      assert ReadInv(d, m, m.readers[id]);
    }
  }

  /** A batch that enters the memtable under a read is newer than all the read looks at. */
  lemma ReadGrows(d: Disk, m: Mem, r: Read, batch: set<Entry>, m': Mem, r': Read)
    requires ReadInv(d, m, r) && r.growing && Unique(m.mem + batch)
    requires forall e :: e in batch ==> m.lastSeq < e.seqno
    requires m' == m.(mem := m.mem + batch, write := m'.write, readers := m'.readers) && r' == r.(mem := r.mem + batch)
    ensures ReadInv(d, m', r')
  {
    var below := ReadTables(d, r) + r.imm + r.mem;
    assert ReadTables(d, r') + r'.imm + r'.mem == below + batch;
    assert Unique(below + batch);
    forall k ensures Lookup(below + batch, k, r.snapshot) == Lookup(r.written, k, r.snapshot) {
      LookupIgnoresLater(below, batch, k, r.snapshot);
    }
  }

  lemma ReadersGrow(d: Disk, m: Mem, batch: set<Entry>, m': Mem)
    requires ReadersInv(d, m) && Unique(m.mem + batch)
    requires forall e :: e in batch ==> m.lastSeq < e.seqno
    requires m' == m.(mem := m.mem + batch, write := m'.write, readers := Grown(m.readers, batch))
    ensures ReadersInv(d, m')
  {
    forall id | id in m'.readers
      ensures ReadInv(d, m', m'.readers[id])
    {
      var r := m.readers[id];
      assert ReadInv(d, m, r);
      if r.growing { ReadGrows(d, m, r, batch, m', m'.readers[id]); }
    }
  }

  lemma ReadersGrounded(d: Disk, m: Mem, d': Disk, m': Mem)
    requires WriterFrame(d, m, d', m') && ReadersInv(d, m) && m'.readers == Grounded(m.readers)
    ensures ReadersInv(d', m')
  {
    forall id | id in m'.readers
      ensures ReadInv(d', m', m'.readers[id])
    {
      assert ReadInv(d, m, m.readers[id]);
      assert ReadTables(d', m'.readers[id]) == ReadTables(d, m.readers[id]);
    }
  }

  lemma AppendInOrder(logs: map<nat, set<Entry>>, n: nat, batch: set<Entry>, from: nat)
    requires IsLast(logs, n) && from <= n && LogsInOrder(logs, from) && Older(LogsFrom(logs, from), batch)
    ensures LogsInOrder(logs[n := logs[n] + batch], from)
  {
    var logs' := logs[n := logs[n] + batch];
    forall l, l' | l in logs' && l' in logs' && from <= l < l'
      ensures Older(logs'[l], logs'[l'])
    {
      assert l < n && logs'[l] <= LogsFrom(logs, from);
    }
  }

  /** What is flushed stays below the logs when a batch newer than both is appended. */
  lemma AppendStaysAbove(flushed: set<Entry>, logs: map<nat, set<Entry>>, n: nat, batch: set<Entry>, from: nat)
    requires IsLast(logs, n) && from <= n && Above(flushed, logs, from) && Older(flushed, batch)
    ensures Above(flushed, logs[n := logs[n] + batch], from)
  {
    var logs' := logs[n := logs[n] + batch];
    AppendExtends(logs, n, batch, from);
    assert Older(flushed, logs[n]);
    forall l | IsLast(logs', l) && from <= l ensures Older(flushed, logs'[l]) {
      assert l in logs && n in logs';
      assert l == n;
    }
  }

  /** A batch that is being logged is newer than all that is on disk. */
  lemma BatchIsNewest(d: Disk, m: Mem, submitted: set<Entry>)
    requires WriteInv(d, m, submitted) && m.write.Logging?
    ensures Older(d.man.flushed + LogsFrom(d.logs, m.version.logNumber), m.write.batch)
  {
  }

  lemma AppendKeepsDisk(d: Disk, m: Mem, acked: set<Entry>, submitted: set<Entry>, d': Disk)
    requires DiskInv(d, acked, submitted) && MemInv(d, m, acked, submitted) && WriteInv(d, m, submitted)
    requires m.write.Logging? && d' == AppendToLog(d, m, m.write.batch)
    ensures DiskInv(d', acked, submitted)
  {
    BatchIsNewest(d, m, submitted);
    assert LogsFrom(d.logs, d.man.logNumber) <= LogsFrom(d.logs, m.version.logNumber);
    AppendExtends(d.logs, m.logNumber, m.write.batch, d.man.logNumber);
    AppendInOrder(d.logs, m.logNumber, m.write.batch, d.man.logNumber);
    AppendStaysAbove(d.man.flushed, d.logs, m.logNumber, m.write.batch, d.man.logNumber);
  }

  lemma AppendKeepsAhead(d: Disk, m: Mem, acked: set<Entry>, submitted: set<Entry>, d': Disk)
    requires MemInv(d, m, acked, submitted) && WriteInv(d, m, submitted)
    requires m.write.Logging? && d' == AppendToLog(d, m, m.write.batch)
    ensures Ahead(d', m, submitted)
  {
    BatchIsNewest(d, m, submitted);
    AppendExtends(d.logs, m.logNumber, m.write.batch, m.version.logNumber);
    AppendInOrder(d.logs, m.logNumber, m.write.batch, m.version.logNumber);
  }

  lemma AppendKeepsMem(d: Disk, m: Mem, acked: set<Entry>, submitted: set<Entry>, d': Disk)
    requires DiskInv(d, acked, submitted) && MemInv(d, m, acked, submitted) && WriteInv(d, m, submitted)
    requires m.write.Logging? && d' == AppendToLog(d, m, m.write.batch)
    ensures MemInv(d', m, acked, submitted)
  {
    AppendKeepsAhead(d, m, acked, submitted, d');
    AppendExtends(d.logs, m.logNumber, m.write.batch, m.version.logNumber);
    assert CurrentLog(d', m) == CurrentLog(d, m) + m.write.batch;
  }

  lemma AppendKeepsWrite(d: Disk, m: Mem, submitted: set<Entry>, d': Disk, m': Mem)
    requires WriteInv(d, m, submitted) && m.write.Logging? && m.logNumber in d.logs
    requires d' == AppendToLog(d, m, m.write.batch)
    requires m' == m.(write := m'.write, bgError := m'.bgError)
    requires m'.write == Logged(m.write.batch, m.write.last) || m'.write == Rejected(m.write.batch, m.write.last)
    ensures WriteInv(d', m', submitted)
  {
    assert m.write.batch !! m.mem by { assert forall e :: e in m.write.batch ==> e in submitted; }
  }

  lemma WriterErrorKeepsMem(d: Disk, m: Mem, m': Mem, acked: set<Entry>, submitted: set<Entry>)
    requires MemInv(d, m, acked, submitted)
    requires m' == m.(write := m'.write, bgError := m'.bgError) && (m.bgError ==> m'.bgError)
    ensures MemInv(d, m', acked, submitted)
  {
  }

  lemma BeginWriteKeepsData(s: State, step: Step, s': State)
    requires s.node.Up? && !Broken(s) && CanWrite(s, step) && step.BeginWrite? && s' == DoWrite(s, step)
    ensures DiskInv(s'.disk, s'.acked, s'.submitted) && MemInv(s'.disk, s'.node.m, s'.acked, s'.submitted)
  {
    assert Ahead(s'.disk, s'.node.m, s'.submitted);
  }

  lemma BeginWriteKeepsWrite(s: State, step: Step, s': State)
    requires s.node.Up? && !Broken(s) && CanWrite(s, step) && step.BeginWrite? && s' == DoWrite(s, step)
    ensures WriteInv(s'.disk, s'.node.m, s'.submitted)
  {
    assert s.disk.man.flushed + LogsFrom(s.disk.logs, s.node.m.version.logNumber) <= s.submitted;
    assert s.node.m.mem <= s.submitted;
  }

  lemma BeginWriteKeeps(s: State, step: Step)
    requires s.node.Up? && !Broken(s) && CanWrite(s, step) && step.BeginWrite?
    ensures !Broken(DoWrite(s, step))
  {
    var s' := DoWrite(s, step);
    WriterLeavesFiles(s.disk, s.node.m, s'.disk, s'.node.m);
    WriterLeavesReaders(s.disk, s.node.m, s'.disk, s'.node.m);
    BeginWriteKeepsData(s, step, s');
    BeginWriteKeepsWrite(s, step, s');
  }

  lemma LogWriteKeeps(s: State, step: Step)
    requires s.node.Up? && !Broken(s) && CanWrite(s, step) && step.LogWrite?
    ensures !Broken(DoWrite(s, step))
  {
    var s', m := DoWrite(s, step), s.node.m;
    WriterLeavesFiles(s.disk, m, s'.disk, s'.node.m);
    WriterLeavesReaders(s.disk, m, s'.disk, s'.node.m);
    AppendKeepsDisk(s.disk, m, s.acked, s.submitted, s'.disk);
    AppendKeepsMem(s.disk, m, s.acked, s.submitted, s'.disk);
    AppendKeepsWrite(s.disk, m, s.submitted, s'.disk, s'.node.m);
    WriterErrorKeepsMem(s'.disk, m, s'.node.m, s.acked, s.submitted);
  }

  lemma WriteLostKeeps(s: State, step: Step)
    requires s.node.Up? && !Broken(s) && CanWrite(s, step)
    requires step == LogWriteFails(false) || step == SyncFails(false)
    ensures !Broken(DoWrite(s, step))
  {
    var s', m := DoWrite(s, step), s.node.m;
    WriterLeavesFiles(s.disk, m, s'.disk, s'.node.m);
    WriterLeavesReaders(s.disk, m, s'.disk, s'.node.m);
    WriterErrorKeepsMem(s.disk, m, s'.node.m, s.acked, s.submitted);
    assert WriteInv(s'.disk, s'.node.m, s'.submitted);
  }

  lemma WriteLeftInLogKeeps(s: State, step: Step)
    requires s.node.Up? && !Broken(s) && CanWrite(s, step)
    requires step == LogWriteFails(true) || step == SyncFails(true)
    ensures !Broken(DoWrite(s, step))
  {
    var s', m := DoWrite(s, step), s.node.m;
    WriterLeavesFiles(s.disk, m, s'.disk, s'.node.m);
    WriterLeavesReaders(s.disk, m, s'.disk, s'.node.m);
    AppendKeepsDisk(s.disk, m, s.acked, s.submitted, s'.disk);
    AppendKeepsMem(s.disk, m, s.acked, s.submitted, s'.disk);
    AppendKeepsWrite(s.disk, m, s.submitted, s'.disk, s'.node.m);
    WriterErrorKeepsMem(s'.disk, m, s'.node.m, s.acked, s.submitted);
  }

  lemma ApplyKeepsMem(d: Disk, m: Mem, acked: set<Entry>, submitted: set<Entry>, m': Mem)
    requires MemInv(d, m, acked, submitted) && WriteInv(d, m, submitted) && m.write.Logged?
    requires m' == m.(mem := m.mem + m.write.batch, write := m'.write, readers := m'.readers)
    ensures MemInv(d, m', acked, submitted)
  {
    assert Ahead(d, m', submitted);
  }

  lemma ApplyKeepsWrite(d: Disk, m: Mem, submitted: set<Entry>, m': Mem)
    requires WriteInv(d, m, submitted) && m.write.Logged? && m'.write == Applied(m.write.batch, m.write.last)
    requires m' == m.(mem := m.mem + m.write.batch, write := m'.write, readers := m'.readers)
    ensures WriteInv(d, m', submitted)
  {
  }

  lemma ApplyWriteKeepsReaders(s: State, s': State)
    requires s.node.Up? && !Broken(s) && CanWrite(s, ApplyWrite) && s' == DoWrite(s, ApplyWrite)
    ensures ReadersInv(s'.disk, s'.node.m)
  {
    assert s.node.m.mem + s.node.m.write.batch <= s.submitted;
    ReadersGrow(s.disk, s.node.m, s.node.m.write.batch, s'.node.m);
  }

  lemma ApplyWriteKeeps(s: State, step: Step)
    requires s.node.Up? && !Broken(s) && CanWrite(s, step) && step.ApplyWrite?
    ensures !Broken(DoWrite(s, step))
  {
    var s' := DoWrite(s, step);
    WriterLeavesFiles(s.disk, s.node.m, s'.disk, s'.node.m);
    ApplyKeepsMem(s.disk, s.node.m, s.acked, s.submitted, s'.node.m);
    ApplyKeepsWrite(s.disk, s.node.m, s.submitted, s'.node.m);
    ApplyWriteKeepsReaders(s, s');
  }

  lemma FinishKeepsMem(d: Disk, m: Mem, acked: set<Entry>, submitted: set<Entry>, acked': set<Entry>, m': Mem)
    requires MemInv(d, m, acked, submitted) && WriteInv(d, m, submitted) && (m.write.Applied? || m.write.Rejected?)
    requires m' == m.(write := NoWrite, lastSeq := m.write.last)
    requires acked' == if m.write.Applied? then acked + m.write.batch else acked
    ensures MemInv(d, m', acked', submitted) && WriteInv(d, m', submitted)
  {
    assert Ahead(d, m', submitted);
  }

  lemma FinishKeepsDisk(d: Disk, m: Mem, acked: set<Entry>, submitted: set<Entry>)
    requires DiskInv(d, acked, submitted) && MemInv(d, m, acked, submitted) && WriteInv(d, m, submitted)
             && m.write.Applied?
    ensures DiskInv(d, acked + m.write.batch, submitted)
  {
    assert m.write.batch <= CurrentLog(d, m) <= LogsFrom(d.logs, d.man.logNumber);
  }

  lemma FinishWriteKeeps(s: State, step: Step)
    requires s.node.Up? && !Broken(s) && CanWrite(s, step) && step.FinishWrite?
    ensures !Broken(DoWrite(s, step))
  {
    var s' := DoWrite(s, step);
    WriterLeavesFiles(s.disk, s.node.m, s'.disk, s'.node.m);
    WriterLeavesReaders(s.disk, s.node.m, s'.disk, s'.node.m);
    FinishKeepsMem(s.disk, s.node.m, s.acked, s.submitted, s'.acked, s'.node.m);
    if s.node.m.write.Applied? { FinishKeepsDisk(s.disk, s.node.m, s.acked, s.submitted); }
  }

  lemma NewLogInOrder(logs: map<nat, set<Entry>>, n: nat, from: nat)
    requires LogsInOrder(logs, from) && forall l :: l in logs ==> l < n
    ensures LogsInOrder(logs[n := {}], from) && IsLast(logs[n := {}], n)
  {
    var logs' := logs[n := {}];
    forall l, l' | l in logs' && l' in logs' && from <= l < l' ensures Older(logs'[l], logs'[l']) { }
  }

  lemma SwitchKeepsDisk(s: State, s': State)
    requires s.node.Up? && !Broken(s) && CanWrite(s, SwitchMemtable) && s.node.m.logNumber in s.disk.logs
    requires s' == DoWrite(s, SwitchMemtable)
    ensures DiskInv(s'.disk, s'.acked, s'.submitted)
  {
    var d, m := s.disk, s.node.m;
    NewLogInOrder(d.logs, m.nextFile, d.man.logNumber);
    EmptyLogAddsNothing(d.logs, m.nextFile, d.man.logNumber);
    assert Above(d.man.flushed, s'.disk.logs, d.man.logNumber);
  }

  lemma SwitchKeepsMem(s: State, s': State)
    requires s.node.Up? && !Broken(s) && CanWrite(s, SwitchMemtable) && s.node.m.logNumber in s.disk.logs
    requires s' == DoWrite(s, SwitchMemtable)
    ensures MemInv(s'.disk, s'.node.m, s'.acked, s'.submitted)
  {
    var d, m := s.disk, s.node.m;
    NewLogInOrder(d.logs, m.nextFile, m.version.logNumber);
    EmptyLogAddsNothing(d.logs, m.nextFile, m.version.logNumber);
    assert d.man == m.version && UpTo(m.mem, m.lastSeq);
    assert Ahead(s'.disk, s'.node.m, s'.submitted);
  }

  lemma SwitchMemtableKeeps(s: State, step: Step)
    requires s.node.Up? && !Broken(s) && CanWrite(s, step) && step.SwitchMemtable?
    ensures !Broken(DoWrite(s, step))
  {
    var s', m := DoWrite(s, step), s.node.m;
    WriterLeavesFiles(s.disk, m, s'.disk, s'.node.m);
    ReadersGrounded(s.disk, m, s'.disk, s'.node.m);
    SwitchKeepsDisk(s, s');
    SwitchKeepsMem(s, s');
    assert WriteInv(s'.disk, s'.node.m, s'.submitted);
  }

  // ----- the background job's steps -----

  /** What a step of the job keeps until it commits: logs, manifest, memtables, and the tables
      the manifest and the version name. */
  ghost predicate JobFrame(d: Disk, m: Mem, d': Disk, m': Mem) {
    && d'.logs == d.logs && d'.man == d.man
    && (forall f :: f in d.tables && (f in m.version.tables || f in d.man.tables) ==>
          f in d'.tables && d'.tables[f] == d.tables[f])
    && m'.mem == m.mem && m'.imm == m.imm && m'.logNumber == m.logNumber && m'.version == m.version
    && m'.lastSeq == m.lastSeq && m'.write == m.write && m.nextFile <= m'.nextFile
    && m'.commitFailed == m.commitFailed && (m.bgError ==> m'.bgError)
  }

  lemma TablesKeepMeaning(tables: map<nat, set<Entry>>, tables': map<nat, set<Entry>>, v: Manifest)
    requires TablesMean(tables, v)
    requires forall f :: f in tables && f in v.tables ==> f in tables' && tables'[f] == tables[f]
    ensures TablesMean(tables', v) && Contents(tables', v.tables) == Contents(tables, v.tables)
  {
    SameContents(tables, tables', v.tables);
  }

  lemma JobLeavesData(d: Disk, m: Mem, d': Disk, m': Mem, acked: set<Entry>, submitted: set<Entry>)
    requires JobFrame(d, m, d', m')
    requires DiskInv(d, acked, submitted) && MemInv(d, m, acked, submitted) && WriteInv(d, m, submitted)
    ensures DiskInv(d', acked, submitted) && MemInv(d', m', acked, submitted) && WriteInv(d', m', submitted)
  {
    TablesKeepMeaning(d.tables, d'.tables, d.man);
    JobLeavesMem(d, m, d', m', acked, submitted);
  }

  lemma JobLeavesMem(d: Disk, m: Mem, d': Disk, m': Mem, acked: set<Entry>, submitted: set<Entry>)
    requires JobFrame(d, m, d', m') && TablesMean(d.tables, d.man) && MemInv(d, m, acked, submitted)
    ensures MemInv(d', m', acked, submitted)
  {
    TablesKeepMeaning(d.tables, d'.tables, m.version);
    SameContents(d.tables, d'.tables, d.man.tables - m.version.tables);
    assert Ahead(d', m', submitted);
  }

  /** Readers keep their tables through a step that allocates file numbers or writes pending files. */
  lemma JobLeavesReaders(d: Disk, m: Mem, d': Disk, m': Mem)
    requires ReadersInv(d, m)
    requires m'.version.horizon <= m.version.horizon && m'.lastSeq == m.lastSeq
    requires m'.snapshots == m.snapshots && m'.readers == m.readers && m'.mem == m.mem && m.nextFile <= m'.nextFile
    requires forall f :: f in m'.pending ==> f in m.pending || m.nextFile <= f
    requires m'.flush.Committing? ==> forall f :: f in m'.flush.files ==> f in m.pending
    requires forall f :: f in d.tables && f !in m.pending ==> f in d'.tables && d'.tables[f] == d.tables[f]
    ensures ReadersInv(d', m')
  {
    forall id | id in m'.readers
      ensures ReadInv(d', m', m'.readers[id])
    {
      var r := m.readers[id];
      assert ReadInv(d, m, r);
      SameContents(d.tables, d'.tables, r.tables);
    }
  }

  lemma StartFlushKeeps(s: State, step: Step)
    requires s.node.Up? && !Broken(s) && CanWork(s, step) && step.StartFlush?
    ensures !Broken(DoWork(s, step))
  {
    var s', m := DoWork(s, step), s.node.m;
    JobLeavesData(s.disk, m, s'.disk, s'.node.m, s.acked, s.submitted);
    JobLeavesReaders(s.disk, m, s'.disk, s'.node.m);
    assert FileInv(s'.disk, s'.node.m);
    assert JobInv(s'.disk, s'.node.m);
  }

  lemma BuildTableKeeps(s: State, step: Step)
    requires s.node.Up? && !Broken(s) && CanWork(s, step) && step.BuildTable?
    ensures !Broken(DoWork(s, step))
  {
    var s', m := DoWork(s, step), s.node.m;
    JobLeavesData(s.disk, m, s'.disk, s'.node.m, s.acked, s.submitted);
    JobLeavesReaders(s.disk, m, s'.disk, s'.node.m);
    if !m.job.NoJob? {
      SameContents(s.disk.tables, s'.disk.tables, m.job.inputs);
      SameContents(s.disk.tables, s'.disk.tables, m.version.tables - m.job.inputs);
      SameContents(s.disk.tables, s'.disk.tables, s.disk.man.tables - m.job.inputs);
    }
    assert FileInv(s'.disk, s'.node.m);
    assert JobInv(s'.disk, s'.node.m);
  }

  lemma BuildFailsKeeps(s: State, step: Step)
    requires s.node.Up? && !Broken(s) && CanWork(s, step) && step.BuildFails?
    ensures !Broken(DoWork(s, step))
  {
    var s', m := DoWork(s, step), s.node.m;
    JobLeavesData(s.disk, m, s'.disk, s'.node.m, s.acked, s.submitted);
    JobLeavesReaders(s.disk, m, s'.disk, s'.node.m);
    assert FileInv(s'.disk, s'.node.m);
    assert JobInv(s'.disk, s'.node.m);
  }

  lemma PreparedFlush(d: Disk, m: Mem, acked: set<Entry>, submitted: set<Entry>, m': Mem)
    requires MemInv(d, m, acked, submitted) && FileInv(d, m) && JobInv(d, m) && m.flush.Built? && m.imm.Some?
    requires m' == m.(flush := Committing(if m.imm.value == {} then {} else {m.flush.file}, m.logNumber, m.nextFile,
                                          m.lastSeq),
                      pending := m.pending - {m.flush.file})
    ensures FileInv(d, m') && JobInv(d, m')
  {
    assert Contents(d.tables, m'.flush.files) == Imm(m);
  }

  lemma PrepareFlushKeeps(s: State, step: Step)
    requires s.node.Up? && !Broken(s) && CanWork(s, step) && step.PrepareFlush?
    ensures !Broken(DoWork(s, step))
  {
    var s', m := DoWork(s, step), s.node.m;
    JobLeavesData(s.disk, m, s'.disk, s'.node.m, s.acked, s.submitted);
    JobLeavesReaders(s.disk, m, s'.disk, s'.node.m);
    PreparedFlush(s.disk, m, s.acked, s.submitted, s'.node.m);
  }

  lemma StartCompactionKeeps(s: State, step: Step)
    requires s.node.Up? && !Broken(s) && CanWork(s, step) && step.StartCompaction?
    ensures !Broken(DoWork(s, step))
  {
    var s', m := DoWork(s, step), s.node.m;
    JobLeavesData(s.disk, m, s'.disk, s'.node.m, s.acked, s.submitted);
    JobLeavesReaders(s.disk, m, s'.disk, s'.node.m);
    assert FileInv(s'.disk, s'.node.m);
    assert JobInv(s'.disk, s'.node.m);
  }

  lemma OpenedOutput(d: Disk, m: Mem, m': Mem)
    requires FileInv(d, m) && JobInv(d, m) && m.job.Compacting? && m.flush.NoFlush?
    requires forall f :: f in m.version.tables || f in d.man.tables ==> f < m.nextFile
    requires var j := m.job;
             m' == m.(job := Compacting(j.inputs, j.outputs + {m.nextFile}, j.oldest, j.isBase),
                      pending := m.pending + {m.nextFile}, nextFile := m.nextFile + 1)
    ensures FileInv(d, m') && JobInv(d, m')
  {
  }

  lemma FilesBelowNext(d: Disk, m: Mem)
    requires TablesMean(d.tables, d.man) && TablesMean(d.tables, m.version)
    requires d.man.nextFile <= m.nextFile && m.version.nextFile <= m.nextFile
    ensures forall f :: f in m.version.tables || f in d.man.tables ==> f < m.nextFile
  {
  }

  lemma OpenOutputKeeps(s: State, step: Step)
    requires s.node.Up? && !Broken(s) && CanWork(s, step) && step.OpenOutput?
    ensures !Broken(DoWork(s, step))
  {
    var s', m := DoWork(s, step), s.node.m;
    FilesBelowNext(s.disk, m);
    OpenedOutput(s.disk, m, s'.node.m);
    JobLeavesData(s.disk, m, s'.disk, s'.node.m, s.acked, s.submitted);
    JobLeavesReaders(s.disk, m, s'.disk, s'.node.m);
  }

  lemma WriteTableKeeps(s: State, step: Step)
    requires s.node.Up? && !Broken(s) && CanWork(s, step) && step.WriteTable?
    ensures !Broken(DoWork(s, step))
  {
    var s', m := DoWork(s, step), s.node.m;
    assert step.file in m.pending;
    JobLeavesData(s.disk, m, s'.disk, s'.node.m, s.acked, s.submitted);
    JobLeavesReaders(s.disk, m, s'.disk, s'.node.m);
    if !m.job.NoJob? {
      SameContents(s.disk.tables, s'.disk.tables, m.job.inputs);
      SameContents(s.disk.tables, s'.disk.tables, m.version.tables - m.job.inputs);
      SameContents(s.disk.tables, s'.disk.tables, s.disk.man.tables - m.job.inputs);
    }
    assert FileInv(s'.disk, s'.node.m);
    assert JobInv(s'.disk, s'.node.m);
  }

  lemma PrepareInstallKeeps(s: State, step: Step)
    requires s.node.Up? && !Broken(s) && CanWork(s, step) && step.PrepareInstall?
    ensures !Broken(DoWork(s, step))
  {
    var s', m := DoWork(s, step), s.node.m;
    JobLeavesData(s.disk, m, s'.disk, s'.node.m, s.acked, s.submitted);
    JobLeavesReaders(s.disk, m, s'.disk, s'.node.m);
    assert FileInv(s'.disk, s'.node.m);
    assert JobInv(s'.disk, s'.node.m);
  }

  lemma AbortCompactionKeeps(s: State, step: Step)
    requires s.node.Up? && !Broken(s) && CanWork(s, step) && step.AbortCompaction?
    ensures !Broken(DoWork(s, step))
  {
    var s', m := DoWork(s, step), s.node.m;
    JobLeavesData(s.disk, m, s'.disk, s'.node.m, s.acked, s.submitted);
    JobLeavesReaders(s.disk, m, s'.disk, s'.node.m);
    assert FileInv(s'.disk, s'.node.m);
    assert JobInv(s'.disk, s'.node.m);
  }

  // ----- commits -----

  lemma SameReadsTransitive(a: set<Entry>, b: set<Entry>, c: set<Entry>, s: nat, t: nat, u: nat)
    requires SameReads(a, b, s) && SameReads(b, c, t) && s <= u && t <= u
    ensures SameReads(a, c, u)
  {
  }

  lemma OnlyCurrentLog(d: Disk, m: Mem)
    requires m.logNumber in d.logs && forall l :: l in d.logs ==> l <= m.logNumber
    ensures LogsFrom(d.logs, m.logNumber) == CurrentLog(d, m)
  {
  }

  /** A table of a memtable that is newer than the version, or that the version has already. */
  lemma FlushEditMeans(tables: map<nat, set<Entry>>, v: Manifest, f: Flush, imm: set<Entry>)
    requires TablesMean(tables, v) && f.Committing? && f.files <= tables.Keys && Contents(tables, f.files) == imm
    requires f.logNumber < f.nextFile && v.nextFile <= f.nextFile && v.lastSeq <= f.lastSeq && UpTo(imm, f.lastSeq)
    requires forall file :: file in f.files ==> file < f.nextFile
    requires Unique(v.flushed + imm) && (Older(v.flushed, imm) || imm <= Contents(tables, v.tables))
    ensures TablesMean(tables, FlushEdit(v, f, imm))
  {
    var old_ := Contents(tables, v.tables);
    ContentsOfUnion(tables, v.tables, f.files);
    if imm <= old_ {
      assert old_ + imm == old_ && v.flushed + imm == v.flushed;
    } else {
      assert old_ + imm <= v.flushed + imm;
      SameReadsUnder(old_, v.flushed, imm, v.horizon);
    }
  }

  /** A flush may be committed on top of the version or of a manifest that has the memtable already. */
  lemma FlushedTablesMean(d: Disk, m: Mem, acked: set<Entry>, submitted: set<Entry>, b: Manifest)
    requires DiskInv(d, acked, submitted) && MemInv(d, m, acked, submitted) && FileInv(d, m)
    requires m.flush.Committing? && (b == m.version || b == d.man)
    ensures TablesMean(d.tables, FlushEdit(b, m.flush, Imm(m)))
  {
    assert b.flushed + Imm(m) <= submitted;
    if b != m.version && d.man.flushed != m.version.flushed {
      assert d.man.tables - m.version.tables <= d.man.tables;
      assert Imm(m) <= Contents(d.tables, b.tables);
    }
    FlushEditMeans(d.tables, b, m.flush, Imm(m));
  }

  lemma FlushedDisk(d: Disk, m: Mem, acked: set<Entry>, submitted: set<Entry>, b: Manifest, d': Disk)
    requires DiskInv(d, acked, submitted) && MemInv(d, m, acked, submitted) && FileInv(d, m)
    requires m.flush.Committing? && (b == m.version || b == d.man) && d' == d.(man := FlushEdit(b, m.flush, Imm(m)))
    ensures DiskInv(d', acked, submitted)
  {
    FlushedTablesMean(d, m, acked, submitted, b);
    OnlyCurrentLog(d, m);
    assert LogsInOrder(d'.logs, m.logNumber);
    assert Above(d'.man.flushed, d'.logs, m.logNumber);
    assert CurrentLog(d, m) <= LogsFrom(d.logs, d.man.logNumber);
  }

  lemma FlushedIsAhead(d: Disk, m: Mem, acked: set<Entry>, submitted: set<Entry>, b: Manifest, d': Disk, m': Mem)
    requires DiskInv(d, acked, submitted) && MemInv(d, m, acked, submitted) && FileInv(d, m)
    requires m.flush.Committing? && (b == m.version || b == d.man) && d' == d.(man := FlushEdit(b, m.flush, Imm(m)))
    requires m' == m.(version := FlushEdit(m.version, m.flush, Imm(m)), imm := None, flush := NoFlush)
    ensures Ahead(d', m', submitted)
  {
    OnlyCurrentLog(d, m);
    assert LogsFrom(d.logs, m.logNumber) <= LogsFrom(d.logs, m.version.logNumber);
  }

  lemma FlushedMem(d: Disk, m: Mem, acked: set<Entry>, submitted: set<Entry>, d': Disk, m': Mem)
    requires MemInv(d, m, acked, submitted) && FileInv(d, m) && m.flush.Committing?
    requires d'.logs == d.logs && d'.tables == d.tables
    requires d'.man.logNumber == m.logNumber && d'.man.nextFile == m.flush.nextFile
             && (!m.commitFailed ==> d'.man == m'.version)
    requires m' == m.(version := FlushEdit(m.version, m.flush, Imm(m)), imm := None, flush := NoFlush)
    requires TablesMean(d.tables, m'.version) && Ahead(d', m', submitted)
    ensures MemInv(d', m', acked, submitted)
  {
  }

  lemma FlushedWrite(d: Disk, m: Mem, acked: set<Entry>, submitted: set<Entry>, b: Manifest, d': Disk, m': Mem)
    requires MemInv(d, m, acked, submitted) && WriteInv(d, m, submitted) && m.flush.Committing?
    requires (b == m.version || b == d.man) && d' == d.(man := FlushEdit(b, m.flush, Imm(m)))
    requires m' == m.(version := FlushEdit(m.version, m.flush, Imm(m)), imm := None, flush := NoFlush)
    requires m.flush.logNumber == m.logNumber
    ensures WriteInv(d', m', submitted)
  {
    assert LogsFrom(d.logs, m.logNumber) <= LogsFrom(d.logs, m.version.logNumber);
  }

  lemma CommitFlushKeeps(s: State, step: Step)
    requires s.node.Up? && !Broken(s) && CanWork(s, step) && step.CommitFlush?
    ensures !Broken(DoWork(s, step))
  {
    var s', m, d := DoWork(s, step), s.node.m, s.disk;
    var m', d', b := s'.node.m, s'.disk, Base(s.disk, s.node.m, step.rewrite);
    FlushedDisk(d, m, s.acked, s.submitted, b, d');
    FlushedTablesMean(d, m, s.acked, s.submitted, m.version);
    FlushedIsAhead(d, m, s.acked, s.submitted, b, d', m');
    FlushedMem(d, m, s.acked, s.submitted, d', m');
    FlushedWrite(d, m, s.acked, s.submitted, b, d', m');
    InputsAfterFlush(d, m, m.version);
    InputsAfterFlush(d, m, b);
    assert FileInv(d', m');
    assert JobInv(d', m');
    CommitLeavesReaders(d, m, d', m');
  }

  /** A memtable flushed under a running compaction is newer than everything the compaction reads. */
  lemma InputsAfterFlush(d: Disk, m: Mem, b: Manifest)
    requires TablesMean(d.tables, m.version) && FileInv(d, m) && JobInv(d, m) && m.flush.Committing?
    requires Older(m.version.flushed, Imm(m)) && (b == m.version || b == d.man)
    ensures !m.job.NoJob? ==> InputsIn(d.tables, m.job, FlushEdit(b, m.flush, Imm(m)))
  {
    if !m.job.NoJob? {
      var rest := b.tables - m.job.inputs;
      assert b.tables + m.flush.files - m.job.inputs == rest + m.flush.files;
      ContentsOfUnion(d.tables, rest, m.flush.files);
      assert Contents(d.tables, m.job.inputs) <= Contents(d.tables, m.version.tables);
    }
  }

  /** Readers have nothing to do with a commit. */
  lemma CommitLeavesReaders(d: Disk, m: Mem, d': Disk, m': Mem)
    requires ReadersInv(d, m) && d'.tables == d.tables && m'.mem == m.mem
    requires m'.readers == m.readers && m'.snapshots == m.snapshots && m'.lastSeq == m.lastSeq
             && m'.nextFile == m.nextFile
    requires m'.pending <= m.pending && m'.flush.NoFlush?
    requires forall t :: t in m'.snapshots ==> m'.version.horizon <= t
    ensures ReadersInv(d', m')
  {
    forall id | id in m'.readers
      ensures ReadInv(d', m', m'.readers[id])
    {
      assert ReadInv(d, m, m.readers[id]);
    }
  }

  /** A commit that reports an error leaves the version as it was; the manifest may have moved. */
  lemma FailedCommitKeepsMem(d: Disk, m: Mem, d': Disk, m': Mem, acked: set<Entry>, submitted: set<Entry>)
    requires MemInv(d, m, acked, submitted) && WriteInv(d, m, submitted)
    requires d'.tables == d.tables && d'.logs == d.logs
    requires d'.man.logNumber <= m.logNumber && d'.man.nextFile <= m.nextFile
    requires m' == m.(flush := m'.flush, job := m'.job, pending := m'.pending, bgError := true, commitFailed := true)
    requires Ahead(d', m', submitted)
    ensures MemInv(d', m', acked, submitted) && WriteInv(d', m', submitted)
  {
  }

  lemma FailedFlushIsAhead(d: Disk, m: Mem, acked: set<Entry>, submitted: set<Entry>, b: Manifest, d': Disk, m': Mem)
    requires MemInv(d, m, acked, submitted) && FileInv(d, m) && m.flush.Committing? && (b == m.version || b == d.man)
    requires d' == d || d' == d.(man := FlushEdit(b, m.flush, Imm(m)))
    requires m' == m.(flush := NoFlush, bgError := true, commitFailed := true)
    ensures Ahead(d', m', submitted)
  {
    if d' != d {
      ContentsOfUnion(d.tables, d'.man.tables - m.version.tables, m.flush.files);
      assert d'.man.tables - m.version.tables + m.flush.files == d'.man.tables - m.version.tables;
    }
  }

  lemma CommitFlushFailsKeeps(s: State, step: Step)
    requires s.node.Up? && !Broken(s) && CanWork(s, step) && step.CommitFlushFails?
    ensures !Broken(DoWork(s, step))
  {
    var s', m, d := DoWork(s, step), s.node.m, s.disk;
    var m', d', b := s'.node.m, s'.disk, Base(s.disk, s.node.m, step.rewrite);
    if step.written {
      FlushedDisk(d, m, s.acked, s.submitted, b, d');
      InputsAfterFlush(d, m, b);
    }
    FailedFlushIsAhead(d, m, s.acked, s.submitted, b, d', m');
    FailedCommitKeepsMem(d, m, d', m', s.acked, s.submitted);
    assert FileInv(d', m');
    assert JobInv(d', m');
    CommitLeavesReaders(d, m, d', m');
  }

  lemma InstalledTablesMean(d: Disk, m: Mem, acked: set<Entry>, submitted: set<Entry>, b: Manifest, n: nat)
    requires DiskInv(d, acked, submitted) && MemInv(d, m, acked, submitted) && FileInv(d, m) && JobInv(d, m)
    requires m.job.Installing? && (b == m.version || b == d.man) && n < m.job.nextFile
    ensures TablesMean(d.tables, InstallEdit(b, m.job, n))
  {
    var j := m.job;
    var v' := InstallEdit(b, j, n);
    var rest := b.tables - j.inputs;
    var input, others := Contents(d.tables, j.inputs), Contents(d.tables, rest);
    ContentsOfUnion(d.tables, rest, j.inputs);
    ContentsOfUnion(d.tables, rest, j.outputs);
    assert rest + j.inputs == b.tables;
    assert input + others == others + input <= submitted;
    CompactionPreservesReads(input, others, j.oldest, j.isBase);
    var kept := Survivors(input, j.oldest, j.isBase);
    assert Contents(d.tables, v'.tables) == kept + others;
    SameReadsTransitive(kept + others, input + others, b.flushed, j.oldest, b.horizon, v'.horizon);
  }

  lemma InstalledDisk(d: Disk, m: Mem, acked: set<Entry>, submitted: set<Entry>, rewrite: bool, back: bool, d': Disk)
    requires DiskInv(d, acked, submitted) && MemInv(d, m, acked, submitted) && FileInv(d, m) && JobInv(d, m)
    requires m.job.Installing?
    requires d' == d.(man := InstallEdit(Base(d, m, rewrite), m.job, InstallLog(d, m, rewrite, back)))
    ensures DiskInv(d', acked, submitted)
  {
    var n := InstallLog(d, m, rewrite, back);
    InstalledTablesMean(d, m, acked, submitted, Base(d, m, rewrite), n);
    assert m.logNumber in d.logs && CurrentLog(d, m) <= LogsFrom(d.logs, n);
    assert LogsFrom(d.logs, d.man.logNumber) <= LogsFrom(d.logs, m.version.logNumber);
    assert n == m.version.logNumber || n == d.man.logNumber;
    assert Older(d'.man.flushed - LogsFrom(d.logs, n), LogsFrom(d.logs, n));
    assert Above(d'.man.flushed, d.logs, n);
  }

  /** The manifest and the version after an install, whether it counts as one or not. */
  lemma InstallIsAhead(d: Disk, m: Mem, acked: set<Entry>, submitted: set<Entry>, rewrite: bool, back: bool, d': Disk,
                       m': Mem)
    requires MemInv(d, m, acked, submitted) && FileInv(d, m) && JobInv(d, m) && m.job.Installing?
    requires d' == d.(man := InstallEdit(Base(d, m, rewrite), m.job, InstallLog(d, m, rewrite, back)))
    requires m' == m.(version := m'.version, job := NoJob, pending := m.pending - m.job.outputs, bgError := m'.bgError,
                      commitFailed := m'.commitFailed)
    requires m'.version == m.version || m'.version == InstallEdit(m.version, m.job, m.version.logNumber)
    ensures Ahead(d', m', submitted)
  {
    if !rewrite {
      var was := d.man.tables - m.version.tables;
      var rest := d'.man.tables - m'.version.tables - was;
      assert d'.man.tables - m'.version.tables == was + rest;
      ContentsOfUnion(d.tables, was, rest);
    }
  }

  lemma InstallKeepsMem(d: Disk, m: Mem, acked: set<Entry>, submitted: set<Entry>, d': Disk, m': Mem)
    requires MemInv(d, m, acked, submitted) && FileInv(d, m) && JobInv(d, m) && m.job.Installing?
    requires d' == d.(man := d'.man) && d'.man.logNumber <= m.logNumber && d'.man.nextFile <= m.nextFile
    requires m' == m.(version := InstallEdit(m.version, m.job, m.version.logNumber), job := NoJob,
                      pending := m.pending - m.job.outputs)
    requires !m.commitFailed ==> d'.man == m'.version
    requires TablesMean(d.tables, m'.version) && Ahead(d', m', submitted)
    ensures MemInv(d', m', acked, submitted)
  {
  }

  lemma InstallKeepsWrite(d: Disk, m: Mem, submitted: set<Entry>, d': Disk, m': Mem)
    requires WriteInv(d, m, submitted) && d'.logs == d.logs && d'.man.flushed <= d.man.flushed
    requires m' == m.(version := m'.version, job := NoJob, pending := m'.pending)
             && m'.version.logNumber == m.version.logNumber
    ensures WriteInv(d', m', submitted)
  {
  }

  lemma InstallKeeps(s: State, step: Step)
    requires s.node.Up? && !Broken(s) && CanWork(s, step) && step.Install?
    ensures !Broken(DoWork(s, step))
  {
    var s', m, d := DoWork(s, step), s.node.m, s.disk;
    var m', d' := s'.node.m, s'.disk;
    InstalledDisk(d, m, s.acked, s.submitted, step.rewrite, step.back, d');
    InstallIsAhead(d, m, s.acked, s.submitted, step.rewrite, step.back, d', m');
    InstalledTablesMean(d, m, s.acked, s.submitted, m.version, m.version.logNumber);
    InstallKeepsMem(d, m, s.acked, s.submitted, d', m');
    InstallKeepsWrite(d, m, s.submitted, d', m');
    assert FileInv(d', m');
    assert JobInv(d', m');
    CommitLeavesReaders(d, m, d', m');
  }

  lemma InstallFailsKeeps(s: State, step: Step)
    requires s.node.Up? && !Broken(s) && CanWork(s, step) && step.InstallFails?
    ensures !Broken(DoWork(s, step))
  {
    var s', m, d := DoWork(s, step), s.node.m, s.disk;
    var m', d' := s'.node.m, s'.disk;
    if step.written {
      InstalledDisk(d, m, s.acked, s.submitted, step.rewrite, step.back, d');
      InstallIsAhead(d, m, s.acked, s.submitted, step.rewrite, step.back, d', m');
    }
    FailedCommitKeepsMem(d, m, d', m', s.acked, s.submitted);
    assert FileInv(d', m');
    assert JobInv(d', m');
    CommitLeavesReaders(d, m, d', m');
  }

  ghost predicate DeletionFrame(d: Disk, m: Mem, d': Disk) {
    && d'.man == d.man && d'.logs.Keys <= d.logs.Keys && d'.tables.Keys <= d.tables.Keys
    && (forall l :: l in d.logs && m.version.logNumber <= l ==> l in d'.logs)
    && (forall l :: l in d'.logs ==> d'.logs[l] == d.logs[l])
    && (forall f :: f in d.tables && IsLive(m, f) ==> f in d'.tables)
    && (forall f :: f in d'.tables ==> d'.tables[f] == d.tables[f])
  }

  lemma DeletionKeepsData(d: Disk, m: Mem, d': Disk, acked: set<Entry>, submitted: set<Entry>)
    requires DiskInv(d, acked, submitted) && MemInv(d, m, acked, submitted) && WriteInv(d, m, submitted)
    requires !m.commitFailed && DeletionFrame(d, m, d')
    ensures DiskInv(d', acked, submitted) && MemInv(d', m, acked, submitted) && WriteInv(d', m, submitted)
  {
    assert LogsFrom(d'.logs, d.man.logNumber) == LogsFrom(d.logs, d.man.logNumber);
    assert IsLast(d.logs, m.logNumber) && IsLast(d'.logs, m.logNumber);
    TablesKeepMeaning(d.tables, d'.tables, m.version);
  }

  lemma DeletionKeepsFiles(d: Disk, m: Mem, d': Disk)
    requires FileInv(d, m) && JobInv(d, m) && m.version.tables <= d.tables.Keys
    requires m.flush.NoFlush? && DeletionFrame(d, m, d') && d.man == m.version
    ensures FileInv(d', m) && JobInv(d', m)
  {
    if !m.job.NoJob? {
      SameContents(d.tables, d'.tables, m.job.inputs);
      SameContents(d.tables, d'.tables, m.job.outputs);
      SameContents(d.tables, d'.tables, m.version.tables - m.job.inputs);
    }
  }

  lemma DeletionKeepsReaders(d: Disk, m: Mem, d': Disk)
    requires ReadersInv(d, m) && DeletionFrame(d, m, d')
    ensures ReadersInv(d', m)
  {
    forall id | id in m.readers
      ensures ReadInv(d', m, m.readers[id])
    {
      assert ReadInv(d, m, m.readers[id]);
      assert forall f :: f in m.readers[id].tables ==> IsLive(m, f);
      SameContents(d.tables, d'.tables, m.readers[id].tables);
    }
  }

  /** Obsolete files are none that a recovery, a reader or the job would miss. */
  lemma DeleteObsoleteKeeps(s: State, step: Step)
    requires s.node.Up? && !Broken(s) && CanWork(s, step) && step.DeleteObsolete?
    ensures !Broken(DoWork(s, step))
  {
    var s', m, d := DoWork(s, step), s.node.m, s.disk;
    DeletionKeepsData(d, m, s'.disk, s.acked, s.submitted);
    DeletionKeepsFiles(d, m, s'.disk);
    DeletionKeepsReaders(d, m, s'.disk);
  }

  // ----- readers -----

  /** A running engine reads what was written: flushes and compactions do not show. */
  lemma ReadsAreTheHistory(d: Disk, m: Mem, acked: set<Entry>, submitted: set<Entry>)
    requires DiskInv(d, acked, submitted) && MemInv(d, m, acked, submitted)
    ensures SameReads(Contents(d.tables, m.version.tables) + Imm(m) + m.mem, Written(m), m.version.horizon)
  {
    var young := Imm(m) + m.mem;
    var old_ := Contents(d.tables, m.version.tables);
    assert old_ + young == old_ + Imm(m) + m.mem && m.version.flushed + young == Written(m);
    SameReadsUnder(old_, m.version.flushed, young, m.version.horizon);
  }

  lemma ReaderLeavesRest(d: Disk, m: Mem, m': Mem, acked: set<Entry>, submitted: set<Entry>)
    requires MemInv(d, m, acked, submitted) && WriteInv(d, m, submitted) && FileInv(d, m) && JobInv(d, m)
    requires m' == m.(snapshots := m'.snapshots, readers := m'.readers)
    requires forall t :: t in m'.snapshots ==> t in m.snapshots || t == m.lastSeq
    ensures MemInv(d, m', acked, submitted) && WriteInv(d, m', submitted) && FileInv(d, m') && JobInv(d, m')
  {
  }

  lemma SnapshotKeeps(s: State, step: Step)
    requires s.node.Up? && !Broken(s) && CanRead(s, step) && (step.TakeSnapshot? || step.ReleaseSnapshot?)
    ensures !Broken(DoRead(s, step))
  {
    var s', m, d := DoRead(s, step), s.node.m, s.disk;
    ReaderLeavesRest(d, m, s'.node.m, s.acked, s.submitted);
    SnapshotLeavesReaders(d, m, s'.node.m);
  }

  lemma SnapshotLeavesReaders(d: Disk, m: Mem, m': Mem)
    requires ReadersInv(d, m) && m.version.horizon <= m.lastSeq
    requires m' == m.(snapshots := m'.snapshots)
    requires forall t :: t in m'.snapshots ==> t in m.snapshots || t == m.lastSeq
    ensures ReadersInv(d, m')
  {
    forall id | id in m'.readers
      ensures ReadInv(d, m', m'.readers[id])
    {
      assert ReadInv(d, m, m.readers[id]);
    }
  }

  lemma NewReadIsGood(d: Disk, m: Mem, acked: set<Entry>, submitted: set<Entry>, r: Read)
    requires DiskInv(d, acked, submitted) && MemInv(d, m, acked, submitted) && FileInv(d, m)
    requires r == Read(r.snapshot, m.mem, true, Imm(m), m.version.tables, Written(m))
    requires m.version.horizon <= r.snapshot <= m.lastSeq
    ensures ReadInv(d, m, r)
  {
    ReadsAreTheHistory(d, m, acked, submitted);
    assert ReadTables(d, r) <= m.version.flushed;
    assert ReadTables(d, r) + r.imm + r.mem <= submitted;
  }

  lemma StartReadKeeps(s: State, step: Step)
    requires s.node.Up? && !Broken(s) && CanRead(s, step) && step.StartRead?
    ensures !Broken(DoRead(s, step))
  {
    var s', m, d := DoRead(s, step), s.node.m, s.disk;
    var m' := s'.node.m;
    ReaderLeavesRest(d, m, m', s.acked, s.submitted);
    NewReadIsGood(d, m, s.acked, s.submitted, m'.readers[step.id]);
    OneMoreReader(d, m, m', step.id);
  }

  lemma OneMoreReader(d: Disk, m: Mem, m': Mem, id: nat)
    requires ReadersInv(d, m) && id in m'.readers && ReadInv(d, m, m'.readers[id])
    requires m' == m.(readers := m.readers[id := m'.readers[id]])
    ensures ReadersInv(d, m')
  {
    forall i | i in m'.readers
      ensures ReadInv(d, m', m'.readers[i])
    {
      assert ReadInv(d, m, m'.readers[i]);
    }
  }

  lemma FinishReadKeeps(s: State, step: Step)
    requires s.node.Up? && !Broken(s) && CanRead(s, step) && step.FinishRead?
    ensures !Broken(DoRead(s, step))
  {
    var s', m, d := DoRead(s, step), s.node.m, s.disk;
    var m' := s'.node.m;
    ReaderLeavesRest(d, m, m', s.acked, s.submitted);
    forall id | id in m'.readers
      ensures ReadInv(d, m', m'.readers[id])
    {
      assert ReadInv(d, m, m.readers[id]);
    }
    assert ReadersInv(d, m');
  }

  // ----- crash and recovery -----

  lemma CrashKeeps(s: State, step: Step)
    requires !Broken(s) && (step.Crash? || step.Reopen?) && CanRecover(s, step)
    ensures !Broken(DoRecover(s, step))
  {
  }

  lemma RecoverTableKeeps(s: State, step: Step)
    requires !Broken(s) && step.RecoverTable? && CanRecover(s, step)
    ensures !Broken(DoRecover(s, step))
  {
    var s', d, n := DoRecover(s, step), s.disk, s.node;
    TablesKeepMeaning(d.tables, s'.disk.tables, d.man);
    SameContents(d.tables, s'.disk.tables, n.made);
    ContentsOfUnion(s'.disk.tables, n.made, {n.nextFile});
    assert s'.disk.tables[n.nextFile] == step.part;
    assert Contents(s'.disk.tables, {n.nextFile}) == step.part;
    assert DiskInv(s'.disk, s.acked, s.submitted);
    assert RecoveringInv(s'.disk, s'.node);
  }

  lemma RecoveredTablesMean(d: Disk, save: bool, n: Node, acked: set<Entry>, submitted: set<Entry>,
                            logNumber: nat, next: nat, last: nat)
    requires DiskInv(d, acked, submitted) && n.Recovering? && RecoveringInv(d, n)
    requires n.nextFile <= next && logNumber < next && d.man.flushed !! n.todo
    requires d.man.lastSeq <= last && UpTo(LogsFrom(d.logs, d.man.logNumber), last)
    ensures TablesMean(d.tables, RecoveredManifest(d, save, n.made, n.todo, logNumber, next, last))
  {
    if n.made != {} || save {
      var old_, new_ := Contents(d.tables, d.man.tables), Contents(d.tables, n.made);
      ContentsOfUnion(d.tables, d.man.tables, n.made);
      assert LogsFrom(d.logs, d.man.logNumber) - n.todo == new_;
      assert old_ + new_ <= submitted && d.man.flushed + new_ <= submitted;
      SameReadsUnder(old_, d.man.flushed, new_, d.man.horizon);
    }
  }

  lemma OpenedIsAhead(d: Disk, m: Mem, submitted: set<Entry>, acked: set<Entry>)
    requires DiskInv(d, acked, submitted) && m.version == d.man && m.imm.None? && d.man.lastSeq <= m.lastSeq
    ensures Ahead(d, m, submitted)
  {
  }

  lemma OpenedMem(d: Disk, m: Mem, acked: set<Entry>, submitted: set<Entry>)
    requires DiskInv(d, acked, submitted) && m.version == d.man && m.imm.None? && !m.commitFailed
    requires IsLast(d.logs, m.logNumber) && m.mem == d.logs[m.logNumber]
    requires d.man.logNumber <= m.logNumber < m.nextFile && d.man.nextFile <= m.nextFile && d.man.lastSeq <= m.lastSeq
    requires Durable(d) == d.man.flushed + m.mem
    ensures MemInv(d, m, acked, submitted)
  {
    OpenedIsAhead(d, m, submitted, acked);
  }

  /** A fresh engine over a disk whose manifest is the version and whose memtable is the log. */
  lemma OpenedIsGood(d: Disk, mem: set<Entry>, logNumber: nat, next: nat, last: nat, acked: set<Entry>,
                     submitted: set<Entry>)
    requires DiskInv(d, acked, submitted)
    requires IsLast(d.logs, logNumber) && mem == d.logs[logNumber]
    requires d.man.logNumber <= logNumber < next && d.man.nextFile <= next
    requires d.man.lastSeq <= last && UpTo(submitted, last)
    requires Durable(d) == d.man.flushed + mem
    ensures !Broken(State(d, Opened(d.man, mem, logNumber, next, last), acked, submitted))
  {
    var m := Opened(d.man, mem, logNumber, next, last).m;
    OpenedMem(d, m, acked, submitted);
    assert WriteInv(d, m, submitted) && FileInv(d, m) && JobInv(d, m) && ReadersInv(d, m);
  }

  lemma CreateLogKeeps(s: State, step: Step)
    requires !Broken(s) && step.CreateLog? && CanRecover(s, step)
    ensures !Broken(DoRecover(s, step))
  {
    var s', d := DoRecover(s, step), s.disk;
    assert forall l :: l in d.logs ==> l < step.newLog;
    EmptyLogAddsNothing(d.logs, step.newLog, d.man.logNumber);
    assert IsLast(s'.disk.logs, step.newLog);
    assert DiskInv(s'.disk, s.acked, s.submitted);
    assert RecoveringInv(s'.disk, s'.node);
  }

  /** When all logs are in tables, a manifest that says so needs none of them. */
  lemma NewLogDisk(d: Disk, n: Node, acked: set<Entry>, submitted: set<Entry>, save: bool, last: nat, d': Disk)
    requires DiskInv(d, acked, submitted) && submitted == Durable(d) && n.Recovering? && RecoveringInv(d, n)
             && n.newLog.Some?
    requires d.man.lastSeq <= last && UpTo(LogsFrom(d.logs, d.man.logNumber), last)
    requires d' == d.(man := RecoveredManifest(d, save, n.made, {}, n.newLog.value, n.nextFile, last))
    ensures DiskInv(d', acked, submitted) && submitted == d'.man.flushed == Durable(d')
    ensures d'.man.lastSeq <= last && UpTo(submitted, last)
    ensures d'.man.logNumber <= n.newLog.value && d'.man.nextFile <= n.nextFile
  {
    RecoveredTablesMean(d, save, n, acked, submitted, n.newLog.value, n.nextFile, last);
    NoLogFrom(d.logs, n.newLog.value);
    if n.made == {} {
      assert LogsFrom(d.logs, d.man.logNumber) == {};
    }
    assert d'.man.flushed == submitted;
    NoLogNeeded(d', acked, submitted);
  }

  lemma NoLogFrom(logs: map<nat, set<Entry>>, n: nat)
    requires IsLast(logs, n) && logs[n] == {}
    ensures LogsFrom(logs, n) == {}
  {
  }

  lemma NoLogNeeded(d: Disk, acked: set<Entry>, submitted: set<Entry>)
    requires TablesMean(d.tables, d.man) && LogsFrom(d.logs, d.man.logNumber) == {}
    requires acked <= submitted == d.man.flushed && Unique(submitted)
    ensures DiskInv(d, acked, submitted) && submitted == Durable(d)
  {
    NothingAbove(d.man.flushed, d.logs, d.man.logNumber);
  }

  lemma NothingAbove(flushed: set<Entry>, logs: map<nat, set<Entry>>, n: nat)
    requires LogsFrom(logs, n) == {}
    ensures Above(flushed, logs, n) && LogsInOrder(logs, n)
  {
    assert forall l :: l in logs && n <= l ==> logs[l] <= LogsFrom(logs, n);
  }

  lemma OpenNewLogKeeps(s: State, step: Step)
    requires !Broken(s) && step.OpenNewLog? && CanRecover(s, step)
    ensures !Broken(DoRecover(s, step))
  {
    var s', n := DoRecover(s, step), s.node;
    NewLogDisk(s.disk, n, s.acked, s.submitted, step.save, step.last, s'.disk);
    assert IsLast(s.disk.logs, n.newLog.value);
    OpenedIsGood(s'.disk, {}, n.newLog.value, n.nextFile, step.last, s.acked, s.submitted);
    assert s' == State(s'.disk, Opened(s'.disk.man, {}, n.newLog.value, n.nextFile, step.last), s.acked, s.submitted);
  }

  lemma SameLogDisk(d: Disk, n: Node, acked: set<Entry>, submitted: set<Entry>, save: bool, log: nat, next: nat,
                    last: nat,
                    d': Disk)
    requires DiskInv(d, acked, submitted) && submitted == Durable(d) && n.Recovering? && RecoveringInv(d, n)
    requires IsLast(d.logs, log) && n.todo == d.logs[log] && d.man.logNumber <= log < next && n.nextFile <= next
    requires d.man.lastSeq <= last && UpTo(LogsFrom(d.logs, d.man.logNumber), last)
    requires d' == d.(man := RecoveredManifest(d, save, n.made, n.todo, log, next, last))
    ensures DiskInv(d', acked, submitted) && submitted == d'.man.flushed + n.todo == Durable(d')
    ensures d'.man.logNumber <= log && d'.man.nextFile <= next && d'.man.lastSeq <= last && UpTo(submitted, last)
  {
    assert Older(d.man.flushed, n.todo);
    RecoveredTablesMean(d, save, n, acked, submitted, log, next, last);
    if n.made == {} && !save {
      assert LogsFrom(d.logs, d.man.logNumber) == n.todo;
    } else {
      LogsBelowLast(d.logs, d.man.logNumber, log);
      assert d'.man.flushed + n.todo == submitted;
      LastLogNeeded(d', acked, submitted);
    }
  }

  lemma LogsBelowLast(logs: map<nat, set<Entry>>, from: nat, log: nat)
    requires LogsInOrder(logs, from) && IsLast(logs, log) && from <= log
    ensures Older(LogsFrom(logs, from) - logs[log], logs[log])
  {
  }

  lemma LastLogNeeded(d: Disk, acked: set<Entry>, submitted: set<Entry>)
    requires TablesMean(d.tables, d.man) && IsLast(d.logs, d.man.logNumber)
    requires Older(d.man.flushed, d.logs[d.man.logNumber])
    requires acked <= submitted == d.man.flushed + d.logs[d.man.logNumber] && Unique(submitted)
    ensures DiskInv(d, acked, submitted) && submitted == Durable(d)
  {
    assert LogsFrom(d.logs, d.man.logNumber) == d.logs[d.man.logNumber];
  }

  lemma OpenSameLogKeeps(s: State, step: Step)
    requires !Broken(s) && step.OpenSameLog? && CanRecover(s, step)
    ensures !Broken(DoRecover(s, step))
  {
    var s', d, n := DoRecover(s, step), s.disk, s.node;
    SameLogDisk(d, n, s.acked, s.submitted, step.save, step.log, step.next, step.last, s'.disk);
    OpenedIsGood(s'.disk, n.todo, step.log, step.next, step.last, s.acked, s.submitted);
    assert s' == State(s'.disk, Opened(s'.disk.man, n.todo, step.log, step.next, step.last), s.acked, s.submitted);
  }

  // ----- every step, every run -----

  lemma WriteKeeps(s: State, step: Step)
    requires s.node.Up? && !Broken(s) && CanWrite(s, step)
    ensures !Broken(DoWrite(s, step))
  {
    match step
    case BeginWrite(_, _) => BeginWriteKeeps(s, step);
    case LogWrite => LogWriteKeeps(s, step);
    case LogWriteFails(written) => if written { WriteLeftInLogKeeps(s, step); } else { WriteLostKeeps(s, step); }
    case SyncFails(written) => if written { WriteLeftInLogKeeps(s, step); } else { WriteLostKeeps(s, step); }
    case ApplyWrite => ApplyWriteKeeps(s, step);
    case FinishWrite => FinishWriteKeeps(s, step);
    case SwitchMemtable => SwitchMemtableKeeps(s, step);
  }

  lemma WorkKeeps(s: State, step: Step)
    requires s.node.Up? && !Broken(s) && CanWork(s, step)
    ensures !Broken(DoWork(s, step))
  {
    match step
    case StartFlush => StartFlushKeeps(s, step);
    case BuildTable => BuildTableKeeps(s, step);
    case BuildFails => BuildFailsKeeps(s, step);
    case PrepareFlush => PrepareFlushKeeps(s, step);
    case CommitFlush(_) => CommitFlushKeeps(s, step);
    case CommitFlushFails(_, _) => CommitFlushFailsKeeps(s, step);
    case StartCompaction(_, _, _) => StartCompactionKeeps(s, step);
    case OpenOutput => OpenOutputKeeps(s, step);
    case PrepareInstall => PrepareInstallKeeps(s, step);
    case Install(_, _) => InstallKeeps(s, step);
    case InstallFails(_, _, _) => InstallFailsKeeps(s, step);
    case AbortCompaction => AbortCompactionKeeps(s, step);
    case WriteTable(_, _) => WriteTableKeeps(s, step);
    case DeleteObsolete(_, _) => DeleteObsoleteKeeps(s, step);
  }

  lemma ReadKeeps(s: State, step: Step)
    requires s.node.Up? && !Broken(s) && CanRead(s, step)
    ensures !Broken(DoRead(s, step))
  {
    match step
    case StartRead(_, _) => StartReadKeeps(s, step);
    case FinishRead(_) => FinishReadKeeps(s, step);
    case _ => SnapshotKeeps(s, step);
  }

  lemma RecoverKeeps(s: State, step: Step)
    requires !Broken(s) && CanRecover(s, step)
    ensures !Broken(DoRecover(s, step))
  {
    match step
    case RecoverTable(_) => RecoverTableKeeps(s, step);
    case CreateLog(_) => CreateLogKeeps(s, step);
    case OpenNewLog(_, _) => OpenNewLogKeeps(s, step);
    case OpenSameLog(_, _, _, _) => OpenSameLogKeeps(s, step);
    case _ => CrashKeeps(s, step);
  }

  lemma StepKeeps(s: State, step: Step)
    requires !Broken(s) && Can(s, step)
    ensures !Broken(Do(s, step))
  {
    if CanRecover(s, step) { RecoverKeeps(s, step); }
    else if CanWrite(s, step) { WriteKeeps(s, step); }
    else if CanWork(s, step) { WorkKeeps(s, step); }
    else { ReadKeeps(s, step); }
  }

  lemma {:induction false} RunKeeps(s: State, steps: seq<Step>)
    requires !Broken(s) && IsRun(s, steps)
    ensures !Broken(After(s, steps))
    decreases |steps|
  {
    if steps != [] {
      StepKeeps(s, steps[0]);
      RunKeeps(Do(s, steps[0]), steps[1..]);
    }
  }

  lemma InitIsGood()
    ensures !Broken(Init())
  {
    var d := Init().disk;
    assert Contents(d.tables, d.man.tables) == {} && LogsFrom(d.logs, d.man.logNumber) == {};
    assert SameReads({}, {}, 0);
  }

  // ----- the theorems -----

  /** After any run, crashes included, the disk has every acknowledged entry; every table its
      manifest names is there; and what a recovery would start from reads, at the manifest's last
      sequence number or later, as exactly the durable entries do. */
  lemma AcknowledgedWritesSurvive(steps: seq<Step>)
    requires IsRun(Init(), steps)
    ensures var s := After(Init(), steps);
            && s.acked <= Durable(s.disk) <= s.submitted
            && s.disk.man.tables <= s.disk.tables.Keys
            && SameReads(Recoverable(s.disk), Durable(s.disk), s.disk.man.lastSeq)
  {
    InitIsGood();
    RunKeeps(Init(), steps);
    var s := After(Init(), steps);
    assert DiskInv(s.disk, s.acked, s.submitted);
    RecoveryReadsDurable(s.disk, s.acked, s.submitted);
  }

  lemma RecoveryReadsDurable(d: Disk, acked: set<Entry>, submitted: set<Entry>)
    requires DiskInv(d, acked, submitted)
    ensures SameReads(Recoverable(d), Durable(d), d.man.lastSeq)
  {
    var tables, logs := Contents(d.tables, d.man.tables), LogsFrom(d.logs, d.man.logNumber);
    assert tables + logs <= submitted;
    SameReadsUnder(tables, d.man.flushed, logs, d.man.horizon);
  }

  /** DBImpl::Get's search: the memtable, then the immutable memtable, then the tables. */
  ghost function FirstHit(mem: set<Entry>, imm: set<Entry>, tables: set<Entry>, k: Key, s: nat): Option<Value> {
    if !Nothing(mem, k, s) then Lookup(mem, k, s)
    else if !Nothing(imm, k, s) then Lookup(imm, k, s)
    else Lookup(tables, k, s)
  }

  lemma FirstHitIsNewest(mem: set<Entry>, imm: set<Entry>, tables: set<Entry>, k: Key, s: nat)
    requires Unique(tables + imm + mem) && Older(tables, imm) && Older(tables, mem) && Older(imm, mem)
    ensures FirstHit(mem, imm, tables, k, s) == Lookup(tables + imm + mem, k, s)
  {
    LookupYoungFirst(tables + imm, mem, k, s);
    LookupYoungFirst(tables, imm, k, s);
  }

  /** In every reachable running state, Get at the last sequence number or at any snapshot still
      held finds what the entries written up to then say, whatever has been flushed, compacted
      or deleted since. */
  lemma GetFindsTheNewest(steps: seq<Step>, k: Key, t: nat)
    requires IsRun(Init(), steps) && After(Init(), steps).node.Up?
    requires var m := After(Init(), steps).node.m; t in m.snapshots || t == m.lastSeq
    ensures var s := After(Init(), steps);
            var m := s.node.m;
            && s.acked <= Written(m)
            && FirstHit(m.mem, Imm(m), Contents(s.disk.tables, m.version.tables), k, t) == Lookup(Written(m), k, t)
  {
    InitIsGood();
    RunKeeps(Init(), steps);
    var s := After(Init(), steps);
    var m := s.node.m;
    var tables := Contents(s.disk.tables, m.version.tables);
    assert DiskInv(s.disk, s.acked, s.submitted) && UpInv(s.disk, m, s.acked, s.submitted);
    ReadsAreTheHistory(s.disk, m, s.acked, s.submitted);
    assert tables + Imm(m) + m.mem <= s.submitted;
    FirstHitIsNewest(m.mem, Imm(m), tables, k, t);
  }

  /** A Get that released the mutex finds, whenever it gets to read and whatever has entered its memtable
      meanwhile, what had been written when it took its references: its tables are still there, and the
      first hit in its memtables and tables is the newest entry of its snapshot. */
  lemma SlowGetFindsItsSnapshot(steps: seq<Step>, id: nat, k: Key)
    requires IsRun(Init(), steps)
    requires var s := After(Init(), steps); s.node.Up? && id in s.node.m.readers
    ensures var s := After(Init(), steps); var r := s.node.m.readers[id];
            && r.tables <= s.disk.tables.Keys
            && FirstHit(r.mem, r.imm, Contents(s.disk.tables, r.tables), k, r.snapshot)
               == Lookup(r.written, k, r.snapshot)
  {
    InitIsGood();
    RunKeeps(Init(), steps);
    var s := After(Init(), steps);
    var r := s.node.m.readers[id];
    assert ReadersInv(s.disk, s.node.m);
    assert ReadInv(s.disk, s.node.m, r);
    FirstHitIsNewest(r.mem, r.imm, ReadTables(s.disk, r), k, r.snapshot);
  }
}
