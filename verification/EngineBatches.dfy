/**
 A batch is read all or not at all: no snapshot falls between the sequence numbers of a batch, and neither a crash nor
 a recovery nor a flush leaves part of one.
 */
module EngineBatches {
  import opened Options
  import opened LsmEntries
  import opened Engine
  import opened EngineDurability

  /** The batches begun so far, but for those that a crash has lost. */
  ghost function NextBatches(s: State, step: Step, bs: set<set<Entry>>): set<set<Entry>> {
    match step
    case BeginWrite(batch, _) => bs + {batch}
    case Crash => set b | b in bs && b <= Durable(s.disk)
    case _ => bs
  }

  ghost function Batches(s: State, steps: seq<Step>, bs: set<set<Entry>>): set<set<Entry>>
    requires IsRun(s, steps)
    decreases |steps|
  {
    if steps == [] then bs else Batches(Do(s, steps[0]), steps[1..], NextBatches(s, steps[0], bs))
  }

  /** No batch is in es in part. */
  ghost predicate Whole(es: set<Entry>, bs: set<set<Entry>>) {
    forall b :: b in bs ==> b <= es || b !! es
  }

  /** A snapshot at t sees all of the batch or none of it. */
  ghost predicate Unsplit(b: set<Entry>, t: nat) {
    UpTo(b, t) || forall e :: e in b ==> t < e.seqno
  }

  ghost predicate NoneSplit(bs: set<set<Entry>>, t: nat) {
    forall b :: b in bs ==> Unsplit(b, t)
  }

  /** The logs that a recovery, or a manifest still to be written, may go back to. */
  ghost function FirstLog(s: State): nat {
    if s.node.Up? then s.node.m.version.logNumber else s.disk.man.logNumber
  }

  ghost predicate WholeOnDisk(d: Disk, first: nat, bs: set<set<Entry>>) {
    && Whole(d.man.flushed, bs)
    && forall l :: l in d.logs && first <= l ==> Whole(d.logs[l], bs)
  }

  ghost predicate WholeInMemory(m: Mem, submitted: set<Entry>, bs: set<set<Entry>>) {
    && Whole(m.version.flushed, bs) && Whole(m.mem, bs) && Whole(Imm(m), bs)
    && (!m.write.NoWrite? ==> Whole(m.write.batch, bs))
    && NoneSplit(bs, m.lastSeq) && (forall t :: t in m.snapshots ==> NoneSplit(bs, t))
    && forall id :: id in m.readers ==>
         && Whole(m.readers[id].written, bs) && m.readers[id].written <= submitted
         && m.readers[id].snapshot <= m.lastSeq && NoneSplit(bs, m.readers[id].snapshot)
  }

  ghost predicate Kept(s: State, bs: set<set<Entry>>) {
    && (forall b :: b in bs ==> b <= s.submitted)
    && WholeOnDisk(s.disk, FirstLog(s), bs)
    && (s.node.Up? ==> WholeInMemory(s.node.m, s.submitted, bs))
  }

  lemma WholeUnion(a: set<Entry>, b: set<Entry>, bs: set<set<Entry>>)
    requires Whole(a, bs) && Whole(b, bs)
    ensures Whole(a + b, bs) && Whole(a - b, bs)
  {
  }

  lemma DurableIsWhole(d: Disk, first: nat, bs: set<set<Entry>>)
    requires WholeOnDisk(d, first, bs) && first <= d.man.logNumber
    ensures Whole(LogsFrom(d.logs, d.man.logNumber), bs) && Whole(Durable(d), bs)
  {
    forall b | b in bs
      ensures b <= LogsFrom(d.logs, d.man.logNumber) || b !! LogsFrom(d.logs, d.man.logNumber)
    {
      if e :| e in b && e in LogsFrom(d.logs, d.man.logNumber) {
        var l :| l in d.logs && d.man.logNumber <= l && e in d.logs[l];
        assert Whole(d.logs[l], bs);
        assert b <= d.logs[l];
      }
    }
    WholeUnion(d.man.flushed, LogsFrom(d.logs, d.man.logNumber), bs);
  }

  // ----- every step keeps them whole -----

  lemma NewBatchIsWhole(es: set<Entry>, bs: set<set<Entry>>, batch: set<Entry>, t: nat)
    requires Whole(es, bs) && UpTo(es, t) && forall e :: e in batch ==> t < e.seqno
    ensures Whole(es, bs + {batch})
  {
  }

  lemma BeginKeepsDisk(d: Disk, m: Mem, bs: set<set<Entry>>, batch: set<Entry>)
    requires WholeOnDisk(d, m.version.logNumber, bs)
             && UpTo(d.man.flushed + LogsFrom(d.logs, m.version.logNumber), m.lastSeq)
    requires forall e :: e in batch ==> m.lastSeq < e.seqno
    ensures WholeOnDisk(d, m.version.logNumber, bs + {batch})
  {
    NewBatchIsWhole(d.man.flushed, bs, batch, m.lastSeq);
    forall l | l in d.logs && m.version.logNumber <= l
      ensures Whole(d.logs[l], bs + {batch})
    {
      assert d.logs[l] <= LogsFrom(d.logs, m.version.logNumber);
      NewBatchIsWhole(d.logs[l], bs, batch, m.lastSeq);
    }
  }

  lemma BeginKeepsMemory(m: Mem, m': Mem, submitted: set<Entry>, bs: set<set<Entry>>, batch: set<Entry>, last: nat)
    requires WholeInMemory(m, submitted, bs) && Written(m) <= submitted && UpTo(submitted, m.lastSeq)
    requires m.write.NoWrite? && m' == m.(write := Logging(batch, last))
    requires (forall e :: e in batch ==> m.lastSeq < e.seqno) && (forall t :: t in m.snapshots ==> t <= m.lastSeq)
    requires forall b :: b in bs ==> UpTo(b, m.lastSeq)
    ensures WholeInMemory(m', submitted + batch, bs + {batch})
  {
    NewBatchIsWhole(m.version.flushed, bs, batch, m.lastSeq);
    NewBatchIsWhole(m.mem, bs, batch, m.lastSeq);
    NewBatchIsWhole(Imm(m), bs, batch, m.lastSeq);
    forall id | id in m.readers
      ensures Whole(m.readers[id].written, bs + {batch})
    {
      NewBatchIsWhole(m.readers[id].written, bs, batch, m.lastSeq);
    }
  }

  lemma BeginKeepsWhole(s: State, step: Step, bs: set<set<Entry>>)
    requires s.node.Up? && !Broken(s) && Kept(s, bs) && step.BeginWrite? && s.node.m.logNumber in s.disk.logs
             && CanWrite(s, step)
    ensures Kept(DoWrite(s, step), bs + {step.batch})
  {
    var m := s.node.m;
    assert DiskInv(s.disk, s.acked, s.submitted) && UpInv(s.disk, m, s.acked, s.submitted);
    assert UpTo(s.submitted, m.lastSeq);
    assert Written(m) <= s.submitted && s.disk.man.flushed + LogsFrom(s.disk.logs, m.version.logNumber) <= s.submitted;
    BeginKeepsDisk(s.disk, m, bs, step.batch);
    BeginKeepsMemory(m, DoWrite(s, step).node.m, s.submitted, bs, step.batch, step.last);
  }

  lemma AppendKeepsDisk(d: Disk, m: Mem, bs: set<set<Entry>>, batch: set<Entry>)
    requires WholeOnDisk(d, m.version.logNumber, bs) && Whole(batch, bs) && m.logNumber in d.logs
    requires m.version.logNumber <= m.logNumber
    ensures WholeOnDisk(AppendToLog(d, m, batch), m.version.logNumber, bs)
  {
    WholeUnion(d.logs[m.logNumber], batch, bs);
  }

  lemma LogKeepsWhole(s: State, step: Step, bs: set<set<Entry>>)
    requires s.node.Up? && Kept(s, bs) && s.node.m.logNumber in s.disk.logs && CanWrite(s, step)
    requires s.node.m.version.logNumber <= s.node.m.logNumber
    requires step.LogWrite? || step.LogWriteFails? || step.SyncFails?
    ensures Kept(DoWrite(s, step), bs)
  {
    AppendKeepsDisk(s.disk, s.node.m, bs, s.node.m.write.batch);
  }

  lemma ApplyKeepsWhole(s: State, step: Step, bs: set<set<Entry>>)
    requires s.node.Up? && Kept(s, bs) && s.node.m.logNumber in s.disk.logs && CanWrite(s, step)
    requires step.ApplyWrite? || step.SwitchMemtable?
    ensures Kept(DoWrite(s, step), bs)
  {
    if step.ApplyWrite? { WholeUnion(s.node.m.mem, s.node.m.write.batch, bs); }
  }

  lemma FinishKeepsWhole(s: State, step: Step, bs: set<set<Entry>>)
    requires s.node.Up? && Kept(s, bs) && s.node.m.logNumber in s.disk.logs && CanWrite(s, step) && step.FinishWrite?
    requires s.node.m.lastSeq <= s.node.m.write.last && UpTo(s.submitted, s.node.m.write.last)
    ensures Kept(DoWrite(s, step), bs)
  {
  }

  lemma WriteKeepsWhole(s: State, step: Step, bs: set<set<Entry>>)
    requires s.node.Up? && !Broken(s) && Kept(s, bs) && s.node.m.logNumber in s.disk.logs && CanWrite(s, step)
    ensures Kept(DoWrite(s, step), NextBatches(s, step, bs))
  {
    if step.BeginWrite? { BeginKeepsWhole(s, step, bs); }
    else if step.FinishWrite? {
      assert WriteInv(s.disk, s.node.m, s.submitted);
      FinishKeepsWhole(s, step, bs);
    } else if step.ApplyWrite? || step.SwitchMemtable? { ApplyKeepsWhole(s, step, bs); }
    else {
      assert MemInv(s.disk, s.node.m, s.acked, s.submitted);
      LogKeepsWhole(s, step, bs);
    }
  }

  lemma CommitKeepsWhole(s: State, step: Step, bs: set<set<Entry>>)
    requires s.node.Up? && Kept(s, bs) && CanWork(s, step)
    requires step.CommitFlush? || step.CommitFlushFails?
    requires s.node.m.version.logNumber <= s.node.m.flush.logNumber
    ensures Kept(DoWork(s, step), bs)
  {
    var m := s.node.m;
    WholeUnion(m.version.flushed, Imm(m), bs);
    WholeUnion(s.disk.man.flushed, Imm(m), bs);
  }

  lemma OtherWorkKeepsWhole(s: State, step: Step, bs: set<set<Entry>>)
    requires s.node.Up? && Kept(s, bs) && CanWork(s, step) && !step.CommitFlush? && !step.CommitFlushFails?
    ensures Kept(DoWork(s, step), bs)
  {
  }

  lemma WorkKeepsWhole(s: State, step: Step, bs: set<set<Entry>>)
    requires s.node.Up? && !Broken(s) && Kept(s, bs) && CanWork(s, step)
    ensures Kept(DoWork(s, step), bs)
  {
    var m := s.node.m;
    if step.CommitFlush? || step.CommitFlushFails? {
      assert MemInv(s.disk, m, s.acked, s.submitted) && FileInv(s.disk, m);
      CommitKeepsWhole(s, step, bs);
    } else {
      OtherWorkKeepsWhole(s, step, bs);
    }
  }

  lemma ReadKeepsWhole(s: State, step: Step, bs: set<set<Entry>>)
    requires s.node.Up? && Kept(s, bs) && CanRead(s, step)
    requires forall t :: t in s.node.m.snapshots ==> t <= s.node.m.lastSeq
    requires Written(s.node.m) <= s.submitted
    ensures Kept(DoRead(s, step), bs)
  {
    var m := s.node.m;
    WholeUnion(m.version.flushed, Imm(m), bs);
    WholeUnion(m.version.flushed + Imm(m), m.mem, bs);
  }

  lemma CrashKeepsWhole(s: State, bs: set<set<Entry>>)
    requires Kept(s, bs) && FirstLog(s) <= s.disk.man.logNumber
    ensures Kept(DoRecover(s, Crash), NextBatches(s, Crash, bs))
    ensures forall b :: b in bs && b !in NextBatches(s, Crash, bs) ==> b !! Durable(s.disk)
  {
    DurableIsWhole(s.disk, FirstLog(s), bs);
  }

  lemma OpenedIsWhole(s: State, step: Step, bs: set<set<Entry>>)
    requires !Broken(s) && Kept(s, bs) && CanRecover(s, step) && s.node.Recovering?
             && (step.OpenNewLog? || step.OpenSameLog?)
    ensures Kept(DoRecover(s, step), bs)
  {
    var d, s' := s.disk, DoRecover(s, step);
    assert DiskInv(d, s.acked, s.submitted) && RecoveringInv(d, s.node) && s.submitted == Durable(d);
    DurableIsWhole(d, d.man.logNumber, bs);
    var logs, mem := LogsFrom(d.logs, d.man.logNumber), if step.OpenSameLog? then s.node.todo else {};
    assert Whole(mem, bs) by {
      if step.OpenSameLog? { assert Whole(d.logs[step.log], bs); }
    }
    WholeUnion(logs, mem, bs);
    WholeUnion(d.man.flushed, logs - mem, bs);
    assert UpTo(s.submitted, step.last);
  }

  lemma RecoverKeepsWhole(s: State, step: Step, bs: set<set<Entry>>)
    requires !Broken(s) && Kept(s, bs) && CanRecover(s, step)
    ensures Kept(DoRecover(s, step), NextBatches(s, step, bs))
  {
    match step
    case Crash =>
      if s.node.Up? { assert MemInv(s.disk, s.node.m, s.acked, s.submitted); }
      CrashKeepsWhole(s, bs);
    case OpenNewLog(_, _) => OpenedIsWhole(s, step, bs);
    case OpenSameLog(_, _, _, _) => OpenedIsWhole(s, step, bs);
    case _ =>
  }

  lemma StepKeepsWhole(s: State, step: Step, bs: set<set<Entry>>)
    requires !Broken(s) && Kept(s, bs) && Can(s, step)
    ensures Kept(Do(s, step), NextBatches(s, step, bs))
  {
    if CanRecover(s, step) { RecoverKeepsWhole(s, step, bs); }
    else if CanWrite(s, step) { WriteKeepsWhole(s, step, bs); }
    else if CanWork(s, step) { WorkKeepsWhole(s, step, bs); }
    else {
      assert MemInv(s.disk, s.node.m, s.acked, s.submitted) && ReadersInv(s.disk, s.node.m);
      ReadKeepsWhole(s, step, bs);
    }
  }

  lemma {:induction false} RunKeepsWhole(s: State, steps: seq<Step>, bs: set<set<Entry>>)
    requires !Broken(s) && Kept(s, bs) && IsRun(s, steps)
    ensures Kept(After(s, steps), Batches(s, steps, bs))
    decreases |steps|
  {
    if steps != [] {
      StepKeeps(s, steps[0]);
      StepKeepsWhole(s, steps[0], bs);
      RunKeepsWhole(Do(s, steps[0]), steps[1..], NextBatches(s, steps[0], bs));
    }
  }

  // ----- what readers see -----

  /** What reading at t finds of a batch among es: all of it, but for what is newer, or nothing. */
  ghost predicate ReadsWhole(es: set<Entry>, b: set<Entry>, t: nat) {
    || (forall e :: e in b ==> e in es && exists f :: IsNewest(es, e.key, t, f) && e.seqno <= f.seqno)
    || (forall k :: Lookup(es, k, t) == Lookup(es - b, k, t))
  }

  lemma WholeRead(es: set<Entry>, bs: set<set<Entry>>, b: set<Entry>, t: nat)
    requires Whole(es, bs) && NoneSplit(bs, t) && b in bs && Unique(es)
    ensures ReadsWhole(es, b, t)
  {
    if b <= es && UpTo(b, t) {
      forall e | e in b
        ensures exists f :: IsNewest(es, e.key, t, f) && e.seqno <= f.seqno
      {
        NewestExists(es, e.key, t);
        assert Sees(e, e.key, t);
      }
    } else if b !! es {
      assert es - b == es;
    } else {
      forall k ensures Lookup(es, k, t) == Lookup(es - b, k, t) {
        assert es == es - b + b;
        LookupIgnoresLater(es - b, b, k, t);
      }
    }
  }

  lemma RunIsWhole(steps: seq<Step>)
    requires IsRun(Init(), steps)
    ensures !Broken(After(Init(), steps)) && Kept(After(Init(), steps), Batches(Init(), steps, {}))
  {
    InitIsGood();
    RunKeeps(Init(), steps);
    RunKeepsWhole(Init(), steps, {});
  }

  /** In every reachable running state and for every batch written so far, Get at the last sequence number or at any
      snapshot finds all of the batch, but for what has been overwritten since, or nothing of it. */
  lemma ReadersSeeWholeBatches(steps: seq<Step>, b: set<Entry>, t: nat)
    requires IsRun(Init(), steps) && After(Init(), steps).node.Up? && b in Batches(Init(), steps, {})
    requires var m := After(Init(), steps).node.m; t in m.snapshots || t == m.lastSeq
    ensures var s := After(Init(), steps); var m := s.node.m;
            && ReadsWhole(Written(m), b, t)
            && forall k ::
               FirstHit(m.mem, Imm(m), Contents(s.disk.tables, m.version.tables), k, t) == Lookup(Written(m), k, t)
  {
    RunIsWhole(steps);
    var s, bs := After(Init(), steps), Batches(Init(), steps, {});
    var m := s.node.m;
    assert MemInv(s.disk, m, s.acked, s.submitted) && DiskInv(s.disk, s.acked, s.submitted);
    WholeUnion(m.version.flushed, Imm(m), bs);
    WholeUnion(m.version.flushed + Imm(m), m.mem, bs);
    WholeRead(Written(m), bs, b, t);
    forall k
      ensures FirstHit(m.mem, Imm(m), Contents(s.disk.tables, m.version.tables), k, t) == Lookup(Written(m), k, t)
    {
      GetFindsTheNewest(steps, k, t);
    }
  }

  /** So does a Get that takes its time. */
  lemma SlowReadersSeeWholeBatches(steps: seq<Step>, b: set<Entry>, id: nat)
    requires IsRun(Init(), steps) && After(Init(), steps).node.Up? && b in Batches(Init(), steps, {})
    requires id in After(Init(), steps).node.m.readers
    ensures var s := After(Init(), steps); var r := s.node.m.readers[id];
            && ReadsWhole(r.written, b, r.snapshot)
            && forall k :: FirstHit(r.mem, r.imm, Contents(s.disk.tables, r.tables), k, r.snapshot)
                           == Lookup(r.written, k, r.snapshot)
  {
    RunIsWhole(steps);
    var s := After(Init(), steps);
    var r := s.node.m.readers[id];
    assert DiskInv(s.disk, s.acked, s.submitted);
    WholeRead(r.written, Batches(Init(), steps, {}), b, r.snapshot);
    forall k
      ensures FirstHit(r.mem, r.imm, Contents(s.disk.tables, r.tables), k, r.snapshot)
              == Lookup(r.written, k, r.snapshot)
    {
      SlowGetFindsItsSnapshot(steps, id, k);
    }
  }

  /** A crash at any time leaves all of a batch on disk or nothing of it. */
  lemma CrashesLeaveWholeBatches(steps: seq<Step>, b: set<Entry>)
    requires IsRun(Init(), steps) && b in Batches(Init(), steps, {})
    ensures var d := After(Init(), steps).disk; b <= Durable(d) || b !! Durable(d)
  {
    RunIsWhole(steps);
    var s, bs := After(Init(), steps), Batches(Init(), steps, {});
    if s.node.Up? { assert MemInv(s.disk, s.node.m, s.acked, s.submitted); }
    DurableIsWhole(s.disk, FirstLog(s), bs);
  }
}
