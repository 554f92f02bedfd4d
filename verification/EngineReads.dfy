/**
 What a read or a snapshot is worth, from the call alone: a Get finds what had been written when it was made, as far as
 the snapshot it was given, and a snapshot goes on showing what had been written when it was taken.
 */
module EngineReads {
  import opened Options
  import opened LsmEntries
  import opened Engine
  import opened EngineDurability

  // ----- what has been acknowledged -----

  lemma LogIsThere(s: State)
    requires !Broken(s) && s.node.Up?
    ensures s.node.m.logNumber in s.disk.logs
  {
    assert MemInv(s.disk, s.node.m, s.acked, s.submitted);
  }

  ghost predicate AckedIsSeen(s: State) {
    s.node.Up? ==> UpTo(s.acked, s.node.m.lastSeq)
  }

  lemma WorkKeepsAcked(s: State, step: Step)
    requires s.node.Up? && AckedIsSeen(s) && CanWork(s, step)
    ensures AckedIsSeen(DoWork(s, step)) && s.acked == DoWork(s, step).acked
  {
  }

  lemma WriteKeepsAcked(s: State, step: Step)
    requires s.node.Up? && AckedIsSeen(s) && s.node.m.logNumber in s.disk.logs && CanWrite(s, step)
    requires !s.node.m.write.NoWrite? ==>
               s.node.m.lastSeq <= s.node.m.write.last && UpTo(s.node.m.write.batch, s.node.m.write.last)
    ensures AckedIsSeen(DoWrite(s, step)) && s.acked <= DoWrite(s, step).acked
  {
  }

  lemma RecoverKeepsAcked(s: State, step: Step)
    requires AckedIsSeen(s) && CanRecover(s, step) && s.acked <= Durable(s.disk)
             && UpTo(s.disk.man.flushed, s.disk.man.lastSeq)
    ensures AckedIsSeen(DoRecover(s, step)) && s.acked == DoRecover(s, step).acked
  {
  }

  /** Nothing that was acknowledged is ever taken back, and the last sequence number covers it. */
  lemma StepKeepsAcked(s: State, step: Step)
    requires !Broken(s) && AckedIsSeen(s) && Can(s, step)
    ensures AckedIsSeen(Do(s, step)) && s.acked <= Do(s, step).acked
  {
    if CanRecover(s, step) {
      assert DiskInv(s.disk, s.acked, s.submitted);
      RecoverKeepsAcked(s, step);
    } else if CanWrite(s, step) {
      assert WriteInv(s.disk, s.node.m, s.submitted);
      WriteKeepsAcked(s, step);
    } else if CanWork(s, step) { WorkKeepsAcked(s, step); }
  }

  lemma {:induction false} RunKeepsAcked(s: State, steps: seq<Step>)
    requires !Broken(s) && AckedIsSeen(s) && IsRun(s, steps)
    ensures AckedIsSeen(After(s, steps)) && s.acked <= After(s, steps).acked
    decreases |steps|
  {
    if steps != [] {
      StepKeeps(s, steps[0]);
      StepKeepsAcked(s, steps[0]);
      RunKeepsAcked(Do(s, steps[0]), steps[1..]);
    }
  }

  // ----- a Get and its argument -----

  /** The Get is still under way, as it began. */
  ghost predicate Goes(s: State, id: nat, t: nat, written: set<Entry>) {
    s.node.Up? && id in s.node.m.readers && s.node.m.readers[id].snapshot == t
      && s.node.m.readers[id].written == written
  }

  lemma WorkKeepsReader(s: State, step: Step, id: nat, t: nat, written: set<Entry>)
    requires Goes(s, id, t, written) && CanWork(s, step)
    ensures Goes(DoWork(s, step), id, t, written)
  {
  }

  lemma StepKeepsReader(s: State, step: Step, id: nat, t: nat, written: set<Entry>)
    requires Goes(s, id, t, written) && Can(s, step) && step != Crash && step != FinishRead(id)
    ensures Goes(Do(s, step), id, t, written)
  {
    if !CanRecover(s, step) && !CanWrite(s, step) && CanWork(s, step) { WorkKeepsReader(s, step, id, t, written); }
  }

  /** Neither does the node crash nor the Get return. */
  ghost predicate GoesOn(steps: seq<Step>, id: nat) {
    forall step :: step in steps ==> step != Crash && step != FinishRead(id)
  }

  lemma {:induction false} RunKeepsReader(s: State, steps: seq<Step>, id: nat, t: nat, written: set<Entry>)
    requires Goes(s, id, t, written) && IsRun(s, steps) && GoesOn(steps, id)
    ensures Goes(After(s, steps), id, t, written)
    decreases |steps|
  {
    if steps != [] {
      assert steps[0] in steps && forall step :: step in steps[1..] ==> step in steps;
      StepKeepsReader(s, steps[0], id, t, written);
      RunKeepsReader(Do(s, steps[0]), steps[1..], id, t, written);
    }
  }

  lemma ReadIsARead(s: State, step: Step)
    requires Can(s, step) && (step.StartRead? || step.TakeSnapshot?)
    ensures s.node.Up? && CanRead(s, step) && Do(s, step) == DoRead(s, step)
  {
  }

  lemma GetBegins(s: State, id: nat, t: nat)
    requires !Broken(s) && Can(s, StartRead(id, t))
    ensures s.node.Up? && !Broken(Do(s, StartRead(id, t)))
    ensures Goes(Do(s, StartRead(id, t)), id, t, Written(s.node.m))
  {
    ReadIsARead(s, StartRead(id, t));
    StepKeeps(s, StartRead(id, t));
  }

  lemma GetReads(s: State, id: nat, t: nat, written: set<Entry>, k: Key)
    requires !Broken(s) && Goes(s, id, t, written)
    ensures var r := s.node.m.readers[id];
            && r.tables <= s.disk.tables.Keys
            && FirstHit(r.mem, r.imm, Contents(s.disk.tables, r.tables), k, t) == Lookup(written, k, t)
  {
    var r := s.node.m.readers[id];
    assert ReadersInv(s.disk, s.node.m);
    assert ReadInv(s.disk, s.node.m, r);
    FirstHitIsNewest(r.mem, r.imm, ReadTables(s.disk, r), k, t);
  }

  /** A Get of any key at snapshot t, made after `before` and still under way after `later`: its first hit is the newest
      entry, up to t, of what had been written when it was made. */
  lemma GetReadsAtItsSnapshot(before: seq<Step>, id: nat, t: nat, later: seq<Step>, k: Key)
    requires IsRun(Init(), before) && Can(After(Init(), before), StartRead(id, t))
    requires IsRun(Do(After(Init(), before), StartRead(id, t)), later) && GoesOn(later, id)
    ensures var s0 := After(Init(), before);
            var s := After(Do(s0, StartRead(id, t)), later);
            && s0.node.Up? && s.node.Up? && id in s.node.m.readers
            && var r := s.node.m.readers[id];
               && r.snapshot == t && r.tables <= s.disk.tables.Keys
               && FirstHit(r.mem, r.imm, Contents(s.disk.tables, r.tables), k, t) == Lookup(Written(s0.node.m), k, t)
  {
    InitIsGood();
    RunKeeps(Init(), before);
    var s0 := After(Init(), before);
    GetBegins(s0, id, t);
    GetGoesOn(Do(s0, StartRead(id, t)), later, id, t, Written(s0.node.m), k);
  }

  lemma GetGoesOn(s: State, later: seq<Step>, id: nat, t: nat, written: set<Entry>, k: Key)
    requires !Broken(s) && Goes(s, id, t, written) && IsRun(s, later) && GoesOn(later, id)
    ensures var s' := After(s, later);
            && Goes(s', id, t, written)
            && var r := s'.node.m.readers[id];
               && r.tables <= s'.disk.tables.Keys
               && FirstHit(r.mem, r.imm, Contents(s'.disk.tables, r.tables), k, t) == Lookup(written, k, t)
  {
    RunKeeps(s, later);
    RunKeepsReader(s, later, id, t, written);
    GetReads(After(s, later), id, t, written, k);
  }

  // ----- a snapshot and the time it was taken -----

  /** Up to t the two hold the same entries. */
  ghost predicate SameUpTo(a: set<Entry>, b: set<Entry>, t: nat) {
    (forall e :: e in a && e.seqno <= t ==> e in b) && forall e :: e in b && e.seqno <= t ==> e in a
  }

  lemma SameUpToReads(a: set<Entry>, b: set<Entry>, t: nat, k: Key)
    requires SameUpTo(a, b, t) && Unique(a) && Unique(b)
    ensures Lookup(a, k, t) == Lookup(b, k, t)
  {
    NewestExists(a, k, t);
    if e :| IsNewest(a, k, t, e) {
      LookupIs(a, k, t, e);
      assert IsNewest(b, k, t, e);
      LookupIs(b, k, t, e);
    } else {
      LookupNothing(a, k, t);
      LookupNothing(b, k, t);
    }
  }

  ghost predicate StillWritten(s: State, written: set<Entry>, t: nat) {
    s.node.Up? && t <= s.node.m.lastSeq && SameUpTo(Written(s.node.m), written, t)
  }

  lemma WorkKeepsWritten(s: State, step: Step, written: set<Entry>, t: nat)
    requires StillWritten(s, written, t) && CanWork(s, step)
    ensures StillWritten(DoWork(s, step), written, t)
  {
  }

  lemma WriteKeepsWritten(s: State, step: Step, written: set<Entry>, t: nat)
    requires StillWritten(s, written, t) && s.node.m.logNumber in s.disk.logs && CanWrite(s, step)
    requires !s.node.m.write.NoWrite? ==>
               s.node.m.lastSeq <= s.node.m.write.last && forall e :: e in s.node.m.write.batch ==>
                 s.node.m.lastSeq < e.seqno
    ensures StillWritten(DoWrite(s, step), written, t)
  {
  }

  lemma StepKeepsWritten(s: State, step: Step, written: set<Entry>, t: nat)
    requires !Broken(s) && StillWritten(s, written, t) && Can(s, step) && step != Crash
    ensures StillWritten(Do(s, step), written, t)
  {
    if CanWrite(s, step) {
      assert WriteInv(s.disk, s.node.m, s.submitted);
      WriteKeepsWritten(s, step, written, t);
    } else if CanWork(s, step) {
      WorkKeepsWritten(s, step, written, t);
    } else {
      assert !CanRecover(s, step) && CanRead(s, step);
    }
  }

  lemma {:induction false} RunKeepsWritten(s: State, steps: seq<Step>, written: set<Entry>, t: nat)
    requires !Broken(s) && StillWritten(s, written, t) && IsRun(s, steps) && Crash !in steps
    ensures StillWritten(After(s, steps), written, t)
    decreases |steps|
  {
    if steps != [] {
      StepKeeps(s, steps[0]);
      StepKeepsWritten(s, steps[0], written, t);
      RunKeepsWritten(Do(s, steps[0]), steps[1..], written, t);
    }
  }

  lemma StateReads(s: State, k: Key, t: nat)
    requires !Broken(s) && s.node.Up? && (t in s.node.m.snapshots || t == s.node.m.lastSeq)
    ensures var m := s.node.m;
            FirstHit(m.mem, Imm(m), Contents(s.disk.tables, m.version.tables), k, t) == Lookup(Written(m), k, t)
  {
    var m := s.node.m;
    var tables := Contents(s.disk.tables, m.version.tables);
    assert DiskInv(s.disk, s.acked, s.submitted) && UpInv(s.disk, m, s.acked, s.submitted);
    ReadsAreTheHistory(s.disk, m, s.acked, s.submitted);
    assert tables + Imm(m) + m.mem <= s.submitted;
    FirstHitIsNewest(m.mem, Imm(m), tables, k, t);
  }

  lemma WrittenIsUnique(s: State)
    requires !Broken(s) && s.node.Up?
    ensures Unique(Written(s.node.m))
  {
    assert DiskInv(s.disk, s.acked, s.submitted) && MemInv(s.disk, s.node.m, s.acked, s.submitted);
  }

  lemma SnapshotBegins(s: State)
    requires !Broken(s) && Can(s, TakeSnapshot)
    ensures s.node.Up? && !Broken(Do(s, TakeSnapshot))
    ensures var s' := Do(s, TakeSnapshot);
            && StillWritten(s', Written(s.node.m), s.node.m.lastSeq)
            && s'.node.m.snapshots == s.node.m.snapshots + multiset{s.node.m.lastSeq}
  {
    ReadIsARead(s, TakeSnapshot);
    StepKeeps(s, TakeSnapshot);
  }

  lemma SnapshotGoesOn(s: State, later: seq<Step>, written: set<Entry>, t: nat, k: Key)
    requires !Broken(s) && StillWritten(s, written, t) && IsRun(s, later) && Crash !in later && Unique(written)
    ensures var s' := After(s, later);
            && s'.node.Up?
            && var m := s'.node.m;
               (t in m.snapshots ==>
                  FirstHit(m.mem, Imm(m), Contents(s'.disk.tables, m.version.tables), k, t) == Lookup(written, k, t))
  {
    RunKeeps(s, later);
    RunKeepsWritten(s, later, written, t);
    var s' := After(s, later);
    if t in s'.node.m.snapshots {
      StateReads(s', k, t);
      assert DiskInv(s'.disk, s'.acked, s'.submitted) && MemInv(s'.disk, s'.node.m, s'.acked, s'.submitted);
      SameUpToReads(Written(s'.node.m), written, t, k);
    }
  }

  /** A snapshot taken after `before` covers every acknowledged write, and until it is released or the node crashes a
      read at it finds the newest of what had been written when it was taken, whatever is written meanwhile. */
  lemma SnapshotsStay(before: seq<Step>, later: seq<Step>, k: Key)
    requires IsRun(Init(), before) && Can(After(Init(), before), TakeSnapshot)
    requires IsRun(Do(After(Init(), before), TakeSnapshot), later) && Crash !in later
    ensures var s0 := After(Init(), before);
            var s1 := Do(s0, TakeSnapshot);
            var s := After(s1, later);
            && s0.node.Up? && s1.node.Up? && s.node.Up?
            && var m0, m, t := s0.node.m, s.node.m, s0.node.m.lastSeq;
               && s1.node.m.snapshots == m0.snapshots + multiset{t} && UpTo(s0.acked, t)
               && (t in m.snapshots ==>
                     FirstHit(m.mem, Imm(m), Contents(s.disk.tables, m.version.tables), k, t)
                     == Lookup(Written(m0), k, t))
  {
    InitIsGood();
    RunKeeps(Init(), before);
    var s0 := After(Init(), before);
    RunKeepsAcked(Init(), before);
    SnapshotBegins(s0);
    WrittenIsUnique(s0);
    SnapshotGoesOn(Do(s0, TakeSnapshot), later, Written(s0.node.m), s0.node.m.lastSeq, k);
  }

  // ----- which snapshots are held -----

  ghost function NextHeld(s: State, step: Step, held: multiset<nat>): multiset<nat> {
    match step
    case TakeSnapshot => if s.node.Up? then held + multiset{s.node.m.lastSeq} else held
    case ReleaseSnapshot(t) => held - multiset{t}
    case Crash => multiset{}
    case _ => held
  }

  ghost function Held(s: State, steps: seq<Step>, held: multiset<nat>): multiset<nat>
    requires IsRun(s, steps)
    decreases |steps|
  {
    if steps == [] then held else Held(Do(s, steps[0]), steps[1..], NextHeld(s, steps[0], held))
  }

  ghost predicate HoldsExactly(s: State, held: multiset<nat>) {
    if s.node.Up? then s.node.m.snapshots == held else held == multiset{}
  }

  lemma WorkKeepsHeld(s: State, step: Step, held: multiset<nat>)
    requires s.node.Up? && HoldsExactly(s, held) && CanWork(s, step)
    ensures HoldsExactly(DoWork(s, step), held)
  {
  }

  lemma StepKeepsHeld(s: State, step: Step, held: multiset<nat>)
    requires HoldsExactly(s, held) && Can(s, step)
    ensures HoldsExactly(Do(s, step), NextHeld(s, step, held))
  {
    if CanRecover(s, step) {
    } else if CanWrite(s, step) {
      WriteKeepsHeld(s, step, held);
    } else if CanWork(s, step) {
      WorkKeepsHeld(s, step, held);
    }
  }

  lemma WriteKeepsHeld(s: State, step: Step, held: multiset<nat>)
    requires s.node.Up? && HoldsExactly(s, held) && s.node.m.logNumber in s.disk.logs && CanWrite(s, step)
    ensures HoldsExactly(DoWrite(s, step), held)
  {
  }

  /** In every run, the snapshots that compactions respect are exactly those taken and not released since the last
      crash. */
  lemma {:induction false} SnapshotsAreThoseHeld(s: State, steps: seq<Step>, held: multiset<nat>)
    requires HoldsExactly(s, held) && IsRun(s, steps)
    ensures HoldsExactly(After(s, steps), Held(s, steps, held))
    decreases |steps|
  {
    if steps != [] {
      StepKeepsHeld(s, steps[0], held);
      SnapshotsAreThoseHeld(Do(s, steps[0]), steps[1..], NextHeld(s, steps[0], held));
    }
  }
}
