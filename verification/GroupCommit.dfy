/**
 The write queue and the engine together: the groups that the queue forms are the batches that the engine writes, while
 the background job and the readers take their steps in between.
 */
module GroupCommit {
  import opened Options
  import opened LsmEntries
  import opened Engine
  import opened EngineDurability
  import opened EngineBatches
  import opened EngineReads
  import Q = WriteQueue

  /** The entries of a record: its operations get consecutive sequence numbers. The queue counts from the number
      that the engine opened with. */
  ghost function EntriesOf(r: Q.Record, base: nat, rank: string -> Key): set<Entry> {
    set i | 0 <= i < |r.ops| :: Entry(rank(r.ops[i].key), base + r.first + i, r.ops[i].val)
  }

  ghost function LastOf(r: Q.Record, base: nat): nat
    requires r.first > 0
  {
    base + r.first + |r.ops| - 1
  }

  lemma EntriesAreABatch(r: Q.Record, base: nat, rank: string -> Key, lastSeq: nat)
    requires base + r.first == lastSeq + 1 && r.first > 0
    ensures Unique(EntriesOf(r, base, rank)) && lastSeq <= LastOf(r, base)
    ensures forall e :: e in EntriesOf(r, base, rank) ==> lastSeq < e.seqno <= LastOf(r, base)
  {
  }

  /** The engine's writer is where the queue's leader is. */
  ghost predicate Linked(q: Q.Queue, s: State, base: nat, rank: string -> Key) {
    && s.node.Up? && s.node.m.logNumber in s.disk.logs && s.node.m.lastSeq == base + q.lastSeq
    && WriterAt(q, s.node.m.write, base, rank)
  }

  ghost predicate WriterAt(q: Q.Queue, w: Write, base: nat, rank: string -> Key) {
    match q.leader
    case NoLeader => w.NoWrite?
    case MakingRoom(_) => w.NoWrite?
    case Writing(_, r) => r.first == q.lastSeq + 1 && w == Logging(EntriesOf(r, base, rank), LastOf(r, base))
    case Written(_, r, _, ok) =>
      && r.first == q.lastSeq + 1
      && w == if ok then Applied(EntriesOf(r, base, rank), LastOf(r, base))
              else Rejected(EntriesOf(r, base, rank), LastOf(r, base))
  }

  /** Either the queue moves, or the engine does something that is no part of a write. */
  datatype Turn = OfQueue(step: Q.Step, syncFails: bool) | OfEngine(work: Step)

  ghost predicate CanTurn(q: Q.Queue, s: State, turn: Turn) {
    match turn
    case OfQueue(step, _) => Q.Can(q, step) && (step.FormGroup? ==> s.node.Up? && !s.node.m.bgError)
    case OfEngine(work) =>
      && s.node.Up? && s.node.m.logNumber in s.disk.logs && Can(s, work)
      && (CanWork(s, work) || CanRead(s, work) || work.SwitchMemtable?)
  }

  ghost function QueueAfter(q: Q.Queue, turn: Turn): Q.Queue
    requires turn.OfQueue? ==> Q.Can(q, turn.step)
  {
    if turn.OfQueue? then Q.Do(q, turn.step) else q
  }

  /** What the engine does in a turn. */
  ghost function EngineSteps(q: Q.Queue, turn: Turn, base: nat, rank: string -> Key): seq<Step>
    requires turn.OfQueue? ==> Q.Can(q, turn.step)
  {
    match turn
    case OfEngine(work) => [work]
    case OfQueue(step, syncFails) =>
      match step
      case FormGroup(_, _) =>
        var r := Q.Do(q, step).leader.record; [BeginWrite(EntriesOf(r, base, rank), LastOf(r, base))]
      case WriteGroup(logged, ok) =>
        if ok then [LogWrite] + [ApplyWrite] else if syncFails then [SyncFails(logged)] else [LogWriteFails(logged)]
      case PopGroup => [FinishWrite]
      case TakeSnapshot => [TakeSnapshot]
      case _ => []
  }

  lemma OneStep(s: State, step: Step)
    requires Can(s, step)
    ensures IsRun(s, [step]) && After(s, [step]) == Do(s, step)
    ensures forall bs :: Batches(s, [step], bs) == NextBatches(s, step, bs)
  {
    assert [step][1..] == [];
  }

  lemma TwoSteps(s: State, a: Step, b: Step)
    requires Can(s, a) && Can(Do(s, a), b)
    ensures IsRun(s, [a] + [b]) && After(s, [a] + [b]) == Do(Do(s, a), b)
    ensures forall bs :: Batches(s, [a] + [b], bs) == NextBatches(Do(s, a), b, NextBatches(s, a, bs))
  {
    assert ([a] + [b])[1..] == [b];
    OneStep(Do(s, a), b);
  }

  /** The batch that a turn begins. */
  ghost function Begun(q: Q.Queue, turn: Turn, base: nat, rank: string -> Key): set<set<Entry>>
    requires turn.OfQueue? ==> Q.Can(q, turn.step)
  {
    if turn.OfQueue? && turn.step.FormGroup? then {EntriesOf(Q.Do(q, turn.step).leader.record, base, rank)} else {}
  }

  ghost predicate Follows(q: Q.Queue, s: State, turn: Turn, base: nat, rank: string -> Key)
    requires turn.OfQueue? ==> Q.Can(q, turn.step)
  {
    var steps := EngineSteps(q, turn, base, rank);
    && IsRun(s, steps) && Linked(QueueAfter(q, turn), After(s, steps), base, rank)
    && forall bs :: Batches(s, steps, bs) == bs + Begun(q, turn, base, rank)
  }

  lemma WriteGroupFollows(q: Q.Queue, s: State, turn: Turn, base: nat, rank: string -> Key)
    requires Linked(q, s, base, rank) && CanTurn(q, s, turn) && turn.OfQueue? && turn.step.WriteGroup?
    ensures Follows(q, s, turn, base, rank)
  {
    if turn.step.ok { TwoSteps(s, LogWrite, ApplyWrite); }
    else if turn.syncFails { OneStep(s, SyncFails(turn.step.logged)); }
    else { OneStep(s, LogWriteFails(turn.step.logged)); }
  }

  lemma FormGroupFollows(q: Q.Queue, s: State, turn: Turn, base: nat, rank: string -> Key)
    requires Linked(q, s, base, rank) && CanTurn(q, s, turn) && turn.OfQueue? && turn.step.FormGroup?
    ensures Follows(q, s, turn, base, rank)
  {
    var r := Q.Do(q, turn.step).leader.record;
    EntriesAreABatch(r, base, rank, s.node.m.lastSeq);
    OneStep(s, BeginWrite(EntriesOf(r, base, rank), LastOf(r, base)));
  }

  lemma PopGroupFollows(q: Q.Queue, s: State, turn: Turn, base: nat, rank: string -> Key)
    requires Linked(q, s, base, rank) && CanTurn(q, s, turn) && turn.OfQueue? && turn.step.PopGroup?
    ensures Follows(q, s, turn, base, rank)
  {
    OneStep(s, FinishWrite);
  }

  lemma SnapshotFollows(q: Q.Queue, s: State, turn: Turn, base: nat, rank: string -> Key)
    requires Linked(q, s, base, rank) && CanTurn(q, s, turn) && turn.OfQueue? && turn.step.TakeSnapshot?
    ensures Follows(q, s, turn, base, rank)
  {
    OneStep(s, TakeSnapshot);
  }

  /** Arrivals and what goes on while the leader makes room write nothing. */
  lemma QueueFollows(q: Q.Queue, s: State, turn: Turn, base: nat, rank: string -> Key)
    requires Linked(q, s, base, rank) && CanTurn(q, s, turn) && turn.OfQueue?
    requires var t := turn.step; t.Arrive? || t.Lead? || t.SwitchMemtable? || t.RoomFails? || t.RoomForEmpty?
    ensures Follows(q, s, turn, base, rank)
  {
  }

  lemma WorkLeavesWriter(s: State, step: Step)
    requires s.node.Up? && CanWork(s, step)
    ensures var s' := DoWork(s, step);
            s'.node.Up? && s'.node.m.write == s.node.m.write && s'.node.m.lastSeq == s.node.m.lastSeq
  {
  }

  /** What is no part of a write leaves the writer alone. */
  lemma EngineLeavesWriter(s: State, step: Step)
    requires s.node.Up? && s.node.m.logNumber in s.disk.logs && Can(s, step)
    requires CanWork(s, step) || CanRead(s, step) || step.SwitchMemtable?
    ensures var s' := Do(s, step);
            s'.node.Up? && s'.node.m.write == s.node.m.write && s'.node.m.lastSeq == s.node.m.lastSeq
    ensures !step.BeginWrite? && !step.Crash?
  {
    if CanWork(s, step) { WorkLeavesWriter(s, step); }
  }

  lemma LinkedStill(q: Q.Queue, s: State, s': State, base: nat, rank: string -> Key)
    requires Linked(q, s, base, rank) && s'.node.Up? && s'.node.m.logNumber in s'.disk.logs
    requires s'.node.m.write == s.node.m.write && s'.node.m.lastSeq == s.node.m.lastSeq
    ensures Linked(q, s', base, rank)
  {
  }

  lemma EngineTurn(s: State, step: Step) returns (s': State)
    requires !Broken(s) && s.node.Up? && s.node.m.logNumber in s.disk.logs && Can(s, step)
    requires CanWork(s, step) || CanRead(s, step) || step.SwitchMemtable?
    ensures IsRun(s, [step]) && s' == After(s, [step]) && s'.node.Up? && s'.node.m.logNumber in s'.disk.logs
    ensures s'.node.m.write == s.node.m.write && s'.node.m.lastSeq == s.node.m.lastSeq
    ensures forall bs :: Batches(s, [step], bs) == bs
  {
    s' := Do(s, step);
    OneStep(s, step);
    StepKeeps(s, step);
    EngineLeavesWriter(s, step);
    LogIsThere(s');
  }

  lemma EngineFollows(q: Q.Queue, s: State, turn: Turn, base: nat, rank: string -> Key)
    requires !Broken(s) && Linked(q, s, base, rank) && CanTurn(q, s, turn) && turn.OfEngine?
    ensures Follows(q, s, turn, base, rank)
  {
    var s' := EngineTurn(s, turn.work);
    LinkedStill(q, s, s', base, rank);
    forall bs ensures Batches(s, [turn.work], bs) == bs + {} { assert bs + {} == bs; }
  }

  lemma TurnFollows(q: Q.Queue, s: State, turn: Turn, base: nat, rank: string -> Key)
    requires !Broken(s) && Linked(q, s, base, rank) && CanTurn(q, s, turn)
    ensures Follows(q, s, turn, base, rank)
  {
    if turn.OfEngine? { EngineFollows(q, s, turn, base, rank); }
    else if turn.step.FormGroup? { FormGroupFollows(q, s, turn, base, rank); }
    else if turn.step.WriteGroup? { WriteGroupFollows(q, s, turn, base, rank); }
    else if turn.step.PopGroup? { PopGroupFollows(q, s, turn, base, rank); }
    else if turn.step.TakeSnapshot? { SnapshotFollows(q, s, turn, base, rank); }
    else { QueueFollows(q, s, turn, base, rank); }
  }

  // ----- runs of both -----

  ghost function EngineAfter(s: State, steps: seq<Step>): State {
    if IsRun(s, steps) then After(s, steps) else s
  }

  ghost predicate AreTurns(q: Q.Queue, s: State, turns: seq<Turn>, base: nat, rank: string -> Key)
    decreases |turns|
  {
    turns == [] ||
    (CanTurn(q, s, turns[0]) &&
     AreTurns(QueueAfter(q, turns[0]), EngineAfter(s, EngineSteps(q, turns[0], base, rank)), turns[1..], base, rank))
  }

  ghost function QueueInTheEnd(q: Q.Queue, s: State, turns: seq<Turn>, base: nat, rank: string -> Key): Q.Queue
    requires AreTurns(q, s, turns, base, rank)
    decreases |turns|
  {
    if turns == [] then q
    else
      var s' := EngineAfter(s, EngineSteps(q, turns[0], base, rank));
      QueueInTheEnd(QueueAfter(q, turns[0]), s', turns[1..], base, rank)
  }

  ghost function AllSteps(q: Q.Queue, s: State, turns: seq<Turn>, base: nat, rank: string -> Key): seq<Step>
    requires AreTurns(q, s, turns, base, rank)
    decreases |turns|
  {
    if turns == [] then []
    else
      var steps := EngineSteps(q, turns[0], base, rank);
      steps + AllSteps(QueueAfter(q, turns[0]), EngineAfter(s, steps), turns[1..], base, rank)
  }

  lemma {:induction false} RunsJoin(s: State, a: seq<Step>, b: seq<Step>, bs: set<set<Entry>>)
    requires IsRun(s, a) && IsRun(After(s, a), b)
    ensures IsRun(s, a + b) && After(s, a + b) == After(After(s, a), b)
    ensures Batches(s, a + b, bs) == Batches(After(s, a), b, Batches(s, a, bs))
    decreases |a|
  {
    if a == [] {
      assert a + b == b;
    } else {
      assert (a + b)[1..] == a[1..] + b;
      RunsJoin(Do(s, a[0]), a[1..], b, NextBatches(s, a[0], bs));
    }
  }

  /** The batches that the engine has begun are those of the queue's groups. */
  ghost predicate Recorded(q: Q.Queue, bs: set<set<Entry>>, base: nat, rank: string -> Key) {
    && (forall i :: 0 <= i < |q.groups| && q.groups[i].record.Some? ==>
        EntriesOf(q.groups[i].record.value, base, rank) in bs)
    && (q.leader.Writing? || q.leader.Written? ==> EntriesOf(q.leader.record, base, rank) in bs)
  }

  lemma TurnRecords(q: Q.Queue, turn: Turn, bs: set<set<Entry>>, base: nat, rank: string -> Key)
    requires Recorded(q, bs, base, rank) && (turn.OfQueue? ==> Q.Can(q, turn.step))
    ensures Recorded(QueueAfter(q, turn), bs + Begun(q, turn, base, rank), base, rank)
  {
  }

  /** What was answered OK has been acknowledged. */
  ghost predicate Acknowledged(q: Q.Queue, acked: set<Entry>, base: nat, rank: string -> Key) {
    forall i :: 0 <= i < |q.groups| && q.groups[i].ok && q.groups[i].record.Some? ==>
      EntriesOf(q.groups[i].record.value, base, rank) <= acked
  }

  lemma PopAcknowledges(q: Q.Queue, s: State, turn: Turn, base: nat, rank: string -> Key)
    requires Linked(q, s, base, rank) && CanTurn(q, s, turn) && turn.OfQueue? && turn.step.PopGroup?
    requires Acknowledged(q, s.acked, base, rank)
    ensures Can(s, FinishWrite) && Acknowledged(QueueAfter(q, turn), Do(s, FinishWrite).acked, base, rank)
  {
  }

  lemma TurnAcknowledges(q: Q.Queue, s: State, turn: Turn, base: nat, rank: string -> Key)
    requires !Broken(s) && AckedIsSeen(s) && Linked(q, s, base, rank) && CanTurn(q, s, turn)
    requires Acknowledged(q, s.acked, base, rank) && IsRun(s, EngineSteps(q, turn, base, rank))
    ensures Acknowledged(QueueAfter(q, turn), After(s, EngineSteps(q, turn, base, rank)).acked, base, rank)
  {
    var steps := EngineSteps(q, turn, base, rank);
    RunKeepsAcked(s, steps);
    if turn.OfQueue? && turn.step.PopGroup? {
      PopAcknowledges(q, s, turn, base, rank);
      OneStep(s, FinishWrite);
    } else {
      GroupsStay(q, turn);
    }
  }

  lemma GroupsStay(q: Q.Queue, turn: Turn)
    requires (turn.OfQueue? ==> Q.Can(q, turn.step)) && !(turn.OfQueue? && turn.step.PopGroup?)
    ensures q.groups <= QueueAfter(q, turn).groups
    ensures forall i :: |q.groups| <= i < |QueueAfter(q, turn).groups| ==> QueueAfter(q, turn).groups[i].record.None?
  {
  }

  /** What every turn keeps: the engine is where the queue is, its batches are the queue's groups, and those
      answered OK are acknowledged. */
  ghost predicate InStep(q: Q.Queue, s: State, bs: set<set<Entry>>, base: nat, rank: string -> Key) {
    && !Broken(s) && AckedIsSeen(s) && Q.Inv(q) && Linked(q, s, base, rank)
    && Recorded(q, bs, base, rank) && Acknowledged(q, s.acked, base, rank)
  }

  lemma TurnKeepsStep(q: Q.Queue, s: State, turn: Turn, bs: set<set<Entry>>, base: nat, rank: string -> Key)
    requires InStep(q, s, bs, base, rank) && CanTurn(q, s, turn)
    ensures var steps := EngineSteps(q, turn, base, rank);
            && IsRun(s, steps)
            && InStep(QueueAfter(q, turn), After(s, steps), Batches(s, steps, bs), base, rank)
  {
    var steps := EngineSteps(q, turn, base, rank);
    TurnFollows(q, s, turn, base, rank);
    TurnRecords(q, turn, bs, base, rank);
    TurnAcknowledges(q, s, turn, base, rank);
    RunKeeps(s, steps);
    RunKeepsAcked(s, steps);
    if turn.OfQueue? { Q.StepKeeps(q, turn.step); }
  }

  lemma {:induction false} TurnsAreARun(q: Q.Queue, s: State, turns: seq<Turn>, bs: set<set<Entry>>, base: nat,
                                        rank: string -> Key)
    requires InStep(q, s, bs, base, rank) && AreTurns(q, s, turns, base, rank)
    ensures var steps, q' := AllSteps(q, s, turns, base, rank), QueueInTheEnd(q, s, turns, base, rank);
            IsRun(s, steps) && InStep(q', After(s, steps), Batches(s, steps, bs), base, rank)
    decreases |turns|
  {
    if turns != [] {
      var first := EngineSteps(q, turns[0], base, rank);
      TurnKeepsStep(q, s, turns[0], bs, base, rank);
      var q', s' := QueueAfter(q, turns[0]), After(s, first);
      TurnsAreARun(q', s', turns[1..], Batches(s, first, bs), base, rank);
      RunsJoin(s, first, AllSteps(q', s', turns[1..], base, rank), bs);
    }
  }

  /** The engine has been opened, and nobody writes yet. */
  ghost predicate IsOpened(before: seq<Step>) {
    IsRun(Init(), before) && After(Init(), before).node.Up? && After(Init(), before).node.m.write.NoWrite?
  }

  ghost function BaseOf(before: seq<Step>): nat
    requires IsOpened(before)
  {
    After(Init(), before).node.m.lastSeq
  }

  ghost predicate AreTurnsFrom(before: seq<Step>, turns: seq<Turn>, rank: string -> Key)
    requires IsOpened(before)
  {
    AreTurns(Q.Init(), After(Init(), before), turns, BaseOf(before), rank)
  }

  ghost function QueueOf(before: seq<Step>, turns: seq<Turn>, rank: string -> Key): Q.Queue
    requires IsOpened(before) && AreTurnsFrom(before, turns, rank)
  {
    QueueInTheEnd(Q.Init(), After(Init(), before), turns, BaseOf(before), rank)
  }

  ghost function StepsOf(before: seq<Step>, turns: seq<Turn>, rank: string -> Key): seq<Step>
    requires IsOpened(before) && AreTurnsFrom(before, turns, rank)
  {
    AllSteps(Q.Init(), After(Init(), before), turns, BaseOf(before), rank)
  }

  lemma OpenedIsInStep(before: seq<Step>, rank: string -> Key)
    requires IsOpened(before)
    ensures InStep(Q.Init(), After(Init(), before), Batches(Init(), before, {}), BaseOf(before), rank)
  {
    RunIsWhole(before);
    InitIsGood();
    RunKeepsAcked(Init(), before);
    LogIsThere(After(Init(), before));
  }

  /** Any interleaving is a run of the engine, at whose end all is in step. */
  lemma InterleavingsAreRuns(before: seq<Step>, turns: seq<Turn>, rank: string -> Key)
    requires IsOpened(before) && AreTurnsFrom(before, turns, rank)
    ensures var steps := before + StepsOf(before, turns, rank);
            && IsRun(Init(), steps)
            && InStep(QueueOf(before, turns, rank), After(Init(), steps), Batches(Init(), steps, {}), BaseOf(before),
                      rank)
  {
    OpenedIsInStep(before, rank);
    TurnsAreARun(Q.Init(), After(Init(), before), turns, Batches(Init(), before, {}), BaseOf(before), rank);
    RunsJoin(Init(), before, StepsOf(before, turns, rank), {});
  }

  /** However writers queue up, and whatever the background job and other readers do in between: a read at any snapshot
      finds all of a group, but for what has been overwritten since, or nothing of it. */
  lemma GroupsAreReadWhole(before: seq<Step>, turns: seq<Turn>, rank: string -> Key, g: nat, t: nat)
    requires IsOpened(before) && AreTurnsFrom(before, turns, rank)
    requires var q := QueueOf(before, turns, rank); g < |q.groups| && q.groups[g].record.Some?
    ensures var steps, q := before + StepsOf(before, turns, rank), QueueOf(before, turns, rank);
            && IsRun(Init(), steps) && After(Init(), steps).node.Up?
            && var m := After(Init(), steps).node.m;
               (t in m.snapshots || t == m.lastSeq ==>
                  ReadsWhole(Written(m), EntriesOf(q.groups[g].record.value, BaseOf(before), rank), t))
  {
    InterleavingsAreRuns(before, turns, rank);
    var steps, q := before + StepsOf(before, turns, rank), QueueOf(before, turns, rank);
    var m := After(Init(), steps).node.m;
    if t in m.snapshots || t == m.lastSeq {
      ReadersSeeWholeBatches(steps, EntriesOf(q.groups[g].record.value, BaseOf(before), rank), t);
    }
  }

  /** What the writers of a group answered OK have written is on disk ever after, through any crashes. */
  lemma GroupsAnsweredOkSurvive(before: seq<Step>, turns: seq<Turn>, later: seq<Step>, rank: string -> Key, g: nat)
    requires IsOpened(before) && AreTurnsFrom(before, turns, rank)
    requires var q := QueueOf(before, turns, rank); g < |q.groups| && q.groups[g].record.Some? && q.groups[g].ok
    requires IsRun(Init(), before + StepsOf(before, turns, rank))
    requires IsRun(After(Init(), before + StepsOf(before, turns, rank)), later)
    ensures var s := After(After(Init(), before + StepsOf(before, turns, rank)), later);
            EntriesOf(QueueOf(before, turns, rank).groups[g].record.value, BaseOf(before),
                      rank) <= s.acked <= Durable(s.disk)
  {
    InterleavingsAreRuns(before, turns, rank);
    var s := After(Init(), before + StepsOf(before, turns, rank));
    RunKeepsAcked(s, later);
    RunKeeps(s, later);
    var s' := After(s, later);
    assert DiskInv(s'.disk, s'.acked, s'.submitted);
  }

  // ----- the order of the operations -----

  /** The entry of operation j of writer i of a group. */
  ghost function EntryAt(g: Q.Group, i: nat, j: nat, base: nat, rank: string -> Key): Entry
    requires g.record.Some? && i < |g.members| && g.members[i].batch.Some? && j < |g.members[i].batch.value.ops|
  {
    var op := g.members[i].batch.value.ops[j];
    Entry(rank(op.key), base + g.record.value.first + Q.OpsBefore(g.members, i) + j, op.val)
  }

  lemma EntryIsOfItsGroup(g: Q.Group, i: nat, j: nat, base: nat, rank: string -> Key)
    requires Q.GoodGroup(g) && g.record.Some?
    requires i < |g.members| && g.members[i].batch.Some? && j < |g.members[i].batch.value.ops|
    ensures EntryAt(g, i, j, base, rank) in EntriesOf(g.record.value, base, rank)
    ensures Q.OpsBefore(g.members, i) + j < |g.record.value.ops|
  {
    Q.RecordInQueueOrder(g);
    assert Q.StandsAt(g.members, g.record.value.ops, i, j);
    var n, ops := Q.OpsBefore(g.members, i) + j, g.record.value.ops;
    assert EntryAt(g, i, j, base, rank) == Entry(rank(ops[n].key), base + g.record.value.first + n, ops[n].val);
  }

  /** The place of an operation: its group, its writer there, and which of that writer's operations it is. */
  datatype Place = Place(g: nat, i: nat, j: nat)

  predicate IsPlace(q: Q.Queue, p: Place) {
    && p.g < |q.groups| && q.groups[p.g].record.Some? && p.i < |q.groups[p.g].members|
    && q.groups[p.g].members[p.i].batch.Some? && p.j < |q.groups[p.g].members[p.i].batch.value.ops|
  }

  predicate ComesBefore(p: Place, p': Place) {
    p.g < p'.g || (p.g == p'.g && (p.i < p'.i || (p.i == p'.i && p.j < p'.j)))
  }

  lemma PlacesAreNumbered(q: Q.Queue, p: Place, p': Place, base: nat, rank: string -> Key)
    requires Q.Inv(q) && IsPlace(q, p) && IsPlace(q, p') && ComesBefore(p, p')
    ensures EntryAt(q.groups[p.g], p.i, p.j, base, rank).seqno < EntryAt(q.groups[p'.g], p'.i, p'.j, base, rank).seqno
  {
    EntryIsOfItsGroup(q.groups[p.g], p.i, p.j, base, rank);
    if p.g < p'.g {
      Q.RecordsAreApart(q.groups, p.g, p'.g);
    } else if p.i < p'.i {
      Q.OpsBeforeGrows(q.groups[p.g].members, p.i, p'.i);
    }
  }

  /** Over every interleaving: each operation of each writer is in the batch of its group, and of two operations the one
      of the later group, of the later writer in a group, or the later one of a writer has the larger sequence number,
      so that on the same key it is the one to be found. */
  lemma LaterOperationsWin(before: seq<Step>, turns: seq<Turn>, rank: string -> Key, p: Place, p': Place)
    requires IsOpened(before) && AreTurnsFrom(before, turns, rank)
    requires var q := QueueOf(before, turns, rank); IsPlace(q, p) && IsPlace(q, p') && ComesBefore(p, p')
    ensures var q, base := QueueOf(before, turns, rank), BaseOf(before);
            var e, e' := EntryAt(q.groups[p.g], p.i, p.j, base, rank), EntryAt(q.groups[p'.g], p'.i, p'.j, base, rank);
            && e in EntriesOf(q.groups[p.g].record.value, base, rank)
            && e' in EntriesOf(q.groups[p'.g].record.value, base, rank) && e.seqno < e'.seqno
            && forall es, t :: e' in es && e'.seqno <= t && e.key == e'.key ==> !IsNewest(es, e.key, t, e)
  {
    InterleavingsAreRuns(before, turns, rank);
    var q, base := QueueOf(before, turns, rank), BaseOf(before);
    EntryIsOfItsGroup(q.groups[p.g], p.i, p.j, base, rank);
    EntryIsOfItsGroup(q.groups[p'.g], p'.i, p'.j, base, rank);
    PlacesAreNumbered(q, p, p', base, rank);
    var e, e' := EntryAt(q.groups[p.g], p.i, p.j, base, rank), EntryAt(q.groups[p'.g], p'.i, p'.j, base, rank);
    assert e.key == e'.key ==> forall t :: e'.seqno <= t ==> Sees(e', e.key, t);
  }
}
