/**
 Group commit: writers queue up, the one at the head writes a batch for itself and for a prefix
 of those behind it, and pops them all with one status.
 */
module WriteQueue {
  import opened Options

  datatype Op = Op(key: string, val: Option<string>)

  datatype Batch = Batch(ops: seq<Op>, bytes: nat)

  /** A queued write; a write without a batch only waits (and, at the head, forces a new memtable). */
  datatype Writer = Writer(id: nat, batch: Option<Batch>, sync: bool)

  // ----- BuildBatchGroup -----

  const SMALL: nat := 0x2_0000
  const LARGE: nat := 0x10_0000

  function MaxSize(first: nat): nat {
    if first <= SMALL then first + SMALL else LARGE
  }

  function BytesOf(w: Writer): nat {
    if w.batch.Some? then w.batch.value.bytes else 0
  }

  function OpsOf(w: Writer): seq<Op> {
    if w.batch.Some? then w.batch.value.ops else []
  }

  function TotalBytes(ws: seq<Writer>): nat {
    if ws == [] then 0 else TotalBytes(ws[..|ws| - 1]) + BytesOf(ws[|ws| - 1])
  }

  function AllOps(ws: seq<Writer>): seq<Op> {
    if ws == [] then [] else AllOps(ws[..|ws| - 1]) + OpsOf(ws[|ws| - 1])
  }

  /** Writer `i` may be written together with the ones before it. */
  predicate Joins(ws: seq<Writer>, i: nat)
    requires 0 < i < |ws|
  {
    && (ws[i].sync ==> ws[0].sync)
    && (ws[i].batch.Some? ==> TotalBytes(ws[..i + 1]) <= MaxSize(BytesOf(ws[0])))
  }

  /** The group is the longest prefix in which everyone joins. */
  ghost predicate IsGroup(ws: seq<Writer>, n: nat) {
    && 1 <= n <= |ws|
    && (forall i :: 0 < i < n ==> Joins(ws, i))
    && (n < |ws| ==> !Joins(ws, n))
  }

  /** How many operations the writers before i have. */
  function OpsBefore(ws: seq<Writer>, i: nat): nat
    requires i <= |ws|
  {
    if i == 0 then 0 else OpsBefore(ws, i - 1) + if ws[i - 1].batch.Some? then |ws[i - 1].batch.value.ops| else 0
  }

  /** Operation j of writer i stands where those of the writers before i end, and j further. */
  ghost predicate StandsAt(ws: seq<Writer>, ops: seq<Op>, i: nat, j: nat)
    requires i < |ws| && ws[i].batch.Some? && j < |ws[i].batch.value.ops|
  {
    OpsBefore(ws, i) + j < |ops| && ops[OpsBefore(ws, i) + j] == ws[i].batch.value.ops[j]
  }

  /** The operations are those of the first n writers, each writer's after all of those before it. */
  ghost predicate InQueueOrder(ws: seq<Writer>, n: nat, ops: seq<Op>)
    requires n <= |ws|
  {
    && |ops| == OpsBefore(ws, n)
    && forall i: nat, j: nat :: i < n && ws[i].batch.Some? && j < |ws[i].batch.value.ops| ==> StandsAt(ws, ops, i, j)
  }

  lemma OneMoreInOrder(ws: seq<Writer>, n: nat, ops: seq<Op>)
    requires 0 < n <= |ws| && InQueueOrder(ws, n - 1, ops)
    ensures InQueueOrder(ws, n, ops + OpsOf(ws[n - 1]))
  {
    var ops' := ops + OpsOf(ws[n - 1]);
    forall i: nat, j: nat | i < n && ws[i].batch.Some? && j < |ws[i].batch.value.ops|
      ensures StandsAt(ws, ops', i, j)
    {
      if i < n - 1 { assert StandsAt(ws, ops, i, j); }
    }
  }

  lemma {:induction false} OpsInQueueOrder(ws: seq<Writer>, n: nat)
    requires n <= |ws|
    ensures InQueueOrder(ws, n, AllOps(ws[..n]))
    decreases n
  {
    if n == 0 {
      assert ws[..0] == [];
    } else {
      assert ws[..n][..n - 1] == ws[..n - 1];
      OpsInQueueOrder(ws, n - 1);
      OneMoreInOrder(ws, n, AllOps(ws[..n - 1]));
    }
  }

  lemma {:induction false} OpsBeforeGrows(ws: seq<Writer>, i: nat, i': nat)
    requires i < i' <= |ws|
    ensures OpsBefore(ws, i) + (if ws[i].batch.Some? then |ws[i].batch.value.ops| else 0) <= OpsBefore(ws, i')
    decreases i'
  {
    if i + 1 < i' { OpsBeforeGrows(ws, i, i' - 1); }
  }

  method BuildBatchGroup(writers: seq<Writer>) returns (n: nat, updates: seq<Op>)
    requires writers != [] && writers[0].batch.Some?
    ensures IsGroup(writers, n)
    ensures updates == AllOps(writers[..n]) && InQueueOrder(writers, n, updates)
  {
    n, updates := Collect(writers);
    OpsInQueueOrder(writers, n);
  }

  /** The loop of BuildBatchGroup. */
  method Collect(writers: seq<Writer>) returns (n: nat, updates: seq<Op>)
    requires writers != [] && writers[0].batch.Some?
    ensures IsGroup(writers, n) && updates == AllOps(writers[..n])
  {
    var first := writers[0];
    updates := first.batch.value.ops;
    var size := first.batch.value.bytes;
    var maxSize := LARGE;
    if size <= SMALL {
      maxSize := size + SMALL;
    }
    n := 1;
    assert writers[..1][..0] == [];
    while n < |writers|
      invariant 1 <= n <= |writers|
      invariant forall i :: 0 < i < n ==> Joins(writers, i)
      invariant updates == AllOps(writers[..n]) && size == TotalBytes(writers[..n])
    {
      var w := writers[n];
      assert writers[..n + 1][..n] == writers[..n];
      assert TotalBytes(writers[..n + 1]) == size + BytesOf(w);
      if w.sync && !first.sync {
        break;
      }
      if w.batch.Some? {
        size := size + w.batch.value.bytes;
        if size > maxSize {
          break;
        }
        updates := updates + w.batch.value.ops;
      }
      n := n + 1;
    }
  }

  /** The bytes of a group stay under the cap, unless its leader alone is over it. */
  lemma {:induction false} GroupFits(ws: seq<Writer>, n: nat)
    requires ws != [] && 1 <= n <= |ws| && forall i :: 0 < i < n ==> Joins(ws, i)
    ensures TotalBytes(ws[..n]) <= MaxSize(BytesOf(ws[0])) || TotalBytes(ws[..n]) == BytesOf(ws[0])
  {
    assert ws[..n][..n - 1] == ws[..n - 1];
    if n == 1 {
      assert ws[..1][..0] == [];
    } else {
      GroupFits(ws, n - 1);
      assert Joins(ws, n - 1);
    }
  }

  /** A write without a batch joins the group ahead of it exactly if everyone between does and it asks for no
      more sync than the leader. */
  lemma EmptyWriteJoins(ws: seq<Writer>, n: nat, i: nat)
    requires IsGroup(ws, n) && 0 < i < |ws| && ws[i].batch.None?
    ensures i < n <==> (ws[i].sync ==> ws[0].sync) && forall k :: 0 < k < i ==> Joins(ws, k)
  {
    assert Joins(ws, i) <==> (ws[i].sync ==> ws[0].sync);
  }

  // ----- the queue as a state machine -----

  datatype Record = Record(first: nat, ops: seq<Op>)

  /** A group that was popped: its members, the record it was given if it got as far as writing,
      whether that record is in the log, and the status all its members got. */
  datatype Group = Group(members: seq<Writer>, record: Option<Record>, logged: bool, ok: bool)

  datatype Leader =
    | NoLeader
    | MakingRoom(force: bool)                               // MakeRoomForWrite; the mutex is free at times
    | Writing(n: nat, record: Record)                       // the log and the memtable; the mutex is free
    | Written(n: nat, record: Record, logged: bool, ok: bool)

  /** `forced` is history: the writers, by their place in the order of arrival, for whom a memtable switch
      was forced. */
  datatype Queue = Queue(arrived: seq<Writer>, waiting: seq<Writer>, leader: Leader, groups: seq<Group>,
                         log: seq<Record>, lastSeq: nat, snapshots: set<nat>, forced: set<nat>)

  datatype Step =
    | Arrive(w: Writer)
    | Lead
    | SwitchMemtable
    | RoomFails
    | RoomForEmpty
    | FormGroup(n: nat, ops: seq<Op>)
    | WriteGroup(logged: bool, ok: bool)
    | PopGroup
    | TakeSnapshot

  function Init(): Queue {
    Queue([], [], NoLeader, [], [], 0, {}, {})
  }

  ghost predicate Can(q: Queue, step: Step) {
    match step
    case Arrive(_) => true
    case Lead => q.leader.NoLeader? && q.waiting != []
    case SwitchMemtable => q.leader.MakingRoom? && |q.waiting| <= |q.arrived|
    case RoomFails => q.leader.MakingRoom?
    case RoomForEmpty => q.leader == MakingRoom(false) && q.waiting != [] && q.waiting[0].batch.None?
    case FormGroup(n, ops) =>
      // n and ops are what BuildBatchGroup returns
      && q.leader == MakingRoom(false) && q.waiting != [] && q.waiting[0].batch.Some?
      && IsGroup(q.waiting, n) && ops == AllOps(q.waiting[..n])
    case WriteGroup(logged, ok) => q.leader.Writing? && (ok ==> logged)
    case PopGroup => q.leader.Written?
    case TakeSnapshot => true
  }

  /** Pop the first `n` writers with one status; the last sequence number moves past the record
      even if the write failed. */
  ghost function Pop(q: Queue, n: nat, record: Option<Record>, logged: bool, ok: bool): Queue {
    var k := if n <= |q.waiting| then n else |q.waiting|;
    q.(waiting := q.waiting[k..], leader := NoLeader,
       groups := q.groups + [Group(q.waiting[..k], record, logged, ok)],
       lastSeq := q.lastSeq + if record.Some? then |record.value.ops| else 0)
  }

  ghost function Do(q: Queue, step: Step): Queue
    requires Can(q, step)
  {
    match step
    case Arrive(w) => q.(arrived := q.arrived + [w], waiting := q.waiting + [w])
    case Lead => q.(leader := MakingRoom(q.waiting[0].batch.None?))
    case SwitchMemtable =>
      // a forced switch is made once; one for a full memtable is of no account here
      if q.leader.force then q.(leader := MakingRoom(false), forced := q.forced + {|q.arrived| - |q.waiting|}) else q
    case RoomFails => Pop(q, 1, None, false, false)
    case RoomForEmpty => Pop(q, 1, None, false, true)
    case FormGroup(n, ops) => q.(leader := Writing(n, Record(q.lastSeq + 1, ops)))
    case WriteGroup(logged, ok) =>
      q.(leader := Written(q.leader.n, q.leader.record, logged, ok),
         log := if logged then q.log + [q.leader.record] else q.log)
    case PopGroup => Pop(q, q.leader.n, Some(q.leader.record), q.leader.logged, q.leader.ok)
    case TakeSnapshot => q.(snapshots := q.snapshots + {q.lastSeq})
  }

  ghost predicate IsRun(q: Queue, steps: seq<Step>)
    decreases |steps|
  {
    steps == [] || (Can(q, steps[0]) && IsRun(Do(q, steps[0]), steps[1..]))
  }

  ghost function After(q: Queue, steps: seq<Step>): Queue
    requires IsRun(q, steps)
    decreases |steps|
  {
    if steps == [] then q else After(Do(q, steps[0]), steps[1..])
  }

  // ----- what every run keeps -----

  ghost function Served(groups: seq<Group>): seq<Writer> {
    if groups == [] then [] else Served(groups[..|groups| - 1]) + groups[|groups| - 1].members
  }

  /** The sequence numbers a list of groups used up. */
  ghost function SeqsUsed(groups: seq<Group>): nat {
    if groups == [] then 0
    else
      var r := groups[|groups| - 1].record;
      SeqsUsed(groups[..|groups| - 1]) + if r.Some? then |r.value.ops| else 0
  }

  ghost function LogOf(groups: seq<Group>): seq<Record> {
    if groups == [] then []
    else
      var g := groups[|groups| - 1];
      LogOf(groups[..|groups| - 1]) + if g.logged && g.record.Some? then [g.record.value] else []
  }

  /** A prefix of the queue that may be written as one record. */
  ghost predicate GoodMembers(ws: seq<Writer>, ops: seq<Op>) {
    && ws != [] && ws[0].batch.Some?
    && ops == AllOps(ws)
    && (forall i :: 0 <= i < |ws| && ws[i].sync ==> ws[0].sync)
    && (TotalBytes(ws) <= MaxSize(BytesOf(ws[0])) || TotalBytes(ws) == BytesOf(ws[0]))
  }

  ghost predicate GoodGroup(g: Group) {
    if g.record.Some? then GoodMembers(g.members, g.record.value.ops) && (g.ok ==> g.logged)
    else |g.members| == 1 && (g.ok ==> g.members[0].batch.None?)
  }

  /** Each record's sequence numbers follow on those of the groups before it. */
  ghost predicate Numbered(groups: seq<Group>) {
    groups == [] ||
    (var g, earlier := groups[|groups| - 1], groups[..|groups| - 1];
     Numbered(earlier) && (g.record.Some? ==> g.record.value.first == SeqsUsed(earlier) + 1))
  }

  /** The last sequence numbers between the groups. */
  ghost function Boundaries(groups: seq<Group>): set<nat> {
    if groups == [] then {0} else Boundaries(groups[..|groups| - 1]) + {SeqsUsed(groups)}
  }

  ghost predicate LeaderInv(q: Queue) {
    && (!q.leader.NoLeader? ==> q.waiting != [])
    && (q.leader.Writing? || q.leader.Written? ==>
          && q.leader.n <= |q.waiting| && GoodMembers(q.waiting[..q.leader.n], q.leader.record.ops)
          && q.leader.record.first == q.lastSeq + 1)
    && (q.leader.Written? && q.leader.ok ==> q.leader.logged)
  }

  ghost predicate Inv(q: Queue) {
    && q.arrived == Served(q.groups) + q.waiting
    && q.lastSeq == SeqsUsed(q.groups)
    && q.log == LogOf(q.groups) + (if q.leader.Written? && q.leader.logged then [q.leader.record] else [])
    && LeaderInv(q)
    && (forall i :: 0 <= i < |q.groups| ==> GoodGroup(q.groups[i]))
    && Numbered(q.groups)
    && q.snapshots <= Boundaries(q.groups)
  }

  // What one more group adds to each account.

  lemma ServedNext(groups: seq<Group>, g: Group, waiting: seq<Writer>)
    requires g.members <= waiting
    ensures Served(groups) + waiting == Served(groups + [g]) + waiting[|g.members|..]
  {
    assert (groups + [g])[..|groups|] == groups;
    assert waiting == g.members + waiting[|g.members|..];
  }

  lemma NumberedNext(groups: seq<Group>, g: Group)
    requires Numbered(groups) && (g.record.Some? ==> g.record.value.first == SeqsUsed(groups) + 1)
    ensures Numbered(groups + [g])
    ensures SeqsUsed(groups + [g]) == SeqsUsed(groups) + if g.record.Some? then |g.record.value.ops| else 0
    ensures Boundaries(groups) <= Boundaries(groups + [g])
  {
    assert (groups + [g])[..|groups|] == groups;
  }

  lemma LoggedNext(groups: seq<Group>, g: Group)
    ensures LogOf(groups + [g]) == LogOf(groups) + if g.logged && g.record.Some? then [g.record.value] else []
  {
    assert (groups + [g])[..|groups|] == groups;
  }

  lemma PopKeeps(q: Queue, n: nat, record: Option<Record>, logged: bool, ok: bool)
    requires Inv(q) && 1 <= n <= |q.waiting|
    requires GoodGroup(Group(q.waiting[..n], record, logged, ok))
    requires record.Some? ==> record.value.first == q.lastSeq + 1
    requires q.log == LogOf(q.groups) + if logged && record.Some? then [record.value] else []
    ensures Inv(Pop(q, n, record, logged, ok))
  {
    var g := Group(q.waiting[..n], record, logged, ok);
    ServedNext(q.groups, g, q.waiting);
    NumberedNext(q.groups, g);
    LoggedNext(q.groups, g);
  }

  lemma StepKeeps(q: Queue, step: Step)
    requires Inv(q) && Can(q, step)
    ensures Inv(Do(q, step))
  {
    match step
    case Arrive(w) =>
      assert q.leader.Writing? || q.leader.Written? ==>
               (q.waiting + [w])[..q.leader.n] == q.waiting[..q.leader.n];
    case Lead =>
    case SwitchMemtable =>
    case RoomFails => PopKeeps(q, 1, None, false, false);
    case RoomForEmpty => PopKeeps(q, 1, None, false, true);
    case FormGroup(n, ops) =>
      GroupFits(q.waiting, n);
      forall i | 0 <= i < n && q.waiting[i].sync
        ensures q.waiting[0].sync
      {
        assert i > 0 ==> Joins(q.waiting, i);
      }
    case WriteGroup(_, _) =>
    case PopGroup => PopKeeps(q, q.leader.n, Some(q.leader.record), q.leader.logged, q.leader.ok);
    case TakeSnapshot =>
  }

  lemma {:induction false} RunKeeps(q: Queue, steps: seq<Step>)
    requires Inv(q) && IsRun(q, steps)
    ensures Inv(After(q, steps))
    decreases |steps|
  {
    if steps != [] {
      StepKeeps(q, steps[0]);
      RunKeeps(Do(q, steps[0]), steps[1..]);
    }
  }

  // ----- the theorems -----

  /** In every run: writers are popped once each and in the order they arrived; a group that is
      written holds exactly its members' operations in that order, within the size cap, and a
      member that asked for a sync only if the leader did; the log holds the records of every
      group that succeeded, in order; and the records' sequence numbers are contiguous. */
  lemma GroupsServeTheQueueInOrder(steps: seq<Step>)
    requires IsRun(Init(), steps)
    ensures var q := After(Init(), steps);
            && Served(q.groups) <= q.arrived
            && (q.leader.NoLeader? ==> q.log == LogOf(q.groups))
            && Numbered(q.groups)
            && (forall i :: 0 <= i < |q.groups| ==> GoodGroup(q.groups[i]))
            && (forall i :: 0 <= i < |q.groups| && q.groups[i].record.Some? ==>
                  InQueueOrder(q.groups[i].members, |q.groups[i].members|, q.groups[i].record.value.ops))
  {
    RunKeeps(Init(), steps);
    var q := After(Init(), steps);
    forall i | 0 <= i < |q.groups| && q.groups[i].record.Some?
      ensures InQueueOrder(q.groups[i].members, |q.groups[i].members|, q.groups[i].record.value.ops)
    {
      RecordInQueueOrder(q.groups[i]);
    }
  }

  lemma RecordInQueueOrder(g: Group)
    requires GoodGroup(g) && g.record.Some?
    ensures InQueueOrder(g.members, |g.members|, g.record.value.ops)
  {
    assert g.members[..|g.members|] == g.members;
    OpsInQueueOrder(g.members, |g.members|);
  }

  /** The writers that arrive in a run, in order. */
  ghost function Arrivals(steps: seq<Step>): seq<Writer> {
    if steps == [] then [] else (if steps[0].Arrive? then [steps[0].w] else []) + Arrivals(steps[1..])
  }

  lemma ArrivesInAStep(q: Queue, step: Step, q': Queue)
    requires Can(q, step) && q' == Do(q, step)
    ensures q'.arrived == q.arrived + if step.Arrive? then [step.w] else []
  {
  }

  lemma {:induction false} ArrivedFrom(q: Queue, steps: seq<Step>)
    requires IsRun(q, steps)
    ensures After(q, steps).arrived == q.arrived + Arrivals(steps)
    decreases |steps|
  {
    if steps != [] {
      var q' := Do(q, steps[0]);
      ArrivesInAStep(q, steps[0], q');
      ArrivedFrom(q', steps[1..]);
      var first, rest := if steps[0].Arrive? then [steps[0].w] else [], Arrivals(steps[1..]);
      assert q.arrived + first + rest == q.arrived + (first + rest);
    } else {
      assert q.arrived + [] == q.arrived;
    }
  }

  /** How many writers the groups before g have. */
  function MembersBefore(groups: seq<Group>, g: nat): nat
    requires g <= |groups|
  {
    if g == 0 then 0 else MembersBefore(groups, g - 1) + |groups[g - 1].members|
  }

  lemma {:induction false} ServedAt(groups: seq<Group>, n: nat, g: nat, j: nat)
    requires g < n <= |groups| && j < |groups[g].members|
    ensures |Served(groups[..n])| == MembersBefore(groups, n) && MembersBefore(groups, g) + j < |Served(groups[..n])|
    ensures Served(groups[..n])[MembersBefore(groups, g) + j] == groups[g].members[j]
    decreases n
  {
    assert groups[..n][..n - 1] == groups[..n - 1];
    if g < n - 1 {
      ServedAt(groups, n - 1, g, j);
    } else {
      ServedLength(groups, n - 1);
    }
  }

  lemma {:induction false} ServedLength(groups: seq<Group>, n: nat)
    requires n <= |groups|
    ensures |Served(groups[..n])| == MembersBefore(groups, n)
    decreases n
  {
    if n > 0 {
      assert groups[..n][..n - 1] == groups[..n - 1];
      ServedLength(groups, n - 1);
    }
  }

  /** In every run, member j of group g is the writer who arrived next after the members of the groups before and
      the j members before. */
  lemma WritersAreServedAsTheyArrive(steps: seq<Step>, g: nat, j: nat)
    requires IsRun(Init(), steps)
    requires var q := After(Init(), steps); g < |q.groups| && j < |q.groups[g].members|
    ensures var q := After(Init(), steps);
            && MembersBefore(q.groups, g) + j < |Arrivals(steps)|
            && q.groups[g].members[j] == Arrivals(steps)[MembersBefore(q.groups, g) + j]
  {
    RunKeeps(Init(), steps);
    ArrivedFrom(Init(), steps);
    ServedAsArrived(After(Init(), steps), Arrivals(steps), g, j);
  }

  lemma ServedAsArrived(q: Queue, arrivals: seq<Writer>, g: nat, j: nat)
    requires q.arrived == Served(q.groups) + q.waiting == arrivals && g < |q.groups| && j < |q.groups[g].members|
    ensures MembersBefore(q.groups, g) + j < |arrivals|
    ensures q.groups[g].members[j] == arrivals[MembersBefore(q.groups, g) + j]
  {
    ServedAt(q.groups, |q.groups|, g, j);
    assert q.groups[..|q.groups|] == q.groups;
  }

  lemma {:induction false} BoundariesUpTo(groups: seq<Group>, s: nat)
    requires s in Boundaries(groups)
    ensures s <= SeqsUsed(groups)
  {
    if groups != [] && s != SeqsUsed(groups) { BoundariesUpTo(groups[..|groups| - 1], s); }
  }

  lemma {:induction false} NumberedBelow(groups: seq<Group>, j: nat)
    requires Numbered(groups) && j < |groups| && groups[j].record.Some?
    ensures var r := groups[j].record.value; r.first + |r.ops| <= SeqsUsed(groups) + 1
  {
    if j < |groups| - 1 { NumberedBelow(groups[..|groups| - 1], j); }
  }

  lemma {:induction false} RecordsAreApart(groups: seq<Group>, g: nat, g': nat)
    requires Numbered(groups) && g < g' < |groups| && groups[g].record.Some? && groups[g'].record.Some?
    ensures groups[g].record.value.first + |groups[g].record.value.ops| <= groups[g'].record.value.first
  {
    var earlier := groups[..|groups| - 1];
    if g' < |groups| - 1 { RecordsAreApart(earlier, g, g'); } else { NumberedBelow(earlier, g); }
  }

  lemma {:induction false} BoundariesSplitNoGroup(groups: seq<Group>, s: nat, j: nat)
    requires Numbered(groups) && s in Boundaries(groups) && j < |groups| && groups[j].record.Some?
    ensures var r := groups[j].record.value; s < r.first || r.first + |r.ops| <= s + 1
  {
    var earlier := groups[..|groups| - 1];
    if s == SeqsUsed(groups) {
      NumberedBelow(groups, j);
    } else if j < |groups| - 1 {
      BoundariesSplitNoGroup(earlier, s, j);
    } else {
      BoundariesUpTo(earlier, s);
    }
  }

  /** Any snapshot sees all of a group or nothing of it. */
  lemma SnapshotsSeeWholeGroups(steps: seq<Step>, s: nat, j: nat)
    requires IsRun(Init(), steps)
    requires var q := After(Init(), steps);
             s in q.snapshots && j < |q.groups| && q.groups[j].record.Some?
    ensures var r := After(Init(), steps).groups[j].record.value;
            s < r.first || r.first + |r.ops| <= s + 1
  {
    RunKeeps(Init(), steps);
    BoundariesSplitNoGroup(After(Init(), steps).groups, s, j);
  }

  // ----- who gets a memtable switch -----

  /** In each group, a leader without a batch that was answered OK had its switch, and nobody behind a leader
      had one. */
  ghost predicate Switched(groups: seq<Group>, forced: set<nat>) {
    groups == [] ||
    (var g, earlier := groups[|groups| - 1], groups[..|groups| - 1];
     && Switched(earlier, forced)
     && (g.ok && g.members != [] && g.members[0].batch.None? ==> |Served(earlier)| in forced)
     && forall a :: a in forced ==> a <= |Served(earlier)| || |Served(groups)| <= a)
  }

  ghost predicate SwitchInv(q: Queue) {
    && Switched(q.groups, q.forced)
    && (forall a :: a in q.forced ==> a <= |Served(q.groups)|)
    && (q.leader == MakingRoom(true) ==> q.waiting != [] && q.waiting[0].batch.None?)
    && (|Served(q.groups)| in q.forced <==>
          q.leader == MakingRoom(false) && q.waiting != [] && q.waiting[0].batch.None?)
  }

  lemma {:induction false} SwitchedStays(groups: seq<Group>, forced: set<nat>, a: nat)
    requires Switched(groups, forced) && |Served(groups)| <= a
    ensures Switched(groups, forced + {a})
  {
    if groups != [] {
      assert |Served(groups[..|groups| - 1])| <= |Served(groups)|;
      SwitchedStays(groups[..|groups| - 1], forced, a);
    }
  }

  lemma PopSwitches(q: Queue, n: nat, record: Option<Record>, logged: bool, ok: bool)
    requires SwitchInv(q) && 1 <= n <= |q.waiting| && !q.leader.NoLeader?
    requires ok && q.waiting[0].batch.None? ==> q.leader == MakingRoom(false)
    ensures SwitchInv(Pop(q, n, record, logged, ok))
  {
    var g := Group(q.waiting[..n], record, logged, ok);
    assert (q.groups + [g])[..|q.groups|] == q.groups;
    assert |Served(q.groups + [g])| == |Served(q.groups)| + n;
    assert Switched(q.groups + [g], q.forced);
  }

  lemma ForcedSwitchKeeps(q: Queue)
    requires SwitchInv(q) && q.leader == MakingRoom(true)
    ensures SwitchInv(q.(leader := MakingRoom(false), forced := q.forced + {|Served(q.groups)|}))
  {
    SwitchedStays(q.groups, q.forced, |Served(q.groups)|);
  }

  lemma SwitchStepKeeps(q: Queue, step: Step)
    requires Inv(q) && SwitchInv(q) && Can(q, step)
    ensures SwitchInv(Do(q, step))
  {
    match step
    case SwitchMemtable =>
      assert |q.arrived| - |q.waiting| == |Served(q.groups)|;
      if q.leader.force { ForcedSwitchKeeps(q); }
    case RoomFails => PopSwitches(q, 1, None, false, false);
    case RoomForEmpty => PopSwitches(q, 1, None, false, true);
    case PopGroup => PopSwitches(q, q.leader.n, Some(q.leader.record), q.leader.logged, q.leader.ok);
    case _ =>
  }

  lemma {:induction false} SwitchRunKeeps(q: Queue, steps: seq<Step>)
    requires Inv(q) && SwitchInv(q) && IsRun(q, steps)
    ensures Inv(After(q, steps)) && SwitchInv(After(q, steps))
    decreases |steps|
  {
    if steps != [] {
      StepKeeps(q, steps[0]);
      SwitchStepKeeps(q, steps[0]);
      SwitchRunKeeps(Do(q, steps[0]), steps[1..]);
    }
  }

  lemma SwitchesInRuns(steps: seq<Step>)
    requires IsRun(Init(), steps)
    ensures SwitchInv(After(Init(), steps))
  {
    SwitchRunKeeps(Init(), steps);
  }

  lemma {:induction false} SwitchedAt(groups: seq<Group>, forced: set<nat>, i: nat, j: nat)
    requires Switched(groups, forced) && i < |groups| && j < |groups[i].members| && groups[i].ok
    ensures j > 0 ==> |Served(groups[..i])| + j !in forced
    ensures j == 0 && groups[i].members[0].batch.None? ==> |Served(groups[..i])| in forced
  {
    var n := |groups| - 1;
    if i < n {
      SwitchedAt(groups[..n], forced, i, j);
      assert groups[..n][..i] == groups[..i];
    } else {
      assert |Served(groups)| == |Served(groups[..n])| + |groups[n].members|;
    }
  }

  lemma LeadersGetTheirSwitch(q: Queue, i: nat, j: nat)
    requires SwitchInv(q) && i < |q.groups| && j < |q.groups[i].members|
    requires q.groups[i].ok && q.groups[i].members[j].batch.None?
    ensures |Served(q.groups[..i])| + j in q.forced <==> j == 0
  {
    SwitchedAt(q.groups, q.forced, i, j);
  }

  /** In every run, a write without a batch that is answered OK has had a memtable switch forced for it exactly
      if it led its own group; one that another write's group swallowed has had none, although
      CompactMemTable and CompactRange rely on it. */
  lemma EmptyWriteForcesASwitchIffItLeads(steps: seq<Step>, q: Queue, i: nat, j: nat)
    requires IsRun(Init(), steps) && q == After(Init(), steps)
    requires i < |q.groups| && j < |q.groups[i].members| && q.groups[i].ok && q.groups[i].members[j].batch.None?
    ensures |Served(q.groups[..i])| + j in q.forced <==> j == 0
  {
    SwitchesInRuns(steps);
    LeadersGetTheirSwitch(q, i, j);
  }

  const AHEAD := Writer(0, Some(Batch([Op("k", Some("v"))], 20)), false)
  const EMPTY := Writer(1, None, false)

  lemma SwallowedInAQueueOfTwo()
    ensures IsGroup([AHEAD, EMPTY], 2) && AllOps([AHEAD, EMPTY]) == [Op("k", Some("v"))]
  {
    assert [AHEAD, EMPTY][..1] == [AHEAD] && [AHEAD][..0] == [];
    assert AllOps([AHEAD]) == [Op("k", Some("v"))];
  }

  /** It happens: a write without a batch arrives behind another and is answered OK with it, and no memtable is
      switched. */
  lemma EmptyWriteIsSwallowed() returns (steps: seq<Step>)
    ensures IsRun(Init(), steps)
    ensures var q := After(Init(), steps);
            && |q.groups| == 1 && q.groups[0].ok && q.groups[0].members == [AHEAD, EMPTY] && q.forced == {}
  {
    var ops := [Op("k", Some("v"))];
    SwallowedInAQueueOfTwo();
    assert [AHEAD, EMPTY][..2] == [AHEAD, EMPTY];
    var q0, q1 := Init(), Do(Init(), Arrive(AHEAD));
    var q2 := Do(q1, Arrive(EMPTY));
    assert q2.waiting == [AHEAD, EMPTY];
    var q3 := Do(q2, Lead);
    var q4 := Do(q3, FormGroup(2, ops));
    var q5 := Do(q4, WriteGroup(true, true));
    RunStep(q5, PopGroup, []);
    RunStep(q4, WriteGroup(true, true), [PopGroup] + []);
    RunStep(q3, FormGroup(2, ops), [WriteGroup(true, true)] + ([PopGroup] + []));
    steps := [FormGroup(2, ops)] + ([WriteGroup(true, true)] + ([PopGroup] + []));
    RunStep(q2, Lead, steps);
    RunStep(q1, Arrive(EMPTY), [Lead] + steps);
    RunStep(q0, Arrive(AHEAD), [Arrive(EMPTY)] + ([Lead] + steps));
    steps := [Arrive(AHEAD)] + ([Arrive(EMPTY)] + ([Lead] + steps));
  }

  lemma RunStep(q: Queue, step: Step, rest: seq<Step>)
    requires Can(q, step) && IsRun(Do(q, step), rest)
    ensures IsRun(q, [step] + rest) && After(q, [step] + rest) == After(Do(q, step), rest)
  {
    assert ([step] + rest)[1..] == rest;
  }

  // ----- the queue drains -----

  lemma GroupExists(ws: seq<Writer>) returns (n: nat)
    requires ws != []
    ensures IsGroup(ws, n)
  {
    n := 1;
    while n < |ws| && Joins(ws, n)
      invariant 1 <= n <= |ws| && forall i :: 0 < i < n ==> Joins(ws, i)
    {
      n := n + 1;
    }
  }

  /** These steps, without arrivals, lead to q', where fewer wait. */
  ghost predicate ServesSome(q: Queue, steps: seq<Step>) {
    && IsRun(q, steps)
    && var q' := After(q, steps);
       && Inv(q') && q'.leader.NoLeader? && q'.arrived == q.arrived && |q'.waiting| < |q.waiting|
       && |q'.groups| == |q.groups| + 1 && q'.groups[..|q.groups|] == q.groups && q'.groups[|q.groups|].ok
  }

  lemma StepThenServes(q: Queue, step: Step, q': Queue, rest: seq<Step>)
    requires Can(q, step) && q' == Do(q, step) && ServesSome(q', rest)
    requires q'.arrived == q.arrived && q'.waiting == q.waiting && q'.groups == q.groups
    ensures ServesSome(q, [step] + rest)
  {
    RunStep(q, step, rest);
  }

  lemma PopServes(q: Queue, step: Step, q': Queue)
    requires Inv(q) && Can(q, step) && q' == Do(q, step)
    requires (step.PopGroup? && q.leader.ok && q.leader.n > 0) || step.RoomForEmpty?
    ensures ServesSome(q, [step] + [])
  {
    StepKeeps(q, step);
    RunStep(q, step, []);
  }

  lemma BatchIsServed(q: Queue) returns (steps: seq<Step>)
    requires Inv(q) && q.leader == MakingRoom(false) && q.waiting != [] && q.waiting[0].batch.Some?
    ensures ServesSome(q, steps)
  {
    var n := GroupExists(q.waiting);
    var form := FormGroup(n, AllOps(q.waiting[..n]));
    var q1 := Do(q, form);
    var q2 := Do(q1, WriteGroup(true, true));
    StepKeeps(q, form);
    StepKeeps(q1, WriteGroup(true, true));
    PopServes(q2, PopGroup, Do(q2, PopGroup));
    StepThenServes(q1, WriteGroup(true, true), q2, [PopGroup] + []);
    StepThenServes(q, form, q1, [WriteGroup(true, true)] + ([PopGroup] + []));
    steps := [form] + ([WriteGroup(true, true)] + ([PopGroup] + []));
  }

  lemma HeadIsServed(q: Queue) returns (steps: seq<Step>)
    requires Inv(q) && q.leader.NoLeader? && q.waiting != []
    ensures ServesSome(q, steps)
  {
    var q1 := Do(q, Lead);
    StepKeeps(q, Lead);
    var q2 := Do(q1, SwitchMemtable);
    StepKeeps(q1, SwitchMemtable);
    var rest;
    if q.waiting[0].batch.Some? {
      rest := BatchIsServed(q2);
    } else {
      PopServes(q2, RoomForEmpty, Do(q2, RoomForEmpty));
      rest := [RoomForEmpty] + [];
    }
    StepThenServes(q1, SwitchMemtable, q2, rest);
    StepThenServes(q, Lead, q1, [SwitchMemtable] + rest);
    steps := [Lead] + ([SwitchMemtable] + rest);
  }

  lemma RunThenRun(q: Queue, a: seq<Step>, b: seq<Step>)
    requires IsRun(q, a) && IsRun(After(q, a), b)
    ensures IsRun(q, a + b) && After(q, a + b) == After(After(q, a), b)
    decreases |a|
  {
    if a == [] {
      assert a + b == b;
    } else {
      assert (a + b)[1..] == a[1..] + b;
      RunThenRun(Do(q, a[0]), a[1..], b);
    }
  }

  /** From any state between groups, the queue can be drained: every writer that has arrived is then answered. */
  lemma {:induction false} QueueDrains(q: Queue) returns (steps: seq<Step>)
    requires Inv(q) && q.leader.NoLeader?
    ensures IsRun(q, steps) && After(q, steps).waiting == [] && After(q, steps).arrived == q.arrived
    ensures Served(After(q, steps).groups) == q.arrived
    decreases |q.waiting|
  {
    if q.waiting == [] {
      steps := [];
      assert Served(q.groups) + [] == Served(q.groups);
    } else {
      var first := HeadIsServed(q);
      var rest := QueueDrains(After(q, first));
      RunThenRun(q, first, rest);
      steps := first + rest;
    }
  }
}
