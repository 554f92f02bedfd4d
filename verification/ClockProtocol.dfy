/**
 The CLOCK cache shard under concurrency: packed flags changed by atomic operations, references
 taken and dropped without the mutex, and handles that are recycled and filled again. Every atomic
 action is a step; any thread may take the next.
 */
module ClockProtocol {
  import opened Options

  type Key = int
  type Value = int

  // ----- the packed flags -----

  const IN_CACHE: nat := 1
  const USAGE: nat := 2
  const ONE_REF: nat := 4

  predicate InCache(flags: nat) { flags % 2 == 1 }

  predicate HasUsage(flags: nat) { flags / 2 % 2 == 1 }

  function CountRefs(flags: nat): nat { flags / 4 }

  function ClearInCache(flags: nat): nat { if InCache(flags) then flags - IN_CACHE else flags }

  function SetUsage(flags: nat): nat { if HasUsage(flags) then flags else flags + USAGE }

  function ClearUsage(flags: nat): nat { if HasUsage(flags) then flags - USAGE else flags }

  // Each operation on the packed word changes its own field and no other.

  lemma AddRefFields(flags: nat)
    ensures CountRefs(flags + ONE_REF) == CountRefs(flags) + 1
    ensures InCache(flags + ONE_REF) == InCache(flags) && HasUsage(flags + ONE_REF) == HasUsage(flags)
  {
  }

  lemma DropRefFields(flags: nat)
    requires CountRefs(flags) > 0
    ensures flags >= ONE_REF && CountRefs(flags - ONE_REF) == CountRefs(flags) - 1
    ensures InCache(flags - ONE_REF) == InCache(flags) && HasUsage(flags - ONE_REF) == HasUsage(flags)
  {
  }

  lemma ClearInCacheFields(flags: nat)
    ensures CountRefs(ClearInCache(flags)) == CountRefs(flags) && !InCache(ClearInCache(flags))
  {
    var q, r := flags / 4, flags % 4;
    assert flags % 2 == r % 2;
    if InCache(flags) {
      assert flags - 1 == 4 * q + (r - 1) && 0 <= r - 1 < 4;
    }
  }

  lemma UsageFields(flags: nat)
    ensures CountRefs(SetUsage(flags)) == CountRefs(flags) && InCache(SetUsage(flags)) == InCache(flags)
    ensures CountRefs(ClearUsage(flags)) == CountRefs(flags) && InCache(ClearUsage(flags)) == InCache(flags)
    ensures HasUsage(SetUsage(flags)) && !HasUsage(ClearUsage(flags))
  {
  }

  // ----- the shard -----

  /** `life` tells the uses of a recycled handle apart; it is history. */
  datatype Handle = Handle(key: Key, val: Value, charge: nat, flags: nat, life: nat)

  datatype Job = Job(key: Key, val: Value, charge: nat, hold: bool)

  datatype Pc =
    | Idle
    // Lookup
    | Found(key: Key, h: nat)
    | Counted(key: Key, h: nat, charge: nat)   // first reference taken, not yet in pinned_usage_
    | Comparing(key: Key, h: nat)
    | Holding(key: Key, h: nat, val: Value, life: nat)
    // Unref
    | Releasing(h: nat, setUsage: bool)
    | Dropping(h: nat, charge: nat)
    | Unpinning(h: nat, charge: nat, last: bool)
    | Recycling(h: nat, charge: nat)
    // Insert, with the mutex
    | Inserting(job: Job)
    | Evicted(h: nat, charge: nat, job: Job)
    | Filling(h: nat, job: Job)
    | Filled(h: nat, job: Job)
    | Publishing(h: nat, job: Job)
    | Replacing(h: nat, old_: nat, job: Job)
    | Replaced(h: nat, old_: nat, charge: nat, job: Job)
    | Linking(h: nat, job: Job)
    | Accounting(h: nat, job: Job)
    // Erase, with the mutex
    | Erasing(h: nat)
    | Erased(h: nat, charge: nat)

  datatype State = State(
    handles: seq<Handle>, bin: seq<nat>, table: map<Key, nat>,
    usage: int, pinned: int,
    pcs: seq<Pc>, mutex: Option<nat>,
    lives: nat, recycled: set<nat>)

  function Init(threads: nat): State {
    State([], [], map[], 0, 0, seq(threads, _ => Idle), None, 0, {})
  }

  datatype Step =
    | Find(t: nat, key: Key)
    | RefCas(t: nat)
    | AddPinned(t: nat)
    | CompareKey(t: nat)
    | Release(t: nat)
    | MarkUsage(t: nat)
    | Drop(t: nat)
    | Unpin(t: nat)
    | Recycle(t: nat)
    | BeginInsert(t: nat, job: Job)
    | TryEvict(t: nat, victim: nat)
    | EraseEvicted(t: nat)
    | GiveUp(t: nat)
    | Grab(t: nat)
    | Fill(t: nat)
    | Publish(t: nat)
    | FindExisting(t: nat)
    | UnsetOld(t: nat)
    | RecycleOld(t: nat)
    | Link(t: nat)
    | Account(t: nat)
    | Erase(t: nat, key: Key)
    | UnsetErased(t: nat)
    | RecycleErased(t: nat)

  ghost predicate Can(s: State, step: Step) {
    step.t < |s.pcs| &&
    var pc := s.pcs[step.t];
    match step
    case Find(t, key) => pc.Idle?
    case RefCas(t) => pc.Found?
    case AddPinned(t) => pc.Counted?
    case CompareKey(t) => pc.Comparing?
    case Release(t) => pc.Holding?
    case MarkUsage(t) => pc.Releasing?
    case Drop(t) => pc.Dropping?
    case Unpin(t) => pc.Unpinning?
    case Recycle(t) => pc.Recycling? && s.mutex.None?
    case BeginInsert(t, job) => pc.Idle? && s.mutex.None?
    case TryEvict(t, victim) => pc.Inserting? && victim < |s.handles|
    case EraseEvicted(t) => pc.Evicted?
    case GiveUp(t) => pc.Inserting?
    case Grab(t) => pc.Inserting?
    case Fill(t) => pc.Filling?
    case Publish(t) => pc.Filled?
    case FindExisting(t) => pc.Publishing?
    case UnsetOld(t) => pc.Replacing?
    case RecycleOld(t) => pc.Replaced?
    case Link(t) => pc.Linking?
    case Account(t) => pc.Accounting?
    case Erase(t, key) => pc.Idle? && s.mutex.None?
    case UnsetErased(t) => pc.Erasing?
    case RecycleErased(t) => pc.Erased?
  }

  /** The handle a thread works on exists. */
  ghost predicate Known(s: State, pc: Pc) {
    match pc
    case Idle => true
    case Inserting(_) => true
    case Replacing(h, old_, _) => h < |s.handles| && old_ < |s.handles|
    case Replaced(h, old_, _, _) => h < |s.handles| && old_ < |s.handles|
    case _ => pc.h < |s.handles|
  }

  /** What the code asserts, or needs, where it takes the step. */
  ghost predicate Safe(s: State, step: Step)
    requires Can(s, step)
  {
    var pc := s.pcs[step.t];
    && Known(s, pc)
    && (forall k :: k in s.table ==> s.table[k] < |s.handles|)
    && match step
       case Drop(t) => CountRefs(s.handles[pc.h].flags) > 0
       case Recycle(t) => Recyclable(s, pc.h)
       case EraseEvicted(t) =>
         Recyclable(s, pc.h) && s.handles[pc.h].key in s.table && s.table[s.handles[pc.h].key] == pc.h
       case RecycleOld(t) => Recyclable(s, pc.old_)
       case RecycleErased(t) => Recyclable(s, pc.h)
       case Grab(t) => forall i :: 0 <= i < |s.bin| ==> s.bin[i] < |s.handles|
       case Publish(t) =>
         // the blind store of the flags overwrites no reference
         !InCache(s.handles[pc.h].flags) && CountRefs(s.handles[pc.h].flags) == 0
       case _ => true
  }

  /** A step that thread cannot take here, or whose asserts fail. */
  ghost predicate Fails(s: State, step: Step) {
    !Can(s, step) || !Safe(s, step)
  }

  ghost predicate Recyclable(s: State, h: nat) {
    && h < |s.handles|
    && !InCache(s.handles[h].flags) && CountRefs(s.handles[h].flags) == 0
    && h !in s.bin && s.handles[h].life !in s.recycled
  }

  ghost function At(s: State, t: nat, pc: Pc): State
    requires t < |s.pcs|
  {
    s.(pcs := s.pcs[t := pc])
  }

  ghost function WithFlags(s: State, h: nat, flags: nat): State
    requires h < |s.handles|
  {
    s.(handles := s.handles[h := s.handles[h].(flags := flags)])
  }

  /** RecycleHandle: the value goes to be deleted and the handle to the bin. */
  ghost function ToBin(s: State, h: nat): State
    requires h < |s.handles|
  {
    s.(bin := s.bin + [h], usage := s.usage - s.handles[h].charge, recycled := s.recycled + {s.handles[h].life})
  }

  ghost function Do(s: State, step: Step): State
    requires !Fails(s, step)
  {
    var t, pc := step.t, s.pcs[step.t];
    match step
    case Find(_, key) => if key in s.table then At(s, t, Found(key, s.table[key])) else s
    case RefCas(_) =>
      // the compare-and-swap loop: succeeds on a word that has the in-cache bit
      var h := s.handles[pc.h];
      if !InCache(h.flags) then At(s, t, Idle)
      else At(WithFlags(s, pc.h, h.flags + ONE_REF), t,
              if CountRefs(h.flags) == 0 then Counted(pc.key, pc.h, h.charge) else Comparing(pc.key, pc.h))
    case AddPinned(_) => At(s.(pinned := s.pinned + pc.charge), t, Comparing(pc.key, pc.h))
    case CompareKey(_) =>
      // the handle may by now be another entry's
      var h := s.handles[pc.h];
      if h.key == pc.key then At(s, t, Holding(pc.key, pc.h, h.val, h.life)) else At(s, t, Releasing(pc.h, false))
    case Release(_) => At(s, t, Releasing(pc.h, true))
    case MarkUsage(_) =>
      var h := s.handles[pc.h];
      At(if pc.setUsage then WithFlags(s, pc.h, SetUsage(h.flags)) else s, t, Dropping(pc.h, h.charge))
    case Drop(_) =>
      var f := s.handles[pc.h].flags;
      At(WithFlags(s, pc.h, f - ONE_REF), t,
         if CountRefs(f) == 1 then Unpinning(pc.h, pc.charge, !InCache(f)) else Idle)
    case Unpin(_) => At(s.(pinned := s.pinned - pc.charge), t, if pc.last then Recycling(pc.h, pc.charge) else Idle)
    case Recycle(_) => At(ToBin(s, pc.h), t, Idle)
    case BeginInsert(_, job) => At(s.(mutex := Some(t)), t, Inserting(job))
    case TryEvict(_, victim) =>
      var f := s.handles[victim].flags;
      if f == IN_CACHE then At(WithFlags(s, victim, 0), t, Evicted(victim, s.handles[victim].charge, pc.job))
      else WithFlags(s, victim, ClearUsage(f))
    case EraseEvicted(_) => At(ToBin(s.(table := s.table - {s.handles[pc.h].key}), pc.h), t, Inserting(pc.job))
    case GiveUp(_) => At(s.(mutex := None), t, Idle)
    case Grab(_) =>
      if s.bin != [] then At(s.(bin := s.bin[..|s.bin| - 1]), t, Filling(s.bin[|s.bin| - 1], pc.job))
      else At(s.(handles := s.handles + [Handle(0, 0, 0, 0, s.lives)], lives := s.lives + 1), t,
              Filling(|s.handles|, pc.job))
    case Fill(_) =>
      var j := pc.job;
      At(s.(handles := s.handles[pc.h := Handle(j.key, j.val, j.charge, s.handles[pc.h].flags, s.lives)],
            lives := s.lives + 1),
         t, Filled(pc.h, j))
    case Publish(_) =>
      At(WithFlags(s, pc.h, if pc.job.hold then IN_CACHE + ONE_REF else IN_CACHE), t, Publishing(pc.h, pc.job))
    case FindExisting(_) =>
      var k := pc.job.key;
      if k in s.table then At(s.(table := s.table - {k}), t, Replacing(pc.h, s.table[k], pc.job))
      else At(s, t, Linking(pc.h, pc.job))
    case UnsetOld(_) =>
      var f := s.handles[pc.old_].flags;
      At(WithFlags(s, pc.old_, ClearInCache(f)), t,
         if InCache(f) && CountRefs(f) == 0 then Replaced(pc.h, pc.old_, s.handles[pc.old_].charge, pc.job)
         else Linking(pc.h, pc.job))
    case RecycleOld(_) => At(ToBin(s, pc.old_), t, Linking(pc.h, pc.job))
    case Link(_) => At(s.(table := s.table[pc.job.key := pc.h]), t, Accounting(pc.h, pc.job))
    case Account(_) =>
      var j := pc.job;
      At(s.(pinned := s.pinned + (if j.hold then j.charge else 0), usage := s.usage + j.charge, mutex := None), t,
         if j.hold then Holding(j.key, pc.h, j.val, s.handles[pc.h].life) else Idle)
    case Erase(_, key) =>
      if key in s.table then At(s.(table := s.table - {key}, mutex := Some(t)), t, Erasing(s.table[key])) else s
    case UnsetErased(_) =>
      var f := s.handles[pc.h].flags;
      if InCache(f) && CountRefs(f) == 0 then
        At(WithFlags(s, pc.h, ClearInCache(f)), t, Erased(pc.h, s.handles[pc.h].charge))
      else At(WithFlags(s, pc.h, ClearInCache(f)).(mutex := None), t, Idle)
    case RecycleErased(_) => At(ToBin(s, pc.h).(mutex := None), t, Idle)
  }

  // ----- who has what -----

  /** Quantities that threads contribute to: references on a handle, sole claims on a handle, and
      what the two counters still lack or have too much. */
  datatype Quantity = RefsOn(h: nat) | ClaimsOn(h: nat) | PinnedLag | UsageLag

  function Refs(pc: Pc, h: nat): int {
    match pc
    case Counted(_, x, _) => if x == h then 1 else 0
    case Comparing(_, x) => if x == h then 1 else 0
    case Holding(_, x, _, _) => if x == h then 1 else 0
    case Releasing(x, _) => if x == h then 1 else 0
    case Dropping(x, _) => if x == h then 1 else 0
    case Publishing(x, j) => if x == h && j.hold then 1 else 0
    case Replacing(x, _, j) => if x == h && j.hold then 1 else 0
    case Replaced(x, _, _, j) => if x == h && j.hold then 1 else 0
    case Linking(x, j) => if x == h && j.hold then 1 else 0
    case Accounting(x, j) => if x == h && j.hold then 1 else 0
    case _ => 0
  }

  /** Threads that alone decide over a handle which is neither in the cache, referenced nor in the bin. */
  function Claims(pc: Pc, h: nat): int {
    match pc
    case Unpinning(x, _, last) => if x == h && last then 1 else 0
    case Recycling(x, _) => if x == h then 1 else 0
    case Evicted(x, _, _) => if x == h then 1 else 0
    case Filling(x, _) => if x == h then 1 else 0
    case Filled(x, _) => if x == h then 1 else 0
    case Replaced(_, x, _, _) => if x == h then 1 else 0
    case Erased(x, _) => if x == h then 1 else 0
    case _ => 0
  }

  /** An insert whose entry is in the cache but not yet in the counters. */
  function NotYetCharged(pc: Pc): int {
    match pc
    case Publishing(_, j) => j.charge
    case Replacing(_, _, j) => j.charge
    case Replaced(_, _, _, j) => j.charge
    case Linking(_, j) => j.charge
    case Accounting(_, j) => j.charge
    case _ => 0
  }

  function NotYetPinned(pc: Pc): int {
    match pc
    case Counted(_, _, c) => c
    case Publishing(_, j) => if j.hold then j.charge else 0
    case Replacing(_, _, j) => if j.hold then j.charge else 0
    case Replaced(_, _, _, j) => if j.hold then j.charge else 0
    case Linking(_, j) => if j.hold then j.charge else 0
    case Accounting(_, j) => if j.hold then j.charge else 0
    case _ => 0
  }

  function NotYetUnpinned(pc: Pc): int {
    if pc.Unpinning? then pc.charge else 0
  }

  /** A handle on its way to the bin is still in the usage counter. */
  function NotYetFreed(pc: Pc): int {
    match pc
    case Unpinning(_, c, last) => if last then c else 0
    case Recycling(_, c) => c
    case Evicted(_, c, _) => c
    case Replaced(_, _, c, _) => c
    case Erased(_, c) => c
    case _ => 0
  }

  function Weigh(pc: Pc, q: Quantity): int {
    match q
    case RefsOn(h) => Refs(pc, h)
    case ClaimsOn(h) => Claims(pc, h)
    case PinnedLag => NotYetUnpinned(pc) - NotYetPinned(pc)
    case UsageLag => NotYetFreed(pc) - NotYetCharged(pc)
  }

  ghost function Total(pcs: seq<Pc>, q: Quantity): int {
    if pcs == [] then 0 else Total(pcs[..|pcs| - 1], q) + Weigh(pcs[|pcs| - 1], q)
  }

  lemma {:induction false} TotalUpdate(pcs: seq<Pc>, t: nat, pc: Pc, q: Quantity)
    requires t < |pcs|
    ensures Total(pcs[t := pc], q) == Total(pcs, q) - Weigh(pcs[t], q) + Weigh(pc, q)
  {
    var n := |pcs| - 1;
    if t == n {
      assert pcs[t := pc][..n] == pcs[..n];
    } else {
      assert pcs[t := pc][..n] == pcs[..n][t := pc];
      TotalUpdate(pcs[..n], t, pc, q);
    }
  }

  lemma {:induction false} TotalAtLeast(pcs: seq<Pc>, t: nat, q: Quantity)
    requires t < |pcs| && (q.RefsOn? || q.ClaimsOn?)
    ensures 0 <= Weigh(pcs[t], q) <= Total(pcs, q)
  {
    var n := |pcs| - 1;
    if n > 0 { TotalAtLeast(pcs[..n], if t < n then t else 0, q); }
  }

  ghost function TimesIn(bin: seq<nat>, h: nat): nat {
    if bin == [] then 0 else TimesIn(bin[..|bin| - 1], h) + if bin[|bin| - 1] == h then 1 else 0
  }

  lemma {:induction false} TimesInIsMembership(bin: seq<nat>, h: nat)
    ensures h in bin <==> TimesIn(bin, h) > 0
  {
    if bin != [] {
      TimesInIsMembership(bin[..|bin| - 1], h);
      assert bin == bin[..|bin| - 1] + [bin[|bin| - 1]];
    }
  }

  predicate Occupied(h: Handle) {
    InCache(h.flags) || CountRefs(h.flags) > 0
  }

  ghost function Charged(handles: seq<Handle>): nat {
    if handles == [] then 0
    else
      var h := handles[|handles| - 1];
      Charged(handles[..|handles| - 1]) + if Occupied(h) then h.charge else 0
  }

  ghost function Pinned(handles: seq<Handle>): nat {
    if handles == [] then 0
    else
      var h := handles[|handles| - 1];
      Pinned(handles[..|handles| - 1]) + if CountRefs(h.flags) > 0 then h.charge else 0
  }

  lemma {:induction false} ChargesUpdate(handles: seq<Handle>, i: nat, h: Handle)
    requires i < |handles|
    ensures Charged(handles[i := h]) ==
            Charged(handles) - (if Occupied(handles[i]) then handles[i].charge else 0)
            + (if Occupied(h) then h.charge else 0)
    ensures Pinned(handles[i := h]) ==
            Pinned(handles) - (if CountRefs(handles[i].flags) > 0 then handles[i].charge else 0)
            + (if CountRefs(h.flags) > 0 then h.charge else 0)
  {
    var n := |handles| - 1;
    if i == n {
      assert handles[i := h][..n] == handles[..n];
    } else {
      assert handles[i := h][..n] == handles[..n][i := h];
      ChargesUpdate(handles[..n], i, h);
    }
  }

  // ----- the invariant -----

  /** Every handle is in one place: in use (in the cache or referenced), in the bin, or in the hands
      of one thread. Its reference count is the number of threads that hold it. */
  ghost predicate Placed(s: State, h: nat) {
    if h < |s.handles| then
      && CountRefs(s.handles[h].flags) == Total(s.pcs, RefsOn(h))
      && TimesIn(s.bin, h) + Total(s.pcs, ClaimsOn(h)) + (if Occupied(s.handles[h]) then 1 else 0) == 1
    else
      TimesIn(s.bin, h) == 0 && Total(s.pcs, RefsOn(h)) == 0 && Total(s.pcs, ClaimsOn(h)) == 0
  }

  /** A use of a handle that is not over. */
  ghost predicate Fresh(s: State, h: nat)
    requires h < |s.handles|
  {
    s.handles[h].life !in s.recycled
  }

  /** What a thread remembers of its handle still holds. */
  ghost predicate Remembers(s: State, pc: Pc) {
    && Known(s, pc)
    && match pc
       case Counted(_, h, c) => s.handles[h].charge == c
       case Holding(k, h, v, life) => s.handles[h].key == k && s.handles[h].val == v && s.handles[h].life == life
       case Dropping(h, c) => s.handles[h].charge == c
       case Unpinning(h, c, last) => last ==> s.handles[h].charge == c && Fresh(s, h)
       case Recycling(h, c) => s.handles[h].charge == c && Fresh(s, h)
       case Evicted(h, c, _) => s.handles[h].charge == c && Fresh(s, h)
       case Erased(h, c) => s.handles[h].charge == c && Fresh(s, h)
       case Replaced(h, o, c, j) => s.handles[o].charge == c && Fresh(s, o) && IsFilled(s, h, j)
       case Filled(h, j) => IsFilled(s, h, j) && Fresh(s, h)
       case Publishing(h, j) => IsFilled(s, h, j)
       case Replacing(h, _, j) => IsFilled(s, h, j)
       case Linking(h, j) => IsFilled(s, h, j)
       case Accounting(h, j) => IsFilled(s, h, j)
       case _ => true
  }

  ghost predicate IsFilled(s: State, h: nat, j: Job)
    requires h < |s.handles|
  {
    s.handles[h].key == j.key && s.handles[h].val == j.val && s.handles[h].charge == j.charge
  }

  predicate NeedsMutex(pc: Pc) {
    || pc.Inserting? || pc.Evicted? || pc.Filling? || pc.Filled? || pc.Publishing? || pc.Replacing? || pc.Replaced?
    || pc.Linking? || pc.Accounting? || pc.Erasing? || pc.Erased?
  }

  /** A life is recycled once: never while its handle is in use. */
  ghost predicate LivesOnce(s: State) {
    && (forall l :: l in s.recycled ==> l < s.lives)
    && (forall h :: 0 <= h < |s.handles| ==> s.handles[h].life < s.lives)
    && (forall h, g :: 0 <= h < g < |s.handles| ==> s.handles[h].life != s.handles[g].life)
    && (forall h :: 0 <= h < |s.handles| && Occupied(s.handles[h]) ==> Fresh(s, h))
  }

  ghost predicate Counters(s: State) {
    && s.usage == Charged(s.handles) + Total(s.pcs, UsageLag)
    && s.pinned == Pinned(s.handles) + Total(s.pcs, PinnedLag)
  }

  ghost predicate Threads(s: State) {
    && (forall t :: 0 <= t < |s.pcs| ==> Remembers(s, s.pcs[t]))
    && (forall t :: 0 <= t < |s.pcs| ==> (NeedsMutex(s.pcs[t]) <==> s.mutex == Some(t)))
  }

  /** Where the holder of the mutex is. */
  ghost function Holder(s: State): Pc {
    if s.mutex.Some? && s.mutex.value < |s.pcs| then s.pcs[s.mutex.value] else Idle
  }

  /** A handle that the holder of the mutex has taken out of the table, or not yet put in. */
  ghost predicate Unlinked(s: State, h: nat) {
    match Holder(s)
    case Publishing(x, _) => h == x
    case Replacing(x, o, _) => h == x || h == o
    case Replaced(x, _, _, _) => h == x
    case Linking(x, _) => h == x
    case Erasing(x) => h == x
    case _ => false
  }

  ghost predicate BeingEvicted(s: State, h: nat) {
    Holder(s).Evicted? && Holder(s).h == h
  }

  ghost predicate InTable(s: State, h: nat)
    requires h < |s.handles|
  {
    s.handles[h].key in s.table && s.table[s.handles[h].key] == h
  }

  /** The handles that belong in the table: those in the cache, unless being linked or unlinked right
      now, and one being evicted right now. */
  ghost predicate Tabled(s: State, h: nat)
    requires h < |s.handles|
  {
    !Unlinked(s, h) && (InCache(s.handles[h].flags) || BeingEvicted(s, h))
  }

  /** The entry that the holder of the mutex is inserting: in the cache, and its key free in the table. */
  ghost predicate Pending(s: State) {
    var pc := Holder(s);
    && (pc.Publishing? || pc.Replacing? || pc.Replaced? || pc.Linking? || pc.Accounting? ==>
          pc.h < |s.handles| && InCache(s.handles[pc.h].flags))
    && (pc.Replacing? ==> pc.old_ != pc.h)
    && (pc.Replacing? || pc.Replaced? || pc.Linking? ==> pc.job.key !in s.table)
  }

  ghost predicate Linked(s: State) {
    && (forall k :: k in s.table ==> s.table[k] < |s.handles| && s.handles[s.table[k]].key == k)
    && (forall h :: 0 <= h < |s.handles| ==> (InTable(s, h) <==> Tabled(s, h)))
    && Pending(s)
  }

  /** All but the table. */
  ghost predicate Accounts(s: State) {
    && (forall h :: Placed(s, h))
    && Threads(s) && LivesOnce(s) && Counters(s)
  }

  ghost predicate Inv(s: State) {
    Accounts(s) && Linked(s)
  }

  /** Proofs carry the invariant folded up; to look inside, they mention `Open`. */
  ghost predicate Open(s: State, k: nat) { true }

  ghost predicate Sound(s: State) {
    forall k: nat {:trigger Open(s, k)} :: Open(s, k) ==> Inv(s)
  }

  ghost predicate SoundAccounts(s: State) {
    forall k: nat {:trigger Open(s, k)} :: Open(s, k) ==> Accounts(s)
  }

  lemma Fold(s: State)
    requires Inv(s)
    ensures Sound(s)
  {
  }

  lemma FoldAccounts(s: State)
    requires Accounts(s)
    ensures SoundAccounts(s)
  {
  }

  // ----- what a thread knows of the handle it works on -----

  lemma Remembered(s: State, t: nat)
    requires Sound(s) && t < |s.pcs|
    ensures Remembers(s, s.pcs[t])
    ensures NeedsMutex(s.pcs[t]) <==> s.mutex == Some(t)
    ensures NeedsMutex(s.pcs[t]) ==> Holder(s) == s.pcs[t]
  {
    assert Open(s, 0);
  }

  lemma PlacedNow(s: State, h: nat)
    requires Sound(s)
    ensures Placed(s, h)
  {
    assert Open(s, 0);
  }

  lemma Claimed(s: State, t: nat, h: nat)
    requires Sound(s) && t < |s.pcs| && Claims(s.pcs[t], h) == 1
    ensures h < |s.handles| && !Occupied(s.handles[h]) && h !in s.bin
  {
    assert Open(s, 0);
    assert Placed(s, h);
    TotalAtLeast(s.pcs, t, ClaimsOn(h));
    TimesInIsMembership(s.bin, h);
  }

  lemma Referenced(s: State, t: nat, h: nat)
    requires Sound(s) && t < |s.pcs| && Refs(s.pcs[t], h) == 1
    ensures h < |s.handles| && CountRefs(s.handles[h].flags) > 0
  {
    assert Open(s, 0);
    assert Placed(s, h);
    TotalAtLeast(s.pcs, t, RefsOn(h));
  }

  lemma InUseIsFresh(s: State, h: nat)
    requires Sound(s) && h < |s.handles| && Occupied(s.handles[h])
    ensures Fresh(s, h)
  {
    assert Open(s, 0);
  }

  lemma InBin(s: State, h: nat)
    requires Sound(s) && h in s.bin
    ensures h < |s.handles| && !Occupied(s.handles[h]) && Total(s.pcs, ClaimsOn(h)) == 0
  {
    assert Open(s, 0);
    assert Placed(s, h);
    TimesInIsMembership(s.bin, h);
    if |s.pcs| > 0 { TotalAtLeast(s.pcs, 0, ClaimsOn(h)); }
  }

  lemma TableInRange(s: State, k: Key)
    requires Sound(s) && k in s.table
    ensures s.table[k] < |s.handles| && s.handles[s.table[k]].key == k
  {
    assert Open(s, 0);
  }

  lemma TabledInTable(s: State, k: Key)
    requires Sound(s) && k in s.table && s.table[k] < |s.handles|
    ensures Tabled(s, s.table[k])
  {
    assert Open(s, 0);
    assert InTable(s, s.table[k]);
  }

  lemma EvictedIsInTable(s: State, t: nat)
    requires Sound(s) && t < |s.pcs| && s.pcs[t].Evicted? && s.pcs[t].h < |s.handles|
    ensures InTable(s, s.pcs[t].h)
  {
    Remembered(s, t);
    assert Open(s, 0);
    assert BeingEvicted(s, s.pcs[t].h) && Tabled(s, s.pcs[t].h);
  }

  /** Nothing the code asserts can fail. */
  lemma NoAssertFails(s: State, step: Step)
    requires Sound(s) && Can(s, step)
    ensures !Fails(s, step)
  {
    var pc := s.pcs[step.t];
    Remembered(s, step.t);
    forall k | k in s.table ensures s.table[k] < |s.handles| { TableInRange(s, k); }
    match step
    case Drop(t) => Referenced(s, t, pc.h);
    case Recycle(t) => Claimed(s, t, pc.h);
    case EraseEvicted(t) =>
      Claimed(s, t, pc.h);
      EvictedIsInTable(s, t);
    case RecycleOld(t) => Claimed(s, t, pc.old_);
    case RecycleErased(t) => Claimed(s, t, pc.h);
    case Publish(t) => Claimed(s, t, pc.h);
    case Grab(t) =>
      forall i | 0 <= i < |s.bin| ensures s.bin[i] < |s.handles| { InBin(s, s.bin[i]); }
    case _ =>
  }

  // ----- the accounts after a step -----

  /** Thread t does not move to pc, with the mutex if pc needs it and a memory that is right. */
  ghost predicate Strays(s: State, s': State, t: nat, pc: Pc) {
    || t >= |s.pcs| || s'.pcs != s.pcs[t := pc]
    || s'.mutex != (if NeedsMutex(pc) then Some(t) else if NeedsMutex(s.pcs[t]) then None else s.mutex)
    || (NeedsMutex(pc) && !NeedsMutex(s.pcs[t]) && s.mutex.Some?)
    || !Remembers(s', pc)
  }

  lemma ThreadsAfter(s: State, s': State, t: nat, pc: Pc)
    requires Sound(s) && !Strays(s, s', t, pc)
    requires forall u :: 0 <= u < |s.pcs| && u != t ==> Remembers(s', s.pcs[u])
    ensures Threads(s')
  {
    assert Open(s, 0);
  }

  /** What counts of a handle for its place. */
  function InUse(h: Handle): int { if Occupied(h) then 1 else 0 }

  /** More changes of a handle than its flags, or its balance of references or claims goes wrong. */
  ghost predicate Unbalanced(s: State, s': State, t: nat, pc: Pc, h: nat)
    requires t < |s.pcs|
  {
    if h < |s.handles| == |s'.handles| then
      || s'.handles[h] != s.handles[h].(flags := s'.handles[h].flags)
      || CountRefs(s'.handles[h].flags) - Refs(pc, h) != CountRefs(s.handles[h].flags) - Refs(s.pcs[t], h)
      || InUse(s'.handles[h]) + Claims(pc, h) != InUse(s.handles[h]) + Claims(s.pcs[t], h)
      || (Occupied(s'.handles[h]) && !Fresh(s, h))
    else
      |s.handles| != |s'.handles| || Refs(pc, h) != Refs(s.pcs[t], h) || Claims(pc, h) != Claims(s.pcs[t], h)
  }

  lemma FlagsRemembered(s: State, s': State, pc: Pc)
    requires Remembers(s, pc) && |s'.handles| == |s.handles| && s'.recycled == s.recycled
    requires forall h :: 0 <= h < |s.handles| ==> s'.handles[h] == s.handles[h].(flags := s'.handles[h].flags)
    ensures Remembers(s', pc)
  {
  }

  /** A counter and what it lags behind do not change by the same amount. */
  ghost predicate Drifts(s: State, s': State, t: nat, pc: Pc)
    requires t < |s.pcs|
  {
    || s'.usage - Charged(s'.handles) - Weigh(pc, UsageLag) != s.usage - Charged(s.handles) - Weigh(s.pcs[t], UsageLag)
    || s'.pinned - Pinned(s'.handles) - Weigh(pc, PinnedLag)
       != s.pinned - Pinned(s.handles) - Weigh(s.pcs[t], PinnedLag)
  }

  lemma CountersAfter(s: State, s': State, t: nat, pc: Pc)
    requires Sound(s) && t < |s.pcs| && s'.pcs == s.pcs[t := pc] && !Drifts(s, s', t, pc)
    ensures Counters(s')
  {
    assert Open(s, 0);
    TotalUpdate(s.pcs, t, pc, UsageLag);
    TotalUpdate(s.pcs, t, pc, PinnedLag);
  }

  lemma PlacedAfter(s: State, s': State, t: nat, pc: Pc, h: nat)
    requires Placed(s, h) && t < |s.pcs| && s'.pcs == s.pcs[t := pc] && s'.bin == s.bin
    requires !Unbalanced(s, s', t, pc, h)
    ensures Placed(s', h)
  {
    TotalUpdate(s.pcs, t, pc, RefsOn(h));
    TotalUpdate(s.pcs, t, pc, ClaimsOn(h));
  }

  lemma AccountsAfter(s: State, s': State, t: nat, pc: Pc)
    requires Sound(s) && !Strays(s, s', t, pc)
    requires s'.bin == s.bin && s'.recycled == s.recycled && s'.lives == s.lives
    requires forall h: nat :: !Unbalanced(s, s', t, pc, h)
    requires !Drifts(s, s', t, pc)
    ensures SoundAccounts(s')
  {
    assert Open(s, 0);
    forall h
      ensures Placed(s', h)
    {
      assert Placed(s, h) && !Unbalanced(s, s', t, pc, h);
      PlacedAfter(s, s', t, pc, h);
    }
    assert !Unbalanced(s, s', t, pc, |s.handles|);
    forall h | 0 <= h < |s.handles| ensures s'.handles[h] == s.handles[h].(flags := s'.handles[h].flags) {
      assert !Unbalanced(s, s', t, pc, h);
    }
    forall u | 0 <= u < |s.pcs| && u != t ensures Remembers(s', s.pcs[u]) { FlagsRemembered(s, s', s.pcs[u]); }
    ThreadsAfter(s, s', t, pc);
    assert LivesOnce(s') by {
      forall h | 0 <= h < |s.handles| && Occupied(s'.handles[h])
        ensures Fresh(s', h) { assert !Unbalanced(s, s', t, pc, h); }
    }
    CountersAfter(s, s', t, pc);
    FoldAccounts(s');
  }

  /** A thread moves and no handle changes. */
  lemma PcMoves(s: State, s': State, t: nat, pc: Pc)
    requires Sound(s) && !Strays(s, s', t, pc)
    requires s'.handles == s.handles && s'.bin == s.bin && s'.recycled == s.recycled && s'.lives == s.lives
    requires forall h: nat :: Refs(pc, h) == Refs(s.pcs[t], h) && Claims(pc, h) == Claims(s.pcs[t], h)
    requires s'.usage - Weigh(pc, UsageLag) == s.usage - Weigh(s.pcs[t], UsageLag)
    requires s'.pinned - Weigh(pc, PinnedLag) == s.pinned - Weigh(s.pcs[t], PinnedLag)
    ensures SoundAccounts(s')
  {
    forall h: nat ensures !Unbalanced(s, s', t, pc, h) {
      assert Refs(pc, h) == Refs(s.pcs[t], h);
      if h < |s.handles| && Occupied(s.handles[h]) { InUseIsFresh(s, h); }
    }
    AccountsAfter(s, s', t, pc);
  }

  /** A thread moves and changes the flags of one handle. */
  lemma FlagMoves(s: State, s': State, t: nat, pc: Pc, h: nat, f: nat)
    requires Sound(s) && !Strays(s, s', t, pc) && h < |s.handles|
    requires s'.handles == s.handles[h := s.handles[h].(flags := f)]
    requires s'.bin == s.bin && s'.recycled == s.recycled && s'.lives == s.lives
    requires forall x: nat :: x != h ==> Refs(pc, x) == Refs(s.pcs[t], x) && Claims(pc, x) == Claims(s.pcs[t], x)
    requires !Unbalanced(s, s', t, pc, h)
    requires !Drifts(s, s', t, pc)
    ensures SoundAccounts(s')
  {
    forall x: nat ensures !Unbalanced(s, s', t, pc, x) {
      if x != h {
        assert Refs(pc, x) == Refs(s.pcs[t], x);
        if x < |s.handles| && Occupied(s.handles[x]) { InUseIsFresh(s, x); }
      }
    }
    AccountsAfter(s, s', t, pc);
  }

  // ----- the table after a step -----

  lemma SameTable(s: State, s': State)
    requires Sound(s) && SoundAccounts(s') && Pending(s')
    requires s'.table == s.table && |s'.handles| == |s.handles|
    requires forall h: nat :: h < |s.handles| ==>
               s'.handles[h].key == s.handles[h].key && (Tabled(s', h) <==> Tabled(s, h))
    ensures Sound(s')
  {
    assert Open(s, 0) && Open(s', 0);
    forall h: nat | h < |s'.handles| ensures InTable(s', h) <==> Tabled(s', h) {
      assert InTable(s, h) <==> Tabled(s, h);
    }
    Fold(s');
  }

  lemma LessTable(s: State, s': State, k: Key)
    requires Sound(s) && SoundAccounts(s') && Pending(s')
    requires k in s.table && s'.table == s.table - {k} && s.table[k] < |s'.handles| == |s.handles|
    requires forall h: nat :: h < |s.handles| ==> s'.handles[h].key == s.handles[h].key
    requires forall h: nat :: h < |s.handles| ==> (Tabled(s', h) <==> Tabled(s, h) && h != s.table[k])
    ensures Sound(s')
  {
    assert Open(s, 0) && Open(s', 0);
    forall h: nat | h < |s'.handles| ensures InTable(s', h) <==> Tabled(s', h) {
      assert InTable(s, h) <==> Tabled(s, h);
      assert InTable(s', h) <==> InTable(s, h) && h != s.table[k];
    }
    Fold(s');
  }

  lemma MoreTable(s: State, s': State, k: Key, g: nat)
    requires Sound(s) && SoundAccounts(s') && Pending(s')
    requires k !in s.table && s'.table == s.table[k := g] && g < |s'.handles| == |s.handles| && s.handles[g].key == k
    requires forall h: nat :: h < |s.handles| ==> s'.handles[h].key == s.handles[h].key
    requires forall h: nat :: h < |s.handles| ==> (Tabled(s', h) <==> Tabled(s, h) || h == g)
    ensures Sound(s')
  {
    assert Open(s, 0) && Open(s', 0);
    forall h: nat | h < |s'.handles| ensures InTable(s', h) <==> Tabled(s', h) {
      assert InTable(s, h) <==> Tabled(s, h);
      assert InTable(s', h) <==> InTable(s, h) || h == g;
    }
    Fold(s');
  }

  // ----- steps without the mutex -----

  lemma Unlocked(s: State, s': State, t: nat)
    requires Sound(s) && SoundAccounts(s') && t < |s.pcs| && !NeedsMutex(s.pcs[t])
    requires |s'.pcs| == |s.pcs| && s'.pcs == s.pcs[t := s'.pcs[t]] && s'.mutex == s.mutex
    requires s'.table == s.table && |s'.handles| == |s.handles|
    requires forall h :: 0 <= h < |s.handles| ==>
                 s'.handles[h].key == s.handles[h].key && InCache(s'.handles[h].flags) == InCache(s.handles[h].flags)
    ensures Sound(s')
  {
    Remembered(s, t);
    assert Holder(s') == Holder(s);
    assert Pending(s') by { assert Open(s, 0); }
    SameTable(s, s');
  }

  lemma PcStepKeeps(s: State, step: Step)
    requires Sound(s) && !Fails(s, step)
    requires step.Find? || step.AddPinned? || step.CompareKey? || step.Release? || step.Unpin?
    ensures Sound(Do(s, step))
  {
    var t, s' := step.t, Do(s, step);
    Remembered(s, t);
    if s' != s {
      PcMoves(s, s', t, s'.pcs[t]);
      Unlocked(s, s', t);
    }
  }

  lemma RefTaken(s: State, s': State, t: nat, h: nat)
    requires Sound(s) && t < |s.pcs| && h < |s.handles| && InCache(s.handles[h].flags) && s.pcs[t].Found?
             && s.pcs[t].h == h
    requires var f := s.handles[h].flags;
             s' == At(WithFlags(s, h, f + ONE_REF), t,
                      if CountRefs(f) == 0 then Counted(s.pcs[t].key, h, s.handles[h].charge)
                      else Comparing(s.pcs[t].key, h))
    ensures SoundAccounts(s')
    ensures InCache(s'.handles[h].flags)
  {
    var f := s.handles[h].flags;
    AddRefFields(f);
    InUseIsFresh(s, h);
    ChargesUpdate(s.handles, h, s.handles[h].(flags := f + ONE_REF));
    FlagMoves(s, s', t, s'.pcs[t], h, f + ONE_REF);
  }

  lemma RefCasKeeps(s: State, step: Step)
    requires Sound(s) && !Fails(s, step) && step.RefCas?
    ensures Sound(Do(s, step))
  {
    var t, s' := step.t, Do(s, step);
    var h := s.pcs[t].h;
    Remembered(s, t);
    if InCache(s.handles[h].flags) {
      RefTaken(s, s', t, h);
    } else {
      PcMoves(s, s', t, Idle);
    }
    Unlocked(s, s', t);
  }

  lemma MarkUsageKeeps(s: State, step: Step)
    requires Sound(s) && !Fails(s, step) && step.MarkUsage?
    ensures Sound(Do(s, step))
  {
    var t, s' := step.t, Do(s, step);
    var h := s.pcs[t].h;
    var f := s.handles[h].flags;
    Remembered(s, t);
    if s.pcs[t].setUsage {
      UsageFields(f);
      Referenced(s, t, h);
      InUseIsFresh(s, h);
      ChargesUpdate(s.handles, h, s.handles[h].(flags := SetUsage(f)));
      FlagMoves(s, s', t, s'.pcs[t], h, SetUsage(f));
    } else {
      PcMoves(s, s', t, s'.pcs[t]);
    }
    Unlocked(s, s', t);
  }

  lemma RefDropped(s: State, s': State, t: nat, h: nat, c: nat)
    requires Sound(s) && t < |s.pcs| && h < |s.handles| && s.pcs[t] == Dropping(h, c) && c == s.handles[h].charge
    requires CountRefs(s.handles[h].flags) > 0 && s.handles[h].flags >= ONE_REF
    requires var f := s.handles[h].flags;
             s' == At(WithFlags(s, h, f - ONE_REF), t, if CountRefs(f) == 1 then Unpinning(h, c, !InCache(f)) else Idle)
    ensures SoundAccounts(s')
    ensures InCache(s'.handles[h].flags) == InCache(s.handles[h].flags)
  {
    var f := s.handles[h].flags;
    DropRefFields(f);
    InUseIsFresh(s, h);
    ChargesUpdate(s.handles, h, s.handles[h].(flags := f - ONE_REF));
    FlagMoves(s, s', t, s'.pcs[t], h, f - ONE_REF);
  }

  lemma DropKeeps(s: State, step: Step)
    requires Sound(s) && !Fails(s, step) && step.Drop?
    ensures Sound(Do(s, step))
  {
    var t, s' := step.t, Do(s, step);
    Remembered(s, t);
    RefDropped(s, s', t, s.pcs[t].h, s.pcs[t].charge);
    Unlocked(s, s', t);
  }

  // ----- recycling -----

  lemma OneClaim(s: State, t: nat, u: nat, h: nat)
    requires Sound(s) && t < |s.pcs| && u < |s.pcs| && t != u && Claims(s.pcs[t], h) == 1
    ensures Claims(s.pcs[u], h) == 0
  {
    assert Open(s, 0);
    assert Placed(s, h);
    TotalUpdate(s.pcs, t, Idle, ClaimsOn(h));
    TotalAtLeast(s.pcs[t := Idle], u, ClaimsOn(h));
  }

  lemma PlacedInBin(s: State, s': State, t: nat, pc: Pc, h: nat, x: nat)
    requires Placed(s, x) && t < |s.pcs| && s'.pcs == s.pcs[t := pc] && s'.handles == s.handles && s'.bin == s.bin + [h]
    requires Refs(pc, x) == Refs(s.pcs[t], x) && h < |s.handles|
    requires Claims(pc, x) == Claims(s.pcs[t], x) - if x == h then 1 else 0
    ensures Placed(s', x)
  {
    TotalUpdate(s.pcs, t, pc, RefsOn(x));
    TotalUpdate(s.pcs, t, pc, ClaimsOn(x));
    assert s'.bin[..|s'.bin| - 1] == s.bin;
  }

  lemma StillFresh(s: State, s': State, u: nat, h: nat)
    requires Sound(s) && u < |s.pcs| && Claims(s.pcs[u], h) == 0 && h < |s.handles|
    requires s'.handles == s.handles && s'.recycled == s.recycled + {s.handles[h].life}
    ensures Remembers(s', s.pcs[u])
  {
    Remembered(s, u);
    assert LivesOnce(s) by { assert Open(s, 0); }
  }

  /** A thread puts the handle it claims into the bin. */
  lemma BinMoves(s: State, s': State, t: nat, pc: Pc, h: nat)
    requires Sound(s) && !Strays(s, s', t, pc) && h < |s.handles|
    requires s'.handles == s.handles && s'.bin == s.bin + [h] && s'.lives == s.lives
    requires Fresh(s, h) && s'.recycled == s.recycled + {s.handles[h].life}
    requires Claims(s.pcs[t], h) == 1
    requires forall x: nat ::
               Refs(pc, x) == Refs(s.pcs[t], x) && Claims(pc, x) == Claims(s.pcs[t], x) - if x == h then 1 else 0
    requires !Drifts(s, s', t, pc)
    ensures SoundAccounts(s')
  {
    Claimed(s, t, h);
    forall u: nat | u < |s.pcs| && u != t ensures Remembers(s', s.pcs[u]) {
      OneClaim(s, t, u, h);
      StillFresh(s, s', u, h);
    }
    assert Open(s, 0);
    forall x: nat ensures Placed(s', x) { assert Placed(s, x); PlacedInBin(s, s', t, pc, h, x); }
    ThreadsAfter(s, s', t, pc);
    CountersAfter(s, s', t, pc);
    assert LivesOnce(s');
    FoldAccounts(s');
  }

  lemma RecycleKeeps(s: State, step: Step)
    requires Sound(s) && !Fails(s, step) && step.Recycle?
    ensures Sound(Do(s, step))
  {
    var t, s' := step.t, Do(s, step);
    Remembered(s, t);
    BinMoves(s, s', t, Idle, s.pcs[t].h);
    Unlocked(s, s', t);
  }

  lemma EraseEvictedKeeps(s: State, step: Step)
    requires Sound(s) && !Fails(s, step) && step.EraseEvicted?
    ensures Sound(Do(s, step))
  {
    var t, s' := step.t, Do(s, step);
    var h := s.pcs[t].h;
    Remembered(s, t);
    BinMoves(s, s', t, s'.pcs[t], h);
    LessTable(s, s', s.handles[h].key);
  }

  lemma RecycleOldKeeps(s: State, step: Step)
    requires Sound(s) && !Fails(s, step) && step.RecycleOld?
    ensures Sound(Do(s, step))
  {
    var t, s' := step.t, Do(s, step);
    Remembered(s, t);
    BinMoves(s, s', t, s'.pcs[t], s.pcs[t].old_);
    assert Pending(s') by { assert Open(s, 0); }
    SameTable(s, s');
  }

  lemma RecycleErasedKeeps(s: State, step: Step)
    requires Sound(s) && !Fails(s, step) && step.RecycleErased?
    ensures Sound(Do(s, step))
  {
    var t, s' := step.t, Do(s, step);
    Remembered(s, t);
    BinMoves(s, s', t, Idle, s.pcs[t].h);
    SameTable(s, s');
  }

  // ----- steps of Insert and Erase, with the mutex -----

  lemma BeginInsertKeeps(s: State, step: Step)
    requires Sound(s) && !Fails(s, step) && step.BeginInsert?
    ensures Sound(Do(s, step))
  {
    var t, s' := step.t, Do(s, step);
    PcMoves(s, s', t, s'.pcs[t]);
    SameTable(s, s');
  }

  lemma GiveUpKeeps(s: State, step: Step)
    requires Sound(s) && !Fails(s, step) && step.GiveUp?
    ensures Sound(Do(s, step))
  {
    var t, s' := step.t, Do(s, step);
    Remembered(s, t);
    PcMoves(s, s', t, Idle);
    SameTable(s, s');
  }

  lemma Evicts(s: State, s': State, t: nat, v: nat)
    requires Sound(s) && t < |s.pcs| && v < |s.handles| && s.handles[v].flags == IN_CACHE && s.pcs[t].Inserting?
    requires s' == At(WithFlags(s, v, 0), t, Evicted(v, s.handles[v].charge, s.pcs[t].job))
    ensures Sound(s')
  {
    Remembered(s, t);
    InUseIsFresh(s, v);
    ChargesUpdate(s.handles, v, s.handles[v].(flags := 0));
    FlagMoves(s, s', t, s'.pcs[t], v, 0);
    SameTable(s, s');
  }

  lemma Spares(s: State, s': State, t: nat, v: nat)
    requires Sound(s) && t < |s.pcs| && v < |s.handles| && s.pcs[t].Inserting?
    requires s' == WithFlags(s, v, ClearUsage(s.handles[v].flags))
    ensures Sound(s')
  {
    var f := s.handles[v].flags;
    Remembered(s, t);
    UsageFields(f);
    if Occupied(s.handles[v]) { InUseIsFresh(s, v); }
    ChargesUpdate(s.handles, v, s.handles[v].(flags := ClearUsage(f)));
    assert s.pcs[t := s.pcs[t]] == s.pcs;
    FlagMoves(s, s', t, s.pcs[t], v, ClearUsage(f));
    SameTable(s, s');
  }

  lemma TryEvictKeeps(s: State, step: Step)
    requires Sound(s) && !Fails(s, step) && step.TryEvict?
    ensures Sound(Do(s, step))
  {
    if s.handles[step.victim].flags == IN_CACHE {
      Evicts(s, Do(s, step), step.t, step.victim);
    } else {
      Spares(s, Do(s, step), step.t, step.victim);
    }
  }

  lemma PublishKeeps(s: State, step: Step)
    requires Sound(s) && !Fails(s, step) && step.Publish?
    ensures Sound(Do(s, step))
  {
    var t, s' := step.t, Do(s, step);
    var h, f := s.pcs[t].h, s'.handles[s.pcs[t].h].flags;
    Remembered(s, t);
    ChargesUpdate(s.handles, h, s.handles[h].(flags := f));
    FlagMoves(s, s', t, s'.pcs[t], h, f);
    SameTable(s, s');
  }

  lemma FindExistingKeeps(s: State, step: Step)
    requires Sound(s) && !Fails(s, step) && step.FindExisting?
    ensures Sound(Do(s, step))
  {
    var t, s' := step.t, Do(s, step);
    var k := s.pcs[t].job.key;
    Remembered(s, t);
    assert Pending(s) by { assert Open(s, 0); }
    if k in s.table { TableInRange(s, k); TabledInTable(s, k); }
    PcMoves(s, s', t, s'.pcs[t]);
    if k in s.table { LessTable(s, s', k); } else { SameTable(s, s'); }
  }

  /** UnsetInCache: the last to leave claims the handle; what else pc holds has not changed. */
  lemma Unsets(s: State, s': State, t: nat, pc: Pc, o: nat)
    requires Sound(s) && !Strays(s, s', t, pc) && o < |s.handles| && Claims(s.pcs[t], o) == 0
    requires s'.handles == s.handles[o := s.handles[o].(flags := ClearInCache(s.handles[o].flags))]
    requires s'.bin == s.bin && s'.recycled == s.recycled && s'.lives == s.lives
    requires s'.usage == s.usage && s'.pinned == s.pinned
    requires forall x: nat :: Refs(pc, x) == Refs(s.pcs[t], x)
    requires var frees := InCache(s.handles[o].flags) && CountRefs(s.handles[o].flags) == 0;
             && (forall x: nat :: Claims(pc, x) == Claims(s.pcs[t], x) + if frees && x == o then 1 else 0)
             && Weigh(pc, UsageLag) == Weigh(s.pcs[t], UsageLag) + (if frees then s.handles[o].charge else 0)
    requires Weigh(pc, PinnedLag) == Weigh(s.pcs[t], PinnedLag)
    ensures SoundAccounts(s')
    ensures !InCache(s'.handles[o].flags)
  {
    var f := s.handles[o].flags;
    ClearInCacheFields(f);
    if Occupied(s.handles[o]) { InUseIsFresh(s, o); }
    ChargesUpdate(s.handles, o, s.handles[o].(flags := ClearInCache(f)));
    assert Refs(pc, o) == Refs(s.pcs[t], o);
    FlagMoves(s, s', t, pc, o, ClearInCache(f));
  }

  lemma UnsetOldKeeps(s: State, step: Step)
    requires Sound(s) && !Fails(s, step) && step.UnsetOld?
    ensures Sound(Do(s, step))
  {
    var t, s' := step.t, Do(s, step);
    var o := s.pcs[t].old_;
    Remembered(s, t);
    if Occupied(s.handles[o]) { InUseIsFresh(s, o); }
    Unsets(s, s', t, s'.pcs[t], o);
    assert Pending(s') by { assert Open(s, 0); }
    SameTable(s, s');
  }

  lemma LinkKeeps(s: State, step: Step)
    requires Sound(s) && !Fails(s, step) && step.Link?
    ensures Sound(Do(s, step))
  {
    var t, s' := step.t, Do(s, step);
    Remembered(s, t);
    assert Pending(s) by { assert Open(s, 0); }
    PcMoves(s, s', t, s'.pcs[t]);
    MoreTable(s, s', s.pcs[t].job.key, s.pcs[t].h);
  }

  lemma AccountKeeps(s: State, step: Step)
    requires Sound(s) && !Fails(s, step) && step.Account?
    ensures Sound(Do(s, step))
  {
    var t, s' := step.t, Do(s, step);
    Remembered(s, t);
    PcMoves(s, s', t, s'.pcs[t]);
    assert Pending(s') by { assert Open(s, 0); }
    SameTable(s, s');
  }

  lemma EraseKeeps(s: State, step: Step)
    requires Sound(s) && !Fails(s, step) && step.Erase?
    ensures Sound(Do(s, step))
  {
    var t, s' := step.t, Do(s, step);
    if step.key in s.table {
      TableInRange(s, step.key);
      PcMoves(s, s', t, s'.pcs[t]);
      LessTable(s, s', step.key);
    }
  }

  lemma UnsetErasedKeeps(s: State, step: Step)
    requires Sound(s) && !Fails(s, step) && step.UnsetErased?
    ensures Sound(Do(s, step))
  {
    var t, s' := step.t, Do(s, step);
    var h := s.pcs[t].h;
    Remembered(s, t);
    if Occupied(s.handles[h]) { InUseIsFresh(s, h); }
    Unsets(s, s', t, s'.pcs[t], h);
    SameTable(s, s');
  }

  // ----- a handle for a new entry -----

  lemma PlacedTaken(s: State, s': State, t: nat, pc: Pc, x: nat)
    requires Placed(s, x) && t < |s.pcs| && s'.pcs == s.pcs[t := pc] && s'.handles == s.handles
    requires s.bin != [] && s'.bin == s.bin[..|s.bin| - 1]
    requires Refs(pc, x) == Refs(s.pcs[t], x)
    requires Claims(pc, x) == Claims(s.pcs[t], x) + if x == s.bin[|s.bin| - 1] then 1 else 0
    ensures Placed(s', x)
  {
    TotalUpdate(s.pcs, t, pc, RefsOn(x));
    TotalUpdate(s.pcs, t, pc, ClaimsOn(x));
  }

  lemma LivesStay(s: State, s': State)
    requires Sound(s) && s'.handles == s.handles && s'.lives == s.lives && s'.recycled == s.recycled
    ensures LivesOnce(s')
  {
    assert Open(s, 0);
  }

  lemma GrabFromBin(s: State, s': State, t: nat)
    requires Sound(s) && t < |s.pcs| && s.pcs[t].Inserting? && s.bin != []
    requires s' == At(s.(bin := s.bin[..|s.bin| - 1]), t, Filling(s.bin[|s.bin| - 1], s.pcs[t].job))
    ensures Sound(s')
  {
    var pc := s'.pcs[t];
    InBin(s, pc.h);
    Remembered(s, t);
    assert SoundAccounts(s') by {
      forall x: nat ensures Placed(s', x) { PlacedNow(s, x); PlacedTaken(s, s', t, pc, x); }
      forall u: nat | u < |s.pcs| && u != t ensures Remembers(s', s.pcs[u]) {
        Remembered(s, u);
        FlagsRemembered(s, s', s.pcs[u]);
      }
      ThreadsAfter(s, s', t, pc);
      LivesStay(s, s');
      CountersAfter(s, s', t, pc);
      FoldAccounts(s');
    }
    SameTable(s, s');
  }

  lemma PlacedNew(s: State, s': State, t: nat, pc: Pc, x: nat)
    requires Placed(s, x) && t < |s.pcs| && s'.pcs == s.pcs[t := pc] && s'.bin == s.bin
    requires |s'.handles| == |s.handles| + 1 && s'.handles[..|s.handles|] == s.handles
    requires !Occupied(s'.handles[|s.handles|])
    requires Refs(pc, x) == Refs(s.pcs[t], x)
    requires Claims(pc, x) == Claims(s.pcs[t], x) + if x == |s.handles| then 1 else 0
    ensures Placed(s', x)
  {
    TotalUpdate(s.pcs, t, pc, RefsOn(x));
    TotalUpdate(s.pcs, t, pc, ClaimsOn(x));
    assert x < |s.handles| ==> s'.handles[..|s.handles|][x] == s'.handles[x];
  }

  lemma MoreRemembered(s: State, s': State, pc: Pc)
    requires Remembers(s, pc) && |s'.handles| > |s.handles| && s'.recycled == s.recycled
    requires forall h :: 0 <= h < |s.handles| ==> s'.handles[h] == s.handles[h]
    ensures Remembers(s', pc)
  {
  }

  lemma LivesWithNew(s: State, s': State)
    requires Sound(s) && s'.handles == s.handles + [Handle(0, 0, 0, 0, s.lives)]
    requires s'.lives == s.lives + 1 && s'.recycled == s.recycled
    ensures LivesOnce(s')
  {
    assert Open(s, 0);
  }

  lemma GrabNewAccounts(s: State, s': State, t: nat)
    requires Sound(s) && t < |s.pcs| && s.pcs[t].Inserting?
    requires s' == At(s.(handles := s.handles + [Handle(0, 0, 0, 0, s.lives)], lives := s.lives + 1), t,
                      Filling(|s.handles|, s.pcs[t].job))
    ensures SoundAccounts(s')
  {
    var pc := s'.pcs[t];
    Remembered(s, t);
    assert s'.handles[..|s.handles|] == s.handles;
    forall x: nat ensures Placed(s', x) { PlacedNow(s, x); PlacedNew(s, s', t, pc, x); }
    forall u: nat | u < |s.pcs| && u != t
      ensures Remembers(s', s.pcs[u]) { Remembered(s, u); MoreRemembered(s, s', s.pcs[u]); }
    ThreadsAfter(s, s', t, pc);
    LivesWithNew(s, s');
    CountersAfter(s, s', t, pc);
    FoldAccounts(s');
  }

  lemma GrabNew(s: State, s': State, t: nat)
    requires Sound(s) && t < |s.pcs| && s.pcs[t].Inserting?
    requires s' == At(s.(handles := s.handles + [Handle(0, 0, 0, 0, s.lives)], lives := s.lives + 1), t,
                      Filling(|s.handles|, s.pcs[t].job))
    ensures Sound(s')
  {
    GrabNewAccounts(s, s', t);
    Remembered(s, t);
    assert Open(s, 0) && Open(s', 0);
    forall h: nat | h < |s'.handles| ensures InTable(s', h) <==> Tabled(s', h) {
      if h < |s.handles| { assert InTable(s, h) <==> Tabled(s, h); }
    }
    Fold(s');
  }

  /** Nobody else remembers anything of a handle that only t claims. */
  lemma OthersForget(s: State, s': State, t: nat, u: nat, h: nat)
    requires Sound(s) && t < |s.pcs| && u < |s.pcs| && t != u && s.pcs[t].Filling? && s.pcs[t].h == h
    requires h < |s.handles| == |s'.handles| && s'.recycled == s.recycled
    requires forall x :: 0 <= x < |s.handles| && x != h ==> s'.handles[x] == s.handles[x]
    ensures Remembers(s', s.pcs[u])
  {
    OneClaim(s, t, u, h);
    Remembered(s, t);
    Remembered(s, u);
    assert Refs(s.pcs[u], h) == 0 by {
      Claimed(s, t, h);
      assert Open(s, 0);
      assert Placed(s, h);
      TotalAtLeast(s.pcs, u, RefsOn(h));
    }
  }

  lemma LivesAfterFill(s: State, s': State, h: nat)
    requires Sound(s) && h < |s.handles| && !Occupied(s.handles[h])
    requires |s'.handles| == |s.handles| && s'.handles[h].life == s.lives && s'.handles[h].flags == s.handles[h].flags
    requires forall x :: 0 <= x < |s.handles| && x != h ==> s'.handles[x] == s.handles[x]
    requires s'.lives == s.lives + 1 && s'.recycled == s.recycled
    ensures LivesOnce(s') && Fresh(s', h)
  {
    assert Open(s, 0);
  }

  lemma PlacedFilled(s: State, s': State, t: nat, h: nat, j: Job, x: nat)
    requires Placed(s, x) && t < |s.pcs| && s.pcs[t] == Filling(h, j) && h < |s.handles|
    requires s'.pcs == s.pcs[t := Filled(h, j)] && s'.bin == s.bin
    requires |s'.handles| == |s.handles| && s'.handles == s.handles[h := s'.handles[h]]
    requires s'.handles[h].flags == s.handles[h].flags
    ensures Placed(s', x)
  {
    TotalUpdate(s.pcs, t, Filled(h, j), RefsOn(x));
    TotalUpdate(s.pcs, t, Filled(h, j), ClaimsOn(x));
  }

  lemma FillAccounts(s: State, s': State, t: nat, h: nat, j: Job)
    requires Sound(s) && t < |s.pcs| && s.pcs[t] == Filling(h, j) && h < |s.handles|
    requires s' == At(s.(handles := s.handles[h := Handle(j.key, j.val, j.charge, s.handles[h].flags, s.lives)],
                         lives := s.lives + 1), t, Filled(h, j))
    ensures SoundAccounts(s')
  {
    Remembered(s, t);
    Claimed(s, t, h);
    LivesAfterFill(s, s', h);
    forall u: nat | u < |s.pcs| && u != t ensures Remembers(s', s.pcs[u]) { OthersForget(s, s', t, u, h); }
    forall x: nat ensures Placed(s', x) { PlacedNow(s, x); PlacedFilled(s, s', t, h, j, x); }
    ThreadsAfter(s, s', t, Filled(h, j));
    ChargesUpdate(s.handles, h, s'.handles[h]);
    CountersAfter(s, s', t, Filled(h, j));
    FoldAccounts(s');
  }

  lemma FillKeeps(s: State, step: Step)
    requires Sound(s) && !Fails(s, step) && step.Fill?
    ensures Sound(Do(s, step))
  {
    var t, s' := step.t, Do(s, step);
    var g := s.pcs[t].h;
    FillAccounts(s, s', t, g, s.pcs[t].job);
    Remembered(s, t);
    Claimed(s, t, g);
    assert Open(s, 0) && Open(s', 0);
    assert !Tabled(s, g) && !InTable(s, g);
    forall h: nat | h < |s'.handles| ensures InTable(s', h) <==> Tabled(s', h) {
      assert InTable(s, h) <==> Tabled(s, h);
    }
    Fold(s');
  }

  // ----- whole runs -----

  /** Every step of every thread keeps the invariant. */
  lemma StepKeeps(s: State, step: Step)
    requires Sound(s) && !Fails(s, step)
    ensures Sound(Do(s, step))
  {
    match step
    case RefCas(_) => RefCasKeeps(s, step);
    case MarkUsage(_) => MarkUsageKeeps(s, step);
    case Drop(_) => DropKeeps(s, step);
    case Recycle(_) => RecycleKeeps(s, step);
    case BeginInsert(_, _) => BeginInsertKeeps(s, step);
    case TryEvict(_, _) => TryEvictKeeps(s, step);
    case EraseEvicted(_) => EraseEvictedKeeps(s, step);
    case GiveUp(_) => GiveUpKeeps(s, step);
    case Grab(t) => if s.bin != [] { GrabFromBin(s, Do(s, step), t); } else { GrabNew(s, Do(s, step), t); }
    case Fill(_) => FillKeeps(s, step);
    case Publish(_) => PublishKeeps(s, step);
    case FindExisting(_) => FindExistingKeeps(s, step);
    case UnsetOld(_) => UnsetOldKeeps(s, step);
    case RecycleOld(_) => RecycleOldKeeps(s, step);
    case Link(_) => LinkKeeps(s, step);
    case Account(_) => AccountKeeps(s, step);
    case Erase(_, _) => EraseKeeps(s, step);
    case UnsetErased(_) => UnsetErasedKeeps(s, step);
    case RecycleErased(_) => RecycleErasedKeeps(s, step);
    case _ => PcStepKeeps(s, step);
  }

  ghost predicate IsRun(s: State, run: seq<Step>)
    decreases |run|
  {
    run == [] || (!Fails(s, run[0]) && IsRun(Do(s, run[0]), run[1..]))
  }

  ghost function After(s: State, run: seq<Step>): State
    requires IsRun(s, run)
    decreases |run|
  {
    if run == [] then s else After(Do(s, run[0]), run[1..])
  }

  lemma {:induction false} NothingRuns(threads: nat, n: nat, q: Quantity)
    requires n <= threads
    ensures Total(Init(threads).pcs[..n], q) == 0
  {
    if n > 0 {
      assert Init(threads).pcs[..n][..n - 1] == Init(threads).pcs[..n - 1];
      NothingRuns(threads, n - 1, q);
    }
  }

  lemma InitIsSound(threads: nat)
    ensures Sound(Init(threads))
  {
    var s := Init(threads);
    forall q ensures Total(s.pcs, q) == 0 {
      NothingRuns(threads, threads, q);
      assert s.pcs[..threads] == s.pcs;
    }
    forall h ensures Placed(s, h) { }
    Fold(s);
  }

  lemma {:induction false} RunKeeps(s: State, run: seq<Step>)
    requires Sound(s) && IsRun(s, run)
    ensures Sound(After(s, run))
    decreases |run|
  {
    if run != [] {
      StepKeeps(s, run[0]);
      RunKeeps(Do(s, run[0]), run[1..]);
    }
  }

  // ----- what holds whatever the threads have done -----

  /** No assert of the code fails: in particular a handle is recycled at most once in a life, never while
      in the cache or referenced, and the store that publishes a new entry overwrites no reference. */
  lemma NoRunFails(threads: nat, run: seq<Step>, step: Step)
    requires IsRun(Init(threads), run) && Can(After(Init(threads), run), step)
    ensures !Fails(After(Init(threads), run), step)
  {
    InitIsSound(threads);
    RunKeeps(Init(threads), run);
    NoAssertFails(After(Init(threads), run), step);
  }

  /** Whoever holds a handle holds the entry they looked up or inserted: same key, same value, the same
      life of the handle, and that life is not over. */
  lemma HeldEntriesStay(threads: nat, run: seq<Step>, t: nat)
    requires IsRun(Init(threads), run)
    requires var s := After(Init(threads), run); t < |s.pcs| && s.pcs[t].Holding?
    ensures var s := After(Init(threads), run);
            var pc := s.pcs[t];
            && pc.h < |s.handles| && s.handles[pc.h].key == pc.key && s.handles[pc.h].val == pc.val
            && s.handles[pc.h].life == pc.life && pc.life !in s.recycled && pc.h !in s.bin
  {
    InitIsSound(threads);
    RunKeeps(Init(threads), run);
    var s := After(Init(threads), run);
    Remembered(s, t);
    Referenced(s, t, s.pcs[t].h);
    InUseIsFresh(s, s.pcs[t].h);
    if s.pcs[t].h in s.bin { InBin(s, s.pcs[t].h); }
  }

  ghost predicate AtRest(pc: Pc) { pc.Idle? || pc.Holding? }

  lemma {:induction false} NoLag(pcs: seq<Pc>, q: Quantity)
    requires forall t :: 0 <= t < |pcs| ==> AtRest(pcs[t])
    requires !q.RefsOn?
    ensures Total(pcs, q) == 0
  {
    if pcs != [] { NoLag(pcs[..|pcs| - 1], q); }
  }

  /** The number of threads that hold handle h. */
  function HolderCount(pcs: seq<Pc>, h: nat): nat {
    if pcs == [] then 0
    else HolderCount(pcs[..|pcs| - 1], h) + if pcs[|pcs| - 1].Holding? && pcs[|pcs| - 1].h == h then 1 else 0
  }

  lemma {:induction false} RefsAreHolders(pcs: seq<Pc>, h: nat)
    requires forall t :: 0 <= t < |pcs| ==> AtRest(pcs[t])
    ensures Total(pcs, RefsOn(h)) == HolderCount(pcs, h)
  {
    if pcs != [] { RefsAreHolders(pcs[..|pcs| - 1], h); }
  }

  lemma RestingHandle(s: State, h: nat)
    requires Sound(s) && h < |s.handles| && forall t :: 0 <= t < |s.pcs| ==> AtRest(s.pcs[t])
    ensures CountRefs(s.handles[h].flags) == HolderCount(s.pcs, h)
    ensures h in s.bin <==> !InCache(s.handles[h].flags) && HolderCount(s.pcs, h) == 0
  {
    NoLag(s.pcs, ClaimsOn(h));
    RefsAreHolders(s.pcs, h);
    TimesInIsMembership(s.bin, h);
    PlacedNow(s, h);
  }

  lemma RestingTable(s: State, h: nat)
    requires Sound(s) && h < |s.handles| && forall t :: 0 <= t < |s.pcs| ==> AtRest(s.pcs[t])
    ensures InTable(s, h) <==> InCache(s.handles[h].flags)
  {
    assert Open(s, 0);
    assert InTable(s, h) <==> Tabled(s, h);
  }

  lemma RestingCounters(s: State)
    requires Sound(s) && forall t :: 0 <= t < |s.pcs| ==> AtRest(s.pcs[t])
    ensures s.usage == Charged(s.handles) && s.pinned == Pinned(s.handles)
  {
    NoLag(s.pcs, UsageLag);
    NoLag(s.pcs, PinnedLag);
    assert Open(s, 0);
  }

  /** When no operation is under way: the counters are the sums of the charges, each reference count is the
      number of holders, the table lists exactly the handles in the cache, and every other handle is in the
      bin unless somebody holds it. */
  lemma AtRestAllAgrees(threads: nat, run: seq<Step>, h: nat)
    requires IsRun(Init(threads), run)
    requires var s := After(Init(threads), run);
             h < |s.handles| && forall t :: 0 <= t < |s.pcs| ==> AtRest(s.pcs[t])
    ensures var s := After(Init(threads), run);
            && s.usage == Charged(s.handles) && s.pinned == Pinned(s.handles)
            && CountRefs(s.handles[h].flags) == HolderCount(s.pcs, h)
            && (InTable(s, h) <==> InCache(s.handles[h].flags))
            && (h in s.bin <==> !InCache(s.handles[h].flags) && HolderCount(s.pcs, h) == 0)
  {
    InitIsSound(threads);
    RunKeeps(Init(threads), run);
    var s := After(Init(threads), run);
    RestingCounters(s);
    RestingHandle(s, h);
    RestingTable(s, h);
  }
}
