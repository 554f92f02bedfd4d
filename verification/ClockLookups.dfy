/**
 What a lookup in the CLOCK cache finds, whatever other threads do meanwhile, and what an insertion or an erasure leaves
 to be found.
 */
module ClockLookups {
  import opened Options
  import opened ClockProtocol

  // ----- runs in pieces -----

  lemma {:induction false} RunSplits(s: State, a: seq<Step>, b: seq<Step>)
    requires IsRun(s, a + b)
    ensures IsRun(s, a) && IsRun(After(s, a), b) && After(s, a + b) == After(After(s, a), b)
    decreases |a|
  {
    if a == [] {
      assert a + b == b;
    } else {
      assert (a + b)[1..] == a[1..] + b;
      RunSplits(Do(s, a[0]), a[1..], b);
    }
  }

  lemma RunOfOne(s: State, step: Step)
    requires IsRun(s, [step])
    ensures !Fails(s, step) && After(s, [step]) == Do(s, step)
  {
    assert [step][1..] == [];
  }

  ghost predicate OfOthers(run: seq<Step>, t: nat) {
    forall step :: step in run ==> step.t != t
  }

  // ----- what others leave alone -----

  ghost predicate SameEntry(s: State, s': State, h: nat) {
    && h < |s.handles| && h < |s'.handles|
    && s'.handles[h].key == s.handles[h].key && s'.handles[h].val == s.handles[h].val
    && s'.handles[h].life == s.handles[h].life
  }

  /** A step changes no entry but the one that its thread fills. */
  lemma EntriesStay(s: State, step: Step, h: nat)
    requires !Fails(s, step) && h < |s.handles| && !(step.Fill? && s.pcs[step.t].h == h)
    ensures SameEntry(s, Do(s, step), h)
  {
  }

  lemma PcsStay(s: State, step: Step, t: nat)
    requires !Fails(s, step) && step.t != t && t < |s.pcs|
    ensures t < |Do(s, step).pcs| && Do(s, step).pcs[t] == s.pcs[t]
  {
  }

  /** An entry that is in the cache or referenced is not being filled. */
  lemma FilledIsFree(s: State, t: nat)
    requires Sound(s) && t < |s.pcs| && s.pcs[t].Filling?
    ensures s.pcs[t].h < |s.handles| && !Occupied(s.handles[s.pcs[t].h])
  {
    Claimed(s, t, s.pcs[t].h);
  }

  lemma OthersLeave(s: State, step: Step, t: nat)
    requires Sound(s) && !Fails(s, step) && step.t != t && t < |s.pcs|
    ensures t < |Do(s, step).pcs| && Do(s, step).pcs[t] == s.pcs[t]
    ensures forall h: nat :: Refs(s.pcs[t], h) == 1 ==> SameEntry(s, Do(s, step), h)
  {
    PcsStay(s, step, t);
    forall h: nat | Refs(s.pcs[t], h) == 1
      ensures SameEntry(s, Do(s, step), h)
    {
      Referenced(s, t, h);
      if step.Fill? { FilledIsFree(s, step.t); }
      EntriesStay(s, step, h);
    }
  }

  lemma {:induction false} OthersLeaveRun(s: State, run: seq<Step>, t: nat)
    requires Sound(s) && IsRun(s, run) && OfOthers(run, t) && t < |s.pcs|
    ensures var s' := After(s, run);
            && Sound(s') && t < |s'.pcs| && s'.pcs[t] == s.pcs[t]
            && forall h: nat :: Refs(s.pcs[t], h) == 1 ==> SameEntry(s, s', h)
    decreases |run|
  {
    if run != [] {
      assert run[0] in run && forall step :: step in run[1..] ==> step in run;
      StepKeeps(s, run[0]);
      OthersLeave(s, run[0], t);
      OthersLeaveRun(Do(s, run[0]), run[1..], t);
    } else {
      forall h: nat | Refs(s.pcs[t], h) == 1 ensures SameEntry(s, s, h) { Referenced(s, t, h); }
    }
  }

  // ----- the fate of a lookup -----

  /** A lookup up to its compare-and-swap. */
  ghost function UpToSwap(t: nat, key: Key, b: seq<Step>): seq<Step> {
    [Find(t, key)] + b
  }

  lemma FoundAtTheSwap(s: State, t: nat, key: Key, b: seq<Step>)
    requires Sound(s) && IsRun(s, UpToSwap(t, key, b)) && OfOthers(b, t)
    ensures var s' := After(s, UpToSwap(t, key, b));
            Sound(s') && t < |s'.pcs| && s'.pcs[t] == if key in s.table then Found(key, s.table[key]) else Idle
  {
    RunSplits(s, [Find(t, key)], b);
    RunOfOne(s, Find(t, key));
    StepKeeps(s, Find(t, key));
    OthersLeaveRun(Do(s, Find(t, key)), b, t);
  }

  /** After the compare-and-swap on h, if that was in the cache, until the comparison. */
  ghost predicate HasRef(s: State, t: nat, key: Key, h: nat, entry: Handle) {
    && Sound(s) && t < |s.pcs| && h < |s.handles|
    && s.handles[h].key == entry.key && s.handles[h].val == entry.val && s.handles[h].life == entry.life
    && (s.pcs[t] == Comparing(key, h) || (s.pcs[t].Counted? && s.pcs[t].key == key && s.pcs[t].h == h))
  }

  lemma SwapStep(s: State, t: nat, key: Key, h: nat)
    requires Sound(s) && !Fails(s, RefCas(t)) && s.pcs[t] == Found(key, h)
    ensures h < |s.handles|
    ensures var s' := Do(s, RefCas(t));
            if InCache(s.handles[h].flags) then HasRef(s', t, key, h, s.handles[h])
            else Sound(s') && t < |s'.pcs| && s'.pcs[t] == Idle
  {
    StepKeeps(s, RefCas(t));
  }

  lemma RefStays(s: State, t: nat, key: Key, h: nat, entry: Handle, run: seq<Step>)
    requires HasRef(s, t, key, h, entry) && IsRun(s, run) && OfOthers(run, t)
    ensures HasRef(After(s, run), t, key, h, entry)
  {
    OthersLeaveRun(s, run, t);
    assert Refs(s.pcs[t], h) == 1;
    assert SameEntry(s, After(s, run), h);
  }

  lemma SwapTakesRef(s: State, t: nat, key: Key, h: nat, c: seq<Step>)
    requires Sound(s) && IsRun(s, [RefCas(t)] + c) && OfOthers(c, t) && t < |s.pcs| && s.pcs[t] == Found(key, h)
    ensures h < |s.handles|
    ensures var s' := After(s, [RefCas(t)] + c);
            if InCache(s.handles[h].flags) then HasRef(s', t, key, h, s.handles[h])
            else Sound(s') && t < |s'.pcs| && s'.pcs[t] == Idle
  {
    RunSplits(s, [RefCas(t)], c);
    RunOfOne(s, RefCas(t));
    SwapStep(s, t, key, h);
    SwapThenOthers(Do(s, RefCas(t)), t, key, h, s.handles[h], c);
  }

  lemma SwapThenOthers(s: State, t: nat, key: Key, h: nat, entry: Handle, c: seq<Step>)
    requires IsRun(s, c) && OfOthers(c, t)
    ensures HasRef(s, t, key, h, entry) ==> HasRef(After(s, c), t, key, h, entry)
    ensures Sound(s) && t < |s.pcs| && s.pcs[t] == Idle ==>
              Sound(After(s, c)) && t < |After(s, c).pcs| && After(s, c).pcs[t] == Idle
  {
    if HasRef(s, t, key, h, entry) {
      RefStays(s, t, key, h, entry, c);
    } else if Sound(s) && t < |s.pcs| {
      OthersLeaveRun(s, c, t);
    }
  }

  lemma PinStep(s: State, t: nat, key: Key, h: nat, entry: Handle)
    requires HasRef(s, t, key, h, entry) && !Fails(s, AddPinned(t))
    ensures HasRef(Do(s, AddPinned(t)), t, key, h, entry)
  {
    StepKeeps(s, AddPinned(t));
  }

  lemma PinKeepsRef(s: State, t: nat, key: Key, h: nat, entry: Handle, d: seq<Step>)
    requires HasRef(s, t, key, h, entry) && IsRun(s, [AddPinned(t)] + d) && OfOthers(d, t)
    ensures HasRef(After(s, [AddPinned(t)] + d), t, key, h, entry)
  {
    RunSplits(s, [AddPinned(t)], d);
    RunOfOne(s, AddPinned(t));
    PinStep(s, t, key, h, entry);
    RefStays(Do(s, AddPinned(t)), t, key, h, entry, d);
  }

  lemma ComparisonDecides(s: State, t: nat, key: Key, h: nat, entry: Handle)
    requires HasRef(s, t, key, h, entry) && IsRun(s, [CompareKey(t)])
    ensures var s' := After(s, [CompareKey(t)]);
            && t < |s'.pcs|
            && s'.pcs[t] == if entry.key == key then Holding(key, h, entry.val, entry.life) else Releasing(h, false)
  {
    RunOfOne(s, CompareKey(t));
  }

  /** The steps of a lookup that gets as far as comparing keys, with those of others in between. */
  ghost function WholeLookup(t: nat, key: Key, b: seq<Step>, c: seq<Step>, pins: bool, d: seq<Step>): seq<Step> {
    UpToSwap(t, key, b) + (([RefCas(t)] + c) + ((if pins then [AddPinned(t)] + d else []) + [CompareKey(t)]))
  }

  /** In every run, a lookup misses if the key is not in the table when it looks, or if the handle it found there is no
      longer in the cache when it takes its reference; */
  lemma LookupMisses(threads: nat, before: seq<Step>, t: nat, key: Key, b: seq<Step>, c: seq<Step>)
    requires IsRun(Init(threads), before) && OfOthers(b, t) && OfOthers(c, t)
    requires IsRun(After(Init(threads), before), UpToSwap(t, key, b))
    ensures var s := After(Init(threads), before);
            var s' := After(s, UpToSwap(t, key, b));
            && t < |s'.pcs| && (key !in s.table ==> s'.pcs[t] == Idle)
            && (key in s.table ==>
                  && s'.pcs[t] == Found(key, s.table[key]) && s.table[key] < |s'.handles|
                  && (IsRun(s', [RefCas(t)] + c) && !InCache(s'.handles[s.table[key]].flags) ==>
                        var s'' := After(s', [RefCas(t)] + c); t < |s''.pcs| && s''.pcs[t] == Idle))
  {
    InitIsSound(threads);
    RunKeeps(Init(threads), before);
    var s := After(Init(threads), before);
    FoundAtTheSwap(s, t, key, b);
    var s' := After(s, UpToSwap(t, key, b));
    if key in s.table {
      Remembered(s', t);
      if IsRun(s', [RefCas(t)] + c) { SwapTakesRef(s', t, key, s.table[key], c); }
    }
  }

  /** else it ends, whatever others do after that, with the handle and with the value and the life it had when the
      reference was taken, exactly if it was the entry of the key then. */
  lemma LookupHits(threads: nat, before: seq<Step>, t: nat, key: Key, b: seq<Step>, c: seq<Step>, pins: bool,
                   d: seq<Step>)
    requires IsRun(Init(threads), before) && OfOthers(b, t) && OfOthers(c, t) && OfOthers(d, t)
    requires IsRun(After(Init(threads), before), WholeLookup(t, key, b, c, pins, d))
    ensures var s := After(Init(threads), before);
            && IsRun(s, UpToSwap(t, key, b))
            && var s', s'' := After(s, UpToSwap(t, key, b)), After(s, WholeLookup(t, key, b, c, pins, d));
               && key in s.table && s.table[key] < |s'.handles| && t < |s''.pcs|
               && var h, entry := s.table[key], s'.handles[s.table[key]];
                  && InCache(entry.flags)
                  && s''.pcs[t] == if entry.key == key then Holding(key, h, entry.val, entry.life)
                     else Releasing(h, false)
  {
    InitIsSound(threads);
    RunKeeps(Init(threads), before);
    var s := After(Init(threads), before);
    var pin := if pins then [AddPinned(t)] + d else [];
    RunSplits(s, UpToSwap(t, key, b), ([RefCas(t)] + c) + (pin + [CompareKey(t)]));
    FoundAtTheSwap(s, t, key, b);
    var s1 := After(s, UpToSwap(t, key, b));
    RunSplits(s1, [RefCas(t)] + c, pin + [CompareKey(t)]);
    RunSplits(s1, [RefCas(t)], c);
    RunOfOne(s1, RefCas(t));
    var h := s.table[key];
    SwapTakesRef(s1, t, key, h, c);
    var s2 := After(s1, [RefCas(t)] + c);
    RunSplits(s2, pin, [CompareKey(t)]);
    LastSteps(s2, t, key, h, s1.handles[h], pins, d);
  }

  lemma LastSteps(s: State, t: nat, key: Key, h: nat, entry: Handle, pins: bool, d: seq<Step>)
    requires (HasRef(s, t, key, h, entry) || (Sound(s) && t < |s.pcs| && s.pcs[t] == Idle)) && OfOthers(d, t)
    requires IsRun(s, (if pins then [AddPinned(t)] + d else []) + [CompareKey(t)])
    ensures HasRef(s, t, key, h, entry)
    ensures var s' := After(s, (if pins then [AddPinned(t)] + d else []) + [CompareKey(t)]);
            && t < |s'.pcs|
            && s'.pcs[t] == if entry.key == key then Holding(key, h, entry.val, entry.life) else Releasing(h, false)
  {
    var pin := if pins then [AddPinned(t)] + d else [];
    RunSplits(s, pin, [CompareKey(t)]);
    if pins {
      RunSplits(s, [AddPinned(t)], d);
      RunOfOne(s, AddPinned(t));
      PinKeepsRef(s, t, key, h, entry, d);
    } else {
      RunOfOne(s, CompareKey(t));
    }
    ComparisonDecides(After(s, pin), t, key, h, entry);
  }

  // ----- what has been linked -----

  /** The value last linked under each key and not erased since. */
  ghost function NextLinked(s: State, step: Step, linked: map<Key, Value>): map<Key, Value> {
    match step
    case Link(t) => if t < |s.pcs| && s.pcs[t].Linking? then linked[s.pcs[t].job.key := s.pcs[t].job.val] else linked
    case Erase(_, key) => linked - {key}
    case _ => linked
  }

  ghost function LinkedBy(s: State, run: seq<Step>, linked: map<Key, Value>): map<Key, Value>
    requires IsRun(s, run)
    decreases |run|
  {
    if run == [] then linked else LinkedBy(Do(s, run[0]), run[1..], NextLinked(s, run[0], linked))
  }

  ghost predicate Agrees(s: State, linked: map<Key, Value>) {
    forall k :: k in s.table ==> k in linked && s.table[k] < |s.handles| && s.handles[s.table[k]].val == linked[k]
  }

  lemma TableStep(s: State, step: Step, k: Key)
    requires !Fails(s, step) && k in Do(s, step).table
    ensures !(step.Erase? && step.key == k)
    ensures if step.Link? && s.pcs[step.t].job.key == k then Do(s, step).table[k] == s.pcs[step.t].h
            else k in s.table && Do(s, step).table[k] == s.table[k]
  {
  }

  lemma TabledIsNotFilled(s: State, step: Step, k: Key)
    requires Sound(s) && !Fails(s, step) && step.Fill? && k in s.table
    ensures s.table[k] != s.pcs[step.t].h
  {
    FilledIsFree(s, step.t);
    Remembered(s, step.t);
    TableInRange(s, k);
    TabledInTable(s, k);
  }

  lemma StepAgrees(s: State, step: Step, linked: map<Key, Value>)
    requires Sound(s) && !Fails(s, step) && Agrees(s, linked)
    ensures Agrees(Do(s, step), NextLinked(s, step, linked))
  {
    var s', linked' := Do(s, step), NextLinked(s, step, linked);
    forall k | k in s'.table
      ensures k in linked' && s'.table[k] < |s'.handles| && s'.handles[s'.table[k]].val == linked'[k]
    {
      TableStep(s, step, k);
      if step.Link? && s.pcs[step.t].job.key == k {
        Remembered(s, step.t);
        EntriesStay(s, step, s.pcs[step.t].h);
      } else {
        if step.Fill? { TabledIsNotFilled(s, step, k); }
        EntriesStay(s, step, s.table[k]);
      }
    }
  }

  lemma {:induction false} RunAgrees(s: State, run: seq<Step>, linked: map<Key, Value>)
    requires Sound(s) && IsRun(s, run) && Agrees(s, linked)
    ensures Agrees(After(s, run), LinkedBy(s, run, linked))
    decreases |run|
  {
    if run != [] {
      StepKeeps(s, run[0]);
      StepAgrees(s, run[0], linked);
      RunAgrees(Do(s, run[0]), run[1..], NextLinked(s, run[0], linked));
    }
  }

  /** In every reachable state, a key in the table has been linked and not erased since, and its handle has that
      key and the value of the insertion that linked it last. */
  lemma TableHasWhatWasLinked(threads: nat, run: seq<Step>, key: Key)
    requires IsRun(Init(threads), run) && key in After(Init(threads), run).table
    ensures var s, linked := After(Init(threads), run), LinkedBy(Init(threads), run, map[]);
            && key in linked && s.table[key] < |s.handles|
            && s.handles[s.table[key]].key == key && s.handles[s.table[key]].val == linked[key]
  {
    InitIsSound(threads);
    RunKeeps(Init(threads), run);
    RunAgrees(Init(threads), run, map[]);
    TableInRange(After(Init(threads), run), key);
  }

  // ----- operations with nobody in between -----

  /** The step can be taken, and what follows it after it. */
  lemma Then(s: State, step: Step, rest: seq<Step>)
    requires Sound(s) && Can(s, step)
    ensures !Fails(s, step) && Sound(Do(s, step))
    ensures IsRun(Do(s, step), rest) ==>
              IsRun(s, [step] + rest) && After(s, [step] + rest) == After(Do(s, step), rest)
  {
    NoAssertFails(s, step);
    StepKeeps(s, step);
    assert ([step] + rest)[1..] == rest;
  }

  lemma LastStep(s: State, step: Step)
    requires Sound(s) && Can(s, step)
    ensures !Fails(s, step) && Sound(Do(s, step)) && IsRun(s, [step]) && After(s, [step]) == Do(s, step)
  {
    Then(s, step, []);
    assert [step] + [] == [step];
  }

  ghost predicate Holds(s: State, t: nat, key: Key, h: nat, entry: Handle) {
    t < |s.pcs| && s.pcs[t] == Holding(key, h, entry.val, entry.life)
  }

  lemma ComparesAlone(s: State, t: nat, key: Key, h: nat, entry: Handle)
    requires HasRef(s, t, key, h, entry) && s.pcs[t].Comparing? && entry.key == key
    ensures IsRun(s, [CompareKey(t)]) && Holds(After(s, [CompareKey(t)]), t, key, h, entry)
  {
    LastStep(s, CompareKey(t));
  }

  lemma PinsAlone(s: State, t: nat, key: Key, h: nat, entry: Handle)
    requires HasRef(s, t, key, h, entry) && s.pcs[t].Counted? && entry.key == key
    ensures var steps := [AddPinned(t)] + [CompareKey(t)]; IsRun(s, steps) && Holds(After(s, steps), t, key, h, entry)
  {
    Then(s, AddPinned(t), [CompareKey(t)]);
    PinStep(s, t, key, h, entry);
    ComparesAlone(Do(s, AddPinned(t)), t, key, h, entry);
  }

  /** The rest of a lookup that has found a handle with these flags. */
  ghost function StepsFrom(t: nat, flags: nat): seq<Step> {
    [RefCas(t)] + if CountRefs(flags) == 0 then [AddPinned(t)] + [CompareKey(t)] else [CompareKey(t)]
  }

  lemma SwapsAlone(s: State, t: nat, key: Key, h: nat)
    requires Sound(s) && t < |s.pcs| && s.pcs[t] == Found(key, h) && h < |s.handles|
    requires InCache(s.handles[h].flags) && s.handles[h].key == key
    ensures var steps := StepsFrom(t, s.handles[h].flags);
            IsRun(s, steps) && Holds(After(s, steps), t, key, h, s.handles[h])
  {
    var entry := s.handles[h];
    Then(s, RefCas(t), StepsFrom(t, entry.flags)[1..]);
    assert StepsFrom(t, entry.flags) == [RefCas(t)] + StepsFrom(t, entry.flags)[1..];
    SwapStep(s, t, key, h);
    var s' := Do(s, RefCas(t));
    if CountRefs(entry.flags) == 0 {
      assert s'.pcs[t].Counted?;
      PinsAlone(s', t, key, h, entry);
      assert StepsFrom(t, entry.flags)[1..] == [AddPinned(t)] + [CompareKey(t)];
    } else {
      assert s'.pcs[t].Comparing?;
      ComparesAlone(s', t, key, h, entry);
      assert StepsFrom(t, entry.flags)[1..] == [CompareKey(t)];
    }
  }

  lemma FindStep(s: State, t: nat, key: Key)
    requires !Fails(s, Find(t, key)) && key in s.table
    ensures Do(s, Find(t, key)) == s.(pcs := s.pcs[t := Found(key, s.table[key])])
  {
  }

  /** A lookup of a key in the table with nobody in between finds the entry, if that is in the cache, as it is unless
      it is being evicted right then. */
  lemma LookupAlone(s: State, t: nat, key: Key)
    requires Sound(s) && t < |s.pcs| && s.pcs[t].Idle? && key in s.table && s.table[key] < |s.handles|
    requires InCache(s.handles[s.table[key]].flags)
    ensures var steps := [Find(t, key)] + StepsFrom(t, s.handles[s.table[key]].flags);
            IsRun(s, steps) && Holds(After(s, steps), t, key, s.table[key], s.handles[s.table[key]])
  {
    var h := s.table[key];
    TableInRange(s, key);
    Then(s, Find(t, key), StepsFrom(t, s.handles[h].flags));
    FindStep(s, t, key);
    SwapsAlone(Do(s, Find(t, key)), t, key, h);
  }

  lemma TabledIsCached(s: State, key: Key)
    requires Sound(s) && key in s.table && !Holder(s).Evicted?
    ensures s.table[key] < |s.handles| && InCache(s.handles[s.table[key]].flags)
  {
    TableInRange(s, key);
    TabledInTable(s, key);
  }

  /** In every reachable state in which nothing is being evicted, a lookup of a key that was linked finds the value it
      was linked with last. */
  lemma LinkedIsFound(threads: nat, run: seq<Step>, t: nat, key: Key)
    requires IsRun(Init(threads), run)
    requires var s := After(Init(threads), run);
             t < |s.pcs| && s.pcs[t].Idle? && key in s.table && !Holder(s).Evicted?
    ensures var s, linked := After(Init(threads), run), LinkedBy(Init(threads), run, map[]);
            && key in linked && s.table[key] < |s.handles|
            && var steps := [Find(t, key)] + StepsFrom(t, s.handles[s.table[key]].flags);
               && IsRun(s, steps) && t < |After(s, steps).pcs| && After(s, steps).pcs[t].Holding?
               && After(s, steps).pcs[t].key == key && After(s, steps).pcs[t].h == s.table[key]
               && After(s, steps).pcs[t].val == linked[key]
  {
    InitIsSound(threads);
    RunKeeps(Init(threads), run);
    TableHasWhatWasLinked(threads, run, key);
    var s := After(Init(threads), run);
    TabledIsCached(s, key);
    LookupAlone(s, t, key);
  }

  // ----- erasing and releasing -----

  ghost function EraseSteps(t: nat, refs: nat): seq<Step> {
    if refs == 0 then [UnsetErased(t)] + [RecycleErased(t)] else [UnsetErased(t)]
  }

  lemma UnsetsAlone(s: State, t: nat, h: nat)
    requires Sound(s) && t < |s.pcs| && s.pcs[t] == Erasing(h) && h < |s.handles| && InCache(s.handles[h].flags)
    ensures var refs := CountRefs(s.handles[h].flags);
            var steps := EraseSteps(t, refs);
            && IsRun(s, steps)
            && var s' := After(s, steps);
               && s'.table == s.table && t < |s'.pcs| && s'.pcs[t] == Idle && s'.mutex == None
               && h < |s'.handles| && !InCache(s'.handles[h].flags) && CountRefs(s'.handles[h].flags) == refs
               && s'.bin == if refs == 0 then s.bin + [h] else s.bin
  {
    ClearInCacheFields(s.handles[h].flags);
    if CountRefs(s.handles[h].flags) == 0 {
      Then(s, UnsetErased(t), [RecycleErased(t)]);
      LastStep(Do(s, UnsetErased(t)), RecycleErased(t));
    } else {
      LastStep(s, UnsetErased(t));
    }
  }

  lemma EraseStep(s: State, t: nat, key: Key)
    requires !Fails(s, Erase(t, key)) && key in s.table
    ensures Do(s, Erase(t, key)) ==
            s.(table := s.table - {key}, mutex := Some(t), pcs := s.pcs[t := Erasing(s.table[key])])
  {
  }

  /** An erasure with nobody in between takes the key out of the table and its entry out of the cache, and into the bin
      exactly if nobody holds it; else the holders keep it. */
  lemma EraseAlone(s: State, t: nat, key: Key)
    requires Sound(s) && t < |s.pcs| && s.pcs[t].Idle? && s.mutex.None? && key in s.table && s.table[key] < |s.handles|
    ensures var h := s.table[key];
            var refs := CountRefs(s.handles[h].flags);
            var steps := [Erase(t, key)] + EraseSteps(t, refs);
            && IsRun(s, steps)
            && var s' := After(s, steps);
               && s'.table == s.table - {key} && t < |s'.pcs| && s'.pcs[t] == Idle && s'.mutex == None
               && h < |s'.handles| && !InCache(s'.handles[h].flags) && CountRefs(s'.handles[h].flags) == refs
               && s'.bin == if refs == 0 then s.bin + [h] else s.bin
  {
    var h := s.table[key];
    TabledIsCached(s, key);
    Then(s, Erase(t, key), EraseSteps(t, CountRefs(s.handles[h].flags)));
    EraseStep(s, t, key);
    UnsetsAlone(Do(s, Erase(t, key)), t, h);
  }

  /** What is left of a release, when the handle has these flags. */
  ghost function ReleaseSteps(t: nat, flags: nat): seq<Step> {
    if CountRefs(flags) != 1 then [Drop(t)]
    else if InCache(flags) then [Drop(t)] + [Unpin(t)]
    else [Drop(t)] + ([Unpin(t)] + [Recycle(t)])
  }

  lemma UnpinsAlone(s: State, t: nat, h: nat)
    requires Sound(s) && t < |s.pcs| && s.pcs[t].Unpinning? && s.pcs[t].h == h && s.mutex.None?
    ensures var steps := if s.pcs[t].last then [Unpin(t)] + [Recycle(t)] else [Unpin(t)];
            && IsRun(s, steps)
            && var s' := After(s, steps);
               && t < |s'.pcs| && s'.pcs[t] == Idle && s'.table == s.table && s'.handles == s.handles
               && s'.bin == if s.pcs[t].last then s.bin + [h] else s.bin
  {
    LastStep(s, Unpin(t));
    if s.pcs[t].last {
      LastStep(Do(s, Unpin(t)), Recycle(t));
      Then(s, Unpin(t), [Recycle(t)]);
    }
  }

  lemma DropStep(s: State, t: nat, h: nat)
    requires Sound(s) && t < |s.pcs| && s.pcs[t].Dropping? && s.pcs[t].h == h && h < |s.handles|
    ensures CountRefs(s.handles[h].flags) > 0 && !Fails(s, Drop(t))
    ensures var f, s' := s.handles[h].flags, Do(s, Drop(t));
            && t < |s'.pcs| && s'.table == s.table && s'.mutex == s.mutex && s'.bin == s.bin && h < |s'.handles|
            && CountRefs(s'.handles[h].flags) == CountRefs(f) - 1 && InCache(s'.handles[h].flags) == InCache(f)
            && HasUsage(s'.handles[h].flags) == HasUsage(f)
            && if CountRefs(f) == 1 then s'.pcs[t].Unpinning? && s'.pcs[t].h == h && s'.pcs[t].last == !InCache(f)
               else s'.pcs[t] == Idle
  {
    NoAssertFails(s, Drop(t));
    DropRefFields(s.handles[h].flags);
  }

  lemma DropsAlone(s: State, t: nat, h: nat)
    requires Sound(s) && t < |s.pcs| && s.pcs[t].Dropping? && s.pcs[t].h == h && h < |s.handles| && s.mutex.None?
    ensures CountRefs(s.handles[h].flags) > 0
    ensures var f := s.handles[h].flags;
            var steps := ReleaseSteps(t, f);
            && IsRun(s, steps)
            && var s' := After(s, steps);
               && t < |s'.pcs| && s'.pcs[t] == Idle && s'.table == s.table && h < |s'.handles|
               && CountRefs(s'.handles[h].flags) == CountRefs(f) - 1 && InCache(s'.handles[h].flags) == InCache(f)
               && HasUsage(s'.handles[h].flags) == HasUsage(f)
               && s'.bin == if CountRefs(f) == 1 && !InCache(f) then s.bin + [h] else s.bin
  {
    var f := s.handles[h].flags;
    DropStep(s, t, h);
    LastStep(s, Drop(t));
    if CountRefs(f) == 1 {
      UnpinsAlone(Do(s, Drop(t)), t, h);
      Then(s, Drop(t), if InCache(f) then [Unpin(t)] else [Unpin(t)] + [Recycle(t)]);
    }
  }

  lemma ReleaseStep(s: State, t: nat)
    requires Sound(s) && Can(s, Release(t))
    ensures !Fails(s, Release(t)) && Do(s, Release(t)) == s.(pcs := s.pcs[t := Releasing(s.pcs[t].h, true)])
  {
    NoAssertFails(s, Release(t));
  }

  lemma MarkStep(s: State, t: nat, h: nat)
    requires Sound(s) && t < |s.pcs| && s.pcs[t] == Releasing(h, true)
    ensures !Fails(s, MarkUsage(t)) && h < |s.handles|
    ensures var s' := Do(s, MarkUsage(t));
            && t < |s'.pcs| && s'.pcs[t].Dropping? && s'.pcs[t].h == h && s'.mutex == s.mutex && s'.table == s.table
            && s'.bin == s.bin && h < |s'.handles| && CountRefs(s'.handles[h].flags) == CountRefs(s.handles[h].flags)
            && InCache(s'.handles[h].flags) == InCache(s.handles[h].flags) && HasUsage(s'.handles[h].flags)
  {
    NoAssertFails(s, MarkUsage(t));
    UsageFields(s.handles[h].flags);
  }

  /** A release with nobody in between marks the entry as used and gives one reference back; the last one of an entry
      that is out of the cache sends the handle to the bin. */
  lemma ReleaseAlone(s: State, t: nat)
    requires Sound(s) && t < |s.pcs| && s.pcs[t].Holding? && s.mutex.None?
    ensures s.pcs[t].h < |s.handles|
    ensures var h := s.pcs[t].h;
            var f := s.handles[h].flags;
            var steps := [Release(t)] + ([MarkUsage(t)] + ReleaseSteps(t, f));
            && IsRun(s, steps)
            && var s' := After(s, steps);
               && t < |s'.pcs| && s'.pcs[t] == Idle && s'.table == s.table && h < |s'.handles|
               && CountRefs(f) > 0 && CountRefs(s'.handles[h].flags) == CountRefs(f) - 1
               && InCache(s'.handles[h].flags) == InCache(f) && HasUsage(s'.handles[h].flags)
               && s'.bin == if CountRefs(f) == 1 && !InCache(f) then s.bin + [h] else s.bin
  {
    var h := s.pcs[t].h;
    Referenced(s, t, h);
    var f := s.handles[h].flags;
    Then(s, Release(t), [MarkUsage(t)] + ReleaseSteps(t, f));
    ReleaseStep(s, t);
    MarksAlone(Do(s, Release(t)), t, h);
  }

  lemma MarksAlone(s: State, t: nat, h: nat)
    requires Sound(s) && t < |s.pcs| && s.pcs[t] == Releasing(h, true) && s.mutex.None?
    ensures h < |s.handles|
    ensures var f := s.handles[h].flags;
            var steps := [MarkUsage(t)] + ReleaseSteps(t, f);
            && IsRun(s, steps)
            && var s' := After(s, steps);
               && t < |s'.pcs| && s'.pcs[t] == Idle && s'.table == s.table && h < |s'.handles|
               && CountRefs(f) > 0 && CountRefs(s'.handles[h].flags) == CountRefs(f) - 1
               && InCache(s'.handles[h].flags) == InCache(f) && HasUsage(s'.handles[h].flags)
               && s'.bin == if CountRefs(f) == 1 && !InCache(f) then s.bin + [h] else s.bin
  {
    MarkStep(s, t, h);
    var s' := Do(s, MarkUsage(t));
    Then(s, MarkUsage(t), ReleaseSteps(t, s.handles[h].flags));
    assert ReleaseSteps(t, s'.handles[h].flags) == ReleaseSteps(t, s.handles[h].flags);
    DropsAlone(s', t, h);
  }

  // ----- inserting -----

  /** The entry of the job is in the table and in the cache, under handle h, and its thread is done. */
  ghost predicate IsIn(s: State, t: nat, job: Job, h: nat) {
    && t < |s.pcs| && s.mutex == None && job.key in s.table && s.table[job.key] == h && h < |s.handles|
    && IsFilled(s, h, job) && InCache(s.handles[h].flags)
    && s.pcs[t] == if job.hold then Holding(job.key, h, job.val, s.handles[h].life) else Idle
  }

  lemma AccountsAlone(s: State, t: nat, job: Job, h: nat)
    requires Sound(s) && t < |s.pcs| && s.pcs[t] == Accounting(h, job) && job.key in s.table && s.table[job.key] == h
    ensures IsRun(s, [Account(t)]) && IsIn(After(s, [Account(t)]), t, job, h) && After(s, [Account(t)]).table == s.table
  {
    LastStep(s, Account(t));
    Remembered(s, t);
    assert Pending(s) by { assert Open(s, 0); }
  }

  lemma LinksAlone(s: State, t: nat, job: Job, h: nat)
    requires Sound(s) && t < |s.pcs| && s.pcs[t] == Linking(h, job)
    ensures var steps := [Link(t)] + [Account(t)];
            && IsRun(s, steps) && IsIn(After(s, steps), t, job, h) && After(s, steps).table == s.table[job.key := h]
  {
    Then(s, Link(t), [Account(t)]);
    AccountsAlone(Do(s, Link(t)), t, job, h);
  }

  /** These steps of t, from s, put the entry of the job in. */
  ghost predicate PutsIn(s: State, steps: seq<Step>, t: nat, job: Job, h: nat) {
    && IsRun(s, steps) && IsIn(After(s, steps), t, job, h) && After(s, steps).table == s.table[job.key := h]
    && forall step :: step in steps ==> step.t == t
  }

  lemma StepThenPutsIn(s: State, step: Step, s': State, steps: seq<Step>, job: Job, h: nat)
    requires Sound(s) && Can(s, step) && !Fails(s, step) && s' == Do(s, step) && PutsIn(s', steps, step.t, job, h)
    requires s'.table == s.table || s'.table == s.table - {job.key}
    ensures PutsIn(s, [step] + steps, step.t, job, h)
  {
    Then(s, step, steps);
    assert (s.table - {job.key})[job.key := h] == s.table[job.key := h];
  }

  lemma LinkPutsIn(s: State, t: nat, job: Job, h: nat) returns (steps: seq<Step>)
    requires Sound(s) && t < |s.pcs| && s.pcs[t] == Linking(h, job)
    ensures PutsIn(s, steps, t, job, h)
  {
    steps := [Link(t)] + [Account(t)];
    LinksAlone(s, t, job, h);
  }

  lemma RecycleOldStep(s: State, t: nat)
    requires Sound(s) && t < |s.pcs| && s.pcs[t].Replaced?
    ensures !Fails(s, RecycleOld(t)) && Sound(Do(s, RecycleOld(t)))
    ensures var s' := Do(s, RecycleOld(t));
            t < |s'.pcs| && s'.pcs[t] == Linking(s.pcs[t].h, s.pcs[t].job) && s'.table == s.table
  {
    LastStep(s, RecycleOld(t));
  }

  lemma UnsetOldStep(s: State, t: nat)
    requires Sound(s) && t < |s.pcs| && s.pcs[t].Replacing?
    ensures !Fails(s, UnsetOld(t)) && Sound(Do(s, UnsetOld(t)))
    ensures var s' := Do(s, UnsetOld(t));
            && t < |s'.pcs| && s'.table == s.table && (s'.pcs[t].Replaced? || s'.pcs[t].Linking?)
            && s'.pcs[t].h == s.pcs[t].h && s'.pcs[t].job == s.pcs[t].job
  {
    LastStep(s, UnsetOld(t));
  }

  lemma FindExistingStep(s: State, t: nat)
    requires Sound(s) && t < |s.pcs| && s.pcs[t].Publishing?
    ensures !Fails(s, FindExisting(t)) && Sound(Do(s, FindExisting(t)))
    ensures var s', key := Do(s, FindExisting(t)), s.pcs[t].job.key;
            && t < |s'.pcs| && s'.table == s.table - {key} && (s'.pcs[t].Replacing? || s'.pcs[t].Linking?)
            && s'.pcs[t].h == s.pcs[t].h && s'.pcs[t].job == s.pcs[t].job
  {
    LastStep(s, FindExisting(t));
  }

  lemma FillStep(s: State, t: nat)
    requires Sound(s) && t < |s.pcs| && s.pcs[t].Filling?
    ensures !Fails(s, Fill(t)) && Sound(Do(s, Fill(t)))
    ensures var s' := Do(s, Fill(t));
            t < |s'.pcs| && s'.pcs[t] == Filled(s.pcs[t].h, s.pcs[t].job) && s'.table == s.table
  {
    LastStep(s, Fill(t));
  }

  lemma PublishStep(s: State, t: nat)
    requires Sound(s) && t < |s.pcs| && s.pcs[t].Filled?
    ensures !Fails(s, Publish(t)) && Sound(Do(s, Publish(t)))
    ensures var s' := Do(s, Publish(t));
            t < |s'.pcs| && s'.pcs[t] == Publishing(s.pcs[t].h, s.pcs[t].job) && s'.table == s.table
  {
    LastStep(s, Publish(t));
  }

  lemma RecyclesAlone(s: State, t: nat, job: Job, h: nat) returns (steps: seq<Step>)
    requires Sound(s) && t < |s.pcs| && s.pcs[t].Replaced? && s.pcs[t].h == h && s.pcs[t].job == job
    ensures PutsIn(s, steps, t, job, h)
  {
    RecycleOldStep(s, t);
    var s' := Do(s, RecycleOld(t));
    var rest := LinkPutsIn(s', t, job, h);
    StepThenPutsIn(s, RecycleOld(t), s', rest, job, h);
    steps := [RecycleOld(t)] + rest;
  }

  lemma ReplacesAlone(s: State, t: nat, job: Job, h: nat) returns (steps: seq<Step>)
    requires Sound(s) && t < |s.pcs| && s.pcs[t].Replacing? && s.pcs[t].h == h && s.pcs[t].job == job
    ensures PutsIn(s, steps, t, job, h)
  {
    UnsetOldStep(s, t);
    var s' := Do(s, UnsetOld(t));
    var rest;
    if s'.pcs[t].Replaced? { rest := RecyclesAlone(s', t, job, h); } else { rest := LinkPutsIn(s', t, job, h); }
    StepThenPutsIn(s, UnsetOld(t), s', rest, job, h);
    steps := [UnsetOld(t)] + rest;
  }

  lemma FindsAlone(s: State, t: nat, job: Job, h: nat) returns (steps: seq<Step>)
    requires Sound(s) && t < |s.pcs| && s.pcs[t] == Publishing(h, job)
    ensures PutsIn(s, steps, t, job, h)
  {
    FindExistingStep(s, t);
    var s' := Do(s, FindExisting(t));
    var rest;
    if s'.pcs[t].Replacing? { rest := ReplacesAlone(s', t, job, h); } else { rest := LinkPutsIn(s', t, job, h); }
    StepThenPutsIn(s, FindExisting(t), s', rest, job, h);
    steps := [FindExisting(t)] + rest;
  }

  lemma PublishesAlone(s: State, t: nat, job: Job, h: nat) returns (steps: seq<Step>)
    requires Sound(s) && t < |s.pcs| && s.pcs[t] == Filled(h, job)
    ensures PutsIn(s, steps, t, job, h)
  {
    PublishStep(s, t);
    var s' := Do(s, Publish(t));
    var rest := FindsAlone(s', t, job, h);
    StepThenPutsIn(s, Publish(t), s', rest, job, h);
    steps := [Publish(t)] + rest;
  }

  lemma FillsAlone(s: State, t: nat, job: Job, h: nat) returns (steps: seq<Step>)
    requires Sound(s) && t < |s.pcs| && s.pcs[t] == Filling(h, job)
    ensures PutsIn(s, steps, t, job, h)
  {
    FillStep(s, t);
    var s' := Do(s, Fill(t));
    var rest := PublishesAlone(s', t, job, h);
    StepThenPutsIn(s, Fill(t), s', rest, job, h);
    steps := [Fill(t)] + rest;
  }

  /** An insertion with nobody in between, and without evicting, ends with its entry in the table and in the cache, in
      the place of what was there, and held exactly if that was asked for. */
  lemma InsertAlone(s: State, t: nat, job: Job) returns (steps: seq<Step>, h: nat)
    requires Sound(s) && t < |s.pcs| && s.pcs[t].Idle? && s.mutex.None?
    ensures PutsIn(s, steps, t, job, h)
  {
    LastStep(s, BeginInsert(t, job));
    var s1 := Do(s, BeginInsert(t, job));
    LastStep(s1, Grab(t));
    var s2 := Do(s1, Grab(t));
    h := s2.pcs[t].h;
    var rest := FillsAlone(s2, t, job, h);
    StepThenPutsIn(s1, Grab(t), s2, rest, job, h);
    StepThenPutsIn(s, BeginInsert(t, job), s1, [Grab(t)] + rest, job, h);
    steps := [BeginInsert(t, job)] + ([Grab(t)] + rest);
  }

  /** An eviction with nobody in between takes an unused, unreferenced entry out of the cache and the table. */
  lemma EvictAlone(s: State, t: nat, victim: nat)
    requires Sound(s) && t < |s.pcs| && s.pcs[t].Inserting? && victim < |s.handles|
             && s.handles[victim].flags == IN_CACHE
    ensures var steps := [TryEvict(t, victim)] + [EraseEvicted(t)];
            && IsRun(s, steps)
            && var s' := After(s, steps);
               && t < |s'.pcs| && s'.pcs[t] == s.pcs[t] && s'.bin == s.bin + [victim]
               && victim < |s'.handles| && !InCache(s'.handles[victim].flags) && s.handles[victim].key in s.table
               && s'.table == s.table - {s.handles[victim].key} && s'.usage == s.usage - s.handles[victim].charge
  {
    LastStep(s, TryEvict(t, victim));
    var s' := Do(s, TryEvict(t, victim));
    LastStep(s', EraseEvicted(t));
    Then(s, TryEvict(t, victim), [EraseEvicted(t)]);
  }

  /** A probe of any other entry takes its usage mark and nothing else. */
  lemma SpareAlone(s: State, t: nat, victim: nat)
    requires Sound(s) && t < |s.pcs| && s.pcs[t].Inserting? && victim < |s.handles|
             && s.handles[victim].flags != IN_CACHE
    ensures !Fails(s, TryEvict(t, victim))
    ensures var s', f := Do(s, TryEvict(t, victim)), s.handles[victim].flags;
            && s'.pcs == s.pcs && s'.table == s.table && s'.bin == s.bin && |s'.handles| == |s.handles|
            && !HasUsage(s'.handles[victim].flags) && CountRefs(s'.handles[victim].flags) == CountRefs(f)
            && InCache(s'.handles[victim].flags) == InCache(f)
  {
    LastStep(s, TryEvict(t, victim));
    UsageFields(s.handles[victim].flags);
  }
}
