/**
 What the clients of a shard of the LRU cache see of it, from the calls they make and the answers they get. Nothing
 here depends on how the shard is built; `LruRuns` proves that the shard gives these answers.
 */
module LruViews {

  import opened Options
  import opened EvictionLists
  import opened LruShards

  datatype Call =
    | Lookup(key: Key)
    | Insert(key: Key, val: Value, charge: nat, highPri: bool, want: bool)
    | Ref(i: nat)
    | Release(i: nat, forceErase: bool)
    | Erase(key: Key)
    | EraseUnRefEntries
    | SetCapacity(capacity: nat)
    | SetStrictCapacityLimit(strict: bool)
    | SetHighPriorityPoolRatio(ratio: real)

  /** The clients name a handle by its place among those they hold. */
  predicate CanCall(call: Call, mine: seq<Handle>) {
    match call
    case Ref(i) => i < |mine|
    case Release(i, _) => i < |mine|
    case SetHighPriorityPoolRatio(ratio) => 0.0 <= ratio
    case _ => true
  }

  /** What a call did: the handle it returned, the entry it took charge of, how many entries it evicted, what it
      freed, and the eviction list it left. */
  datatype Answer = Answer(got: Option<Handle>, entry: Option<Handle>, evicted: nat, freed: seq<Handle>,
                           list: seq<Handle>)

  /** The handles that the clients hold, the eviction list, the entries freed, all entries ever taken charge of,
      those that were looked up, and for each key the entry last put into the table, with no erasure since. `latest`
      is what the interface promises instead of the latter: the entry of the last insertion that was answered OK;
      `bypassed` has the keys for which that insertion found no room. */
  datatype View = View(mine: seq<Handle>, list: seq<Handle>, freed: seq<Handle>,
                       accepted: set<Handle>, hit: set<Handle>,
                       stored: map<Key, Handle>, latest: map<Key, Handle>, bypassed: set<Key>,
                       capacity: nat, strict: bool, ratio: real)

  function NewView(capacity: nat, strict: bool, ratio: real): View {
    View([], [], [], {}, {}, map[], map[], {}, capacity, strict, ratio)
  }

  ghost function InUse(v: View): set<Handle> {
    set h | h in v.accepted && h !in v.freed
  }

  ghost function Usage(v: View): nat {
    Sum(InUse(v))
  }

  /** The key has an entry in the cache. */
  ghost predicate IsLive(v: View, key: Key) {
    key in v.stored && v.stored[key] !in v.freed
  }

  /** Room for an entry of this charge, once all that can be is evicted. */
  ghost predicate Room(v: View, charge: nat) {
    Usage(v) - Charge(v.list) + charge <= v.capacity
  }

  ghost predicate Stores(v: View, charge: nat, want: bool) {
    Room(v, charge) || (want && !v.strict)
  }

  /** mine without its element i. */
  function Released(mine: seq<Handle>, i: nat): seq<Handle>
    requires i < |mine|
  {
    mine[..i] + mine[i + 1..]
  }

  // ----- the answers -----

  /** The call returns no handle, and no entry comes or goes. */
  ghost predicate Quiet(v: View, a: Answer) {
    a == Answer(None, None, 0, [], v.list)
  }

  ghost predicate AnswersLookup(v: View, key: Key, a: Answer) {
    if IsLive(v, key) then a == Answer(Some(v.stored[key]), None, 0, [], Minus(v.list, v.stored[key]))
    else Quiet(v, a)
  }

  /** The oldest entries of the list go, as long as usage is above the limit and none longer. */
  ghost predicate EvictsTo(v: View, limit: int, a: Answer) {
    MustGo(v.list, Usage(v), limit, a.evicted)
  }

  /** h joins the list: last if it has priority, else before all that do. */
  ghost predicate Joins(v: View, list: seq<Handle>, h: Handle, hit: bool, a: Answer) {
    var last := v.ratio > 0.0 && (h.highPri || hit);
    exists low: nat :: IsPut(list, h, last, a.list, low)
  }

  lemma JoinsAt(v: View, list: seq<Handle>, h: Handle, hit: bool, a: Answer, low: nat)
    requires IsPut(list, h, v.ratio > 0.0 && (h.highPri || hit), a.list, low)
    ensures Joins(v, list, h, hit, a)
  {
    var last := v.ratio > 0.0 && (h.highPri || hit);
    assert IsPut(list, h, last, a.list, low);
  }

  ghost predicate IsEntryOf(e: Handle, call: Call)
    requires call.Insert?
  {
    e.key == call.key && e.val == call.val && e.charge == call.charge && e.highPri == call.highPri
  }

  /** The entry is refused exactly if the caller wants its handle, the limit is strict and there is no room. Without
      room and without a handle wanted it is freed at once. Else it takes the place of what is there. */
  ghost predicate AnswersInsert(v: View, call: Call, a: Answer)
    requires call.Insert?
  {
    var stored := Stores(v, call.charge, call.want);
    && (a.entry.Some? <==> stored || !call.want)
    && (a.entry.Some? ==> IsEntryOf(a.entry.value, call) && a.entry.value !in v.accepted)
    && a.got == (if call.want then a.entry else None)
    && EvictsTo(v, v.capacity - call.charge, a)
    && var gone, rest := v.list[..a.evicted], v.list[a.evicted..];
       if stored then AnswersReplace(v, call, a, gone, rest)
       else a.list == rest && a.freed == gone + if a.entry.Some? then [a.entry.value] else []
  }

  ghost predicate AnswersReplace(v: View, call: Call, a: Answer, gone: seq<Handle>, rest: seq<Handle>)
    requires call.Insert? && a.entry.Some?
  {
    if IsLive(v, call.key) && v.stored[call.key] !in gone then
      var old_ := v.stored[call.key];
      && a.freed == gone + (if old_ in v.mine then [] else [old_])
      && if call.want then a.list == Minus(rest, old_) else Joins(v, Minus(rest, old_), a.entry.value, false, a)
    else
      && a.freed == gone
      && if call.want then a.list == rest else Joins(v, rest, a.entry.value, false, a)
  }

  /** The last reference goes, and the entry is freed unless it stays in the cache and on the list. */
  ghost predicate AnswersRelease(v: View, i: nat, forceErase: bool, a: Answer)
    requires i < |v.mine|
  {
    var h := v.mine[i];
    && a.got.None? && a.entry.None? && a.evicted == 0
    && if multiset(v.mine)[h] > 1 then a.freed == [] && a.list == v.list
       else if IsLive(v, h.key) && v.stored[h.key] == h && Usage(v) <= v.capacity && !forceErase then
         a.freed == [] && Joins(v, v.list, h, h in v.hit, a)
       else a.freed == [h] && a.list == v.list
  }

  ghost predicate AnswersErase(v: View, key: Key, a: Answer) {
    if IsLive(v, key) then
      var e := v.stored[key];
      a == Answer(None, None, 0, if e in v.mine then [] else [e], Minus(v.list, e))
    else Quiet(v, a)
  }

  ghost predicate AnswersSetCapacity(v: View, capacity: nat, a: Answer) {
    && EvictsTo(v, capacity, a)
    && a == Answer(None, None, a.evicted, v.list[..a.evicted], v.list[a.evicted..])
  }

  ghost predicate Answers(v: View, call: Call, a: Answer)
    requires CanCall(call, v.mine)
  {
    match call
    case Lookup(key) => AnswersLookup(v, key, a)
    case Insert(_, _, _, _, _) => AnswersInsert(v, call, a)
    case Ref(_) => Quiet(v, a)
    case Release(i, forceErase) => AnswersRelease(v, i, forceErase, a)
    case Erase(key) => AnswersErase(v, key, a)
    case EraseUnRefEntries => a == Answer(None, None, |v.list|, v.list, [])
    case SetCapacity(capacity) => AnswersSetCapacity(v, capacity, a)
    case SetStrictCapacityLimit(_) => Quiet(v, a)
    case SetHighPriorityPoolRatio(_) => Quiet(v, a)
  }

  // ----- the view after an answer -----

  ghost function Next(v: View, call: Call, a: Answer): View
    requires CanCall(call, v.mine)
  {
    var v' := v.(list := a.list, freed := v.freed + a.freed);
    match call
    case Lookup(_) => if a.got.None? then v' else v'.(mine := v.mine + [a.got.value], hit := v.hit + {a.got.value})
    case Insert(_, _, _, _, _) => if a.entry.None? then v' else Inserted(v, v', call, a)
    case Ref(i) => v'.(mine := v.mine + [v.mine[i]])
    case Release(i, _) => v'.(mine := Released(v.mine, i))
    case Erase(key) => v'.(stored := v.stored - {key}, latest := v.latest - {key}, bypassed := v.bypassed - {key})
    case EraseUnRefEntries => v'
    case SetCapacity(capacity) => v'.(capacity := capacity)
    case SetStrictCapacityLimit(strict) => v'.(strict := strict)
    case SetHighPriorityPoolRatio(ratio) => v'.(ratio := ratio)
  }

  ghost function Inserted(v: View, v': View, call: Call, a: Answer): View
    requires call.Insert? && a.entry.Some?
  {
    var e, stored := a.entry.value, Stores(v, call.charge, call.want);
    v'.(mine := if a.got.Some? then v.mine + [e] else v.mine, accepted := v.accepted + {e},
        stored := if stored then v.stored[call.key := e] else v.stored, latest := v.latest[call.key := e],
        bypassed := if stored then v.bypassed - {call.key} else v.bypassed + {call.key})
  }

  // ----- runs -----

  ghost predicate IsAnswer(v: View, call: Call, a: Answer) {
    if CanCall(call, v.mine) then Answers(v, call, a) else Quiet(v, a)
  }

  /** Calls that the clients cannot make are passed over. */
  ghost function Then(v: View, call: Call, a: Answer): View {
    if CanCall(call, v.mine) then Next(v, call, a) else v
  }

  ghost function After(v: View, calls: seq<Call>, answers: seq<Answer>): View
    requires |calls| == |answers|
    decreases |calls|
  {
    if calls == [] then v
    else var n := |calls| - 1; Then(After(v, calls[..n], answers[..n]), calls[n], answers[n])
  }

  /** Each answer is one that its call may get after the answers before. */
  ghost predicate AreAnswers(v: View, calls: seq<Call>, answers: seq<Answer>) {
    && |answers| == |calls|
    && forall k :: 0 <= k < |calls| ==>
         IsAnswer(After(v, calls[..k], answers[..k]), calls[k], answers[k])
  }

  lemma OneMoreAnswer(v: View, calls: seq<Call>, answers: seq<Answer>, call: Call, a: Answer)
    requires AreAnswers(v, calls, answers) && IsAnswer(After(v, calls, answers), call, a)
    ensures AreAnswers(v, calls + [call], answers + [a])
    ensures After(v, calls + [call], answers + [a]) == Then(After(v, calls, answers), call, a)
  {
    var calls', answers' := calls + [call], answers + [a];
    forall k | 0 <= k <= |calls|
      ensures calls'[..k] == calls[..k] && answers'[..k] == answers[..k]
    {
    }
    assert calls[..|calls|] == calls && answers[..|calls|] == answers;
  }

  // ----- what a lookup finds -----

  /** All that is seen has been accepted. */
  ghost predicate Known(v: View) {
    && (forall h :: h in v.mine ==> h in v.accepted)
    && (forall h :: h in v.list ==> h in v.accepted)
    && (forall h :: h in v.freed ==> h in v.accepted)
    && (forall key :: key in v.latest ==> v.latest[key] in v.accepted)
    && (forall key :: key in v.stored ==> v.stored[key] in v.accepted)
  }

  /** Of each key, what is in the table is the entry last inserted, unless that one found no room. */
  ghost predicate InStep(v: View) {
    && (forall key :: key in v.stored ==> key in v.latest)
    && (forall key :: key in v.stored && key !in v.bypassed ==> v.latest[key] == v.stored[key])
    && (forall key :: key in v.bypassed ==> key in v.latest && v.latest[key] in v.freed)
  }

  lemma JoinsKnown(v: View, list: seq<Handle>, h: Handle, hit: bool, a: Answer)
    requires Joins(v, list, h, hit, a)
    ensures forall x :: x in a.list ==> x in list || x == h
  {
    var last := v.ratio > 0.0 && (h.highPri || hit);
    var low: nat :| IsPut(list, h, last, a.list, low);
    assert IsPut(list, h, last, a.list, low);
    assert !last ==> a.list == With(list, low - 1, h);
  }

  lemma MinusKnown(list: seq<Handle>, h: Handle)
    ensures forall x :: x in Minus(list, h) ==> x in list
  {
  }

  lemma InsertIsKnown(v: View, call: Call, a: Answer)
    requires Known(v) && call.Insert? && AnswersInsert(v, call, a)
    ensures forall h :: h in a.list || h in a.freed ==> h in v.accepted || a.entry == Some(h)
  {
    var gone, rest := v.list[..a.evicted], v.list[a.evicted..];
    assert forall h :: h in gone || h in rest ==> h in v.list;
    if Stores(v, call.charge, call.want) {
      var base := if IsLive(v, call.key) && v.stored[call.key] !in gone then Minus(rest, v.stored[call.key]) else rest;
      if IsLive(v, call.key) { MinusKnown(rest, v.stored[call.key]); }
      if !call.want { JoinsKnown(v, base, a.entry.value, false, a); }
      assert forall h :: h in a.list ==> h in base || h == a.entry.value;
    }
  }

  /** An answer brings up no entry but those known and the one accepted. */
  lemma AnswerIsKnown(v: View, call: Call, a: Answer)
    requires Known(v) && CanCall(call, v.mine) && Answers(v, call, a)
    ensures forall h :: h in a.list || h in a.freed ==> h in v.accepted || a.entry == Some(h)
    ensures a.got.Some? ==> a.got.value in v.accepted || a.got == a.entry
  {
    match call
    case Insert(_, _, _, _, _) => InsertIsKnown(v, call, a);
    case Release(i, _) =>
      var h := v.mine[i];
      if a.list != v.list { JoinsKnown(v, v.list, h, h in v.hit, a); }
    case Lookup(key) => if IsLive(v, key) { MinusKnown(v.list, v.stored[key]); }
    case Erase(key) => if IsLive(v, key) { MinusKnown(v.list, v.stored[key]); }
    case _ =>
  }

  lemma AnswerKeepsKnown(v: View, call: Call, a: Answer)
    requires Known(v) && CanCall(call, v.mine) && Answers(v, call, a)
    ensures Known(Next(v, call, a))
  {
    AnswerIsKnown(v, call, a);
    assert call.Release? ==> forall h :: h in Released(v.mine, call.i) ==> h in v.mine;
  }

  lemma AnswerKeepsStep(v: View, call: Call, a: Answer)
    requires Known(v) && InStep(v) && CanCall(call, v.mine) && Answers(v, call, a)
    ensures InStep(Next(v, call, a))
  {
    if call.Insert? && a.entry.Some? && !Stores(v, call.charge, call.want) {
      assert a.entry.value in a.freed;
    }
  }

  lemma {:induction false} RunKeepsStep(v: View, calls: seq<Call>, answers: seq<Answer>)
    requires Known(v) && InStep(v) && AreAnswers(v, calls, answers)
    ensures Known(After(v, calls, answers)) && InStep(After(v, calls, answers))
    decreases |calls|
  {
    if calls != [] {
      var n := |calls| - 1;
      FewerAnswers(v, calls, answers, n);
      RunKeepsStep(v, calls[..n], answers[..n]);
      var v' := After(v, calls[..n], answers[..n]);
      if CanCall(calls[n], v'.mine) {
        AnswerKeepsKnown(v', calls[n], answers[n]);
        AnswerKeepsStep(v', calls[n], answers[n]);
      }
    }
  }

  lemma FewerAnswers(v: View, calls: seq<Call>, answers: seq<Answer>, n: nat)
    requires AreAnswers(v, calls, answers) && n <= |calls|
    ensures AreAnswers(v, calls[..n], answers[..n])
  {
    forall k | 0 <= k < n
      ensures calls[..n][..k] == calls[..k] && answers[..n][..k] == answers[..k]
    {
    }
  }

  /** In every run, a lookup that finds anything finds the entry last stored under the key, with no erasure since. That
      is the entry of the last insertion answered OK, as the interface has it, exactly if that insertion did not find
      the pinned entries to leave no room. */
  lemma LookupFindsTheLatestExactly(v: View, calls: seq<Call>, answers: seq<Answer>, k: nat)
    requires exists capacity, strict, ratio :: v == NewView(capacity, strict, ratio)
    requires AreAnswers(v, calls, answers) && k < |calls| && calls[k].Lookup? && answers[k].got.Some?
    ensures var v', key := After(v, calls[..k], answers[..k]), calls[k].key;
            && key in v'.stored && answers[k].got.value == v'.stored[key]
            && key in v'.latest && (answers[k].got.value == v'.latest[key] <==> key !in v'.bypassed)
  {
    FewerAnswers(v, calls, answers, k);
    RunKeepsStep(v, calls[..k], answers[..k]);
  }

  const FIRST := Insert(7, 1, 1, false, true)
  const SECOND := Insert(7, 2, 1, false, false)

  lemma FirstIsStored(v: View, a: Answer)
    requires v == NewView(1, false, 0.0) && AnswersInsert(v, FIRST, a)
    ensures a.entry.Some? && a.entry.value.val == 1 && a.entry.value.charge == 1
    ensures var e := a.entry.value;
            Next(v, FIRST, a) == View([e], [], [], {e}, {}, map[7 := e], map[7 := e], {}, 1, false, 0.0)
  {
    assert InUse(v) == {};
    assert a.evicted == 0 && v.list[0..] == [];
  }

  lemma SecondIsNot(v: View, e: Handle, a: Answer)
    requires v == View([e], [], [], {e}, {}, map[7 := e], map[7 := e], {}, 1, false, 0.0) && e.charge == 1
    requires AnswersInsert(v, SECOND, a)
    ensures a.entry.Some? && a.entry.value.val == 2
    ensures IsLive(Next(v, SECOND, a), 7) && Next(v, SECOND, a).stored[7] == e
  {
    assert InUse(v) == {e};
    SumMinus({e}, e);
    assert {e} - {e} == {};
    assert a.freed == [a.entry.value];
  }

  /** It happens, on a shard of capacity 1: while a client holds the entry of the first insertion, the second of the
      same key, without a handle, is answered OK, and a lookup then finds the first. */
  lemma OldEntryIsFound(answers: seq<Answer>)
    requires AreAnswers(NewView(1, false, 0.0), [FIRST, SECOND, Lookup(7)], answers)
    ensures answers[1].entry.Some? && answers[1].entry.value.val == 2
    ensures answers[2].got.Some? && answers[2].got.value.val == 1
  {
    var calls, v0 := [FIRST, SECOND, Lookup(7)], NewView(1, false, 0.0);
    assert calls[..0] == [] && calls[..1] == [FIRST] && calls[..2] == [FIRST, SECOND];
    assert calls[..1][..0] == [] && calls[..2][..1] == [FIRST];
    assert answers[..2][..1] == answers[..1] && answers[..1][..0] == answers[..0] == [];
    FirstIsStored(v0, answers[0]);
    var v1 := After(v0, calls[..1], answers[..1]);
    assert v1 == Next(v0, FIRST, answers[0]);
    SecondIsNot(v1, answers[0].entry.value, answers[1]);
    assert After(v0, calls[..2], answers[..2]) == Next(v1, SECOND, answers[1]);
    assert IsAnswer(After(v0, calls[..2], answers[..2]), calls[2], answers[2]);
  }
}
