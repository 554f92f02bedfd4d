/**
 What a snapshot iterator is for: the user-visible map at one sequence number. The meaning of a
 key is its history replayed in the order it was written; the view is the sorted list of the keys
 in bounds that have a meaning, and an iterator is a cursor over it.
 */
module SnapshotView {
  import opened Options
  import opened InternalKeys

  /** What an iterator is opened with: the inner iterator's entries, the snapshot, the range
      tombstones (as the test ShouldDelete makes), the merge operator (None: the merge fails)
      and the bounds. */
  datatype Reading = Reading(
    es: seq<Entry>,
    snapshot: nat,
    rangeDeleted: (Key, nat) -> bool,
    merge: (Key, Option<Value>, seq<Value>) -> Option<Value>,
    lower: Option<Key>,
    upper: Option<Key>)

  /** The state a key's history leads to: a base value and the merge operands on top of it,
      oldest first. */
  datatype Replayed = Replayed(base: Option<Value>, operands: seq<Value>)

  datatype Outcome = Absent | MergeFailed | Found(val: Value)

  predicate Live(c: Reading, e: Entry) {
    !e.kind.Deletion? && !e.kind.SingleDeletion? && !c.rangeDeleted(e.key, e.seqno)
  }

  function Apply(c: Reading, r: Replayed, e: Entry): Replayed {
    if !Live(c, e) then Replayed(None, [])
    else if e.kind.Put? then Replayed(Some(e.val), [])
    else r.(operands := r.operands + [e.val])
  }

  /** The entries from `i` up to `p`, newest first, so replayed from the last. */
  function Replay(c: Reading, i: nat, p: nat): Replayed
    requires i <= p <= |c.es|
    decreases p - i
  {
    if i == p then Replayed(None, []) else Apply(c, Replay(c, i + 1, p), c.es[i])
  }

  function Meaning(c: Reading, k: Key, r: Replayed): Outcome {
    if r.operands == [] then (if r.base.Some? then Found(r.base.value) else Absent)
    else
      var m := c.merge(k, r.base, r.operands);
      if m.Some? then Found(m.value) else MergeFailed
  }

  lemma Window(c: Reading, k: Key)
    requires Sorted(c.es)
    ensures First(c.es, k) <= Visible(c.es, c.snapshot, k) <= Past(c.es, k)
    ensures forall i :: First(c.es, k) <= i < Past(c.es, k) ==> c.es[i].key == k
  {
    var f, v := First(c.es, k), Visible(c.es, c.snapshot, k);
    assert f > 0 ==> c.es[f - 1].key < k;
    assert v > 0 ==> c.es[v - 1].key <= k;
  }

  /** The meaning of the entries of `k` the snapshot sees. */
  ghost function OutcomeOf(c: Reading, k: Key): Outcome
    requires Sorted(c.es)
  {
    Window(c, k);
    Meaning(c, k, Replay(c, Visible(c.es, c.snapshot, k), Past(c.es, k)))
  }

  predicate InBounds(c: Reading, k: Key) {
    && (c.lower.Some? ==> c.lower.value <= k)
    && (c.upper.Some? ==> k < c.upper.value)
  }

  /** What the iterator shows for each key: nothing outside the bounds. */
  ghost function Outcomes(c: Reading): Key -> Outcome
    requires Sorted(c.es)
  {
    (k: Key) => if InBounds(c, k) then OutcomeOf(c, k) else Absent
  }

  // A name to ask for the definition of one key's outcome, which proofs otherwise leave folded.
  ghost predicate Look(k: Key) { true }

  ghost predicate Tells(c: Reading, o: Key -> Outcome)
    requires Sorted(c.es)
  {
    forall k {:trigger Look(k)} :: o(k) == if InBounds(c, k) then OutcomeOf(c, k) else Absent
  }

  /** A key the snapshot sees no entries of is absent. */
  lemma AbsentWithoutEntries(c: Reading, o: Key -> Outcome, k: Key)
    requires Sorted(c.es) && Tells(c, o)
    requires Visible(c.es, c.snapshot, k) == Past(c.es, k)
    ensures o(k) == Absent
  {
    assert Look(k);
  }

  ghost predicate OnlyKeysOf(es: seq<Entry>, o: Key -> Outcome) {
    forall k :: o(k) != Absent ==> exists x :: 0 <= x < |es| && es[x].key == k
  }

  lemma OutcomesNeedEntries(c: Reading, o: Key -> Outcome)
    requires Sorted(c.es) && Tells(c, o)
    ensures OnlyKeysOf(c.es, o)
  {
    forall k | o(k) != Absent
      ensures exists x :: 0 <= x < |c.es| && c.es[x].key == k
    {
      Window(c, k);
      if Visible(c.es, c.snapshot, k) == Past(c.es, k) {
        AbsentWithoutEntries(c, o, k);
        assert false;
      }
      assert c.es[Visible(c.es, c.snapshot, k)].key == k;
    }
  }

  // ----- what a key's outcome is, by the entries themselves -----

  ghost predicate IsSeen(c: Reading, k: Key, i: nat) {
    i < |c.es| && c.es[i].key == k && c.es[i].seqno <= c.snapshot
  }

  ghost predicate IsNewestSeen(c: Reading, k: Key, n: nat) {
    IsSeen(c, k, n) && forall i: nat :: IsSeen(c, k, i) ==> c.es[i].seqno <= c.es[n].seqno
  }

  /** Entry i is an operand of k that no range tombstone covers. */
  ghost predicate IsOperand(c: Reading, k: Key, i: nat) {
    i < |c.es| && c.es[i].key == k && c.es[i].kind == Merge && !c.rangeDeleted(k, c.es[i].seqno)
  }

  /** From n, which the snapshot sees, down to m the entries are operands of k, and m is none. */
  ghost predicate AreOperands(c: Reading, k: Key, n: nat, m: nat) {
    n < m <= |c.es| && (forall i: nat :: n <= i < m ==> IsOperand(c, k, i)) && !IsOperand(c, k, m)
  }

  /** Their values, oldest first. */
  ghost function OperandsOf(es: seq<Entry>, n: nat, m: nat): seq<Value>
    requires n <= m <= |es|
  {
    seq(m - n, i requires 0 <= i < m - n => es[m - 1 - i].val)
  }

  /** What the operands apply to: the value right below them, if it is a put of the key that is not covered. */
  ghost function BaseAt(c: Reading, k: Key, m: nat): Option<Value> {
    if m < |c.es| && c.es[m].key == k && c.es[m].kind == Put && !c.rangeDeleted(k, c.es[m].seqno) then Some(c.es[m].val)
    else None
  }

  lemma NewestIsVisible(c: Reading, k: Key, n: nat)
    requires Sorted(c.es) && IsNewestSeen(c, k, n)
    ensures n == Visible(c.es, c.snapshot, k) < Past(c.es, k)
  {
    Window(c, k);
    var v, p := Visible(c.es, c.snapshot, k), Past(c.es, k);
    assert v <= n < p;
    assert IsSeen(c, k, v) && (v < n ==> Ordered(c.es, v, n));
  }

  lemma {:induction false} ReplayOperands(c: Reading, k: Key, n: nat, m: nat, i: nat, p: nat)
    requires Sorted(c.es) && AreOperands(c, k, n, m) && n <= i <= m && p == Past(c.es, k) && m <= p
    ensures Replay(c, i, p) == Replayed(BaseAt(c, k, m), OperandsOf(c.es, i, m))
    decreases m - i
  {
    Window(c, k);
    assert IsOperand(c, k, m - 1);
    if i < m {
      assert IsOperand(c, k, i);
      ReplayOperands(c, k, n, m, i + 1, p);
      assert OperandsOf(c.es, i, m) == OperandsOf(c.es, i + 1, m) + [c.es[i].val];
    } else if m < p {
      assert c.es[m].key == k;
    }
  }

  /** A key that the snapshot sees no entry of, or that is out of bounds, is absent. */
  lemma OutcomeOfNone(c: Reading, k: Key)
    requires Sorted(c.es)
    requires || (forall i: nat :: !IsSeen(c, k, i)) || (c.lower.Some? && k < c.lower.value)
             || (c.upper.Some? && c.upper.value <= k)
    ensures Outcomes(c)(k) == Absent
  {
    Window(c, k);
    var v := Visible(c.es, c.snapshot, k);
    if InBounds(c, k) && v < Past(c.es, k) { assert IsSeen(c, k, v); }
  }

  /** The newest entry of a key that the snapshot sees decides what it shows, if it is no operand: nothing for a
      deletion or an entry that a range tombstone covers, else its value. */
  lemma OutcomeOfNewest(c: Reading, k: Key, n: nat)
    requires Sorted(c.es) && IsNewestSeen(c, k, n)
    requires (c.lower.Some? ==> c.lower.value <= k) && (c.upper.Some? ==> k < c.upper.value)
    ensures c.es[n].kind in {Deletion, SingleDeletion} || c.rangeDeleted(k, c.es[n].seqno) ==> Outcomes(c)(k) == Absent
    ensures c.es[n].kind == Put && !c.rangeDeleted(k, c.es[n].seqno) ==> Outcomes(c)(k) == Found(c.es[n].val)
  {
    NewestIsVisible(c, k, n);
  }

  /** A key whose newest entry is an operand shows what the merge operator makes of the operands from there down, and
      of the put they stand on, or its failure. */
  lemma OutcomeOfOperands(c: Reading, k: Key, n: nat, m: nat)
    requires Sorted(c.es) && IsNewestSeen(c, k, n) && AreOperands(c, k, n, m)
    requires (c.lower.Some? ==> c.lower.value <= k) && (c.upper.Some? ==> k < c.upper.value)
    ensures var merged := c.merge(k, BaseAt(c, k, m), OperandsOf(c.es, n, m));
            Outcomes(c)(k) == if merged.Some? then Found(merged.value) else MergeFailed
  {
    NewestIsVisible(c, k, n);
    assert IsOperand(c, k, m - 1);
    ReplayOperands(c, k, n, m, n, Past(c.es, k));
    assert |OperandsOf(c.es, n, m)| > 0;
  }

  /** One of the three applies to every key. */
  lemma NewestAndOperandsExist(c: Reading, k: Key, i: nat) returns (n: nat, m: nat)
    requires Sorted(c.es) && IsSeen(c, k, i)
    ensures IsNewestSeen(c, k, n) && (IsOperand(c, k, n) ==> AreOperands(c, k, n, m))
  {
    Window(c, k);
    n := Visible(c.es, c.snapshot, k);
    assert n <= i;
    forall j: nat | IsSeen(c, k, j) ensures c.es[j].seqno <= c.es[n].seqno {
      if n < j { assert Ordered(c.es, n, j); }
    }
    m := n;
    while m < |c.es| && IsOperand(c, k, m)
      invariant n <= m <= |c.es| && forall i: nat :: n <= i < m ==> IsOperand(c, k, i)
    {
      m := m + 1;
    }
  }

  // ----- the view -----

  datatype Item = Item(key: Key, outcome: Outcome)

  /** The shown keys among the entries from `i` on, in order. */
  ghost function ViewFrom(es: seq<Entry>, o: Key -> Outcome, i: nat): seq<Item>
    requires Sorted(es)
    requires i <= |es|
    decreases |es| - i
  {
    if i == |es| then []
    else
      var k := es[i].key;
      var p := Past(es, k);
      assert i < p;
      var rest := ViewFrom(es, o, p);
      if o(k) != Absent then [Item(k, o(k))] + rest else rest
  }

  ghost function View(es: seq<Entry>, o: Key -> Outcome): seq<Item>
    requires Sorted(es)
  {
    ViewFrom(es, o, 0)
  }

  ghost predicate Increasing(view: seq<Item>) {
    forall j, l :: 0 <= j < l < |view| ==> view[j].key < view[l].key
  }

  ghost predicate AllShown(view: seq<Item>, o: Key -> Outcome) {
    forall j :: 0 <= j < |view| ==> o(view[j].key) != Absent && view[j].outcome == o(view[j].key)
  }

  lemma {:induction false} ViewFromIsSound(es: seq<Entry>, o: Key -> Outcome, i: nat)
    requires Sorted(es)
    requires i <= |es|
    ensures Increasing(ViewFrom(es, o, i)) && AllShown(ViewFrom(es, o, i), o)
    ensures forall j :: 0 <= j < |ViewFrom(es, o, i)| ==> i < |es| && es[i].key <= ViewFrom(es, o, i)[j].key
    decreases |es| - i
  {
    if i < |es| {
      var k := es[i].key;
      var p := Past(es, k);
      assert i < p;
      ViewFromIsSound(es, o, p);
    }
  }

  lemma {:induction false} ViewFromIsComplete(es: seq<Entry>, o: Key -> Outcome, i: nat, x: nat) returns (j: nat)
    requires Sorted(es)
    requires i <= x < |es|
    requires o(es[x].key) != Absent
    ensures j < |ViewFrom(es, o, i)| && ViewFrom(es, o, i)[j].key == es[x].key
    decreases |es| - i
  {
    var k := es[i].key;
    var p := Past(es, k);
    assert i < p;
    if x < p {
      EntriesAfter(es, i);
      j := 0;
    } else {
      j := ViewFromIsComplete(es, o, p, x);
      if o(k) != Absent { j := j + 1; }
    }
  }

  /** The view is exactly the keys with an outcome, with it, in increasing order. */
  lemma ViewIsTheSnapshot(es: seq<Entry>, o: Key -> Outcome, k: Key) returns (view: seq<Item>, j: nat)
    requires Sorted(es) && OnlyKeysOf(es, o)
    ensures view == View(es, o) && Increasing(view) && AllShown(view, o)
    ensures o(k) != Absent ==> j < |view| && view[j].key == k
  {
    ViewFromIsSound(es, o, 0);
    view, j := View(es, o), 0;
    if o(k) != Absent {
      var x :| 0 <= x < |es| && es[x].key == k;
      j := ViewFromIsComplete(es, o, 0, x);
    }
  }

  /** The number of items with a key below `t`: where a cursor seeking `t` stands. */
  function CountBelow(view: seq<Item>, t: Key): (n: nat)
    ensures n <= |view|
  {
    if view == [] then 0
    else CountBelow(view[1..], t) + (if view[0].key < t then 1 else 0)
  }

  lemma {:induction false} CountBelowSplits(view: seq<Item>, t: Key)
    requires Increasing(view)
    ensures forall j :: 0 <= j < |view| ==> (j < CountBelow(view, t) <==> view[j].key < t)
  {
    if view != [] {
      CountBelowSplits(view[1..], t);
      forall j | 0 <= j < |view|
        ensures j < CountBelow(view, t) <==> view[j].key < t
      {
        if j > 0 { assert view[j] == view[1..][j - 1]; }
        else if view[0].key >= t && |view| > 1 { assert view[1..][0].key >= t; }
      }
    }
  }

  // ----- the least and the greatest shown key, as the iterator looks for them -----

  ghost predicate NoneIn(o: Key -> Outcome, from: Key, to: Key) {
    forall k :: from <= k < to ==> o(k) == Absent
  }

  ghost predicate NoneFrom(o: Key -> Outcome, from: Key) {
    forall k :: from <= k ==> o(k) == Absent
  }

  ghost predicate NoneBelow(o: Key -> Outcome, to: Key) {
    forall k :: k < to ==> o(k) == Absent
  }

  lemma NextShownIsCursor(c: Reading, o: Key -> Outcome, from: Key, k: Key)
    requires Sorted(c.es) && Tells(c, o)
    requires o(k) != Absent && from <= k && NoneIn(o, from, k)
    ensures var i := CountBelow(View(c.es, o), from); i < |View(c.es, o)| && View(c.es, o)[i] == Item(k, o(k))
  {
    OutcomesNeedEntries(c, o);
    var view, j := ViewIsTheSnapshot(c.es, o, k);
    var i := CountBelow(view, from);
    assert i < |view| ==> o(view[i].key) != Absent;
    CountBelowSplits(view, from);
  }

  lemma NoneFromIsEnd(c: Reading, o: Key -> Outcome, from: Key)
    requires Sorted(c.es) && Tells(c, o)
    requires NoneFrom(o, from)
    ensures CountBelow(View(c.es, o), from) == |View(c.es, o)|
  {
    OutcomesNeedEntries(c, o);
    var view, _ := ViewIsTheSnapshot(c.es, o, from);
    var i := CountBelow(view, from);
    assert i < |view| ==> o(view[i].key) != Absent;
    CountBelowSplits(view, from);
  }

  lemma PrevShownIsCursor(c: Reading, o: Key -> Outcome, to: Key, k: Key)
    requires Sorted(c.es) && Tells(c, o)
    requires o(k) != Absent && k < to && NoneIn(o, k + 1, to)
    ensures var i := CountBelow(View(c.es, o), to) - 1; 0 <= i < |View(c.es, o)| && View(c.es, o)[i] == Item(k, o(k))
  {
    OutcomesNeedEntries(c, o);
    var view, j := ViewIsTheSnapshot(c.es, o, k);
    var i := CountBelow(view, to) - 1;
    assert 0 <= i ==> o(view[i].key) != Absent;
    CountBelowSplits(view, to);
  }

  lemma NoneBelowIsStart(c: Reading, o: Key -> Outcome, to: Key)
    requires Sorted(c.es) && Tells(c, o)
    requires NoneBelow(o, to)
    ensures CountBelow(View(c.es, o), to) == 0
  {
    OutcomesNeedEntries(c, o);
    var view, _ := ViewIsTheSnapshot(c.es, o, to);
    assert view != [] ==> o(view[0].key) != Absent;
    CountBelowSplits(view, to);
  }

  /** A cursor on an item is found again by the key it shows. */
  lemma CursorByKey(c: Reading, o: Key -> Outcome, k: Key)
    requires Sorted(c.es) && Tells(c, o)
    requires o(k) != Absent
    ensures var i := CountBelow(View(c.es, o), k); i < |View(c.es, o)| && View(c.es, o)[i] == Item(k, o(k))
    ensures CountBelow(View(c.es, o), k + 1) == CountBelow(View(c.es, o), k) + 1
  {
    NextShownIsCursor(c, o, k, k);
    PrevShownIsCursor(c, o, k + 1, k);
    OutcomesNeedEntries(c, o);
    var view, _ := ViewIsTheSnapshot(c.es, o, k);
    CountBelowSplits(view, k);
    CountBelowSplits(view, k + 1);
  }
}
