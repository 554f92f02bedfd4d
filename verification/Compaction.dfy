/**
 The compaction loop: which entries of the merged input it drops, how it cuts the rest into
 output tables, and that no read at or after the oldest snapshot can tell the outputs from the
 inputs.
 */
module Compaction {
  import opened Options
  import opened LsmEntries

  const MAX_SEQUENCE: nat := 0xFF_FFFF_FFFF_FFFF

  /** A finished output table with the bounds the compaction recorded for it. */
  datatype Output = Output(entries: seq<Entry>, smallest: Entry, largest: Entry)

  ghost predicate Before(e: Entry, f: Entry) {
    e.key < f.key || (e.key == f.key && e.seqno > f.seqno)
  }

  /** The merged input: in internal key order. */
  ghost predicate InOrder(input: seq<Entry>) {
    && (forall i :: 0 <= i < |input| ==> input[i].seqno < MAX_SEQUENCE)
    && forall i, j :: 0 <= i < j < |input| ==> Before(input[i], input[j])
  }

  /** A newer entry of the same key is already old enough for every snapshot. */
  ghost predicate Hidden(input: set<Entry>, oldest: nat, e: Entry) {
    exists f :: f in input && f.key == e.key && e.seqno < f.seqno <= oldest
  }

  /** A tombstone with nothing underneath. */
  predicate Spent(oldest: nat, isBase: Key -> bool, e: Entry) {
    e.val.None? && e.seqno <= oldest && isBase(e.key)
  }

  ghost predicate Dropped(input: set<Entry>, oldest: nat, isBase: Key -> bool, e: Entry) {
    Hidden(input, oldest, e) || Spent(oldest, isBase, e)
  }

  ghost function AsSet(s: seq<Entry>): set<Entry> {
    set e | e in s
  }

  /** The first `n` entries of `input` without the dropped ones, in order. */
  ghost function Kept(input: seq<Entry>, oldest: nat, isBase: Key -> bool, n: nat): seq<Entry>
    requires n <= |input|
  {
    if n == 0 then []
    else if Dropped(AsSet(input), oldest, isBase, input[n - 1]) then Kept(input, oldest, isBase, n - 1)
    else Kept(input, oldest, isBase, n - 1) + [input[n - 1]]
  }

  lemma {:induction false} KeptAreTheUndropped(input: seq<Entry>, oldest: nat, isBase: Key -> bool, n: nat, e: Entry)
    requires n <= |input|
    ensures e in Kept(input, oldest, isBase, n) <==>
              e in input[..n] && !Dropped(AsSet(input), oldest, isBase, e)
  {
    if n > 0 {
      assert input[..n] == input[..n - 1] + [input[n - 1]];
      KeptAreTheUndropped(input, oldest, isBase, n - 1, e);
    }
  }

  ghost function AllEntries(outputs: seq<Output>): seq<Entry> {
    if outputs == [] then [] else AllEntries(outputs[..|outputs| - 1]) + outputs[|outputs| - 1].entries
  }

  ghost predicate Bracketed(out: Output) {
    && out.entries != []
    && out.smallest == out.entries[0]
    && out.largest == out.entries[|out.entries| - 1]
  }

  /** A table is closed as soon as it is full. */
  ghost predicate NotPastFull(entries: seq<Entry>, isFull: seq<Entry> -> bool) {
    forall m :: 0 < m < |entries| ==> !isFull(entries[..m])
  }

  ghost predicate WellCut(outputs: seq<Output>, isFull: seq<Entry> -> bool) {
    forall n :: 0 <= n < |outputs| ==> Bracketed(outputs[n]) && NotPastFull(outputs[n].entries, isFull)
  }

  /** Looking one entry back is enough to know whether an entry is hidden. */
  lemma HiddenByThePrevious(input: seq<Entry>, oldest: nat, i: nat)
    requires InOrder(input) && i < |input|
    ensures Hidden(AsSet(input), oldest, input[i]) <==>
              i > 0 && input[i - 1].key == input[i].key && input[i - 1].seqno <= oldest
  {
    if i > 0 && input[i - 1].key == input[i].key && input[i - 1].seqno <= oldest {
      assert input[i - 1] in AsSet(input) && Before(input[i - 1], input[i]);
    }
    if Hidden(AsSet(input), oldest, input[i]) {
      var f :| f in AsSet(input) && f.key == input[i].key && input[i].seqno < f.seqno <= oldest;
      var j :| 0 <= j < |input| && input[j] == f;
      assert i < j ==> Before(input[i], input[j]);
      assert j < i - 1 ==> Before(input[j], input[i - 1]) && Before(input[i - 1], input[i]);
    }
  }

  /** What last_sequence_for_key holds when entry `i` is looked at. */
  function LastSequenceForKey(input: seq<Entry>, i: nat): nat
    requires i < |input|
  {
    if i > 0 && input[i - 1].key == input[i].key then input[i - 1].seqno else MAX_SEQUENCE
  }

  lemma DropRule(input: seq<Entry>, oldest: nat, isBase: Key -> bool, i: nat)
    requires InOrder(input) && i < |input| && oldest < MAX_SEQUENCE
    ensures Kept(input, oldest, isBase, i + 1) ==
            if LastSequenceForKey(input, i) <= oldest || Spent(oldest, isBase, input[i])
            then Kept(input, oldest, isBase, i) else Kept(input, oldest, isBase, i) + [input[i]]
  {
    HiddenByThePrevious(input, oldest, i);
  }

  /** DoCompactionWork's loop. When a table is cut (the boundary test before a key, the size test
      after it) is up to `stopBefore` and `isFull`; they decide nothing about what is kept. */
  method DoCompactionWork(input: seq<Entry>, smallestSnapshot: nat, isBase: Key -> bool,
                          stopBefore: nat -> bool, isFull: seq<Entry> -> bool)
    returns (outputs: seq<Output>)
    requires InOrder(input)
    requires smallestSnapshot < MAX_SEQUENCE
    ensures AllEntries(outputs) == Kept(input, smallestSnapshot, isBase, |input|)
    ensures WellCut(outputs, isFull)
  {
    outputs := [];
    var builder: seq<Entry> := [];  // the open table, none when empty
    var currentKey: Option<Key> := None;
    var lastSequenceForKey := MAX_SEQUENCE;
    for i := 0 to |input|
      invariant AllEntries(outputs) + builder == Kept(input, smallestSnapshot, isBase, i)
      invariant WellCut(outputs, isFull) && StillOpen(builder, isFull)
      invariant if i == 0 then currentKey == None
                else currentKey == Some(input[i - 1].key) && lastSequenceForKey == input[i - 1].seqno
    {
      var e := input[i];
      outputs, builder := FinishOutputIf(stopBefore(i), outputs, builder, isFull);
      if currentKey.None? || currentKey.value != e.key {
        currentKey := Some(e.key);
        lastSequenceForKey := MAX_SEQUENCE;
      }
      DropRule(input, smallestSnapshot, isBase, i);
      assert lastSequenceForKey == LastSequenceForKey(input, i);
      var drop := lastSequenceForKey <= smallestSnapshot || Spent(smallestSnapshot, isBase, e);
      lastSequenceForKey := e.seqno;
      if !drop {
        outputs, builder := AddToOutput(e, outputs, builder, isFull);
      }
    }
    outputs, builder := FinishOutputIf(true, outputs, builder, isFull);
    assert AllEntries(outputs) + builder == AllEntries(outputs);
  }

  /** The open table, not full. */
  ghost predicate StillOpen(builder: seq<Entry>, isFull: seq<Entry> -> bool) {
    NotPastFull(builder, isFull) && (builder == [] || !isFull(builder))
  }

  lemma OneMoreEntry(builder: seq<Entry>, e: Entry, isFull: seq<Entry> -> bool)
    requires StillOpen(builder, isFull)
    ensures NotPastFull(builder + [e], isFull)
  {
    forall m | 0 < m < |builder + [e]| ensures !isFull((builder + [e])[..m]) {
      assert (builder + [e])[..m] == builder[..m];
      assert m == |builder| ==> builder[..m] == builder;
    }
  }

  /** Adds an entry to the open table, and closes it if that makes it full. */
  method AddToOutput(e: Entry, outputs: seq<Output>, builder: seq<Entry>, isFull: seq<Entry> -> bool)
    returns (outputs': seq<Output>, builder': seq<Entry>)
    requires WellCut(outputs, isFull) && StillOpen(builder, isFull)
    ensures AllEntries(outputs') + builder' == AllEntries(outputs) + builder + [e]
    ensures WellCut(outputs', isFull) && StillOpen(builder', isFull)
  {
    OneMoreEntry(builder, e, isFull);
    assert AllEntries(outputs) + (builder + [e]) == AllEntries(outputs) + builder + [e];
    outputs', builder' := FinishOutputIf(isFull(builder + [e]), outputs, builder + [e], isFull);
  }

  method FinishOutputIf(cut: bool, outputs: seq<Output>, builder: seq<Entry>, ghost isFull: seq<Entry> -> bool)
    returns (outputs': seq<Output>, builder': seq<Entry>)
    requires WellCut(outputs, isFull) && NotPastFull(builder, isFull)
    ensures AllEntries(outputs') + builder' == AllEntries(outputs) + builder
    ensures WellCut(outputs', isFull)
    ensures builder' == if cut then [] else builder
  {
    outputs', builder' := outputs, builder;
    if cut && builder != [] {
      outputs' := outputs + [Output(builder, builder[0], builder[|builder| - 1])];
      assert outputs'[..|outputs'| - 1] == outputs;
      builder' := [];
    }
  }

  // ----- what is in the outputs -----

  /** An entry of the input is kept exactly if no newer entry of its key is old enough for every snapshot, and it is no
      deletion that is old enough itself and has nothing underneath. */
  lemma KeptExactly(input: seq<Entry>, oldest: nat, isBase: Key -> bool, e: Entry)
    ensures e in Kept(input, oldest, isBase, |input|) <==>
              && e in input && !(e.val == None && e.seqno <= oldest && isBase(e.key))
              && forall f :: f in input && f.key == e.key && e.seqno < f.seqno ==> oldest < f.seqno
  {
    KeptAreTheUndropped(input, oldest, isBase, |input|, e);
    assert input[..|input|] == input;
    assert forall f :: f in AsSet(input) <==> f in input;
  }

  lemma {:induction false} KeptFrom(input: seq<Entry>, oldest: nat, isBase: Key -> bool, n: nat, i: nat)
    requires n <= |input| && i < |Kept(input, oldest, isBase, n)|
    ensures exists x :: 0 <= x < n && input[x] == Kept(input, oldest, isBase, n)[i]
  {
    if i < |Kept(input, oldest, isBase, n - 1)| { KeptFrom(input, oldest, isBase, n - 1, i); }
  }

  /** The kept entries are in the order of the input. */
  lemma {:induction false} KeptInOrder(input: seq<Entry>, oldest: nat, isBase: Key -> bool, n: nat, i: nat, j: nat)
    requires InOrder(input) && n <= |input| && i < j < |Kept(input, oldest, isBase, n)|
    ensures Before(Kept(input, oldest, isBase, n)[i], Kept(input, oldest, isBase, n)[j])
    decreases n
  {
    var kept := Kept(input, oldest, isBase, n - 1);
    if j < |kept| {
      KeptInOrder(input, oldest, isBase, n - 1, i, j);
    } else {
      KeptFrom(input, oldest, isBase, n - 1, i);
    }
  }

  /** How many entries the tables before n have. */
  function EntriesBefore(outputs: seq<Output>, n: nat): nat
    requires n <= |outputs|
  {
    if n == 0 then 0 else EntriesBefore(outputs, n - 1) + |outputs[n - 1].entries|
  }

  lemma {:induction false} EntriesAt(outputs: seq<Output>, n: nat, m: nat)
    requires n < |outputs| && m < |outputs[n].entries|
    ensures EntriesBefore(outputs, n) + m < |AllEntries(outputs)|
    ensures AllEntries(outputs)[EntriesBefore(outputs, n) + m] == outputs[n].entries[m]
    decreases |outputs|
  {
    var rest := outputs[..|outputs| - 1];
    EntriesCounted(outputs, |outputs| - 1);
    if n < |outputs| - 1 {
      EntriesAt(rest, n, m);
      SameEntriesBefore(outputs, rest, n);
    }
  }

  lemma {:induction false} SameEntriesBefore(outputs: seq<Output>, rest: seq<Output>, n: nat)
    requires n <= |rest| && rest <= outputs
    ensures EntriesBefore(outputs, n) == EntriesBefore(rest, n)
  {
    if n > 0 { SameEntriesBefore(outputs, rest, n - 1); }
  }

  lemma {:induction false} EntriesCounted(outputs: seq<Output>, n: nat)
    requires n <= |outputs|
    ensures |AllEntries(outputs[..n])| == EntriesBefore(outputs, n)
  {
    if n > 0 {
      assert outputs[..n][..n - 1] == outputs[..n - 1];
      EntriesCounted(outputs, n - 1);
    }
  }

  lemma {:induction false} EntriesBeforeGrows(outputs: seq<Output>, n: nat, n': nat)
    requires n < n' <= |outputs|
    ensures EntriesBefore(outputs, n) + |outputs[n].entries| <= EntriesBefore(outputs, n')
    decreases n'
  {
    if n + 1 < n' { EntriesBeforeGrows(outputs, n, n' - 1); }
  }

  /** The tables that a compaction writes do not overlap: each begins where the one before has ended. */
  lemma OutputsDoNotOverlap(input: seq<Entry>, oldest: nat, isBase: Key -> bool, outputs: seq<Output>, n: nat, n': nat)
    requires InOrder(input) && AllEntries(outputs) == Kept(input, oldest, isBase, |input|)
    requires n < n' < |outputs| && Bracketed(outputs[n]) && Bracketed(outputs[n'])
    ensures Before(outputs[n].largest, outputs[n'].smallest)
  {
    var m := |outputs[n].entries| - 1;
    EntriesAt(outputs, n, m);
    EntriesAt(outputs, n', 0);
    EntriesBeforeGrows(outputs, n, n');
    KeptInOrder(input, oldest, isBase, |input|, EntriesBefore(outputs, n) + m, EntriesBefore(outputs, n'));
  }

  // ----- what a compaction may not change -----

  ghost function Survivors(input: set<Entry>, oldest: nat, isBase: Key -> bool): set<Entry> {
    set e | e in input && !Dropped(input, oldest, isBase, e)
  }

  /** What IsBaseLevelForKey stands for: every other entry of the key, in the levels not compacted,
      is newer than the ones compacted. */
  ghost predicate IsBaseFor(input: set<Entry>, rest: set<Entry>, isBase: Key -> bool) {
    forall e, r :: e in input && r in rest && e.key == r.key && isBase(e.key) ==> e.seqno < r.seqno
  }

  lemma {:induction false} OutputsAreTheSurvivors(input: seq<Entry>, oldest: nat, isBase: Key -> bool)
    ensures AsSet(Kept(input, oldest, isBase, |input|)) == Survivors(AsSet(input), oldest, isBase)
  {
    forall e
      ensures e in AsSet(Kept(input, oldest, isBase, |input|)) <==> e in Survivors(AsSet(input), oldest, isBase)
    {
      KeptAreTheUndropped(input, oldest, isBase, |input|, e);
      assert input[..|input|] == input;
    }
  }

  /** No read at the oldest snapshot or later tells the outputs from the inputs, whatever lies in
      the other levels and memtables. */
  lemma CompactionPreservesReads(input: set<Entry>, rest: set<Entry>, oldest: nat, isBase: Key -> bool)
    requires Unique(input + rest)
    requires IsBaseFor(input, rest, isBase)
    ensures SameReads(Survivors(input, oldest, isBase) + rest, input + rest, oldest)
  {
    var kept := Survivors(input, oldest, isBase);
    forall k, s | oldest <= s
      ensures Lookup(kept + rest, k, s) == Lookup(input + rest, k, s)
    {
      NewestExists(input + rest, k, s);
      if Nothing(input + rest, k, s) {
        LookupNothing(kept + rest, k, s);
        LookupNothing(input + rest, k, s);
      } else {
        var e :| IsNewest(input + rest, k, s, e);
        LookupIs(input + rest, k, s, e);
        NewestSurvives(input, rest, oldest, isBase, k, s, e);
      }
    }
  }

  lemma NewestSurvives(input: set<Entry>, rest: set<Entry>, oldest: nat, isBase: Key -> bool, k: Key, s: nat, e: Entry)
    requires Unique(input + rest)
    requires IsBaseFor(input, rest, isBase)
    requires oldest <= s && IsNewest(input + rest, k, s, e)
    ensures Lookup(Survivors(input, oldest, isBase) + rest, k, s) == e.val
  {
    var kept := Survivors(input, oldest, isBase);
    if e in kept + rest {
      assert IsNewest(kept + rest, k, s, e);
      LookupIs(kept + rest, k, s, e);
    } else {
      assert Spent(oldest, isBase, e);
      assert forall f :: f in input && f.key == k && f.seqno < e.seqno ==> Hidden(input, oldest, f);
      LookupNothing(kept + rest, k, s);
    }
  }
}
