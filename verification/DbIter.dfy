/**
 The snapshot iterator: a class that walks an inner iterator over internal entries in both
 directions, skipping what the snapshot does not see, resolving merges, and jumping ahead when it
 has stepped over too many entries. Every public method is proved to move a cursor over the
 snapshot's view (SnapshotView), whatever the skip limit and whichever way it moved before.
 */
module DbIterator {
  import opened Options
  import opened InternalKeys
  import opened SnapshotView

  // ----- one key's entries, replayed piece by piece -----

  /** A newest visible entry that is a live put or no live entry settles its key. */
  lemma NewestDecides(c: Reading, o: Key -> Outcome, i: nat)
    requires Sorted(c.es) && Tells(c, o)
    requires i < |c.es| && i == Visible(c.es, c.snapshot, c.es[i].key)
    ensures !Live(c, c.es[i]) ==> o(c.es[i].key) == Absent
    ensures Live(c, c.es[i]) && c.es[i].kind.Put? && InBounds(c, c.es[i].key) ==>
              o(c.es[i].key) == Found(c.es[i].val)
  {
    var k := c.es[i].key;
    assert Look(k);
  }

  /** Going from the newest visible entry of `k` down, the entries before `i` were live operands. */
  ghost predicate Collected(c: Reading, k: Key, i: nat, operands: seq<Value>)
    requires Sorted(c.es)
  {
    var v, p := Visible(c.es, c.snapshot, k), Past(c.es, k);
    && v < i <= p
    && operands != []
    && var r := Replay(c, i, p); Replay(c, v, p) == Replayed(r.base, r.operands + operands)
  }

  lemma CollectFirst(c: Reading, k: Key, v: nat)
    requires Sorted(c.es)
    requires v == Visible(c.es, c.snapshot, k) < Past(c.es, k)
    requires Live(c, c.es[v]) && c.es[v].kind.Merge?
    ensures Collected(c, k, v + 1, [c.es[v].val])
  {
  }

  lemma CollectNext(c: Reading, k: Key, i: nat, operands: seq<Value>)
    requires Sorted(c.es) && Collected(c, k, i, operands)
    requires i < |c.es| && c.es[i].key == k && Live(c, c.es[i]) && c.es[i].kind.Merge?
    ensures Collected(c, k, i + 1, [c.es[i].val] + operands)
  {
    var r := Replay(c, i + 1, Past(c.es, k));
    assert r.operands + [c.es[i].val] + operands == r.operands + ([c.es[i].val] + operands);
  }

  /** Collecting stops at the end of the key, at a dead entry or at the base the operands sit on. */
  lemma CollectStops(c: Reading, o: Key -> Outcome, k: Key, i: nat, operands: seq<Value>, base: Option<Value>)
    requires Sorted(c.es) && Tells(c, o) && InBounds(c, k) && Collected(c, k, i, operands)
    requires if i < |c.es| && c.es[i].key == k && Live(c, c.es[i]) then c.es[i].kind.Put? && base == Some(c.es[i].val)
             else base == None
    ensures o(k) == Meaning(c, k, Replayed(base, operands))
  {
    Window(c, k);
    assert Look(k);
    assert operands == [] + operands;
  }

  // ----- where a scan stands -----

  /** No key is shown strictly between a key and the next one that has entries. */
  lemma GapAbove(c: Reading, o: Key -> Outcome, k: Key)
    requires Sorted(c.es) && Tells(c, o)
    ensures var q := Past(c.es, k);
            if q < |c.es| then NoneIn(o, k + 1, c.es[q].key) else NoneFrom(o, k + 1)
  {
    OutcomesNeedEntries(c, o);
    var q := Past(c.es, k);
    EntriesAfter(c.es, q);
    forall x | k < x && (q < |c.es| ==> x < c.es[q].key)
      ensures o(x) == Absent
    {
      assert forall i :: 0 <= i < |c.es| ==> c.es[i].key != x;
    }
  }

  lemma GapBelow(c: Reading, o: Key -> Outcome, k: Key)
    requires Sorted(c.es) && Tells(c, o)
    ensures var q := First(c.es, k);
            if q > 0 then NoneIn(o, c.es[q - 1].key + 1, k) && Past(c.es, c.es[q - 1].key) == q
            else NoneBelow(o, k)
  {
    OutcomesNeedEntries(c, o);
    var q := First(c.es, k);
    if q > 0 {
      var p := Past(c.es, c.es[q - 1].key);
      assert q < |c.es| ==> c.es[q].key > c.es[q - 1].key;
      assert p == q;
    }
    forall x | x < k && (q > 0 ==> c.es[q - 1].key < x)
      ensures o(x) == Absent
    {
      assert forall i :: 0 <= i < |c.es| ==> c.es[i].key != x;
    }
  }

  lemma OutOfBoundsIsAbsent(c: Reading, o: Key -> Outcome)
    requires Sorted(c.es) && Tells(c, o)
    ensures c.upper.Some? ==> NoneFrom(o, c.upper.value)
    ensures c.lower.Some? ==> NoneBelow(o, c.lower.value)
  {
    forall k | !InBounds(c, k)
      ensures o(k) == Absent
    {
      assert Look(k);
    }
  }

  /** A forward scan for the least shown key at or above `from`, at entry `i`, with `k` saved. When
      skipping, every key up to `k` is settled; otherwise all the visible entries of the key at
      `i` still lie ahead. */
  ghost predicate Scan(c: Reading, o: Key -> Outcome, from: Key, skipping: bool, k: Key, i: nat)
    requires Sorted(c.es)
  {
    && i <= |c.es|
    && (skipping ==> from <= k + 1 && NoneIn(o, from, k + 1))
    && (i == |c.es| ==> NoneFrom(o, from))
    && (i < |c.es| ==>
          && NoneIn(o, from, c.es[i].key)
          && (skipping ==> k <= c.es[i].key)
          && (!(skipping && c.es[i].key == k) ==> from <= c.es[i].key && i <= Visible(c.es, c.snapshot, c.es[i].key)))
  }

  /** Sequence number 0 is the last of its key. */
  lemma ZeroIsLast(c: Reading, i: nat, j: nat)
    requires Sorted(c.es)
    requires i < j < |c.es| && c.es[i].seqno == 0
    ensures c.es[i].key < c.es[j].key
  {
    assert Ordered(c.es, i, j);
  }

  lemma FirstOfItsKey(c: Reading, q: nat)
    requires Sorted(c.es)
    requires q < |c.es| && (q > 0 ==> c.es[q - 1].key < c.es[q].key)
    ensures q <= Visible(c.es, c.snapshot, c.es[q].key)
  {
    var k := c.es[q].key;
    assert q > 0 ==> q - 1 < Visible(c.es, c.snapshot, k);
  }

  lemma ScanSkips(c: Reading, o: Key -> Outcome, from: Key, k: Key, q: nat)
    requires Sorted(c.es) && Tells(c, o)
    requires from <= k + 1 && NoneIn(o, from, k + 1)
    requires First(c.es, k) <= q <= Past(c.es, k)
    ensures Scan(c, o, from, true, k, q)
  {
    GapAbove(c, o, k);
    if q < |c.es| && c.es[q].key != k {
      assert q == Past(c.es, k);
      FirstOfItsKey(c, q);
    }
  }

  lemma ScanHides(c: Reading, o: Key -> Outcome, from: Key, skipping: bool, k: Key, i: nat)
    requires Sorted(c.es) && Tells(c, o)
    requires Scan(c, o, from, skipping, k, i)
    requires i < |c.es| && !(skipping && c.es[i].key == k)
    requires c.es[i].seqno <= c.snapshot && !Live(c, c.es[i])
    ensures Scan(c, o, from, true, c.es[i].key, i + 1)
  {
    NewestDecides(c, o, i);
    ScanSkips(c, o, from, c.es[i].key, i + 1);
  }

  lemma ScanPassesNewer(c: Reading, o: Key -> Outcome, from: Key, skipping: bool, k: Key, i: nat, q: nat)
    requires Sorted(c.es) && Tells(c, o)
    requires Scan(c, o, from, skipping, k, i)
    requires i < |c.es| && !(skipping && c.es[i].key == k)
    requires i < q <= Visible(c.es, c.snapshot, c.es[i].key)
    ensures Scan(c, o, from, false, c.es[i].key, q)
  {
    var x := c.es[i].key;
    Window(c, x);
    GapAbove(c, o, x);
    assert First(c.es, x) <= i;
    if q == Past(c.es, x) {
      AbsentWithoutEntries(c, o, x);
      if q < |c.es| {
        FirstOfItsKey(c, q);
      }
    }
  }

  lemma ScanFromSeek(c: Reading, o: Key -> Outcome, k: Key)
    requires Sorted(c.es) && Tells(c, o)
    ensures Scan(c, o, k, false, k, Visible(c.es, c.snapshot, k))
  {
    var q := Visible(c.es, c.snapshot, k);
    Window(c, k);
    GapAbove(c, o, k);
    if q == Past(c.es, k) {
      AbsentWithoutEntries(c, o, k);
      if q < |c.es| {
        FirstOfItsKey(c, q);
      }
    }
  }

  // ----- the iterator -----

  class DbIter {
    const c: Reading
    const maxSkip: nat
    ghost const o: Key -> Outcome

    var pos: nat              // the inner iterator's entry; |c.es| when it is not valid
    var savedKey: Key
    var savedValue: Value
    var pinnedValue: Value
    var operands: seq<Value>  // the merge context, oldest first
    var reversed: bool        // the direction
    var valid: bool
    var merged: bool          // the current entry is a merge result
    var seqnoZero: bool       // the entry last parsed going forward has sequence number 0
    var failed: bool          // the status is not OK

    ghost predicate Opened() {
      Sorted(c.es) && Tells(c, o)
    }

    constructor (c: Reading, maxSkip: nat)
      requires Sorted(c.es)
      ensures Opened() && Consistent()
      ensures this.c == c && this.maxSkip == maxSkip && o == Outcomes(c)
      ensures !valid && !failed
    {
      OutcomesNeedEntries(c, Outcomes(c));
      this.c, this.maxSkip, this.o := c, maxSkip, Outcomes(c);
      pos, savedKey, savedValue, pinnedValue, operands := |c.es|, 0, "", "", [];
      reversed, valid, merged, seqnoZero, failed := false, false, false, false, false;
    }

    /** Where the inner iterator stands while a key is shown (db_iter.h's rules 1a, 1b and 2). */
    ghost predicate InPlace()
      requires Opened()
      reads this
    {
      var v := Visible(c.es, c.snapshot, savedKey);
      if reversed then pos == Before(First(c.es, savedKey))
      else
        && v < |c.es| && c.es[v].key == savedKey
        && (if merged then v < pos <= Past(c.es, savedKey) else pos == v)
        && (seqnoZero ==> c.es[v].seqno == 0)
    }

    /** The index before `i`, or not valid. */
    function Before(i: nat): nat {
      if i == 0 then |c.es| else i - 1
    }

    ghost predicate Consistent()
      requires Opened()
      reads this
    {
      && pos <= |c.es|
      && (failed ==> !valid)
      && (valid ==> InPlace() && o(savedKey) == Found(CurrentValue()))
    }

    function CurrentValue(): Value
      requires !merged && !reversed ==> pos < |c.es|
      reads this
    {
      if merged then savedValue else if reversed then pinnedValue else c.es[pos].val
    }

    /** The iterator as a cursor over the view: on item `i`, or off it. */
    ghost predicate At(i: int)
      requires Opened()
      reads this
    {
      var view := View(c.es, o);
      && Consistent()
      && (if 0 <= i < |view| then
            && savedKey == view[i].key
            && valid == view[i].outcome.Found?
            && failed == view[i].outcome.MergeFailed?
            && (valid ==> CurrentValue() == view[i].outcome.val)
          else !valid && !failed)
    }

    /** The item a valid iterator is on. */
    ghost function Cursor(): nat
      requires Opened()
      reads this
    {
      CountBelow(View(c.es, o), savedKey)
    }

    /** A search has ended on the shown key `savedKey`, as its outcome says. */
    ghost predicate Landed()
      reads this
    {
      && o(savedKey) != Absent
      && valid == o(savedKey).Found?
      && failed == o(savedKey).MergeFailed?
    }

    ghost predicate FoundFrom(from: Key)
      requires Opened()
      reads this
    {
      && Consistent()
      && ((Landed() && from <= savedKey && NoneIn(o, from, savedKey)) || (!valid && !failed && NoneFrom(o, from)))
    }

    ghost predicate FoundBelow(to: Key)
      requires Opened()
      reads this
    {
      && Consistent()
      && ((Landed() && savedKey < to && NoneIn(o, savedKey + 1, to)) || (!valid && !failed && NoneBelow(o, to)))
    }

    lemma FoundFromIsAt(from: Key)
      requires Opened() && FoundFrom(from)
      ensures At(CountBelow(View(c.es, o), from))
    {
      if Landed() && from <= savedKey && NoneIn(o, from, savedKey) { NextShownIsCursor(c, o, from, savedKey); }
      else { NoneFromIsEnd(c, o, from); }
    }

    lemma FoundBelowIsAt(to: Key)
      requires Opened() && FoundBelow(to)
      ensures At(CountBelow(View(c.es, o), to) - 1)
    {
      if Landed() && savedKey < to && NoneIn(o, savedKey + 1, to) { PrevShownIsCursor(c, o, to, savedKey); }
      else { NoneBelowIsStart(c, o, to); }
    }

    lemma AtItsCursor(i: int)
      requires Opened() && At(i) && valid
      ensures Cursor() == i
    {
      CursorByKey(c, o, savedKey);
      ViewFromIsSound(c.es, o, 0);
    }

    // ----- the public operations -----

    method Next()
      requires Opened() && Consistent() && valid
      modifies this
      ensures At(old(Cursor()) + 1)
    {
      ghost var from := savedKey + 1;
      OutOfBoundsIsAbsent(c, o);
      Window(c, savedKey);
      CursorByKey(c, o, savedKey);
      assert Visible(c.es, c.snapshot, savedKey) < Past(c.es, savedKey) by { ShownHasEntries(c, o, savedKey); }
      if reversed {
        seqnoZero := false;
        ReverseToForward();
      } else if !merged {
        pos := pos + 1;
      }
      ScanSkips(c, o, from, savedKey, pos);
      if pos < |c.es| {
        if seqnoZero { ZeroIsLast(c, Visible(c.es, c.snapshot, savedKey), pos); }
        FindNextUserEntry(true, from);
      } else {
        seqnoZero := false;
        valid := false;
      }
      FoundFromIsAt(from);
    }

    method Prev()
      requires Opened() && Consistent() && valid
      modifies this
      ensures At(old(Cursor()) - 1)
    {
      ghost var to := savedKey;
      OutOfBoundsIsAbsent(c, o);
      if !reversed {
        ReverseToBackward();
      }
      GapBelow(c, o, to);
      PrevInternal(to);
      FoundBelowIsAt(to);
    }

    method Seek(target: Key)
      requires Opened()
      modifies this
      ensures At(CountBelow(View(c.es, o), target))
    {
      failed := false;
      seqnoZero := false;
      savedKey := target;
      if c.lower.Some? && savedKey < c.lower.value {
        savedKey := c.lower.value;
      }
      ghost var from := savedKey;
      OutOfBoundsIsAbsent(c, o);
      assert NoneIn(o, target, from);
      ScanFromSeek(c, o, from);
      SeekFindsVisible(c.es, c.snapshot, savedKey);
      pos := SeekIndex(c.es, InternalKey(savedKey, c.snapshot, TYPE_FOR_SEEK));
      if pos == |c.es| {
        valid := false;
      } else {
        reversed := false;
        savedValue := "";
        FindNextUserEntry(false, from);
      }
      assert FoundFrom(target);
      FoundFromIsAt(target);
    }

    method SeekForPrev(target: Key)
      requires Opened()
      modifies this
      ensures At(CountBelow(View(c.es, o), target + 1) - 1)
    {
      failed := false;
      seqnoZero := false;
      savedKey := target;
      var bound := InternalKey(target, 0, TYPE_FOR_SEEK_FOR_PREV);
      ghost var to := target + 1;
      if c.upper.Some? && savedKey >= c.upper.value {
        savedKey := c.upper.value;
        bound := InternalKey(savedKey, MAX_SEQUENCE, TYPE_FOR_SEEK_FOR_PREV);
        to := savedKey;
      }
      OutOfBoundsIsAbsent(c, o);
      assert NoneIn(o, to, target + 1);
      pos := SeekForPrevIndex(c.es, bound);
      SeekForPrevFindsBelow(c.es, bound, to);
      GapBelow(c, o, to);
      if pos == |c.es| {
        valid := false;
      } else {
        reversed := true;
        savedValue := "";
        PrevInternal(to);
      }
      assert FoundBelow(target + 1);
      FoundBelowIsAt(target + 1);
    }

    method SeekToFirst()
      requires Opened()
      modifies this
      ensures At(0)
    {
      OutOfBoundsIsAbsent(c, o);
      if c.lower.Some? {
        NoneBelowIsStart(c, o, c.lower.value);
        Seek(c.lower.value);
        return;
      }
      failed := false;
      reversed := false;
      savedValue := "";
      seqnoZero := false;
      pos := 0;
      if pos < |c.es| {
        savedKey := c.es[pos].key;
        ghost var from := savedKey;
        GapBelow(c, o, from);
        NoneBelowIsStart(c, o, from);
        FindNextUserEntry(false, from);
        FoundFromIsAt(from);
      } else {
        valid := false;
      }
    }

    method SeekToLast()
      requires Opened()
      modifies this
      ensures At(|View(c.es, o)| - 1)
    {
      OutOfBoundsIsAbsent(c, o);
      if c.upper.Some? {
        NoneFromIsEnd(c, o, c.upper.value);
        NoneFromIsEnd(c, o, c.upper.value + 1);
        SeekForPrev(c.upper.value);
        if valid && savedKey == c.upper.value {
          assert false;  // SeekForPrev already stays below the upper bound
        }
        return;
      }
      failed := false;
      reversed := true;
      savedValue := "";
      seqnoZero := false;
      pos := Before(|c.es|);
      ghost var to := if |c.es| == 0 then 0 else c.es[|c.es| - 1].key + 1;
      GapBelow(c, o, to);
      GapAbove(c, o, to - 1);
      NoneFromIsEnd(c, o, to);
      PrevInternal(to);
      FoundBelowIsAt(to);
    }

    // ----- forward -----

    method FindNextUserEntry(skippingSavedKey: bool, ghost from: Key)
      requires Opened() && !reversed && !failed
      requires pos < |c.es| && Scan(c, o, from, skippingSavedKey, savedKey, pos)
      requires c.lower.Some? ==> c.lower.value <= from
      requires seqnoZero && skippingSavedKey ==> savedKey < c.es[pos].key
      modifies this
      ensures FoundFrom(from)
    {
      merged := false;
      var skipping, numSkipped, reseekDone := skippingSavedKey, 0, false;
      while pos < |c.es|
        invariant !reversed && !failed && !merged
        invariant Scan(c, o, from, skipping, savedKey, pos)
        invariant seqnoZero && skipping && pos < |c.es| ==> savedKey < c.es[pos].key
        decreases |c.es| - pos, !reseekDone
      {
        if c.upper.Some? && c.es[pos].key >= c.upper.value {
          seqnoZero := c.es[pos].seqno == 0;
          OutOfBoundsIsAbsent(c, o);
          break;
        }
        ghost var i := pos;
        var done, onRun;
        done, skipping, onRun := Examine(skipping, from);
        if done {
          return;
        }
        if onRun {
          numSkipped := numSkipped + 1;
        } else {
          numSkipped, reseekDone := 0, false;
        }
        if numSkipped > maxSkip && !reseekDone {
          seqnoZero := false;
          numSkipped, reseekDone := 0, true;
          Reseek(skipping, from);
        } else {
          if seqnoZero && i + 1 < |c.es| { ZeroIsLast(c, i, i + 1); }
          pos := pos + 1;
        }
      }
      valid := false;
    }

    /** One entry of the forward scan. `done`: the search is over. `onRun`: the entry belongs to the
        run of the saved key that is being stepped over. */
    method Examine(skippingSavedKey: bool, ghost from: Key) returns (done: bool, skipping: bool, onRun: bool)
      requires Opened() && !reversed && !failed && !merged
      requires pos < |c.es| && Scan(c, o, from, skippingSavedKey, savedKey, pos)
      requires c.lower.Some? ==> c.lower.value <= from
      requires c.upper.Some? ==> c.es[pos].key < c.upper.value
      requires seqnoZero && skippingSavedKey ==> savedKey < c.es[pos].key
      modifies this
      ensures done ==> FoundFrom(from)
      ensures !done ==>
                && !reversed && !failed && !merged && pos == old(pos)
                && seqnoZero == (c.es[pos].seqno == 0)
                && savedKey == c.es[pos].key
                && Scan(c, o, from, skipping, savedKey, pos + 1)
                && (onRun ==> Scan(c, o, from, skipping, savedKey, pos))
                && (onRun && !skipping ==> c.es[pos].seqno > c.snapshot)
    {
      var previousSeqnoZero := seqnoZero;
      var e := c.es[pos];
      done, skipping, onRun := false, skippingSavedKey, false;
      seqnoZero := e.seqno == 0;
      if e.seqno > c.snapshot {
        if e.key == savedKey || (skipping && e.key < savedKey) {
          onRun := true;
        } else {
          ScanPassesNewer(c, o, from, skipping, savedKey, pos, pos + 1);
          savedKey := e.key;
          skipping := false;
          return;
        }
      } else if !previousSeqnoZero && skipping && e.key <= savedKey {
        onRun := true;
      }
      if onRun {
        if skipping {
          ScanSkips(c, o, from, savedKey, pos + 1);
        } else {
          ScanPassesNewer(c, o, from, skipping, savedKey, pos, pos + 1);
        }
        return;
      }
      done := ShowNewest(skipping, from);
      if !done {
        // a tombstone, or hidden by a range tombstone: skip the rest of this key
        ScanHides(c, o, from, skipping, savedKey, pos);
        savedKey := e.key;
        skipping := true;
      }
    }

    /** The newest visible entry of a key shows it, unless it is dead. */
    method ShowNewest(skipping: bool, ghost from: Key) returns (done: bool)
      requires Opened() && !reversed && !failed && !merged
      requires pos < |c.es| && Scan(c, o, from, skipping, savedKey, pos)
      requires c.lower.Some? ==> c.lower.value <= from
      requires c.upper.Some? ==> c.es[pos].key < c.upper.value
      requires c.es[pos].seqno <= c.snapshot && (skipping ==> savedKey < c.es[pos].key)
      requires seqnoZero ==> c.es[pos].seqno == 0
      modifies this
      ensures done ==> FoundFrom(from)
      ensures !done ==>
                && !reversed && !failed && !merged && pos == old(pos) && savedKey == old(savedKey)
                && seqnoZero == old(seqnoZero) && !Live(c, c.es[pos])
    {
      var e := c.es[pos];
      NewestDecides(c, o, pos);
      done := Live(c, e);
      if done {
        savedKey := e.key;
        valid := true;
        if e.kind.Merge? {
          merged := true;
          MergeValuesNewToOld();
        }
      }
    }

    /** The jump out of a long run of entries of the saved key: past them all when skipping, to the
        newest the snapshot sees otherwise. It never moves back. */
    method Reseek(skipping: bool, ghost from: Key)
      requires Opened() && pos < |c.es| && c.es[pos].key == savedKey
      requires Scan(c, o, from, skipping, savedKey, pos)
      requires !skipping ==> c.es[pos].seqno > c.snapshot
      modifies this`pos
      ensures Scan(c, o, from, skipping, savedKey, pos)
      ensures old(pos) <= pos && (!skipping ==> old(pos) < pos)
    {
      if skipping {
        SeekPassesKey(c.es, savedKey);
        ghost var was := pos;
        pos := SeekIndex(c.es, InternalKey(savedKey, 0, TypeCode(Deletion)));
        if pos < was { EntriesAfter(c.es, pos); }
        ScanSkips(c, o, from, savedKey, pos);
      } else {
        ghost var was := pos;
        SeekFindsVisible(c.es, c.snapshot, savedKey);
        pos := SeekIndex(c.es, InternalKey(savedKey, c.snapshot, TYPE_FOR_SEEK));
        ScanPassesNewer(c, o, from, skipping, savedKey, was, pos);
      }
    }

    method MergeValuesNewToOld()
      requires Opened() && !failed && merged && InBounds(c, savedKey)
      requires pos == Visible(c.es, c.snapshot, savedKey) < Past(c.es, savedKey)
      requires c.es[pos].kind.Merge? && Live(c, c.es[pos])
      modifies this`pos, this`operands, this`savedValue, this`valid, this`failed
      ensures Landed() && (valid ==> o(savedKey) == Found(savedValue))
      ensures old(pos) < pos <= Past(c.es, savedKey)
    {
      CollectFirst(c, savedKey, pos);
      operands := [c.es[pos].val];
      pos := pos + 1;
      var base := None;
      while pos < |c.es|
        invariant !failed && base == None && old(pos) < pos
        invariant Collected(c, savedKey, pos, operands)
      {
        var e := c.es[pos];
        if e.key != savedKey {
          break;
        }
        if !Live(c, e) {
          break;
        }
        if e.kind.Put? {
          base := Some(e.val);
          break;
        }
        CollectNext(c, savedKey, pos, operands);
        operands := [e.val] + operands;
        pos := pos + 1;
      }
      CollectStops(c, o, savedKey, pos, operands, base);
      MergeOnto(base);
      if pos < |c.es| && c.es[pos].key == savedKey {
        pos := pos + 1;  // past the delete or the put
      }
    }

    method MergeOnto(base: Option<Value>)
      requires !failed && operands != []
      modifies this`savedValue, this`valid, this`failed
      ensures var m := Meaning(c, savedKey, Replayed(base, operands));
              valid == m.Found? && failed == m.MergeFailed? && (valid ==> m == Found(savedValue))
    {
      var m := c.merge(savedKey, base, operands);
      if m.None? {
        valid := false;
        failed := true;
      } else {
        savedValue := m.value;
        valid := true;
      }
    }

    // ----- backward -----

    /** A backward scan for the greatest shown key below `to`. */
    ghost predicate ScanBack(to: Key)
      requires Opened()
      reads this
    {
      && reversed && !failed && pos <= |c.es|
      && (pos == |c.es| ==> NoneBelow(o, to))
      && (pos < |c.es| ==>
            c.es[pos].key < to && NoneIn(o, c.es[pos].key + 1, to) && pos + 1 == Past(c.es, c.es[pos].key))
    }

    method PrevInternal(ghost to: Key)
      requires Opened() && ScanBack(to)
      requires c.upper.Some? ==> to <= c.upper.value
      modifies this
      ensures FoundBelow(to)
    {
      while pos < |c.es|
        invariant ScanBack(to)
        decreases if pos == |c.es| then 0 else pos + 1
      {
        savedKey := c.es[pos].key;
        if c.lower.Some? && savedKey < c.lower.value {
          OutOfBoundsIsAbsent(c, o);
          break;
        }
        ShowKeyBackward(to);
        if valid || failed {
          return;
        }
      }
      valid := false;
    }

    /** One key of the backward scan: shown, failed, or stepped over. */
    method ShowKeyBackward(ghost to: Key)
      requires Opened() && ScanBack(to) && pos < |c.es| && savedKey == c.es[pos].key
      requires InBounds(c, savedKey)
      modifies this
      ensures valid || failed ==> FoundBelow(to)
      ensures !valid && !failed ==> ScanBack(to) && (pos < |c.es| ==> pos < old(pos))
    {
      Window(c, savedKey);
      FindValueForCurrentKey();
      if !failed {
        FindUserKeyBeforeSavedKey();
        GapBelow(c, o, savedKey);
      }
    }

    /** On entry the inner iterator is on the oldest entry of the saved key. */
    method FindValueForCurrentKey()
      requires Opened() && !failed && InBounds(c, savedKey)
      requires pos < |c.es| && c.es[pos].key == savedKey && pos + 1 == Past(c.es, savedKey)
      modifies this`pos, this`operands, this`savedValue, this`pinnedValue, this`valid, this`failed, this`merged
      ensures pos <= |c.es|
      ensures valid == o(savedKey).Found? && failed == o(savedKey).MergeFailed?
      ensures valid ==> o(savedKey) == Found(if merged then savedValue else pinnedValue)
      ensures if pos == |c.es| then First(c.es, savedKey) == 0 else First(c.es, savedKey) <= pos + 1
    {
      operands := [];
      merged := false;
      var lastNotMerge, lastEntry := Deletion, Deletion;
      var numSkipped := 0;
      ghost var i: nat := pos + 1;
      Window(c, savedKey);
      while pos < |c.es|
        invariant !merged && !failed && pos == Before(i)
        invariant Visible(c.es, c.snapshot, savedKey) <= i <= Past(c.es, savedKey)
        invariant Folded(i, lastEntry, lastNotMerge)
        decreases i
      {
        var e := c.es[pos];
        if e.seqno > c.snapshot || e.key != savedKey {
          break;
        }
        if numSkipped >= maxSkip {
          FindValueForCurrentKeyUsingSeek();
          return;
        }
        lastEntry, lastNotMerge := FoldEntry(lastEntry, lastNotMerge);
        i := pos;
        pos := Before(pos);
        numSkipped := numSkipped + 1;
      }
      ShowFolded(lastEntry, lastNotMerge);
    }

    /** All visible entries of the saved key have been folded. */
    method ShowFolded(lastEntry: Kind, lastNotMerge: Kind)
      requires Opened() && !failed && !merged && InBounds(c, savedKey)
      requires Visible(c.es, c.snapshot, savedKey) <= Past(c.es, savedKey)
      requires Folded(Visible(c.es, c.snapshot, savedKey), lastEntry, lastNotMerge)
      modifies this`savedValue, this`valid, this`failed, this`merged
      ensures valid == o(savedKey).Found? && failed == o(savedKey).MergeFailed?
      ensures valid ==> o(savedKey) == Found(if merged then savedValue else pinnedValue)
    {
      Window(c, savedKey);
      assert Look(savedKey);
      if lastEntry == Merge {
        merged := true;
        MergeOnto(if lastNotMerge == Put then Some(pinnedValue) else None);
      } else {
        valid := lastEntry == Put;
      }
    }

    /** What the backward scan keeps of the entries from `i` on: the kind of the newest (a dead
        entry counts as a deletion), the kind of the newest that is no operand, its value, and
        the operands above it. */
    ghost predicate Folded(i: nat, lastEntry: Kind, lastNotMerge: Kind)
      requires Opened() && i <= Past(c.es, savedKey)
      reads this
    {
      && Replay(c, i, Past(c.es, savedKey))
         == Replayed(if lastNotMerge == Put then Some(pinnedValue) else None, operands)
      && (lastEntry == Merge <==> operands != [])
      && (lastEntry == Merge || lastEntry == lastNotMerge)
    }

    method FoldEntry(lastEntry: Kind, lastNotMerge: Kind) returns (lastEntry': Kind, lastNotMerge': Kind)
      requires Opened() && pos < Past(c.es, savedKey) && Folded(pos + 1, lastEntry, lastNotMerge)
      modifies this`operands, this`pinnedValue
      ensures Folded(pos, lastEntry', lastNotMerge')
    {
      var e := c.es[pos];
      lastEntry', lastNotMerge' := if Live(c, e) then e.kind else Deletion, lastNotMerge;
      if lastEntry' == Merge {
        operands := operands + [e.val];
      } else {
        if lastEntry' == Put {
          pinnedValue := e.val;
        }
        operands := [];
        lastNotMerge' := lastEntry';
      }
    }

    /** The same answer, from the newest visible entry down. A snapshot's entries do not vanish
        under it, so the seek always lands on one. */
    method FindValueForCurrentKeyUsingSeek()
      requires Opened() && !failed && !merged && InBounds(c, savedKey)
      requires Visible(c.es, c.snapshot, savedKey) < Past(c.es, savedKey)
      modifies this`pos, this`operands, this`savedValue, this`pinnedValue, this`valid, this`failed, this`merged
      ensures pos < |c.es| && First(c.es, savedKey) <= pos + 1
      ensures valid == o(savedKey).Found? && failed == o(savedKey).MergeFailed?
      ensures valid ==> o(savedKey) == Found(if merged then savedValue else pinnedValue)
    {
      Window(c, savedKey);
      var last := InternalKey(savedKey, c.snapshot, TYPE_FOR_SEEK);
      SeekFindsVisible(c.es, c.snapshot, savedKey);
      pos := SeekIndex(c.es, last);
      NewestDecides(c, o, pos);
      var e := c.es[pos];
      if Live(c, e) && e.kind.Merge? {
        merged := true;
        MergeFromNewest();
        if pos == |c.es| {
          // leave the inner iterator valid
          pos := SeekIndex(c.es, last);
        }
      } else {
        valid := Live(c, e);
        pinnedValue := e.val;
      }
    }

    method MergeFromNewest()
      requires Opened() && !failed && merged && InBounds(c, savedKey)
      requires pos == Visible(c.es, c.snapshot, savedKey) < Past(c.es, savedKey)
      requires c.es[pos].kind.Merge? && Live(c, c.es[pos])
      modifies this`pos, this`operands, this`savedValue, this`valid, this`failed
      ensures Landed() && (valid ==> o(savedKey) == Found(savedValue))
      ensures old(pos) < pos <= |c.es|
    {
      CollectFirst(c, savedKey, pos);
      operands := [c.es[pos].val];
      pos := pos + 1;
      var base := None;
      while pos < |c.es|
        invariant !failed && base == None && old(pos) < pos
        invariant Collected(c, savedKey, pos, operands)
      {
        var e := c.es[pos];
        if e.key != savedKey || !Live(c, e) {
          break;
        }
        if e.kind.Put? {
          base := Some(e.val);
          break;
        }
        CollectNext(c, savedKey, pos, operands);
        operands := [e.val] + operands;
        pos := pos + 1;
      }
      CollectStops(c, o, savedKey, pos, operands, base);
      MergeOnto(base);
    }

    /** Onto the last entry below the saved key. */
    method FindUserKeyBeforeSavedKey()
      requires Opened() && pos <= |c.es|
      requires if pos == |c.es| then First(c.es, savedKey) == 0 else First(c.es, savedKey) <= pos + 1
      modifies this`pos
      ensures pos == Before(First(c.es, savedKey))
    {
      var numSkipped := 0;
      while pos < |c.es|
        invariant pos <= |c.es|
        invariant if pos == |c.es| then First(c.es, savedKey) == 0 else First(c.es, savedKey) <= pos + 1
        decreases if pos == |c.es| then 0 else pos + 1
      {
        if c.es[pos].key < savedKey {
          return;
        }
        if numSkipped >= maxSkip {
          numSkipped := 0;
          SeekFindsFirst(c.es, savedKey);
          pos := SeekIndex(c.es, InternalKey(savedKey, MAX_SEQUENCE, TYPE_FOR_SEEK));
        } else {
          numSkipped := numSkipped + 1;
        }
        pos := Before(pos);
      }
    }

    // ----- turning around -----

    method ReverseToForward()
      requires Opened() && reversed && pos == Before(First(c.es, savedKey))
      requires First(c.es, savedKey) < |c.es|
      modifies this`pos, this`reversed
      ensures !reversed && pos == First(c.es, savedKey)
    {
      if pos == |c.es| {
        SeekFindsFirst(c.es, savedKey);
        pos := SeekIndex(c.es, InternalKey(savedKey, MAX_SEQUENCE, TYPE_FOR_SEEK));
      }
      reversed := false;
      while pos < |c.es|
        invariant !reversed && pos <= First(c.es, savedKey)
      {
        if c.es[pos].key >= savedKey {
          return;
        }
        pos := pos + 1;
      }
    }

    method ReverseToBackward()
      requires Opened() && Consistent() && valid && !reversed
      modifies this`pos, this`reversed
      ensures reversed && pos == Before(First(c.es, savedKey))
    {
      if merged && pos == |c.es| {
        SeekFindsFirst(c.es, savedKey);
        pos := SeekIndex(c.es, InternalKey(savedKey, MAX_SEQUENCE, TYPE_FOR_SEEK));
      }
      reversed := true;
      FindUserKeyBeforeSavedKey();
    }
  }

  lemma ShownHasEntries(c: Reading, o: Key -> Outcome, k: Key)
    requires Sorted(c.es) && Tells(c, o)
    requires o(k) != Absent
    ensures Visible(c.es, c.snapshot, k) < Past(c.es, k)
  {
    Window(c, k);
    if Visible(c.es, c.snapshot, k) == Past(c.es, k) { AbsentWithoutEntries(c, o, k); assert false; }
  }

  // ----- whole runs -----

  datatype Call = ToFirst | ToLast | To(target: Key) | ToPrev(target: Key) | Forward | Backward

  datatype Shown = Shown(key: Key, val: Value) | Nothing | Broken

  function Observe(view: seq<Item>, i: int): Shown {
    if i < 0 || |view| <= i || view[i].outcome == Absent then Nothing
    else if view[i].outcome == MergeFailed then Broken
    else Shown(view[i].key, view[i].outcome.val)
  }

  /** The cursor a call leads to; Next and Prev are only called on an iterator that is valid. */
  function Move(view: seq<Item>, i: int, call: Call): int {
    match call
    case ToFirst => 0
    case ToLast => |view| - 1
    case To(t) => CountBelow(view, t)
    case ToPrev(t) => CountBelow(view, t + 1) - 1
    case Forward => if Observe(view, i).Shown? then i + 1 else i
    case Backward => if Observe(view, i).Shown? then i - 1 else i
  }

  /** The cursor after the first n calls; a new iterator stands before the view. */
  function Cursor(view: seq<Item>, calls: seq<Call>, n: nat): int
    requires n <= |calls|
  {
    if n == 0 then -1 else Move(view, Cursor(view, calls, n - 1), calls[n - 1])
  }

  /** Whatever is called in whatever order, the iterator shows what a cursor over the snapshot's
      view shows; in particular the skip limit shows nowhere. */
  method Drive(c: Reading, maxSkip: nat, calls: seq<Call>) returns (shown: seq<Shown>)
    requires Sorted(c.es)
    ensures |shown| == |calls|
    ensures forall n :: 0 <= n < |calls| ==>
              shown[n] == Observe(View(c.es, Outcomes(c)), Cursor(View(c.es, Outcomes(c)), calls, n + 1))
  {
    var it := new DbIter(c, maxSkip);
    ghost var view := View(c.es, Outcomes(c));
    ghost var i := -1;
    shown := [];
    for n := 0 to |calls|
      invariant it.c == c && it.o == Outcomes(c) && it.Opened() && it.At(i)
      invariant |shown| == n && i == Cursor(view, calls, n)
      invariant forall k :: 0 <= k < n ==> shown[k] == Observe(view, Cursor(view, calls, k + 1))
    {
      i := Perform(it, calls[n], i);
      var x := Show(it, i);
      shown := shown + [x];
    }
  }

  /** What a user sees of the iterator. */
  method Show(it: DbIter, ghost i: int) returns (x: Shown)
    requires it.Opened() && it.At(i)
    ensures x == Observe(View(it.c.es, it.o), i)
  {
    ViewFromIsSound(it.c.es, it.o, 0);
    x := if it.valid then Shown(it.savedKey, it.CurrentValue()) else if it.failed then Broken else Nothing;
  }

  method Perform(it: DbIter, call: Call, ghost i: int) returns (ghost j: int)
    requires it.Opened() && it.At(i)
    modifies it
    ensures j == Move(View(it.c.es, it.o), i, call) && it.At(j)
  {
    j := Move(View(it.c.es, it.o), i, call);
    ViewFromIsSound(it.c.es, it.o, 0);
    if it.valid { it.AtItsCursor(i); }
    match call {
      case ToFirst => it.SeekToFirst();
      case ToLast => it.SeekToLast();
      case To(t) => it.Seek(t);
      case ToPrev(t) => it.SeekForPrev(t);
      case Forward => if it.valid { it.Next(); }
      case Backward => if it.valid { it.Prev(); }
    }
  }
}
