/**
 Versioned entries held in memtables, logs and tables, and what a read at a sequence number finds
 among a set of them: the newest entry of the key that is not above the snapshot.
 */
module LsmEntries {
  import opened Options

  type Key = int
  type Value = string

  /** One operation of a write batch; a deletion has no value. */
  datatype Entry = Entry(key: Key, seqno: nat, val: Option<Value>)

  /** No sequence number is given to two operations. */
  ghost predicate Unique(es: set<Entry>) {
    forall e, f :: e in es && f in es && e.seqno == f.seqno ==> e == f
  }

  /** Every entry of `old` is older than every entry of `young`. */
  ghost predicate Older(old_: set<Entry>, young: set<Entry>) {
    forall e, f :: e in old_ && f in young ==> e.seqno < f.seqno
  }

  ghost predicate UpTo(es: set<Entry>, s: nat) {
    forall e :: e in es ==> e.seqno <= s
  }

  ghost predicate Sees(e: Entry, k: Key, s: nat) {
    e.key == k && e.seqno <= s
  }

  ghost predicate IsNewest(es: set<Entry>, k: Key, s: nat, e: Entry) {
    e in es && Sees(e, k, s) && forall f :: f in es && Sees(f, k, s) ==> f.seqno <= e.seqno
  }

  ghost predicate Nothing(es: set<Entry>, k: Key, s: nat) {
    forall e :: e in es ==> !Sees(e, k, s)
  }

  /** What reading `k` at `s` finds. */
  ghost function Lookup(es: set<Entry>, k: Key, s: nat): Option<Value> {
    if exists e :: IsNewest(es, k, s, e) then (var e :| IsNewest(es, k, s, e); e.val) else None
  }

  lemma {:induction false} NewestExists(es: set<Entry>, k: Key, s: nat)
    ensures Nothing(es, k, s) || exists e :: IsNewest(es, k, s, e)
    decreases |es|
  {
    if e0 :| e0 in es && Sees(e0, k, s) {
      var rest := es - {e0};
      NewestExists(rest, k, s);
      if !Nothing(rest, k, s) {
        var m :| IsNewest(rest, k, s, m);
        var best := if m.seqno < e0.seqno then e0 else m;
        assert IsNewest(es, k, s, best);
      } else {
        assert forall f :: f in es && Sees(f, k, s) ==> f == e0 || f in rest;
        assert IsNewest(es, k, s, e0);
      }
    }
  }

  lemma LookupIs(es: set<Entry>, k: Key, s: nat, e: Entry)
    requires Unique(es) && IsNewest(es, k, s, e)
    ensures Lookup(es, k, s) == e.val
  {
    forall f | IsNewest(es, k, s, f) ensures f == e {}
  }

  lemma LookupNothing(es: set<Entry>, k: Key, s: nat)
    requires Nothing(es, k, s)
    ensures Lookup(es, k, s) == None
  {
  }

  /** Two sets of entries that no read at `s` or later tells apart. */
  ghost predicate SameReads(a: set<Entry>, b: set<Entry>, s: nat) {
    forall k, t :: s <= t ==> Lookup(a, k, t) == Lookup(b, k, t)
  }

  /** Reads look at the younger entries first, and at the older ones when there is nothing. What is in both
      does no harm. */
  lemma LookupYoungFirst(old_: set<Entry>, young: set<Entry>, k: Key, s: nat)
    requires Unique(old_ + young) && Older(old_ - young, young)
    ensures Lookup(old_ + young, k, s) == if Nothing(young, k, s) then Lookup(old_, k, s) else Lookup(young, k, s)
  {
    NewestExists(young, k, s);
    NewestExists(old_, k, s);
    if !Nothing(young, k, s) {
      var e :| IsNewest(young, k, s, e);
      assert IsNewest(old_ + young, k, s, e);
      LookupIs(young, k, s, e);
      LookupIs(old_ + young, k, s, e);
    } else if !Nothing(old_, k, s) {
      var e :| IsNewest(old_, k, s, e);
      assert IsNewest(old_ + young, k, s, e);
      LookupIs(old_, k, s, e);
      LookupIs(old_ + young, k, s, e);
    } else {
      LookupNothing(old_ + young, k, s);
      LookupNothing(old_, k, s);
    }
  }

  /** Younger entries on top do not tell apart what lies below. */
  lemma SameReadsUnder(a: set<Entry>, b: set<Entry>, young: set<Entry>, s: nat)
    requires SameReads(a, b, s)
    requires Unique(a + young) && Unique(b + young) && Older(a - young, young) && Older(b - young, young)
    ensures SameReads(a + young, b + young, s)
  {
    forall k, t | s <= t
      ensures Lookup(a + young, k, t) == Lookup(b + young, k, t)
    {
      LookupYoungFirst(a, young, k, t);
      LookupYoungFirst(b, young, k, t);
    }
  }

  /** Entries above the snapshot are not seen. */
  lemma LookupIgnoresLater(es: set<Entry>, later: set<Entry>, k: Key, s: nat)
    requires Unique(es + later)
    requires forall e :: e in later ==> s < e.seqno
    ensures Lookup(es + later, k, s) == Lookup(es, k, s)
  {
    NewestExists(es, k, s);
    if !Nothing(es, k, s) {
      var e :| IsNewest(es, k, s, e);
      assert IsNewest(es + later, k, s, e);
      LookupIs(es, k, s, e);
      LookupIs(es + later, k, s, e);
    } else {
      LookupNothing(es + later, k, s);
      LookupNothing(es, k, s);
    }
  }
}
