/**
 Internal keys: a user key tagged with a sequence number and a value type, in the order every
 seek of the snapshot iterator relies on (increasing user key, then decreasing sequence number,
 then decreasing type), and the inner iterator's two seeks over a sorted list of entries.
 */
module InternalKeys {
  import opened Options

  // User keys are taken by their rank in the user comparator's order.
  type Key = int
  type Value = string

  datatype Kind = Deletion | Put | Merge | SingleDeletion

  datatype Entry = Entry(key: Key, seqno: nat, kind: Kind, val: Value)

  datatype InternalKey = InternalKey(key: Key, seqno: nat, typ: nat)

  const MAX_SEQUENCE: nat := 0xFF_FFFF_FFFF_FFFF
  const TYPE_FOR_SEEK: nat := 0x14
  const TYPE_FOR_SEEK_FOR_PREV: nat := TypeCode(Deletion)

  function TypeCode(kind: Kind): nat {
    match kind
    case Deletion => 0x0
    case Put => 0x1
    case Merge => 0x2
    case SingleDeletion => 0x7
  }

  function Tag(e: Entry): InternalKey {
    InternalKey(e.key, e.seqno, TypeCode(e.kind))
  }

  function Compare(a: InternalKey, b: InternalKey): int {
    if a.key < b.key then -1
    else if a.key > b.key then 1
    else if a.seqno > b.seqno then -1
    else if a.seqno < b.seqno then 1
    else if a.typ > b.typ then -1
    else if a.typ < b.typ then 1
    else 0
  }

  ghost predicate Ordered(es: seq<Entry>, i: nat, j: nat)
    requires i < j < |es|
  {
    es[i].key < es[j].key || (es[i].key == es[j].key && es[i].seqno > es[j].seqno)
  }

  /** An inner iterator's contents: in key order, no (key, sequence number) twice. */
  ghost predicate Sorted(es: seq<Entry>) {
    && (forall i :: 0 <= i < |es| ==> es[i].seqno < MAX_SEQUENCE)
    && (forall i, j {:trigger Ordered(es, i, j)} :: 0 <= i < j < |es| ==> Ordered(es, i, j))
  }

  lemma EntriesAfter(es: seq<Entry>, n: nat)
    requires Sorted(es)
    ensures forall i :: n < i < |es| ==>
              es[n].key < es[i].key || (es[n].key == es[i].key && es[n].seqno > es[i].seqno)
  {
    forall i | n < i < |es|
      ensures es[n].key < es[i].key || (es[n].key == es[i].key && es[n].seqno > es[i].seqno)
    {
      assert Ordered(es, n, i);
    }
  }

  /** Seek: the first entry from `i` on at or after the target, |es| when there is none. */
  function SeekFrom(es: seq<Entry>, target: InternalKey, i: nat): (n: nat)
    requires i <= |es|
    ensures i <= n <= |es|
    ensures forall j :: i <= j < n ==> Compare(Tag(es[j]), target) < 0
    ensures n < |es| ==> Compare(Tag(es[n]), target) >= 0
    decreases |es| - i
  {
    if i == |es| || Compare(Tag(es[i]), target) >= 0 then i else SeekFrom(es, target, i + 1)
  }

  function SeekIndex(es: seq<Entry>, target: InternalKey): nat {
    SeekFrom(es, target, 0)
  }

  /** SeekForPrev: the last entry before `i` at or before the target, |es| when there is none. */
  function SeekBack(es: seq<Entry>, target: InternalKey, i: nat): (n: nat)
    requires i <= |es|
    ensures n < i || n == |es|
    ensures n < |es| ==> Compare(Tag(es[n]), target) <= 0
    ensures forall j :: 0 <= j < i && (n == |es| || n < j) ==> Compare(Tag(es[j]), target) > 0
  {
    if i == 0 then |es|
    else if Compare(Tag(es[i - 1]), target) <= 0 then i - 1
    else SeekBack(es, target, i - 1)
  }

  function SeekForPrevIndex(es: seq<Entry>, target: InternalKey): nat {
    SeekBack(es, target, |es|)
  }

  // ----- the three boundaries a user key has in a sorted list, and the seeks that find them -----

  ghost predicate BeginsAt(es: seq<Entry>, k: Key, n: nat) {
    n <= |es| && forall i :: 0 <= i < |es| ==> (i < n <==> es[i].key < k)
  }

  ghost predicate SeenFrom(es: seq<Entry>, s: nat, k: Key, n: nat) {
    n <= |es| && forall i :: 0 <= i < |es| ==>
                   (i < n <==> es[i].key < k || (es[i].key == k && es[i].seqno > s))
  }

  /** Where the entries of `k` begin. */
  ghost function First(es: seq<Entry>, k: Key): (n: nat)
    requires Sorted(es)
    ensures BeginsAt(es, k, n)
  {
    SeekSplits(es, k);
    var n: nat :| BeginsAt(es, k, n);
    n
  }

  /** Where the entries of `k` that a snapshot at `s` sees begin. */
  ghost function Visible(es: seq<Entry>, s: nat, k: Key): (n: nat)
    requires Sorted(es)
    ensures SeenFrom(es, s, k, n)
  {
    SeekSplitsAtSnapshot(es, s, k);
    var n: nat :| SeenFrom(es, s, k, n);
    n
  }

  /** Where the entries of `k` end. */
  ghost function Past(es: seq<Entry>, k: Key): (n: nat)
    requires Sorted(es)
    ensures BeginsAt(es, k + 1, n)
  {
    First(es, k + 1)
  }

  lemma SeekSplits(es: seq<Entry>, k: Key)
    requires Sorted(es)
    ensures BeginsAt(es, k, SeekIndex(es, InternalKey(k, MAX_SEQUENCE, TYPE_FOR_SEEK)))
  {
    EntriesAfter(es, SeekIndex(es, InternalKey(k, MAX_SEQUENCE, TYPE_FOR_SEEK)));
  }

  lemma SeekSplitsAtSnapshot(es: seq<Entry>, s: nat, k: Key)
    requires Sorted(es)
    ensures SeenFrom(es, s, k, SeekIndex(es, InternalKey(k, s, TYPE_FOR_SEEK)))
  {
    EntriesAfter(es, SeekIndex(es, InternalKey(k, s, TYPE_FOR_SEEK)));
  }

  /** Seeking a key with the largest sequence number finds its first entry. */
  lemma SeekFindsFirst(es: seq<Entry>, k: Key)
    requires Sorted(es)
    ensures SeekIndex(es, InternalKey(k, MAX_SEQUENCE, TYPE_FOR_SEEK)) == First(es, k)
  {
    SeekSplits(es, k);
    var n, f := SeekIndex(es, InternalKey(k, MAX_SEQUENCE, TYPE_FOR_SEEK)), First(es, k);
    assert n < |es| ==> es[n].key >= k;
    assert f < |es| ==> es[f].key >= k;
  }

  /** Seeking a key at the snapshot finds the newest entry the snapshot sees. */
  lemma SeekFindsVisible(es: seq<Entry>, s: nat, k: Key)
    requires Sorted(es)
    ensures SeekIndex(es, InternalKey(k, s, TYPE_FOR_SEEK)) == Visible(es, s, k)
  {
    SeekSplitsAtSnapshot(es, s, k);
    var n, v := SeekIndex(es, InternalKey(k, s, TYPE_FOR_SEEK)), Visible(es, s, k);
    assert n < |es| ==> !(es[n].key < k || (es[n].key == k && es[n].seqno > s));
    assert v < |es| ==> !(es[v].key < k || (es[v].key == k && es[v].seqno > s));
  }

  /** Seeking sequence number 0 and the smallest type passes every entry of the key, except a
      deletion at sequence number 0. */
  lemma SeekPassesKey(es: seq<Entry>, k: Key)
    requires Sorted(es)
    ensures var n := SeekIndex(es, InternalKey(k, 0, TypeCode(Deletion)));
            n <= Past(es, k) && forall i :: n <= i < Past(es, k) ==> es[i].seqno == 0 && es[i].kind == Deletion
  {
    var t := InternalKey(k, 0, TypeCode(Deletion));
    var n := SeekIndex(es, t);
    EntriesAfter(es, n);
    assert n > 0 ==> Compare(Tag(es[n - 1]), t) < 0;
    assert n < |es| ==> Compare(Tag(es[n]), t) >= 0;
  }

  /** SeekForPrev at the end of a key, or at the very start of one, stands right below `to`. */
  lemma SeekForPrevFindsBelow(es: seq<Entry>, bound: InternalKey, to: Key)
    requires Sorted(es)
    requires bound == InternalKey(to - 1, 0, TYPE_FOR_SEEK_FOR_PREV) ||
             bound == InternalKey(to, MAX_SEQUENCE, TYPE_FOR_SEEK_FOR_PREV)
    ensures SeekForPrevIndex(es, bound) == if First(es, to) == 0 then |es| else First(es, to) - 1
  {
    var n, q := SeekForPrevIndex(es, bound), First(es, to);
    assert q > 0 ==> Compare(Tag(es[q - 1]), bound) <= 0;
    assert q < |es| ==> Compare(Tag(es[q]), bound) > 0;
  }
}
