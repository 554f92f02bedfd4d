/**
 The eviction list of the LRU cache: a circular doubly linked list through the handles, with a
 sentinel, oldest entry first. Low-priority entries come before high-priority ones, and a pointer
 marks the last of the low-priority part.
 */
module EvictionLists {

  type Key = int
  type Value = int

  class Handle {
    const key: Key
    const val: Value
    const charge: nat   // with metadata
    const highPri: bool
    var refs: nat
    var inCache: bool
    var hasHit: bool
    var inHighPool: bool
    var next: Handle?
    var prev: Handle?

    constructor (key: Key, val: Value, charge: nat, highPri: bool)
      ensures this.key == key && this.val == val && this.charge == charge && this.highPri == highPri
      ensures refs == 0 && inCache && !hasHit && !inHighPool && next == null && prev == null
    {
      this.key, this.val, this.charge, this.highPri := key, val, charge, highPri;
      refs, inCache, hasHit, inHighPool, next, prev := 0, true, false, false, null, null;
    }
  }

  ghost function Charge(s: seq<Handle>): nat {
    if s == [] then 0 else Charge(s[..|s| - 1]) + s[|s| - 1].charge
  }

  lemma {:induction false} ChargeConcat(a: seq<Handle>, b: seq<Handle>)
    ensures Charge(a + b) == Charge(a) + Charge(b)
  {
    if b == [] {
      assert a + b == a;
    } else {
      assert (a + b)[..|a + b| - 1] == a + b[..|b| - 1];
      ChargeConcat(a, b[..|b| - 1]);
    }
  }

  lemma ChargeOne(h: Handle)
    ensures Charge([h]) == h.charge
  {
    assert [h][..0] == [];
  }

  ghost predicate Distinct(s: seq<Handle>) {
    forall i, j :: 0 <= i < j < |s| ==> s[i] != s[j]
  }

  ghost function IndexOf(s: seq<Handle>, h: Handle): (i: nat)
    requires h in s
    ensures i < |s| && s[i] == h
  {
    var i: nat :| i < |s| && s[i] == h; i
  }

  /** The list without its element at i. */
  ghost function Without(s: seq<Handle>, i: nat): seq<Handle>
    requires i < |s|
  {
    s[..i] + s[i + 1..]
  }

  /** The list with h put in at i. */
  ghost function With(s: seq<Handle>, i: nat, h: Handle): seq<Handle>
    requires i <= |s|
  {
    s[..i] + [h] + s[i..]
  }

  lemma ChargeAt(s: seq<Handle>, i: nat)
    requires i < |s|
    ensures Charge(s) == Charge(s[..i]) + s[i].charge + Charge(s[i + 1..])
  {
    assert s == s[..i + 1] + s[i + 1..];
    ChargeConcat(s[..i + 1], s[i + 1..]);
    assert s[..i + 1][..i] == s[..i];
  }

  lemma ChargeWithout(s: seq<Handle>, i: nat)
    requires i < |s|
    ensures Charge(Without(s, i)) == Charge(s) - s[i].charge
  {
    ChargeAt(s, i);
    ChargeConcat(s[..i], s[i + 1..]);
  }

  lemma ChargeWith(s: seq<Handle>, i: nat, h: Handle)
    requires i <= |s|
    ensures Charge(With(s, i, h)) == Charge(s) + h.charge
  {
    assert s == s[..i] + s[i..];
    ChargeConcat(s[..i], s[i..]);
    ChargeConcat(s[..i] + [h], s[i..]);
    ChargeConcat(s[..i], [h]);
    ChargeOne(h);
  }

  lemma SuffixWithout(s: seq<Handle>, low: nat, i: nat)
    requires low <= i < |s|
    ensures Without(s, i)[low..] == Without(s[low..], i - low)
  {
    assert s[..i][low..] == s[low..][..i - low];
    assert s[i + 1..] == s[low..][i - low + 1..];
    assert Without(s, i)[low..] == s[..i][low..] + s[i + 1..];
  }

  /** What taking out element i does to the sum over the part from low. */
  lemma SumFromWithout(s: seq<Handle>, low: nat, i: nat)
    requires i < |s| && low <= |s|
    ensures i < low ==> Charge(Without(s, i)[low - 1..]) == Charge(s[low..])
    ensures low <= i ==>
              s[i].charge <= Charge(s[low..]) && Charge(Without(s, i)[low..]) == Charge(s[low..]) - s[i].charge
  {
    if i < low {
      assert Without(s, i)[low - 1..] == s[low..];
    } else {
      SuffixWithout(s, low, i);
      assert s[low..][i - low] == s[i];
      ChargeWithout(s[low..], i - low);
    }
  }

  lemma SuffixAppend(s: seq<Handle>, low: nat, h: Handle)
    requires low <= |s|
    ensures With(s, |s|, h)[low..] == With(s[low..], |s| - low, h)
  {
  }

  lemma SumsAppend(s: seq<Handle>, low: nat, h: Handle)
    requires low <= |s|
    ensures Charge(With(s, |s|, h)) == Charge(s) + h.charge
            && Charge(With(s, |s|, h)[low..]) == Charge(s[low..]) + h.charge
  {
    ChargeWith(s, |s|, h);
    ChargeWith(s[low..], |s| - low, h);
    SuffixAppend(s, low, h);
  }

  lemma SumsWith(s: seq<Handle>, low: nat, h: Handle)
    requires low <= |s|
    ensures Charge(With(s, low, h)) == Charge(s) + h.charge && Charge(With(s, low, h)[low + 1..]) == Charge(s[low..])
  {
    ChargeWith(s, low, h);
    assert With(s, low, h)[low + 1..] == s[low..];
  }

  lemma SumDropFirst(s: seq<Handle>, low: nat)
    requires low < |s|
    ensures Charge(s[low..]) == s[low].charge + Charge(s[low + 1..])
  {
    assert s[low..] == [s[low]] + s[low + 1..];
    ChargeConcat([s[low]], s[low + 1..]);
    ChargeOne(s[low]);
  }

  /** Low-priority entries first: those before low. */
  ghost predicate Sorted(s: seq<Handle>, low: nat)
    reads s`inHighPool
  {
    low <= |s| && forall k :: 0 <= k < |s| ==> (s[k].inHighPool <==> low <= k)
  }

  lemma MembersWithout(s: seq<Handle>, i: nat)
    requires i < |s| && Distinct(s)
    ensures forall h :: h in Without(s, i) <==> h in s && h != s[i]
  {
    forall k | 0 <= k < |s| && k != i ensures s[k] in Without(s, i) {
      assert s[k] == Without(s, i)[if k < i then k else k - 1];
    }
  }

  lemma SortedWithout(s: seq<Handle>, low: nat, i: nat)
    requires Sorted(s, low) && i < |s|
    ensures Sorted(Without(s, i), if i < low then low - 1 else low)
  {
    assert forall k :: 0 <= k < i ==> Without(s, i)[k] == s[k];
    assert forall k :: i <= k < |s| - 1 ==> Without(s, i)[k] == s[k + 1];
  }

  lemma SortedAppend(s: seq<Handle>, low: nat, h: Handle)
    requires Sorted(s, low) && h.inHighPool
    ensures Sorted(With(s, |s|, h), low)
  {
  }

  lemma SortedWith(s: seq<Handle>, low: nat, h: Handle)
    requires Sorted(s, low) && !h.inHighPool
    ensures Sorted(With(s, low, h), low + 1)
  {
    assert forall k :: 0 <= k < low ==> With(s, low, h)[k] == s[k];
    assert forall k :: low < k <= |s| ==> With(s, low, h)[k] == s[k - 1];
  }

  // ----- the ring of pointers -----

  /** Neighbours point at each other. */
  ghost predicate Chained(r: seq<Handle>)
    reads r`next, r`prev
  {
    forall i, j :: 0 <= i && j == i + 1 && j < |r| ==> r[i].next == r[j] && r[j].prev == r[i]
  }

  ghost function Nexts(r: seq<Handle>): (nx: seq<Handle?>)
    reads r
    ensures |nx| == |r| && forall i :: 0 <= i < |r| ==> nx[i] == r[i].next
  {
    if r == [] then [] else Nexts(r[..|r| - 1]) + [r[|r| - 1].next]
  }

  ghost function Prevs(r: seq<Handle>): (pv: seq<Handle?>)
    reads r
    ensures |pv| == |r| && forall i :: 0 <= i < |r| ==> pv[i] == r[i].prev
  {
    if r == [] then [] else Prevs(r[..|r| - 1]) + [r[|r| - 1].prev]
  }

  /** What the pointers were: `nx` and `pv` hold the next and prev of each element of r. */
  ghost predicate WasChained(r: seq<Handle>, nx: seq<Handle?>, pv: seq<Handle?>) {
    && |nx| == |r| && |pv| == |r|
    && forall i, j :: 0 <= i && j == i + 1 && j < |r| ==> nx[i] == r[j] && pv[j] == r[i]
  }

  /** The sentinel at both ends, and no other handle twice. */
  ghost predicate Circle(r: seq<Handle>) {
    |r| >= 2 && r[0] == r[|r| - 1] && forall i, j :: 0 <= i < j < |r| - 1 ==> r[i] != r[j]
  }

  ghost predicate IsWithout(r: seq<Handle>, r': seq<Handle>, i: nat) {
    && 0 < i < |r| - 1 && |r'| == |r| - 1
    && (forall k :: 0 <= k < i ==> r'[k] == r[k])
    && (forall k :: i <= k < |r'| ==> r'[k] == r[k + 1])
  }

  ghost predicate IsWith(r: seq<Handle>, r': seq<Handle>, i: nat, h: Handle) {
    && 0 < i < |r| && |r'| == |r| + 1 && r'[i] == h
    && (forall k :: 0 <= k < i ==> r'[k] == r[k])
    && (forall k :: i < k < |r'| ==> r'[k] == r[k - 1])
  }

  lemma CircleWithout(r: seq<Handle>, r': seq<Handle>, i: nat)
    requires Circle(r) && IsWithout(r, r', i)
    ensures Circle(r')
  {
  }

  lemma MembersWith(r: seq<Handle>, r': seq<Handle>, i: nat, h: Handle)
    requires IsWith(r, r', i, h)
    ensures forall x :: x in r' <==> x in r || x == h
  {
    forall k | 0 <= k < |r| ensures r[k] in r' {
      assert r[k] == r'[if k < i then k else k + 1];
    }
  }

  lemma CircleWith(r: seq<Handle>, r': seq<Handle>, i: nat, h: Handle)
    requires Circle(r) && IsWith(r, r', i, h) && h !in r
    ensures Circle(r')
  {
  }

  lemma BoundaryWithout(r: seq<Handle>, r': seq<Handle>, n: nat, low: nat)
    requires Circle(r) && IsWithout(r, r', n) && low < |r| - 1
    ensures r'[if n <= low then low - 1 else low] == if r[low] == r[n] then r[n - 1] else r[low]
  {
  }

  lemma ChainedWithout(r: seq<Handle>, nx: seq<Handle?>, pv: seq<Handle?>, r': seq<Handle>, i: nat)
    requires WasChained(r, nx, pv) && Circle(r) && IsWithout(r, r', i)
    requires r[i - 1].next == r[i + 1] && r[i + 1].prev == r[i - 1]
    requires forall k :: 0 <= k < |r| - 1 && k != i - 1 && k != i ==> r[k].next == nx[k]
    requires forall k :: 0 < k < |r| && k != i + 1 && k != i ==> r[k].prev == pv[k]
    ensures Chained(r')
  {
    forall a, b | 0 <= a && b == a + 1 && b < |r'| ensures r'[a].next == r'[b] && r'[b].prev == r'[a] {
      if b < i {
      } else if a >= i {
        assert r'[a] == r[a + 1] && r'[b] == r[b + 1];
      } else {
        assert r'[b] == r[i + 1];
      }
    }
  }

  lemma ChainedWith(r: seq<Handle>, nx: seq<Handle?>, pv: seq<Handle?>, r': seq<Handle>, i: nat, h: Handle)
    requires WasChained(r, nx, pv) && Circle(r) && IsWith(r, r', i, h)
    requires r[i - 1].next == h && h.next == r[i] && h.prev == r[i - 1] && r[i].prev == h
    requires forall k :: 0 <= k < |r| - 1 && k != i - 1 ==> r[k].next == nx[k]
    requires forall k :: 0 < k < |r| && k != i ==> r[k].prev == pv[k]
    ensures Chained(r')
  {
    forall a, b | 0 <= a && b == a + 1 && b < |r'| ensures r'[a].next == r'[b] && r'[b].prev == r'[a] {
      if b < i {
      } else if b == i {
      } else if a == i {
        assert r'[b] == r[i];
      } else {
        assert r'[a] == r[a - 1] && r'[b] == r[b - 1];
      }
    }
  }

  ghost predicate IsInner(r: seq<Handle>, list: seq<Handle>) {
    |r| == |list| + 2 && forall k :: 0 < k < |r| - 1 ==> r[k] == list[k - 1]
  }

  lemma InnerIsDistinct(r: seq<Handle>, list: seq<Handle>)
    requires Circle(r) && IsInner(r, list)
    ensures Distinct(list) && forall h :: h in list ==> h in r
  {
    forall i, j | 0 <= i < j < |list| ensures list[i] != list[j] { assert r[i + 1] == list[i] && r[j + 1] == list[j]; }
    forall k | 0 <= k < |list| ensures list[k] in r { assert r[k + 1] == list[k]; }
  }

  lemma RingWithout(r: seq<Handle>, list: seq<Handle>, i: nat) returns (r': seq<Handle>)
    requires IsInner(r, list) && i < |list|
    ensures IsWithout(r, r', i + 1) && IsInner(r', Without(list, i))
  {
    r' := Without(r, i + 1);
  }

  lemma RingWith(r: seq<Handle>, list: seq<Handle>, i: nat, h: Handle) returns (r': seq<Handle>)
    requires IsInner(r, list) && i <= |list|
    ensures IsWith(r, r', i + 1, h) && IsInner(r', With(list, i, h))
  {
    r' := With(r, i + 1, h);
  }

  ghost predicate Peek(k: nat) { true }

  ghost predicate Glance(k: nat) { true }

  /** A circular doubly linked list with two priority parts. `list` and `low` are what the pointers
      mean: the entries oldest first, and how many of them are low-priority. */
  class EvictionList {
    const head: Handle
    var lowPri: Handle
    var usage: nat
    var highUsage: nat
    var ratio: real
    var highCapacity: nat
    ghost var list: seq<Handle>
    ghost var ring: seq<Handle>
    ghost var low: nat

    constructor (ratio: real)
      requires 0.0 <= ratio
      ensures Valid() && list == [] && fresh(ring) && fresh(head) && this.ratio == ratio && highCapacity == 0
    {
      var sentinel := new Handle(0, 0, 0, false);
      head, lowPri := sentinel, sentinel;
      usage, highUsage := 0, 0;
      this.ratio, this.highCapacity := ratio, 0;
      list, low, ring := [], 0, [sentinel, sentinel];
      new;
      head.next := head;
      head.prev := head;
    }

    /** The pointers form the list. Proofs carry this folded up; to look inside, they mention `Peek`. */
    ghost predicate Whole()
      reads this`ring, this`list, ring`next, ring`prev
    {
      && |ring| == |list| + 2
      && forall k: nat {:trigger Peek(k)} :: Peek(k) ==>
           Circle(ring) && ring[0] == head && IsInner(ring, list) && Chained(ring)
    }

    /** `lowPri` is the last low-priority entry, or the sentinel if there is none. */
    ghost predicate Links()
      reads this`ring, this`list, this`low, this`lowPri, ring`next, ring`prev
    {
      Whole() && low <= |list| && lowPri == ring[low]
    }

    lemma Shape()
      requires Whole()
      ensures Circle(ring) && ring[0] == head && IsInner(ring, list)
      ensures Distinct(list) && forall h :: h in list ==> h in ring
    {
      assert Peek(0);
      InnerIsDistinct(ring, list);
    }

    lemma Apart()
      requires Valid()
      ensures Distinct(list) && head !in list && usage == Charge(list)
      ensures forall h :: h in ring <==> h in list || h == head
      ensures forall k :: 0 <= k < |ring| ==> ring[k] in list || ring[k] == head
    {
      assert Glance(0) && Peek(0);
      Shape();
      forall k | 0 <= k < |ring| ensures ring[k] in list || ring[k] == head {
        assert 0 < k < |ring| - 1 ==> ring[k] == list[k - 1];
      }
      assert head !in list by {
        forall k | 0 <= k < |list| ensures list[k] != head { assert ring[k + 1] == list[k]; }
      }
    }

    lemma NeighboursAt(i: nat)
      requires Whole() && i <= |list|
      ensures i + 1 < |ring| && ring[i].next == ring[i + 1] && ring[i + 1].prev == ring[i]
    {
      assert Peek(0);
    }

    /** Low-priority entries first, and the counters are sums. */
    ghost predicate Pools()
      reads this`list, this`low, this`usage, this`highUsage, this`ratio, list`inHighPool
    {
      && Sorted(list, low)
      && usage == Charge(list) && highUsage == Charge(list[low..]) && 0.0 <= ratio
    }

    ghost predicate Orderly()
      reads this, ring`next, ring`prev, list`inHighPool
    {
      Links() && Pools()
    }

    /** The same folded up, for the shard; to look inside, proofs mention `Glance`. */
    ghost predicate Valid()
      reads this, ring`next, ring`prev, list`inHighPool
    {
      low <= |list| && forall k: nat {:trigger Glance(k)} :: Glance(k) ==> Orderly()
    }

    /** Takes e out of the chain of pointers. */
    method Detach(e: Handle, ghost r: seq<Handle>, ghost n: nat)
      requires Circle(r) && Chained(r) && 0 < n < |r| - 1 && r[n] == e
      modifies r`next, r`prev
      ensures e.next == null && e.prev == null
      ensures forall r' :: IsWithout(r, r', n) ==> Chained(r')
    {
      ghost var nx, pv := Nexts(r), Prevs(r);
      assert e.prev == r[n - 1] && e.next == r[n + 1];
      e.next.prev := e.prev;
      e.prev.next := e.next;
      e.prev := null;
      e.next := null;
      forall r' | IsWithout(r, r', n) ensures Chained(r') { ChainedWithout(r, nx, pv, r', n); }
    }

    /** Puts e into the chain of pointers after p. */
    method Attach(e: Handle, p: Handle, ghost r: seq<Handle>, ghost n: nat)
      requires Circle(r) && Chained(r) && 0 < n < |r| && r[n - 1] == p && e !in r
      modifies r`next, r`prev, e`next, e`prev
      ensures forall r' :: IsWith(r, r', n, e) ==> Chained(r')
    {
      ghost var nx, pv := Nexts(r), Prevs(r);
      assert p.next == r[n];
      e.next := p.next;
      e.prev := p;
      e.prev.next := e;
      e.next.prev := e;
      forall r' | IsWith(r, r', n, e) ensures Chained(r') { ChainedWith(r, nx, pv, r', n, e); }
    }

    method Unlink(e: Handle, ghost i: nat)
      requires Links() && i < |list| && list[i] == e
      modifies this`list, this`ring, this`low, this`lowPri, ring`next, ring`prev
      ensures Links() && list == Without(old(list), i) && (forall h :: h in ring ==> h in old(ring))
      ensures low == if i < old(low) then old(low) - 1 else old(low)
      ensures e.next == null && e.prev == null
    {
      ghost var r, n := ring, i + 1;
      assert Peek(0);
      assert r[n] == e && r[n - 1].next == r[n];
      ghost var r' := RingWithout(r, list, i);
      BoundaryWithout(r, r', n, low);
      CircleWithout(r, r', n);
      if lowPri == e {
        lowPri := e.prev;
      }
      Detach(e, r, n);
      ring, list, low := r', Without(list, i), if i < low then low - 1 else low;
    }

    /** Takes e out and its charge off the sums. */
    method Take(e: Handle, ghost i: nat)
      requires Orderly() && i < |list| && list[i] == e
      modifies this`list, this`ring, this`low, this`lowPri, this`usage, this`highUsage, ring`next, ring`prev
      ensures Orderly() && list == Without(old(list), i) && (forall h :: h in ring ==> h in old(ring))
      ensures low == if i < old(low) then old(low) - 1 else old(low)
      ensures e.next == null && e.prev == null
    {
      ghost var list0, low0 := list, low;
      ChargeWithout(list, i);
      SumFromWithout(list, low, i);
      Unlink(e, i);
      SortedWithout(list0, low0, i);
      usage := usage - e.charge;
      if e.inHighPool {
        highUsage := highUsage - e.charge;
      }
    }

    /** LRU_Remove. */
    method Remove(e: Handle, ghost i: nat)
      requires Valid() && i < |list| && list[i] == e
      modifies this`list, this`ring, this`low, this`lowPri, this`usage, this`highUsage, list`next, list`prev, head`next,
               head`prev
      ensures Valid() && list == Without(old(list), i)
      ensures forall h :: h in list <==> h in old(list) && h != e
      ensures low == if i < old(low) then old(low) - 1 else old(low)
      ensures e.next == null && e.prev == null
    {
      Apart();
      MembersWithout(list, i);
      assert Glance(0);
      Take(e, i);
    }

    /** Links e in at place i, which comes right after p. */
    method LinkAfter(e: Handle, p: Handle, ghost i: nat)
      requires Links() && i <= |list| && p == ring[i] && e !in ring
      modifies this`list, this`ring, ring`next, ring`prev, e`next, e`prev
      ensures Whole() && list == With(old(list), i, e) && (forall h :: h in ring <==> h in old(ring) || h == e)
      ensures forall k :: 0 <= k <= i ==> ring[k] == old(ring)[k]
      ensures ring[i + 1] == e
    {
      ghost var r := ring;
      assert Peek(0);
      ghost var r' := RingWith(r, list, i, e);
      CircleWith(r, r', i + 1, e);
      MembersWith(r, r', i + 1, e);
      Attach(e, p, r, i + 1);
      ring, list := r', With(list, i, e);
    }

    /** The oldest high-priority entry becomes the newest low-priority one. */
    method OverflowOne()
      requires Orderly() && low < |list|
      modifies this`low, this`lowPri, this`highUsage, list`inHighPool
      ensures Orderly() && low == old(low) + 1
    {
      Shape();
      NeighboursAt(low);
      SumDropFirst(list, low);
      lowPri := lowPri.next;
      lowPri.inHighPool := false;
      highUsage := highUsage - lowPri.charge;
      low := low + 1;
    }

    /** Overflows the oldest high-priority entries, and no more than needed, into the low-priority part. */
    method Overflow()
      requires Orderly()
      modifies this`low, this`lowPri, this`highUsage, list`inHighPool
      ensures Orderly() && old(low) <= low <= |list|
      ensures highUsage <= highCapacity
      ensures forall n :: old(low) <= n < low ==> Charge(list[n..]) > highCapacity
    {
      while highUsage > highCapacity
        invariant Orderly() && old(low) <= low <= |list|
        invariant forall n :: old(low) <= n < low ==> Charge(list[n..]) > highCapacity
        decreases |list| - low
      {
        assert low < |list|;
        OverflowOne();
      }
    }

    method InsertHigh(e: Handle)
      requires Orderly() && e !in ring
      modifies this`list, this`ring, this`low, this`lowPri, this`usage, this`highUsage
      modifies ring`next, ring`prev, list`inHighPool, e`next, e`prev, e`inHighPool
      ensures Orderly() && list == old(list) + [e] && (forall h :: h in ring <==> h in old(ring) || h == e)
      ensures old(low) <= low && highUsage <= highCapacity
      ensures forall n :: old(low) <= n < low ==> Charge(list[n..]) > highCapacity
    {
      LinkLast(e);
      assert list == old(list) + [e];
      Overflow();
    }

    /** What the sentinel has before it. */
    method Newest() returns (p: Handle)
      requires Whole()
      ensures p == ring[|list|]
    {
      Shape();
      NeighboursAt(|list|);
      p := head.prev;
    }

    /** Links e in as the newest entry, in the high-priority part. */
    method LinkLast(e: Handle)
      requires Orderly() && e !in ring
      modifies this`list, this`ring, this`usage, this`highUsage
      modifies ring`next, ring`prev, e`next, e`prev, e`inHighPool
      ensures Orderly() && list == With(old(list), |old(list)|, e)
              && (forall h :: h in ring <==> h in old(ring) || h == e)
    {
      Shape();
      var newest := Newest();
      SumsAppend(list, low, e);
      ghost var list0 := list;
      e.inHighPool := true;
      highUsage := highUsage + e.charge;
      usage := usage + e.charge;
      LinkAfter(e, newest, |list|);
      SortedAppend(list0, low, e);
    }

    method InsertLow(e: Handle)
      requires Orderly() && e !in ring
      modifies this`list, this`ring, this`low, this`lowPri, this`usage
      modifies ring`next, ring`prev, e`next, e`prev, e`inHighPool
      ensures Orderly() && list == With(old(list), old(low), e) && (forall h :: h in ring <==> h in old(ring) || h == e)
      ensures low == old(low) + 1
    {
      Shape();
      SumsWith(list, low, e);
      ghost var list0, low0 := list, low;
      e.inHighPool := false;
      usage := usage + e.charge;
      LinkAfter(e, lowPri, low);
      SortedWith(list0, low0, e);
      lowPri := e;
      low := low + 1;
    }

    /** What the sentinel has after it: the oldest entry, or the sentinel again. */
    method Oldest() returns (p: Handle)
      requires Valid()
      ensures if list == [] then p == head else p == list[0] && p != head
    {
      assert Glance(0);
      Shape();
      NeighboursAt(0);
      p := head.next;
    }

    /** LRU_Remove of the oldest entry. */
    method PopOldest() returns (e: Handle)
      requires Valid() && list != []
      modifies this`list, this`ring, this`low, this`lowPri, this`usage, this`highUsage, list`next, list`prev, head`next,
               head`prev
      ensures Valid() && e == old(list)[0] && list == old(list)[1..] && low == if old(low) > 0 then old(low) - 1 else 0
      ensures forall h :: h in list <==> h in old(list) && h != e
      ensures e.next == null && e.prev == null
    {
      e := Oldest();
      Remove(e, 0);
    }

    /** LRU_Remove of any entry on the list. */
    method Unlist(e: Handle)
      requires Valid() && e in list
      modifies this`list, this`ring, this`low, this`lowPri, this`usage, this`highUsage
      modifies list`next, list`prev, head`next, head`prev
      ensures Valid() && list == Without(old(list), IndexOf(old(list), e))
      ensures low == if IndexOf(old(list), e) < old(low) then old(low) - 1 else old(low)
      ensures forall h :: h in list <==> h in old(list) && h != e
      ensures e.next == null && e.prev == null
    {
      ghost var i := IndexOf(list, e);
      Remove(e, i);
    }

    method MaintainPoolSize()
      requires Valid()
      modifies this`low, this`lowPri, this`highUsage, list`inHighPool
      ensures Valid() && old(low) <= low <= |list|
      ensures highUsage <= highCapacity
      ensures forall n :: old(low) <= n < low ==> Charge(list[n..]) > highCapacity
    {
      assert Glance(0);
      Overflow();
    }

    /** LRU_Insert: the newest of all for an entry of high priority or with a hit, if there is a
        high-priority pool; else the newest of the low-priority part. */
    method Insert(e: Handle)
      requires Valid() && e !in list && e != head
      modifies this`list, this`ring, this`low, this`lowPri, this`usage, this`highUsage
      modifies list`next, list`prev, head`next, head`prev, list`inHighPool, e`next, e`prev, e`inHighPool
      ensures Valid()
      ensures forall h :: h in list <==> h in old(list) || h == e
      ensures ratio > 0.0 && (e.highPri || e.hasHit) ==>
                && list == old(list) + [e] && old(low) <= low && highUsage <= highCapacity
                && forall n :: old(low) <= n < low ==> Charge(list[n..]) > highCapacity
      ensures !(ratio > 0.0 && (e.highPri || e.hasHit)) ==>
                && list == With(old(list), old(low), e) && low == old(low) + 1 && highUsage == old(highUsage)
    {
      Apart();
      assert Glance(0);
      if ratio > 0.0 && (e.highPri || e.hasHit) {
        InsertHigh(e);
      } else {
        InsertLow(e);
      }
    }
  }
}
