/**
 A shard of the LRU cache. Every entry is in one of three states: in the cache and referenced, in the
 cache and on the eviction list, or referenced and no longer in the cache. The hash table is a map here.
 */
module LruShards {

  import opened EvictionLists

  datatype Status = Ok | OkOverwritten | Incomplete

  // ----- sums over sets of handles -----

  ghost function Pick(s: set<Handle>): Handle
    requires s != {}
  {
    var h :| h in s; h
  }

  ghost function Sum(s: set<Handle>): nat {
    if s == {} then 0 else Pick(s).charge + Sum(s - {Pick(s)})
  }

  lemma {:induction false} SumMinus(s: set<Handle>, h: Handle)
    requires h in s
    ensures Sum(s) == Sum(s - {h}) + h.charge
  {
    var p := Pick(s);
    if p != h {
      SumMinus(s - {p}, h);
      assert s - {p} - {h} == s - {h} - {p};
      SumMinus(s - {h}, p);
    }
  }

  lemma SumPlus(s: set<Handle>, h: Handle)
    requires h !in s
    ensures Sum(s + {h}) == Sum(s) + h.charge
  {
    SumMinus(s + {h}, h);
    assert s + {h} - {h} == s;
  }

  /** The charge of part of a set that a list enumerates. */
  lemma {:induction false} SumSplits(s: set<Handle>, list: seq<Handle>)
    requires Distinct(list) && forall h :: h in list ==> h in s
    ensures Sum(s) == Charge(list) + Sum(set h | h in s && h !in list)
  {
    if list == [] {
      assert (set h | h in s && h !in list) == s;
    } else {
      var n := |list| - 1;
      SumSplits(s, list[..n]);
      var rest := set h | h in s && h !in list[..n];
      assert (set h | h in s && h !in list) == rest - {list[n]};
      SumMinus(rest, list[n]);
    }
  }

  // ----- what the shard keeps; proofs carry it folded up, and mention `Look` to look inside -----

  ghost predicate LookFiled(k: nat) { true }
  ghost predicate LookMarked(k: nat) { true }
  ghost predicate LookFreed(k: nat) { true }
  ghost predicate LookBooks(k: nat) { true }

  /** The table holds the cached entries, the eviction list those of them that nobody holds. */
  ghost predicate Filed(table: map<Key, Handle>, cached: set<Handle>, held: set<Handle>, list: seq<Handle>) {
    forall k: nat {:trigger LookFiled(k)} :: LookFiled(k) ==>
      && (forall k :: k in table ==> table[k] in cached && table[k].key == k)
      && (forall h :: h in cached ==> h.key in table && table[h.key] == h)
      && (forall h :: h in list ==> h in cached && h !in held)
      && (forall h :: h in cached && h !in held ==> h in list)
  }

  /** The handles agree, and those not on the list point nowhere. */
  ghost predicate Marked(cached: set<Handle>, held: set<Handle>, list: seq<Handle>)
    reads cached, held
  {
    forall k: nat {:trigger LookMarked(k)} :: LookMarked(k) ==>
      forall h :: h in cached + held ==>
        && (h.inCache <==> h in cached) && (h.refs > 0 <==> h in held)
        && (h !in list ==> h.next == null && h.prev == null)
  }

  lemma MarkedAt(cached: set<Handle>, held: set<Handle>, list: seq<Handle>, h: Handle)
    requires Marked(cached, held, list) && h in cached + held
    ensures (h.inCache <==> h in cached) && (h.refs > 0 <==> h in held)
    ensures h !in list ==> h.next == null && h.prev == null
  {
    assert LookMarked(0);
  }

  /** Each entry's value goes to its deleter once, and not while the entry is in use. */
  ghost predicate FreedOnce(cached: set<Handle>, held: set<Handle>, freed: seq<Handle>) {
    forall k: nat {:trigger LookFreed(k)} :: LookFreed(k) ==>
      Distinct(freed) && forall h :: h in freed ==> h !in cached && h !in held
  }

  lemma FiledAt(table: map<Key, Handle>, cached: set<Handle>, held: set<Handle>, list: seq<Handle>, h: Handle)
    requires Filed(table, cached, held, list)
    ensures h in list <==> h in cached && h !in held
    ensures h in cached ==> h.key in table && table[h.key] == h
  {
    assert LookFiled(0);
  }

  lemma FiledUnder(table: map<Key, Handle>, cached: set<Handle>, held: set<Handle>, list: seq<Handle>, k: Key)
    requires Filed(table, cached, held, list) && k in table
    ensures table[k] in cached && table[k].key == k
  {
    assert LookFiled(0);
  }

  /** e leaves the cache. */
  lemma FiledWithout(table: map<Key, Handle>, cached: set<Handle>, held: set<Handle>, list: seq<Handle>,
                     list': seq<Handle>,
                     e: Handle)
    requires Filed(table, cached, held, list) && e in cached
    requires forall h :: h in list' <==> h in list && h != e
    ensures Filed(table - {e.key}, cached - {e}, held, list')
  {
    assert LookFiled(0);
  }

  /** Somebody takes the first reference to e. */
  lemma FiledHeld(table: map<Key, Handle>, cached: set<Handle>, held: set<Handle>, list: seq<Handle>,
                  list': seq<Handle>,
                  e: Handle)
    requires Filed(table, cached, held, list) && e in cached
    requires forall h :: h in list' <==> h in list && h != e
    ensures Filed(table, cached, held + {e}, list')
  {
    assert LookFiled(0);
  }

  /** Nobody holds e any more, and it goes onto the list. */
  lemma FiledReleased(table: map<Key, Handle>, cached: set<Handle>, held: set<Handle>, list: seq<Handle>,
                      list': seq<Handle>,
                      e: Handle)
    requires Filed(table, cached, held, list) && e in cached
    requires forall h :: h in list' <==> h in list || h == e
    ensures Filed(table, cached, held - {e}, list')
  {
    assert LookFiled(0);
  }

  /** Nobody holds e any more, and it leaves the cache if it is in it. */
  lemma FiledGone(table: map<Key, Handle>, cached: set<Handle>, held: set<Handle>, list: seq<Handle>, e: Handle)
    requires Filed(table, cached, held, list) && e in held
    ensures Filed(if e in cached then table - {e.key} else table, cached - {e}, held - {e}, list)
  {
    assert LookFiled(0);
  }

  /** A new entry under a free key, held or on the list. */
  lemma FiledWith(table: map<Key, Handle>, cached: set<Handle>, held: set<Handle>, list: seq<Handle>,
                  list': seq<Handle>,
                  e: Handle, hold: bool)
    requires Filed(table, cached, held, list) && e.key !in table && e !in held
    requires forall h :: h in list' <==> h in list || (h == e && !hold)
    ensures Filed(table[e.key := e], cached + {e}, if hold then held + {e} else held, list')
  {
    assert LookFiled(0);
  }

  lemma FreedGrows(cached: set<Handle>, held: set<Handle>, cached': set<Handle>, held': set<Handle>, freed: seq<Handle>,
                   e: Handle)
    requires FreedOnce(cached, held, freed) && e in cached + held
    requires cached' <= cached && held' <= held && e !in cached' && e !in held'
    ensures FreedOnce(cached', held', freed + [e])
  {
    assert LookFreed(0);
  }

  lemma FreedAtOnce(cached: set<Handle>, held: set<Handle>, freed: seq<Handle>, e: Handle)
    requires FreedOnce(cached, held, freed) && e !in freed && e !in cached && e !in held
    ensures FreedOnce(cached, held, freed + [e])
  {
    assert LookFreed(0);
  }

  lemma FreedAdds(cached: set<Handle>, held: set<Handle>, freed: seq<Handle>, e: Handle)
    requires FreedOnce(cached, held, freed) && e !in freed
    ensures FreedOnce(cached + {e}, held + {e}, freed) && FreedOnce(cached + {e}, held, freed)
  {
    assert LookFreed(0);
  }

  lemma FreedShrinks(cached: set<Handle>, held: set<Handle>, cached': set<Handle>, held': set<Handle>,
                     freed: seq<Handle>)
    requires FreedOnce(cached, held, freed) && cached' + held' <= cached + held
    ensures FreedOnce(cached', held', freed)
  {
    assert LookFreed(0);
  }

  /** The last reference to e goes, and e with it. */
  lemma CountedGone(cached: set<Handle>, held: set<Handle>, freed: seq<Handle>, e: Handle)
    requires FreedOnce(cached, held, freed) && e in held
    ensures Sum(cached + held) == Sum((cached - {e}) + (held - {e})) + e.charge
    ensures FreedOnce(cached - {e}, held - {e}, freed + [e])
  {
    SumMinus(cached + held, e);
    assert (cached - {e}) + (held - {e}) == cached + held - {e};
    FreedGrows(cached, held, cached - {e}, held - {e}, freed, e);
  }

  /** A cached entry changes hands. */
  lemma CountedHeld(cached: set<Handle>, held: set<Handle>, freed: seq<Handle>, e: Handle)
    requires FreedOnce(cached, held, freed) && e in cached
    ensures Sum(cached + (held + {e})) == Sum(cached + held) == Sum(cached + (held - {e}))
    ensures FreedOnce(cached, held + {e}, freed) && FreedOnce(cached, held - {e}, freed)
  {
    assert cached + (held + {e}) == cached + held == cached + (held - {e});
    FreedShrinks(cached, held, cached, held + {e}, freed);
    FreedShrinks(cached, held, cached, held - {e}, freed);
  }

  /** The list without h, in order. */
  ghost function Minus(list: seq<Handle>, h: Handle): seq<Handle> {
    if h in list then Without(list, IndexOf(list, h)) else list
  }

  /** Where LRU_Insert puts an entry: last, or as the newest of the low-priority part, which then ends at low. */
  ghost predicate IsPut(list: seq<Handle>, e: Handle, last: bool, list': seq<Handle>, low: nat) {
    if last then list' == list + [e] else 0 < low <= |list| + 1 && list' == With(list, low - 1, e)
  }

  // ----- eviction, on values -----

  datatype Snapshot = Snapshot(list: seq<Handle>, usage: int, cached: set<Handle>, freed: seq<Handle>)

  ghost function EvictOne(a: Snapshot): Snapshot
    requires a.list != []
  {
    Snapshot(a.list[1..], a.usage - a.list[0].charge, a.cached - {a.list[0]}, a.freed + [a.list[0]])
  }

  /** From a to b the oldest entries have been evicted, in order, each while usage was above the limit. */
  ghost predicate Evicts(a: Snapshot, b: Snapshot, limit: int) {
    forall k: nat {:trigger LookEvicts(k)} :: LookEvicts(k) ==>
      && |b.list| <= |a.list|
      && var n := |a.list| - |b.list|;
         && b.list == a.list[n..] && b.freed == a.freed + a.list[..n] && b.usage == a.usage - Charge(a.list[..n])
         && (forall m :: 0 <= m < n ==> a.usage - Charge(a.list[..m]) > limit)
         && b.cached <= a.cached && (forall h :: h in a.cached ==> (h in b.cached <==> h !in a.list[..n]))
  }

  ghost predicate LookEvicts(k: nat) { true }

  lemma EvictsPart(a: Snapshot, b: Snapshot, limit: int)
    requires Evicts(a, b, limit)
    ensures b.cached <= a.cached && forall k :: 0 <= k < |b.list| ==> b.list[k] in a.list
  {
    assert LookEvicts(0);
  }

  /** Eviction makes room exactly if what is pinned leaves room. */
  lemma EvictsRoom(a: Snapshot, b: Snapshot, limit: int)
    requires Evicts(a, b, limit) && (b.usage <= limit || b.list == [])
    ensures b.usage <= limit <==> a.usage - Charge(a.list) <= limit
  {
    assert LookEvicts(0);
    var n := |a.list| - |b.list|;
    assert a.list == a.list[..n] + a.list[n..];
    ChargeConcat(a.list[..n], a.list[n..]);
  }

  lemma EvictsFrees(a: Snapshot, b: Snapshot, limit: int)
    requires Evicts(a, b, limit)
    ensures b.usage <= a.usage && a.freed <= b.freed && forall h :: h in b.freed ==> h in a.freed || h in a.list
  {
    assert LookEvicts(0);
  }

  /** The first n entries of the list are what a shard over the limit has to evict. */
  ghost predicate MustGo(list: seq<Handle>, usage: int, limit: int, n: nat) {
    && n <= |list|
    && (forall m :: 0 <= m < n ==> usage - Charge(list[..m]) > limit)
    && (usage - Charge(list[..n]) <= limit || n == |list|)
  }

  /** Of the table, the evicted entries are gone and the rest is as it was. */
  ghost predicate LeftOf(table: map<Key, Handle>, table': map<Key, Handle>, gone: seq<Handle>) {
    && (forall k :: k in table' ==> k in table && table'[k] == table[k] && table[k] !in gone)
    && (forall k :: k in table && table[k] !in gone ==> k in table')
  }

  lemma EvictsMeaning(a: Snapshot, b: Snapshot, limit: int, table: map<Key, Handle>, table': map<Key, Handle>,
                      held: set<Handle>)
    requires Evicts(a, b, limit) && (b.usage <= limit || b.list == [])
    requires Filed(table, a.cached, held, a.list) && Filed(table', b.cached, held, b.list)
    ensures |b.list| <= |a.list| && MustGo(a.list, a.usage, limit, |a.list| - |b.list|)
    ensures LeftOf(table, table', a.list[..|a.list| - |b.list|])
    ensures var n := |a.list| - |b.list|; b.list == a.list[n..] && b.freed == a.freed + a.list[..n]
  {
    assert LookEvicts(0) && LookFiled(0);
  }

  lemma EvictsNone(a: Snapshot, limit: int)
    ensures Evicts(a, a, limit)
  {
  }

  lemma EvictsOneMore(a: Snapshot, b: Snapshot, limit: int)
    requires Evicts(a, b, limit) && b.list != [] && b.usage > limit
    ensures Evicts(a, EvictOne(b), limit)
  {
    assert LookEvicts(0);
    var n := |a.list| - |b.list|;
    assert a.list[..n + 1] == a.list[..n] + [b.list[0]];
    assert a.list[..n + 1][..n] == a.list[..n];
  }

  /** The share of the capacity for entries with priority, rounded down. */
  function PoolCapacity(capacity: nat, ratio: real): (n: nat)
    requires 0.0 <= ratio
    ensures n as real <= capacity as real * ratio < n as real + 1.0
  {
    (capacity as real * ratio).Floor
  }

  class LruShard {
    const lru: EvictionList
    var capacity: nat
    var strict: bool
    var table: map<Key, Handle>
    var usage: nat
    ghost var cached: set<Handle>   // the entries in the cache
    ghost var held: set<Handle>     // the entries referenced from outside
    ghost var freed: seq<Handle>    // the entries whose value has been given to its deleter

    constructor (capacity: nat, strict: bool, ratio: real)
      requires 0.0 <= ratio
      ensures Valid() && fresh(lru) && fresh(lru.head) && this.capacity == capacity && this.strict == strict
      ensures table == map[] && usage == 0 && cached == {} && held == {} && freed == []
      ensures lru.list == [] && lru.ratio == ratio
    {
      lru := new EvictionList(ratio);
      this.capacity, this.strict := 0, strict;
      table, usage, cached, held, freed := map[], 0, {}, {}, [];
      new;
      this.capacity := capacity;
      lru.highCapacity := PoolCapacity(capacity, lru.ratio);
    }

    ghost predicate Books()
      reads this, lru, cached, held
    {
      && lru.head !in cached && lru.head !in held
      && Filed(table, cached, held, lru.list) && Marked(cached, held, lru.list) && FreedOnce(cached, held, freed)
      && usage == Sum(cached + held)
      && 0.0 <= lru.ratio && lru.highCapacity == PoolCapacity(capacity, lru.ratio)
    }

    /** All but the bound on the eviction list. */
    ghost predicate Sound()
      reads this, lru, lru.ring, lru.list, cached, held
    {
      lru.Valid() && forall k: nat {:trigger LookBooks(k)} :: LookBooks(k) ==> Books()
    }

    /** An overfull shard has nothing to evict. */
    ghost predicate Valid()
      reads this, lru, lru.ring, lru.list, cached, held
    {
      Sound() && (usage > capacity ==> lru.list == [])
    }

    ghost function Snap(): Snapshot
      reads this, lru`list
    {
      Snapshot(lru.list, usage, cached, freed)
    }

    // The list operations as the shard sees them: no handle but those on the list is written to.

    method PopOldest() returns (e: Handle)
      requires lru.Valid() && lru.list != [] && Marked(cached, held, lru.list) && lru.head !in cached + held
      modifies lru`list, lru`ring, lru`low, lru`lowPri, lru`usage, lru`highUsage
      modifies lru.list`next, lru.list`prev, lru.head`next, lru.head`prev
      ensures lru.Valid() && e == old(lru.list)[0] && lru.list == old(lru.list)[1..] && Marked(cached, held, lru.list)
      ensures forall h :: h in lru.list <==> h in old(lru.list) && h != e
    {
      e := lru.PopOldest();
      assert Marked(cached, held, lru.list) by { assert LookMarked(0); }
    }

    method Unlist(e: Handle)
      requires lru.Valid() && e in lru.list && Marked(cached, held, lru.list) && lru.head !in cached + held
      modifies lru`list, lru`ring, lru`low, lru`lowPri, lru`usage, lru`highUsage
      modifies lru.list`next, lru.list`prev, lru.head`next, lru.head`prev
      ensures lru.Valid() && Marked(cached, held, lru.list)
      ensures lru.list == Without(old(lru.list), IndexOf(old(lru.list), e))
      ensures forall h :: h in lru.list <==> h in old(lru.list) && h != e
    {
      lru.Unlist(e);
      assert Marked(cached, held, lru.list) by { assert LookMarked(0); }
    }

    /** Takes an entry that nobody holds out of the table, and frees it. */
    method Forget(e: Handle)
      requires e in cached && e !in held && e !in lru.list
      requires usage == Sum(cached + held) && FreedOnce(cached, held, freed) && Marked(cached, held, lru.list)
      modifies this`table, this`usage, this`cached, this`freed, e`inCache
      ensures table == old(table) - {e.key} && cached == old(cached) - {e} && !e.inCache
      ensures usage == old(usage) - e.charge && usage == Sum(cached + held)
      ensures freed == old(freed) + [e] && FreedOnce(cached, held, freed) && Marked(cached, held, lru.list)
    {
      SumMinus(cached + held, e);
      assert cached - {e} + held == cached + held - {e};
      FreedGrows(cached, held, cached - {e}, held, freed, e);
      table := table - {e.key};
      e.inCache := false;
      usage := usage - e.charge;
      cached := cached - {e};
      freed := freed + [e];
      assert Marked(cached, held, lru.list) by { assert LookMarked(0); }
    }

    /** One turn of the loops that evict. */
    method EvictOldest()
      requires Sound() && lru.list != []
      modifies this`table, this`usage, this`cached, this`freed
      modifies lru`list, lru`ring, lru`low, lru`lowPri, lru`usage, lru`highUsage
      modifies lru.list`next, lru.list`prev, lru.head`next, lru.head`prev, cached`inCache
      ensures Sound() && Snap() == EvictOne(old(Snap()))
    {
      assert LookBooks(0);
      FiledAt(table, cached, held, lru.list, lru.list[0]);
      var e := PopOldest();
      FiledWithout(table, cached, held, old(lru.list), lru.list, e);
      Forget(e);
    }

    /** Evicts from the old end, and no more than needed, until there is room or nothing to evict. */
    method EvictFromLru(charge: nat)
      requires Sound()
      modifies this`table, this`usage, this`cached, this`freed
      modifies lru`list, lru`ring, lru`low, lru`lowPri, lru`usage, lru`highUsage
      modifies lru.list`next, lru.list`prev, lru.head`next, lru.head`prev, cached`inCache
      ensures Sound() && Evicts(old(Snap()), Snap(), capacity - charge)
      ensures usage + charge <= capacity || lru.list == []
    {
      ghost var before, limit := Snap(), capacity - charge;
      EvictsNone(before, limit);
      var oldest := lru.Oldest();
      while usage + charge > capacity && oldest != lru.head
        invariant Sound() && Evicts(before, Snap(), limit) && capacity - charge == limit
        invariant lru.list == [] <==> oldest == lru.head
        decreases |lru.list|
      {
        EvictsPart(before, Snap(), limit);
        EvictsOneMore(before, Snap(), limit);
        EvictOldest();
        oldest := lru.Oldest();
      }
    }

    /** EvictFromLru with nothing to stop it. */
    method EraseUnRefEntries()
      requires Valid()
      modifies this`table, this`usage, this`cached, this`freed
      modifies lru`list, lru`ring, lru`low, lru`lowPri, lru`usage, lru`highUsage
      modifies lru.list`next, lru.list`prev, lru.head`next, lru.head`prev, cached`inCache
      ensures Valid() && lru.list == [] && Evicts(old(Snap()), Snap(), -1)
    {
      ghost var before := Snap();
      EvictsNone(before, -1);
      var oldest := lru.Oldest();
      while oldest != lru.head
        invariant Sound() && Evicts(before, Snap(), -1)
        invariant lru.list == [] <==> oldest == lru.head
        decreases |lru.list|
      {
        EvictsPart(before, Snap(), -1);
        EvictsOneMore(before, Snap(), -1);
        EvictOldest();
        oldest := lru.Oldest();
      }
    }

    method SetCapacity(c: nat)
      requires Sound()
      modifies this`capacity, this`table, this`usage, this`cached, this`freed, lru`highCapacity
      modifies lru`list, lru`ring, lru`low, lru`lowPri, lru`usage, lru`highUsage
      modifies lru.list`next, lru.list`prev, lru.head`next, lru.head`prev, cached`inCache
      ensures Valid() && capacity == c && Evicts(old(Snap()), Snap(), c)
      ensures usage <= c || lru.list == []
    {
      assert LookBooks(0);
      capacity := c;
      lru.highCapacity := PoolCapacity(capacity, lru.ratio);
      EvictFromLru(0);
    }

    method SetStrictCapacityLimit(strict: bool)
      requires Valid()
      modifies this`strict
      ensures Valid() && this.strict == strict
    {
      this.strict := strict;
    }

    method SetHighPriorityPoolRatio(ratio: real)
      requires Valid() && 0.0 <= ratio
      modifies lru`ratio, lru`highCapacity, lru`low, lru`lowPri, lru`highUsage, lru.list`inHighPool
      ensures Valid() && lru.ratio == ratio && lru.highUsage <= lru.highCapacity == PoolCapacity(capacity, ratio)
      ensures old(lru.low) <= lru.low <= |lru.list|
      ensures forall n :: old(lru.low) <= n < lru.low ==> Charge(lru.list[n..]) > lru.highCapacity
    {
      assert LookBooks(0);
      lru.ratio := ratio;
      lru.highCapacity := PoolCapacity(capacity, ratio);
      lru.MaintainPoolSize();
    }

    /** A reference to a cached entry that is not on the list. */
    method AddRef(e: Handle)
      requires e in cached && e !in lru.list && Marked(cached, held, lru.list)
      modifies this`held, e`refs, e`hasHit
      ensures held == old(held) + {e} && e.refs == old(e.refs) + 1 && e.hasHit && Marked(cached, held, lru.list)
    {
      MarkedAt(cached, held, lru.list, e);
      e.refs := e.refs + 1;
      e.hasHit := true;
      held := held + {e};
      assert Marked(cached, held, lru.list) by { assert LookMarked(0); }
    }

    /** A cached entry leaves the list if it is on it. */
    method TakeOff(e: Handle)
      requires Sound() && e in cached
      modifies lru`list, lru`ring, lru`low, lru`lowPri, lru`usage, lru`highUsage
      modifies lru.list`next, lru.list`prev, lru.head`next, lru.head`prev
      ensures lru.Valid() && Marked(cached, held, lru.list) && Filed(table, cached, held + {e}, lru.list)
      ensures lru.list == Minus(old(lru.list), e) && e !in lru.list
    {
      assert LookBooks(0);
      FiledAt(table, cached, held, lru.list, e);
      MarkedAt(cached, held, lru.list, e);
      if e.refs == 0 {
        Unlist(e);
      }
      FiledHeld(table, cached, held, old(lru.list), lru.list, e);
    }

    /** A reference to a cached entry. */
    method Hold(h: Handle)
      requires Sound() && h in cached
      modifies this`held, h`refs, h`hasHit, lru`list, lru`ring, lru`low, lru`lowPri, lru`usage, lru`highUsage
      modifies lru.list`next, lru.list`prev, lru.head`next, lru.head`prev
      ensures Sound() && h.refs == old(h.refs) + 1 && h.hasHit && held == old(held) + {h}
      ensures lru.list == Minus(old(lru.list), h)
    {
      assert LookBooks(0);
      CountedHeld(cached, held, freed, h);
      TakeOff(h);
      AddRef(h);
    }

    method Lookup(key: Key) returns (h: Handle?)
      requires Valid()
      modifies this`held, lru`list, lru`ring, lru`low, lru`lowPri, lru`usage, lru`highUsage
      modifies lru.list`next, lru.list`prev, lru.head`next, lru.head`prev, cached`refs, cached`hasHit
      ensures Valid()
      ensures key !in table ==> h == null && held == old(held) && lru.list == old(lru.list)
      ensures key in table ==>
                h == table[key] && h.refs == old(table[key].refs) + 1 && h.hasHit && held == old(held) + {h}
      ensures key in table ==> lru.list == Minus(old(lru.list), table[key])
      ensures forall x :: x in cached && x != h ==> x.refs == old(x.refs) && x.hasHit == old(x.hasHit)
    {
      if key !in table {
        return null;
      }
      h := table[key];
      assert LookBooks(0);
      FiledUnder(table, cached, held, lru.list, key);
      Hold(h);
    }

    /** Another reference to an entry that is already held. */
    method Ref(h: Handle)
      requires Valid() && h in held
      modifies h`refs
      ensures Valid() && h.refs == old(h.refs) + 1
    {
      assert LookBooks(0);
      MarkedAt(cached, held, lru.list, h);
      h.refs := h.refs + 1;
      assert Marked(cached, held, lru.list) by { assert LookMarked(0); }
    }

    /** The last reference goes, and the entry leaves the cache if it is in it. */
    method Unmark(h: Handle)
      requires Marked(cached, held, lru.list) && h in held && h.refs == 1
      modifies this`cached, this`held, h`inCache, h`refs
      ensures Marked(cached, held, lru.list) && cached == old(cached) - {h} && held == old(held) - {h}
      ensures h.refs == 0 && !h.inCache
    {
      h.refs := h.refs - 1;
      h.inCache := false;
      cached, held := cached - {h}, held - {h};
      assert Marked(cached, held, lru.list) by { assert LookMarked(0); }
    }

    /** The last reference goes, and the entry with it. */
    method Discard(h: Handle)
      requires Sound() && h in held && h.refs == 1
      modifies this`table, this`usage, this`cached, this`held, this`freed, h`inCache, h`refs
      ensures Sound() && cached == old(cached) - {h} && held == old(held) - {h} && freed == old(freed) + [h]
      ensures usage == old(usage) - h.charge && h.refs == 0 && !h.inCache
    {
      assert LookBooks(0);
      Gone(h);
      if h.inCache {
        table := table - {h.key};
      }
      Unmark(h);
      usage := usage - h.charge;
      freed := freed + [h];
    }

    /** What stays true of the books without an entry that only its last reference kept. */
    lemma Gone(h: Handle)
      requires Books() && h in held
      ensures h.inCache <==> h in cached
      ensures Filed(if h.inCache then table - {h.key} else table, cached - {h}, held - {h}, lru.list)
      ensures usage == Sum((cached - {h}) + (held - {h})) + h.charge
      ensures FreedOnce(cached - {h}, held - {h}, freed + [h])
    {
      MarkedAt(cached, held, lru.list, h);
      FiledGone(table, cached, held, lru.list, h);
      CountedGone(cached, held, freed, h);
    }

    /** LRU_Insert, as the shard sees it. */
    method Enlist(e: Handle)
      requires lru.Valid() && e !in lru.list && Marked(cached, held, lru.list) && lru.head !in cached + held
               && e != lru.head
      modifies lru`list, lru`ring, lru`low, lru`lowPri, lru`usage, lru`highUsage
      modifies lru.list`next, lru.list`prev, lru.head`next, lru.head`prev, lru.list`inHighPool, e`next, e`prev,
               e`inHighPool
      ensures lru.Valid() && Marked(cached, held, lru.list)
      ensures forall h :: h in lru.list <==> h in old(lru.list) || h == e
      ensures IsPut(old(lru.list), e, lru.ratio > 0.0 && (e.highPri || e.hasHit), lru.list, lru.low)
      ensures !(lru.ratio > 0.0 && (e.highPri || e.hasHit)) ==> lru.low == old(lru.low) + 1
    {
      lru.Insert(e);
      assert Marked(cached, held, lru.list) by { assert LookMarked(0); }
    }

    /** The last reference goes. */
    method Unhold(h: Handle)
      requires Marked(cached, held, lru.list) && h in held && h.refs == 1
      modifies this`held, h`refs
      ensures Marked(cached, held, lru.list) && held == old(held) - {h} && h.refs == 0
    {
      h.refs := h.refs - 1;
      held := held - {h};
      assert Marked(cached, held, lru.list) by { assert LookMarked(0); }
    }

    /** The last reference goes, and the entry onto the list. */
    method Keep(h: Handle)
      requires Sound() && h in held && h.refs == 1 && h in cached
      modifies this`held, h`refs
      modifies lru`list, lru`ring, lru`low, lru`lowPri, lru`usage, lru`highUsage
      modifies lru.list`next, lru.list`prev, lru.head`next, lru.head`prev, lru.list`inHighPool, h`next, h`prev,
               h`inHighPool
      ensures Sound() && held == old(held) - {h} && h.refs == 0
      ensures IsPut(old(lru.list), h, lru.ratio > 0.0 && (h.highPri || h.hasHit), lru.list, lru.low)
      ensures !(lru.ratio > 0.0 && (h.highPri || h.hasHit)) ==> lru.low == old(lru.low) + 1
    {
      ghost var held0, list0 := held, lru.list;
      assert LookBooks(0);
      FiledAt(table, cached, held, lru.list, h);
      CountedHeld(cached, held, freed, h);
      Unhold(h);
      Enlist(h);
      FiledReleased(table, cached, held0, list0, lru.list, h);
    }

    /** The value is freed on the last release, unless the entry goes back onto the list. */
    method Release(h: Handle, forceErase: bool) returns (last: bool)
      requires Valid() && h in held
      modifies this`table, this`usage, this`cached, this`held, this`freed
      modifies lru`list, lru`ring, lru`low, lru`lowPri, lru`usage, lru`highUsage
      modifies lru.list`next, lru.list`prev, lru.head`next, lru.head`prev, lru.list`inHighPool
      modifies h`next, h`prev, h`inHighPool, h`inCache, h`refs
      ensures Valid() && h.refs == old(h.refs) - 1
      ensures last <==> old(h.refs) == 1 && (h !in old(cached) || old(usage) > capacity || forceErase)
      ensures last ==> cached == old(cached) - {h} && freed == old(freed) + [h] && usage == old(usage) - h.charge
      ensures !last ==> cached == old(cached) && freed == old(freed) && usage == old(usage)
      ensures held == if old(h.refs) == 1 then old(held) - {h} else old(held)
      ensures old(h.refs) > 1 || last ==> lru.list == old(lru.list)
      ensures old(h.refs) == 1 && !last ==>
                && IsPut(old(lru.list), h, lru.ratio > 0.0 && (h.highPri || h.hasHit), lru.list, lru.low)
                && (!(lru.ratio > 0.0 && (h.highPri || h.hasHit)) ==> lru.low == old(lru.low) + 1)
    {
      assert LookBooks(0);
      MarkedAt(cached, held, lru.list, h);
      if h.refs > 1 {
        h.refs := h.refs - 1;
        assert Marked(cached, held, lru.list) by { assert LookMarked(0); }
        last := false;
      } else if h.inCache && usage <= capacity && !forceErase {
        Keep(h);
        last := false;
      } else {
        Discard(h);
        last := true;
      }
    }

    /** A held entry leaves the table; it lives on until its last release. */
    method Orphan(e: Handle)
      requires Sound() && e in cached && e in held
      modifies this`table, this`cached, e`inCache
      ensures Sound() && cached == old(cached) - {e} && table == old(table) - {e.key}
    {
      assert LookBooks(0);
      FiledAt(table, cached, held, lru.list, e);
      FiledWithout(table, cached, held, lru.list, lru.list, e);
      FreedShrinks(cached, held, cached - {e}, held, freed);
      assert cached - {e} + held == cached + held;
      table := table - {e.key};
      e.inCache := false;
      cached := cached - {e};
      assert Marked(cached, held, lru.list) by { assert LookMarked(0); }
    }

    /** An entry nobody holds leaves the list and the table, and is freed. */
    method Evict(e: Handle)
      requires Sound() && e in cached && e !in held
      modifies this`table, this`usage, this`cached, this`freed
      modifies lru`list, lru`ring, lru`low, lru`lowPri, lru`usage, lru`highUsage
      modifies lru.list`next, lru.list`prev, lru.head`next, lru.head`prev, e`inCache
      ensures Sound() && cached == old(cached) - {e} && table == old(table) - {e.key}
      ensures freed == old(freed) + [e] && usage == old(usage) - e.charge && lru.list == Minus(old(lru.list), e)
    {
      assert LookBooks(0);
      FiledAt(table, cached, held, lru.list, e);
      Unlist(e);
      FiledWithout(table, cached, held, old(lru.list), lru.list, e);
      Forget(e);
    }

    /** What Erase does to the entry it finds, and Insert to the entry it replaces. */
    method Remove(key: Key) returns (found: bool)
      requires Sound()
      modifies this`table, this`usage, this`cached, this`freed
      modifies lru`list, lru`ring, lru`low, lru`lowPri, lru`usage, lru`highUsage
      modifies lru.list`next, lru.list`prev, lru.head`next, lru.head`prev, cached`inCache
      ensures Sound() && table == old(table) - {key} && (found <==> key in old(table))
      ensures !found ==>
                cached == old(cached) && freed == old(freed) && usage == old(usage) && lru.list == old(lru.list)
      ensures found ==> var e := old(table)[key];
                        && cached == old(cached) - {e}
                        && (e in held ==> freed == old(freed) && usage == old(usage) && lru.list == old(lru.list))
                        && (e !in held ==> freed == old(freed) + [e] && usage == old(usage) - e.charge)
                        && lru.list == Minus(old(lru.list), e)
      ensures forall k :: 0 <= k < |lru.list| ==> lru.list[k] in old(lru.list)
      ensures forall h :: h in freed ==> h in old(freed) || h in old(cached)
    {
      found := key in table;
      if found {
        var e := table[key];
        assert LookBooks(0);
        FiledUnder(table, cached, held, lru.list, key);
        FiledAt(table, cached, held, lru.list, e);
        MarkedAt(cached, held, lru.list, e);
        if e.refs > 0 {
          Orphan(e);
        } else {
          Evict(e);
        }
      }
    }

    method Erase(key: Key)
      requires Valid()
      modifies this`table, this`usage, this`cached, this`freed
      modifies lru`list, lru`ring, lru`low, lru`lowPri, lru`usage, lru`highUsage
      modifies lru.list`next, lru.list`prev, lru.head`next, lru.head`prev, cached`inCache
      ensures Valid() && table == old(table) - {key}
      ensures key !in old(table) ==>
                cached == old(cached) && freed == old(freed) && usage == old(usage) && lru.list == old(lru.list)
      ensures key in old(table) ==> var e := old(table)[key];
                                    && cached == old(cached) - {e}
                                    && (e in held ==> freed == old(freed) && usage == old(usage))
                                    && (e !in held ==> freed == old(freed) + [e] && usage == old(usage) - e.charge)
                                    && lru.list == Minus(old(lru.list), e)
    {
      var _ := Remove(key);
      assert lru.list != [] ==> lru.list[0] in old(lru.list);
    }

    /** A new entry is counted, and marked as held or not. */
    method Enter(e: Handle, hold: bool)
      requires Marked(cached, held, lru.list) && usage == Sum(cached + held) && FreedOnce(cached, held, freed)
      requires e !in cached && e !in held && e !in freed
      requires e.refs == 0 && e.inCache && e.next == null && e.prev == null
      modifies this`usage, this`cached, this`held, e`refs
      ensures Marked(cached, held, lru.list) && usage == Sum(cached + held) && FreedOnce(cached, held, freed)
      ensures cached == old(cached) + {e} && held == (if hold then old(held) + {e} else old(held))
      ensures usage == old(usage) + e.charge && e.refs == if hold then 1 else 0
    {
      SumPlus(cached + held, e);
      assert cached + {e} + held == cached + held + {e};
      assert cached + {e} + (held + {e}) == cached + held + {e};
      FreedAdds(cached, held, freed, e);
      usage := usage + e.charge;
      if hold {
        e.refs := e.refs + 1;
        held := held + {e};
      }
      cached := cached + {e};
      assert Marked(cached, held, lru.list) by { assert LookMarked(0); }
    }

    /** A new entry is counted, and held or put onto the list. */
    method Join(e: Handle, hold: bool)
      requires lru.Valid() && Marked(cached, held, lru.list) && usage == Sum(cached + held)
               && FreedOnce(cached, held, freed)
      requires lru.head !in cached + held && e != lru.head && e !in lru.list
      requires e !in cached && e !in held && e !in freed
      requires e.refs == 0 && e.inCache && e.next == null && e.prev == null
      modifies this`usage, this`cached, this`held
      modifies lru`list, lru`ring, lru`low, lru`lowPri, lru`usage, lru`highUsage
      modifies lru.list`next, lru.list`prev, lru.head`next, lru.head`prev, lru.list`inHighPool
      modifies e`refs, e`next, e`prev, e`inHighPool
      ensures lru.Valid() && Marked(cached, held, lru.list) && usage == Sum(cached + held)
              && FreedOnce(cached, held, freed)
      ensures cached == old(cached) + {e} && held == (if hold then old(held) + {e} else old(held))
      ensures usage == old(usage) + e.charge && e.refs == (if hold then 1 else 0)
      ensures forall h :: h in lru.list <==> h in old(lru.list) || (h == e && !hold)
      ensures hold ==> lru.list == old(lru.list)
      ensures !hold ==> IsPut(old(lru.list), e, lru.ratio > 0.0 && (e.highPri || e.hasHit), lru.list, lru.low)
    {
      Enter(e, hold);
      if !hold {
        Enlist(e);
      }
    }

    /** A new entry under a key that is not in the table. */
    method Add(e: Handle, hold: bool)
      requires Sound() && e.key !in table && e !in cached && e !in held && e !in freed && e != lru.head
      requires e.refs == 0 && e.inCache && e.next == null && e.prev == null
      modifies this`table, this`usage, this`cached, this`held
      modifies lru`list, lru`ring, lru`low, lru`lowPri, lru`usage, lru`highUsage
      modifies lru.list`next, lru.list`prev, lru.head`next, lru.head`prev, lru.list`inHighPool
      modifies e`refs, e`next, e`prev, e`inHighPool
      ensures Sound() && table == old(table)[e.key := e] && cached == old(cached) + {e}
      ensures held == (if hold then old(held) + {e} else old(held)) && usage == old(usage) + e.charge
      ensures e.refs == (if hold then 1 else 0)
      ensures hold ==> lru.list == old(lru.list)
      ensures !hold ==> e in lru.list
      ensures !hold ==> IsPut(old(lru.list), e, lru.ratio > 0.0 && (e.highPri || e.hasHit), lru.list, lru.low)
    {
      ghost var cached0, held0, list0 := cached, held, lru.list;
      assert LookBooks(0);
      FiledAt(table, cached, held, lru.list, e);
      Join(e, hold);
      FiledWith(table, cached0, held0, list0, lru.list, e, hold);
      table := table[e.key := e];
    }

    /** Evicts for an entry of this charge, and tells if there is room then. */
    method MakeRoom(charge: nat) returns (fits: bool, ghost n: nat)
      requires Sound()
      modifies this`table, this`usage, this`cached, this`freed
      modifies lru`list, lru`ring, lru`low, lru`lowPri, lru`usage, lru`highUsage
      modifies lru.list`next, lru.list`prev, lru.head`next, lru.head`prev, cached`inCache
      ensures Sound() && MustGo(old(lru.list), old(usage), capacity - charge, n)
              && LeftOf(old(table), table, old(lru.list)[..n])
      ensures fits <==> usage + charge <= capacity
      ensures fits <==> old(usage) - Charge(old(lru.list)) + charge <= capacity
      ensures !fits ==> lru.list == []
      ensures lru.list == old(lru.list)[n..] && freed == old(freed) + old(lru.list)[..n]
      ensures cached <= old(cached) && (forall k :: 0 <= k < |lru.list| ==> lru.list[k] in old(lru.list))
      ensures usage <= old(usage) && (forall h :: h in freed ==> h in old(freed) || h in old(lru.list))
    {
      ghost var before, table0 := Snap(), table;
      assert LookBooks(0);
      EvictFromLru(charge);
      EvictsRoom(before, Snap(), capacity - charge);
      EvictsPart(before, Snap(), capacity - charge);
      EvictsFrees(before, Snap(), capacity - charge);
      EvictsMeaning(before, Snap(), capacity - charge, table0, table, held);
      fits, n := usage + charge <= capacity, |before.list| - |lru.list|;
    }

    /** Puts e in the place of what the table has under its key. */
    method Replace(e: Handle, hold: bool) returns (found: bool)
      requires Sound() && e !in cached && e !in held && e !in freed && e != lru.head
      requires e.refs == 0 && e.inCache && e.next == null && e.prev == null
      modifies this`table, this`usage, this`cached, this`held, this`freed
      modifies lru`list, lru`ring, lru`low, lru`lowPri, lru`usage, lru`highUsage
      modifies lru.list`next, lru.list`prev, lru.head`next, lru.head`prev, lru.list`inHighPool, cached`inCache
      modifies e`refs, e`next, e`prev, e`inHighPool
      ensures Sound() && table == old(table)[e.key := e] && (found <==> e.key in old(table))
      ensures cached == (if found then old(cached) - {old(table)[e.key]} else old(cached)) + {e}
      ensures held == (if hold then old(held) + {e} else old(held)) && usage <= old(usage) + e.charge
      ensures freed == old(freed) + if found && old(table)[e.key] !in old(held) then [old(table)[e.key]] else []
      ensures e.refs == (if hold then 1 else 0)
      ensures var base := if found then Minus(old(lru.list), old(table)[e.key]) else old(lru.list);
              if hold then lru.list == base
              else e in lru.list && IsPut(base, e, lru.ratio > 0.0 && (e.highPri || e.hasHit), lru.list, lru.low)
    {
      assert LookBooks(0);
      FiledAt(table, cached, held, lru.list, e);
      found := Remove(e.key);
      Add(e, hold);
    }

    /** Room for an entry of this charge, once all that can be is evicted. */
    ghost predicate HasRoom(charge: nat)
      reads this, lru`list
    {
      usage - Charge(lru.list) + charge <= capacity
    }

    /** An entry that never got in is freed. */
    method FreeNew(e: Handle)
      requires Sound() && e !in cached && e !in held && e !in freed
      modifies this`freed
      ensures Sound() && freed == old(freed) + [e]
    {
      assert LookBooks(0);
      FreedAtOnce(cached, held, freed, e);
      freed := freed + [e];
    }

    /** What Insert does once it has evicted. */
    method Place(e: Handle, fits: bool, want: bool) returns (s: Status, h: Handle?)
      requires Sound() && e !in cached && e !in held && e !in freed && e != lru.head
      requires e.refs == 0 && e.inCache && e.next == null && e.prev == null
      requires if fits then usage + e.charge <= capacity else lru.list == []
      modifies this`table, this`usage, this`cached, this`held, this`freed
      modifies lru`list, lru`ring, lru`low, lru`lowPri, lru`usage, lru`highUsage
      modifies lru.list`next, lru.list`prev, lru.head`next, lru.head`prev, lru.list`inHighPool, cached`inCache
      modifies e`refs, e`next, e`prev, e`inHighPool, e`inCache
      ensures Valid() && cached <= old(cached) + {e}
      ensures if (strict || !want) && !fits then
                && s == (if want then Incomplete else Ok) && h == null && table == old(table) && held == old(held)
                && lru.list == old(lru.list) && usage == old(usage) && freed == old(freed) + if want then [] else [e]
              else
                var found := e.key in old(table);
                && s == (if found then OkOverwritten else Ok) && h == (if want then e else null)
                && table == old(table)[e.key := e] && e.refs == (if want then 1 else 0)
                && held == (if want then old(held) + {e} else old(held)) && usage <= old(usage) + e.charge
                && freed == old(freed) + (if found && old(table)[e.key] !in old(held) then [old(table)[e.key]] else [])
                && var base := if found then Minus(old(lru.list), old(table)[e.key]) else old(lru.list);
                   if want then lru.list == base
                   else e in lru.list && IsPut(base, e, lru.ratio > 0.0 && (e.highPri || e.hasHit), lru.list, lru.low)
    {
      h := null;
      if !fits && (strict || !want) {
        e.inCache := false;
        s := Ok;
        if want {
          s := Incomplete;
        } else {
          FreeNew(e);
        }
      } else {
        var found := Replace(e, want);
        s := if found then OkOverwritten else Ok;
        if want {
          h := e;
        }
      }
    }

    /** Insert fails, for a caller that wants the handle, exactly if the limit is strict and the pinned
        entries leave no room. For a caller that does not, an entry without room is freed at once. First
        n entries are evicted, oldest first and no more than needed. */
    method Insert(key: Key, val: Value, charge: nat, highPri: bool, want: bool)
      returns (s: Status, h: Handle?, ghost n: nat, ghost e: Handle)
      requires Valid()
      modifies this`table, this`usage, this`cached, this`held, this`freed
      modifies lru`list, lru`ring, lru`low, lru`lowPri, lru`usage, lru`highUsage
      modifies lru.list`next, lru.list`prev, lru.head`next, lru.head`prev, lru.list`inHighPool, cached`inCache
      ensures Valid() && fresh(e) && e.key == key && e.val == val && e.charge == charge && e.highPri == highPri
              && !e.hasHit
      ensures MustGo(old(lru.list), old(usage), capacity - charge, n) && cached <= old(cached) + {e}
      ensures LeftOf(old(table) - {key}, table - {key}, old(lru.list)[..n])
      ensures var gone, rest := old(lru.list)[..n], old(lru.list)[n..];
              var replaced := key in old(table) && old(table)[key] !in gone;
              if (strict || !want) && !old(HasRoom(charge)) then
                && s == (if want then Incomplete else Ok) && h == null && held == old(held)
                && LeftOf(old(table), table, gone) && lru.list == rest
                && freed == old(freed) + gone + if want then [] else [e]
              else
                && s == (if replaced then OkOverwritten else Ok) && h == (if want then e else null)
                && key in table && table[key] == e && e.refs == (if want then 1 else 0)
                && held == (if want then old(held) + {e} else old(held))
                && freed == old(freed) + gone
                            + (if replaced && old(table)[key] !in old(held) then [old(table)[key]] else [])
                && var base := if replaced then Minus(rest, old(table)[key]) else rest;
                   if want then lru.list == base
                   else e in lru.list && IsPut(base, e, lru.ratio > 0.0 && highPri, lru.list, lru.low)
      ensures strict && old(usage) <= capacity ==> usage <= capacity
    {
      var x := new Handle(key, val, charge, highPri);
      e := x;
      var fits: bool;
      fits, n := MakeRoom(charge);
      s, h := Place(x, fits, want);
    }

    /** The charge of the entries that are held. */
    method GetPinnedUsage() returns (pinned: nat)
      requires Valid()
      ensures pinned == Sum(held)
    {
      assert LookBooks(0);
      lru.Apart();
      assert forall h :: h in lru.list ==> h in cached + held && h !in held by { assert LookFiled(0); }
      assert (set h | h in cached + held && h !in lru.list) == held by { assert LookFiled(0); }
      SumSplits(cached + held, lru.list);
      pinned := usage - lru.usage;
    }

    /** The three states of an entry in use, by its own fields. */
    lemma ThreeStates(h: Handle)
      requires Valid() && h in cached + held
      ensures h.inCache || h.refs > 0
      ensures h.inCache <==> h.key in table && table[h.key] == h
      ensures h in lru.list <==> h.inCache && h.refs == 0
      ensures h !in freed
    {
      assert LookBooks(0) && LookFiled(0) && LookMarked(0) && LookFreed(0);
    }
  }
}
