/**
 Whole runs of a shard of the LRU cache: any calls, in any order, by clients that release only what they hold. The
 shard gives the answers of `LruViews`.
 */
module LruRuns {

  import opened Options
  import opened EvictionLists
  import opened LruShards
  import opened LruViews

  /** No call switches the strict limit off or lowers the capacity below what it was. */
  predicate KeepsLimit(calls: seq<Call>, capacity: nat)
    decreases |calls|
  {
    calls == [] ||
    match calls[0]
    case SetCapacity(c) => capacity <= c && KeepsLimit(calls[1..], c)
    case SetStrictCapacityLimit(strict) => strict && KeepsLimit(calls[1..], capacity)
    case _ => KeepsLimit(calls[1..], capacity)
  }

  // ----- what the handles say; proofs carry it folded up, as in the shard -----

  ghost predicate LookCounted(k: nat) { true }
  ghost predicate LookHits(k: nat) { true }
  ghost predicate LookTable(k: nat) { true }

  /** Each counter is the number of references that the clients have. */
  ghost predicate Counted(mine: seq<Handle>, inUse: set<Handle>)
    reads inUse`refs
  {
    forall k: nat {:trigger LookCounted(k)} :: LookCounted(k) ==>
      (forall h :: h in mine ==> h in inUse) && forall h :: h in inUse ==> h.refs == multiset(mine)[h]
  }

  ghost predicate Hits(hit: set<Handle>, inUse: set<Handle>)
    reads inUse`hasHit
  {
    forall k: nat {:trigger LookHits(k)} :: LookHits(k) ==> forall h :: h in inUse ==> (h.hasHit <==> h in hit)
  }

  /** The table has what was stored and has not been freed. */
  ghost predicate TableIs(table: map<Key, Handle>, stored: map<Key, Handle>, freed: seq<Handle>) {
    forall k: nat {:trigger LookTable(k)} :: LookTable(k) ==>
      && (forall key :: key in table <==> key in stored && stored[key] !in freed)
      && (forall key :: key in table ==> table[key] == stored[key])
  }

  lemma CountedMore(mine: seq<Handle>, inUse: set<Handle>, h: Handle)
    requires forall x :: x in mine + [h] ==> x in inUse
    requires forall x :: x in inUse ==> x.refs == multiset(mine)[x] + if x == h then 1 else 0
    ensures Counted(mine + [h], inUse)
  {
  }

  lemma CountedLess(mine: seq<Handle>, inUse: set<Handle>, i: nat)
    requires i < |mine|
    requires forall x :: x in mine && (x == mine[i] ==> multiset(mine)[x] > 1) ==> x in inUse
    requires forall x :: x in inUse ==> x.refs == multiset(mine)[x] - if x == mine[i] then 1 else 0
    ensures Counted(Released(mine, i), inUse)
  {
    assert mine == mine[..i] + [mine[i]] + mine[i + 1..];
    assert multiset(mine) == multiset(Released(mine, i)) + multiset{mine[i]};
    assert forall x :: x in Released(mine, i) ==> x in multiset(Released(mine, i));
  }

  // ----- the books of the shard and the view -----

  /** The books of a shard at one time. */
  datatype Book = Book(table: map<Key, Handle>, cached: set<Handle>, held: set<Handle>, list: seq<Handle>,
                       freed: seq<Handle>)

  ghost function BookOf(s: LruShard): Book
    reads s, s.lru`list
  {
    Book(s.table, s.cached, s.held, s.lru.list, s.freed)
  }

  ghost predicate Files(b: Book) {
    Filed(b.table, b.cached, b.held, b.list) && FreedOnce(b.cached, b.held, b.freed)
  }

  /** The entries ever accepted: in use, or given to their deleters. */
  ghost function All(inUse: set<Handle>, freed: seq<Handle>): set<Handle> {
    inUse + set h | h in freed
  }

  /** What the clients see is in the books. */
  ghost predicate Matches(v: View, b: Book) {
    && Files(b) && TableIs(b.table, v.stored, b.freed)
    && v.accepted == All(b.cached + b.held, b.freed) && v.freed == b.freed && v.list == b.list
  }

  ghost predicate Holds(mine: seq<Handle>, held: set<Handle>) {
    (forall h :: h in mine ==> h in held) && forall h :: h in held ==> h in mine
  }

  lemma InUseIs(v: View, b: Book)
    requires Matches(v, b)
    ensures InUse(v) == b.cached + b.held
  {
    assert LookFreed(0);
  }

  lemma LiveIs(v: View, b: Book, key: Key)
    requires Matches(v, b)
    ensures IsLive(v, key) <==> key in b.table
    ensures key in b.table ==>
              b.table[key] == v.stored[key] && b.table[key] in b.cached && b.table[key].key == key
                && b.table[key] !in b.freed
  {
    assert LookTable(0) && LookFiled(0);
  }

  lemma CachedIs(v: View, b: Book, h: Handle)
    requires Matches(v, b)
    ensures h in b.cached <==> IsLive(v, h.key) && v.stored[h.key] == h
  {
    LiveIs(v, b, h.key);
    assert LookFiled(0);
  }

  lemma LookupMatches(v: View, b: Book, b': Book, key: Key, a: Answer)
    requires Matches(v, b) && Files(b') && b'.table == b.table && b'.cached + b'.held == b.cached + b.held
             && b'.freed == b.freed
    requires b'.list == if key in b.table then Minus(b.list, b.table[key]) else b.list
    requires a == Answer(if key in b.table then Some(b.table[key]) else None, None, 0, [], b'.list)
    ensures AnswersLookup(v, key, a) && Matches(Next(v, Lookup(key), a), b')
  {
    LiveIs(v, b, key);
    assert v.freed + a.freed == v.freed;
  }

  /** Entries leave the cache by being freed. */
  lemma TableShrinks(b: Book, b': Book, stored: map<Key, Handle>)
    requires Files(b) && Files(b') && TableIs(b.table, stored, b.freed)
    requires b'.cached <= b.cached && b.freed <= b'.freed
    requires forall h :: h in b.cached && h !in b'.cached ==> h in b'.freed
    ensures TableIs(b'.table, stored, b'.freed)
  {
    assert LookTable(0) && LookFiled(0) && LookFreed(0);
  }

  /** What a release does to the books, when it is of one of `count` references. */
  ghost predicate ReleasedFrom(b: Book, b': Book, h: Handle, last: bool, count: nat, priority: bool, low: nat) {
    if last then
      && b'.cached == b.cached - {h} && b'.cached + b'.held == b.cached + b.held - {h}
      && b'.freed == b.freed + [h] && b'.list == b.list
    else
      && b'.cached == b.cached && b'.cached + b'.held == b.cached + b.held && b'.freed == b.freed
      && if count > 1 then b'.list == b.list else IsPut(b.list, h, priority, b'.list, low)
  }

  lemma ReleaseMatches(v: View, b: Book, b': Book, i: nat, forceErase: bool, last: bool, low: nat, a: Answer)
    requires Matches(v, b) && Files(b') && i < |v.mine| && v.mine[i] in b.held
    requires var h := v.mine[i];
             && (last <==> multiset(v.mine)[h] == 1 && (h !in b.cached || Usage(v) > v.capacity || forceErase))
             && ReleasedFrom(b, b', h, last, multiset(v.mine)[h], v.ratio > 0.0 && (h.highPri || h in v.hit), low)
             && a == Answer(None, None, 0, if last then [h] else [], b'.list)
    ensures AnswersRelease(v, i, forceErase, a) && Matches(Next(v, Release(i, forceErase), a), b')
    ensures var v' := Next(v, Release(i, forceErase), a);
            && v'.mine == Released(v.mine, i) && v'.hit == v.hit
            && v'.capacity == v.capacity && v'.strict == v.strict && v'.ratio == v.ratio
  {
    var h := v.mine[i];
    CachedIs(v, b, h);
    TableShrinks(b, b', v.stored);
    if multiset(v.mine)[h] <= 1 && !last { JoinsAt(v, v.list, h, h in v.hit, a, low); }
  }

  /** An entry leaves the cache by being erased; it is freed or still held. */
  lemma TableErases(b: Book, stored: map<Key, Handle>, key: Key, freed': seq<Handle>)
    requires Files(b) && TableIs(b.table, stored, b.freed)
    requires freed' == b.freed || (key in b.table && freed' == b.freed + [b.table[key]])
    ensures TableIs(b.table - {key}, stored - {key}, freed')
  {
    assert LookTable(0) && LookFiled(0);
  }

  ghost predicate ErasedFrom(b: Book, b': Book, key: Key) {
    && b'.table == b.table - {key} && b'.held == b.held
    && if key in b.table then
         var e := b.table[key];
         b'.cached == b.cached - {e} && b'.freed == b.freed + (if e in b.held then [] else [e])
           && b'.list == Minus(b.list, e)
       else b'.cached == b.cached && b'.freed == b.freed && b'.list == b.list
  }

  lemma EraseMatches(v: View, b: Book, b': Book, key: Key, a: Answer)
    requires Matches(v, b) && Files(b') && Holds(v.mine, b.held) && ErasedFrom(b, b', key) && |b.freed| <= |b'.freed|
    requires a == Answer(None, None, 0, b'.freed[|b.freed|..], b'.list)
    ensures AnswersErase(v, key, a) && Matches(Next(v, Erase(key), a), b')
  {
    LiveIs(v, b, key);
    TableErases(b, v.stored, key, b'.freed);
    if key in b.table && b.table[key] !in b.held {
      assert b'.cached + b'.held == b.cached + b.held - {b.table[key]};
    } else {
      assert b'.cached + b'.held == b.cached + b.held;
      assert v.freed + a.freed == v.freed;
    }
  }

  /** The oldest n entries are evicted, and usage is then within the limit or nothing is left to evict. */
  ghost predicate EvictedFrom(b: Book, b': Book, usage: int, limit: int, n: nat) {
    && MustGo(b.list, usage, limit, n) && b'.held == b.held && b'.cached <= b.cached
    && b'.list == b.list[n..] && b'.freed == b.freed + b.list[..n]
    && forall h :: h in b.cached && h !in b'.cached ==> h in b.list[..n]
  }

  lemma EvictionIs(a: Snapshot, b: Snapshot, limit: int)
    requires Evicts(a, b, limit) && (b.usage <= limit || b.list == [])
    ensures |b.list| <= |a.list| && b.usage <= a.usage && b.cached <= a.cached
    ensures var n := |a.list| - |b.list|;
            && MustGo(a.list, a.usage, limit, n) && b.list == a.list[n..] && b.freed == a.freed + a.list[..n]
            && forall h :: h in a.cached && h !in b.cached ==> h in a.list[..n]
  {
    assert LookEvicts(0);
  }

  lemma EvictionMatches(v: View, b: Book, b': Book, limit: int, n: nat)
    requires Matches(v, b) && Files(b') && EvictedFrom(b, b', Usage(v), limit, n)
    ensures Matches(v.(list := b'.list, freed := v.freed + b.list[..n]), b')
    ensures EvictsTo(v, limit, Answer(None, None, n, b.list[..n], b'.list))
  {
    TableShrinks(b, b', v.stored);
    assert All(b.cached + b.held, b.freed) == All(b'.cached + b'.held, b'.freed) by {
      assert LookFiled(0);
      assert forall h :: h in b.list[..n] ==> h in b.list;
    }
  }

  lemma TalliesEvict(mine: seq<Handle>, hit: set<Handle>, b: Book, b': Book)
    requires Holds(mine, b.held) && b'.held == b.held && b'.cached <= b.cached
    requires Counted(mine, b.cached + b.held) && Hits(hit, b.cached + b.held)
    ensures Counted(mine, b'.cached + b'.held) && Hits(hit, b'.cached + b'.held)
  {
    assert LookCounted(0) && LookHits(0);
  }

  /** What an insertion does, when it finds the books as in b, evicts n entries, and makes the entry e. */
  ghost predicate InsertedInto(b: Book, b': Book, n: nat, key: Key, e: Handle, stored: bool, want: bool) {
    && n <= |b.list| && LeftOf(b.table - {key}, b'.table - {key}, b.list[..n])
    && b'.cached <= b.cached + {e} && e !in b.cached + b.held && e !in b.freed
    && b'.held == (if stored && want then b.held + {e} else b.held)
    && if stored then
         && key in b'.table && b'.table[key] == e
         && b'.freed == b.freed + b.list[..n] + Displaced(b, n, key)
       else
         && LeftOf(b.table, b'.table, b.list[..n])
         && b'.freed == b.freed + b.list[..n] + if want then [] else [e]
  }

  ghost predicate Replaces(b: Book, n: nat, key: Key)
    requires n <= |b.list|
  {
    key in b.table && b.table[key] !in b.list[..n]
  }

  /** What is freed of the entry that was there. */
  ghost function Displaced(b: Book, n: nat, key: Key): seq<Handle>
    requires n <= |b.list|
  {
    if Replaces(b, n, key) && b.table[key] !in b.held then [b.table[key]] else []
  }

  /** What an insertion evicts or replaces is freed or still held, and the new entry is in use exactly if it is
      stored. */
  lemma InsertionLosesNone(b: Book, b': Book, n: nat, key: Key, e: Handle, stored: bool, want: bool)
    requires Files(b) && Files(b') && InsertedInto(b, b', n, key, e, stored, want)
    ensures All(b'.cached + b'.held, b'.freed) == All(b.cached + b.held, b.freed) + if stored || !want then {e} else {}
    ensures e in b'.cached + b'.held <==> stored
  {
    assert LookFiled(0);
    var gone, accepted := b.list[..n], if stored || !want then {e} else {};
    forall h | h in b.cached
      ensures h in b'.cached + b'.held || h in b'.freed
    {
      if h !in gone && h.key != key {
        assert h.key in b.table - {key} && (b.table - {key})[h.key] == h;
        assert h.key in b'.table - {key} && (b'.table - {key})[h.key] == h;
      }
    }
    assert stored ==> e in b'.cached;
    if e in b'.cached {
      assert e.key in b'.table && b'.table[e.key] == e;
    }
    assert All(b'.cached + b'.held, b'.freed) <= All(b.cached + b.held, b.freed) + accepted;
  }

  /** The table after an insertion. */
  lemma TableInserts(b: Book, b': Book, n: nat, key: Key, e: Handle, stored: bool, want: bool, map_: map<Key, Handle>)
    requires Files(b) && Files(b') && InsertedInto(b, b', n, key, e, stored, want) && TableIs(b.table, map_, b.freed)
    ensures TableIs(b'.table, if stored then map_[key := e] else map_, b'.freed)
  {
    assert LookTable(0) && LookFiled(0) && LookFreed(0);
    var stored' := if stored then map_[key := e] else map_;
    forall k: Key
      ensures k in b'.table <==> k in stored' && stored'[k] !in b'.freed
      ensures k in b'.table ==> b'.table[k] == stored'[k]
    {
      if k != key {
        assert k in b.table <==> k in b.table - {key};
        assert k in b'.table <==> k in b'.table - {key};
      }
    }
  }

  ghost function LeftOn(b: Book, n: nat, key: Key): seq<Handle>
    requires n <= |b.list|
  {
    if Replaces(b, n, key) then Minus(b.list[n..], b.table[key]) else b.list[n..]
  }

  /** The list after an insertion. */
  ghost predicate ListInserts(b: Book, list': seq<Handle>, n: nat, e: Handle, stored: bool, want: bool, last: bool,
                              low: nat)
    requires n <= |b.list|
  {
    if !stored then list' == b.list[n..]
    else if want then list' == LeftOn(b, n, e.key)
    else IsPut(LeftOn(b, n, e.key), e, last, list', low)
  }

  ghost predicate LookInsertion(k: nat) { true }

  /** An insertion as a whole, from usage and limit before it and the place low after it. */
  ghost predicate Insertion(b: Book, b': Book, call: Call, stored: bool, n: nat, e: Handle, usage: int, limit: int,
                            priority: bool, low: nat)
    requires call.Insert?
  {
    forall k: nat {:trigger LookInsertion(k)} :: LookInsertion(k) ==>
      && IsEntryOf(e, call) && MustGo(b.list, usage, limit, n)
      && InsertedInto(b, b', n, call.key, e, stored, call.want)
      && ListInserts(b, b'.list, n, e, stored, call.want, priority, low)
  }

  ghost function AnswerOf(b: Book, b': Book, call: Call, stored: bool, n: nat, e: Handle): Answer
    requires call.Insert? && |b.freed| <= |b'.freed|
  {
    Answer(if stored && call.want then Some(e) else None, if stored || !call.want then Some(e) else None,
           n, b'.freed[|b.freed|..], b'.list)
  }

  lemma InsertAnswers(v: View, b: Book, b': Book, call: Call, n: nat, e: Handle, low: nat, a: Answer)
    requires Matches(v, b) && Holds(v.mine, b.held) && call.Insert? && |b.freed| <= |b'.freed|
    requires var stored := Stores(v, call.charge, call.want);
             && Insertion(b, b', call, stored, n, e, Usage(v), v.capacity - call.charge,
                          v.ratio > 0.0 && e.highPri, low)
             && a == AnswerOf(b, b', call, stored, n, e)
    ensures AnswersInsert(v, call, a)
  {
    assert LookInsertion(0);
    LiveIs(v, b, call.key);
    var stored := Stores(v, call.charge, call.want);
    if stored {
      assert a.freed == b.list[..n] + Displaced(b, n, call.key);
      if !call.want { JoinsAt(v, LeftOn(b, n, call.key), e, false, a, low); }
      assert AnswersReplace(v, call, a, b.list[..n], b.list[n..]);
    }
  }

  lemma InsertMatches(v: View, b: Book, b': Book, call: Call, n: nat, e: Handle, low: nat, a: Answer)
    requires Matches(v, b) && Files(b') && call.Insert? && |b.freed| <= |b'.freed|
    requires var stored := Stores(v, call.charge, call.want);
             && Insertion(b, b', call, stored, n, e, Usage(v), v.capacity - call.charge,
                          v.ratio > 0.0 && e.highPri, low)
             && a == AnswerOf(b, b', call, stored, n, e)
    ensures Matches(Next(v, call, a), b')
    ensures var v' := Next(v, call, a);
            && v'.mine == (if a.got.Some? then v.mine + [e] else v.mine) && v'.hit == v.hit
            && v'.capacity == v.capacity && v'.strict == v.strict && v'.ratio == v.ratio
  {
    assert LookInsertion(0);
    var stored := Stores(v, call.charge, call.want);
    InsertionLosesNone(b, b', n, call.key, e, stored, call.want);
    TableInserts(b, b', n, call.key, e, stored, call.want, v.stored);
    assert b.freed + b'.freed[|b.freed|..] == b'.freed;
  }

  lemma TalliesInsert(mine: seq<Handle>, hit: set<Handle>, b: Book, b': Book, n: nat, key: Key, e: Handle, stored: bool,
                      want: bool)
    requires Files(b) && Files(b') && InsertedInto(b, b', n, key, e, stored, want) && Holds(mine, b.held)
    requires Counted(mine, b.cached + b.held) && Hits(hit, b.cached + b.held) && e !in hit && !e.hasHit
    requires stored ==> e.refs == if want then 1 else 0
    ensures Counted(if stored && want then mine + [e] else mine, b'.cached + b'.held) && Hits(hit, b'.cached + b'.held)
    ensures b'.cached + b'.held <= b.cached + b.held + {e} && b.freed <= b'.freed
  {
    InsertionLosesNone(b, b', n, key, e, stored, want);
    assert LookCounted(0) && LookHits(0);
    if stored && want { CountedMore(mine, b'.cached + b'.held, e); }
  }

  // ----- the shard -----

  /** The clients see the shard as it is. */
  ghost predicate Represents(s: LruShard, v: View)
    reads s, s.lru, s.lru.ring, s.lru.list, s.cached, s.held
  {
    && s.Valid() && Tallies(s, v.mine, v.hit)
    && Matches(v, BookOf(s)) && v.capacity == s.capacity && v.strict == s.strict && v.ratio == s.lru.ratio
  }

  lemma ListIsCached(s: LruShard)
    requires s.Valid()
    ensures Files(BookOf(s)) && s.lru.head !in s.cached + s.held
    ensures forall k :: 0 <= k < |s.lru.list| ==> s.lru.list[k] in s.cached && s.lru.list[k] !in s.held
  {
    assert LookBooks(0) && LookFiled(0);
  }

  /** A handle is held exactly if one of the clients has it. */
  lemma HeldByMe(s: LruShard, mine: seq<Handle>, h: Handle)
    requires s.Valid() && Counted(mine, s.cached + s.held)
    ensures h in mine <==> h in s.held
    ensures h in mine ==> h !in s.freed && h.refs == multiset(mine)[h]
  {
    assert LookBooks(0) && LookMarked(0) && LookFreed(0) && LookCounted(0);
  }

  lemma MineIsHeld(s: LruShard, mine: seq<Handle>)
    requires s.Valid() && Counted(mine, s.cached + s.held)
    ensures Holds(mine, s.held)
  {
    forall h | h in mine || h in s.held ensures h in mine && h in s.held { HeldByMe(s, mine, h); }
  }

  lemma UsageIs(s: LruShard, v: View)
    requires Represents(s, v)
    ensures Usage(v) == s.usage
  {
    assert LookBooks(0);
    InUseIs(v, BookOf(s));
  }

  function Opt(h: Handle?): Option<Handle> {
    if h == null then None else Some(h)
  }

  /** The counters and marks of the handles, as the clients have them. */
  ghost predicate Tallies(s: LruShard, mine: seq<Handle>, hit: set<Handle>)
    reads s, s.cached, s.held
  {
    Counted(mine, s.cached + s.held) && Hits(hit, s.cached + s.held)
  }

  lemma TalliesMore(mine: seq<Handle>, hit: set<Handle>, inUse: set<Handle>, h: Handle)
    requires forall x :: x in mine + [h] ==> x in inUse
    requires forall x :: x in inUse ==> x.refs == multiset(mine)[x] + if x == h then 1 else 0
    requires forall x :: x in inUse ==> (x.hasHit <==> x in hit || x == h)
    ensures Counted(mine + [h], inUse) && Hits(hit + {h}, inUse)
  {
  }

  method LookupOne(s: LruShard, key: Key, ghost mine: seq<Handle>, ghost hit: set<Handle>) returns (h: Handle?)
    requires s.Valid() && Tallies(s, mine, hit)
    modifies s`held, s.lru`list, s.lru`ring, s.lru`low, s.lru`lowPri, s.lru`usage, s.lru`highUsage, s.lru.head, s.cached
    ensures s.Valid() && s.cached + s.held == old(s.cached + s.held)
    ensures h == if key in s.table then s.table[key] else null
    ensures s.lru.list == if h == null then old(s.lru.list) else Minus(old(s.lru.list), h)
    ensures if h == null then Tallies(s, mine, hit) else Tallies(s, mine + [h], hit + {h})
  {
    ghost var inUse := s.cached + s.held;
    ListIsCached(s);
    if key in s.table { FiledUnder(s.table, s.cached, s.held, s.lru.list, key); }
    assert LookCounted(0) && LookHits(0);
    h := s.Lookup(key);
    assert s.cached + s.held == inUse;
    if h != null { TalliesMore(mine, hit, inUse, h); }
  }

  method DoLookup(s: LruShard, ghost v: View, key: Key) returns (h: Handle?, ghost a: Answer)
    requires Represents(s, v)
    modifies s`held, s.lru`list, s.lru`ring, s.lru`low, s.lru`lowPri, s.lru`usage, s.lru`highUsage, s.lru.head, s.cached
    ensures a.got == Opt(h) && AnswersLookup(v, key, a) && Represents(s, Next(v, Lookup(key), a))
    ensures s.cached + s.held == old(s.cached + s.held)
  {
    ghost var before := BookOf(s);
    h := LookupOne(s, key, v.mine, v.hit);
    a := Answer(Opt(h), None, 0, [], s.lru.list);
    ListIsCached(s);
    LookupMatches(v, before, BookOf(s), key, a);
  }

  method DoRef(s: LruShard, ghost v: View, h: Handle, ghost i: nat) returns (ghost a: Answer)
    requires Represents(s, v) && i < |v.mine| && v.mine[i] == h
    modifies s.held`refs
    ensures Quiet(v, a) && Represents(s, Next(v, Ref(i), a))
  {
    HeldByMe(s, v.mine, h);
    assert LookCounted(0);
    s.Ref(h);
    CountedMore(v.mine, s.cached + s.held, h);
    a := Answer(None, None, 0, [], s.lru.list);
    assert v.freed + a.freed == v.freed;
  }

  method ReleaseOne(s: LruShard, h: Handle, forceErase: bool, ghost mine: seq<Handle>, ghost hit: set<Handle>,
                    ghost i: nat)
    returns (last: bool)
    requires s.Valid() && Tallies(s, mine, hit) && i < |mine| && mine[i] == h
    modifies s`table, s`usage, s`cached, s`held, s`freed
    modifies s.lru`list, s.lru`ring, s.lru`low, s.lru`lowPri, s.lru`usage, s.lru`highUsage, s.lru.head, s.cached, s.held
    ensures s.Valid() && Tallies(s, Released(mine, i), hit)
    ensures last <==> multiset(mine)[h] == 1 && (h !in old(s.cached) || old(s.usage) > s.capacity || forceErase)
    ensures ReleasedFrom(old(BookOf(s)), BookOf(s), h, last, multiset(mine)[h],
                         s.lru.ratio > 0.0 && (h.highPri || h in hit), s.lru.low)
    ensures s.usage <= old(s.usage) && s.cached + s.held <= old(s.cached + s.held)
  {
    ghost var inUse := s.cached + s.held;
    HeldByMe(s, mine, h);
    ListIsCached(s);
    assert LookCounted(0) && LookHits(0);
    last := s.Release(h, forceErase);
    assert s.cached + s.held == if last then inUse - {h} else inUse;
    CountedLess(mine, s.cached + s.held, i);
  }

  method DoRelease(s: LruShard, ghost v: View, h: Handle, ghost i: nat, forceErase: bool) returns (ghost a: Answer)
    requires Represents(s, v) && i < |v.mine| && v.mine[i] == h
    modifies s`table, s`usage, s`cached, s`held, s`freed
    modifies s.lru`list, s.lru`ring, s.lru`low, s.lru`lowPri, s.lru`usage, s.lru`highUsage, s.lru.head, s.cached, s.held
    ensures AnswersRelease(v, i, forceErase, a) && Represents(s, Next(v, Release(i, forceErase), a))
    ensures s.usage <= old(s.usage) && s.cached + s.held <= old(s.cached + s.held)
  {
    ghost var before := BookOf(s);
    UsageIs(s, v);
    HeldByMe(s, v.mine, h);
    var last := ReleaseOne(s, h, forceErase, v.mine, v.hit, i);
    a := Answer(None, None, 0, if last then [h] else [], s.lru.list);
    ListIsCached(s);
    ReleaseMatches(v, before, BookOf(s), i, forceErase, last, s.lru.low, a);
  }

  method EraseOne(s: LruShard, key: Key, ghost mine: seq<Handle>, ghost hit: set<Handle>)
    requires s.Valid() && Tallies(s, mine, hit)
    modifies s`table, s`usage, s`cached, s`freed
    modifies s.lru`list, s.lru`ring, s.lru`low, s.lru`lowPri, s.lru`usage, s.lru`highUsage, s.lru.head, s.cached
    ensures s.Valid() && Tallies(s, mine, hit) && ErasedFrom(old(BookOf(s)), BookOf(s), key)
    ensures s.usage <= old(s.usage) && s.cached + s.held <= old(s.cached + s.held)
  {
    ListIsCached(s);
    MineIsHeld(s, mine);
    assert LookCounted(0) && LookHits(0);
    s.Erase(key);
    assert forall h :: h in mine ==> h in s.cached + s.held;
  }

  method DoErase(s: LruShard, ghost v: View, key: Key) returns (ghost a: Answer)
    requires Represents(s, v)
    modifies s`table, s`usage, s`cached, s`freed
    modifies s.lru`list, s.lru`ring, s.lru`low, s.lru`lowPri, s.lru`usage, s.lru`highUsage, s.lru.head, s.cached
    ensures AnswersErase(v, key, a) && Represents(s, Next(v, Erase(key), a))
    ensures s.usage <= old(s.usage) && s.cached + s.held <= old(s.cached + s.held)
  {
    ghost var before := BookOf(s);
    MineIsHeld(s, v.mine);
    EraseOne(s, key, v.mine, v.hit);
    a := Answer(None, None, 0, s.freed[|before.freed|..], s.lru.list);
    ListIsCached(s);
    EraseMatches(v, before, BookOf(s), key, a);
  }

  method EvictBooks(s: LruShard, call: Call) returns (ghost n: nat)
    requires s.Valid() && (call.SetCapacity? || call.EraseUnRefEntries?)
    requires forall k :: 0 <= k < |s.lru.list| ==> s.lru.list[k] in s.cached
    modifies s`capacity, s`table, s`usage, s`cached, s`freed, s.lru, s.lru.head
    modifies s.cached`next, s.cached`prev, s.cached`inCache
    ensures s.Valid() && s.lru.ratio == old(s.lru.ratio) && s.usage <= old(s.usage)
    ensures call.EraseUnRefEntries? ==> s.lru.list == []
    ensures s.capacity == if call.SetCapacity? then call.capacity else old(s.capacity)
    ensures EvictedFrom(old(BookOf(s)), BookOf(s), old(s.usage), if call.SetCapacity? then call.capacity else -1, n)
  {
    ghost var before := s.Snap();
    if call.SetCapacity? {
      s.SetCapacity(call.capacity);
      EvictionIs(before, s.Snap(), call.capacity);
    } else {
      s.EraseUnRefEntries();
      EvictionIs(before, s.Snap(), -1);
    }
    n := |before.list| - |s.lru.list|;
  }

  method DoEvict(s: LruShard, ghost v: View, call: Call) returns (ghost a: Answer)
    requires Represents(s, v) && (call.SetCapacity? || call.EraseUnRefEntries?)
    modifies s`capacity, s`table, s`usage, s`cached, s`freed, s.lru, s.lru.head, s.cached
    ensures Answers(v, call, a) && Represents(s, Next(v, call, a))
    ensures s.usage <= old(s.usage) && s.cached + s.held <= old(s.cached + s.held)
  {
    ghost var before := BookOf(s);
    UsageIs(s, v);
    ListIsCached(s);
    MineIsHeld(s, v.mine);
    ghost var n := EvictBooks(s, call);
    a := Answer(None, None, n, before.list[..n], s.lru.list);
    ListIsCached(s);
    TalliesEvict(v.mine, v.hit, before, BookOf(s));
    EvictionMatches(v, before, BookOf(s), if call.SetCapacity? then call.capacity else -1, n);
    assert call.EraseUnRefEntries? ==> before.list[..n] == before.list;
  }

  method DoSetHighPriorityPoolRatio(s: LruShard, ghost v: View, ratio: real) returns (ghost a: Answer)
    requires Represents(s, v) && 0.0 <= ratio
    modifies s.lru, s.cached`inHighPool
    ensures Quiet(v, a) && Represents(s, Next(v, SetHighPriorityPoolRatio(ratio), a))
  {
    ListIsCached(s);
    s.SetHighPriorityPoolRatio(ratio);
    a := Answer(None, None, 0, [], s.lru.list);
    assert v.freed + a.freed == v.freed;
  }

  /** The insertion, and what it does to the books. */
  method InsertBooks(s: LruShard, call: Call) returns (h: Handle?, ghost stored: bool, ghost n: nat, ghost e: Handle)
    requires s.Valid() && call.Insert? && forall k :: 0 <= k < |s.lru.list| ==> s.lru.list[k] in s.cached
    modifies s`table, s`usage, s`cached, s`held, s`freed
    modifies s.lru`list, s.lru`ring, s.lru`low, s.lru`lowPri, s.lru`usage, s.lru`highUsage, s.lru.head
    modifies s.cached`next, s.cached`prev, s.cached`inHighPool, s.cached`inCache
    ensures s.Valid() && fresh(e) && IsEntryOf(e, call) && !e.hasHit
    ensures stored == (old(s.HasRoom(call.charge)) || (call.want && !s.strict))
    ensures h == if stored && call.want then e else null
    ensures MustGo(old(s.lru.list), old(s.usage), s.capacity - call.charge, n)
    ensures InsertedInto(old(BookOf(s)), BookOf(s), n, call.key, e, stored, call.want)
    ensures ListInserts(old(BookOf(s)), s.lru.list, n, e, stored, call.want, s.lru.ratio > 0.0 && e.highPri, s.lru.low)
    ensures stored ==> e.refs == if call.want then 1 else 0
    ensures s.strict && old(s.usage) <= s.capacity ==> s.usage <= s.capacity
  {
    ghost var before := BookOf(s);
    stored := s.HasRoom(call.charge) || (call.want && !s.strict);
    var status, handle, gone, entry := s.Insert(call.key, call.val, call.charge, call.highPri, call.want);
    h, n, e := handle, gone, entry;
    assert stored ==> Displaced(before, n, call.key) ==
                      if Replaces(before, n, call.key) && before.table[call.key] !in before.held
                      then [before.table[call.key]] else [];
  }

  method InsertOne(s: LruShard, call: Call, ghost mine: seq<Handle>, ghost hit: set<Handle>)
    returns (h: Handle?, ghost stored: bool, ghost n: nat, ghost e: Handle)
    requires s.Valid() && Tallies(s, mine, hit) && call.Insert?
    modifies s`table, s`usage, s`cached, s`held, s`freed
    modifies s.lru`list, s.lru`ring, s.lru`low, s.lru`lowPri, s.lru`usage, s.lru`highUsage, s.lru.head, s.cached
    ensures s.Valid() && old(s.freed) <= s.freed
    ensures stored == (old(s.HasRoom(call.charge)) || (call.want && !s.strict))
    ensures h == if stored && call.want then e else null
    ensures Insertion(old(BookOf(s)), BookOf(s), call, stored, n, e, old(s.usage), s.capacity - call.charge,
                      s.lru.ratio > 0.0 && e.highPri, s.lru.low)
    ensures Tallies(s, if h == null then mine else mine + [h], hit)
    ensures forall x :: x in s.cached + s.held ==> x in old(s.cached + s.held) || fresh(x)
    ensures s.strict && old(s.usage) <= s.capacity ==> s.usage <= s.capacity
  {
    ghost var before := BookOf(s);
    ListIsCached(s);
    MineIsHeld(s, mine);
    h, stored, n, e := InsertBooks(s, call);
    ListIsCached(s);
    TalliesInsert(mine, hit, before, BookOf(s), n, call.key, e, stored, call.want);
  }

  lemma RoomIs(s: LruShard, v: View, charge: nat)
    requires Represents(s, v)
    ensures Room(v, charge) <==> s.HasRoom(charge)
  {
    UsageIs(s, v);
  }

  method DoInsert(s: LruShard, ghost v: View, call: Call) returns (h: Handle?, ghost a: Answer)
    requires Represents(s, v) && call.Insert?
    modifies s`table, s`usage, s`cached, s`held, s`freed
    modifies s.lru`list, s.lru`ring, s.lru`low, s.lru`lowPri, s.lru`usage, s.lru`highUsage, s.lru.head, s.cached
    ensures a.got == Opt(h) && AnswersInsert(v, call, a) && Represents(s, Next(v, call, a))
    ensures forall x :: x in s.cached + s.held ==> x in old(s.cached + s.held) || fresh(x)
    ensures s.strict && old(s.usage) <= s.capacity ==> s.usage <= s.capacity
  {
    ghost var before := BookOf(s);
    RoomIs(s, v, call.charge);
    UsageIs(s, v);
    MineIsHeld(s, v.mine);
    ghost var stored, n, e;
    h, stored, n, e := InsertOne(s, call, v.mine, v.hit);
    ListIsCached(s);
    a := AnswerOf(before, BookOf(s), call, stored, n, e);
    InsertAnswers(v, before, BookOf(s), call, n, e, s.lru.low, a);
    InsertMatches(v, before, BookOf(s), call, n, e, s.lru.low, a);
  }

  // ----- runs -----

  method Perform(s: LruShard, mine: seq<Handle>, ghost v: View, call: Call)
    returns (got: Handle?, mine': seq<Handle>, ghost a: Answer)
    requires Represents(s, v) && v.mine == mine && CanCall(call, mine)
    modifies s, s.lru, s.lru.head, s.cached, s.held
    ensures a.got == Opt(got) && Answers(v, call, a) && Represents(s, Next(v, call, a))
            && mine' == Next(v, call, a).mine
    ensures old(s.strict) && old(s.usage) <= old(s.capacity) <= s.capacity ==> s.usage <= s.capacity
    ensures forall h :: h in s.cached + s.held ==> h in old(s.cached + s.held) || fresh(h)
  {
    got, mine' := null, mine;
    match call
    case Lookup(key) =>
      got, a := DoLookup(s, v, key);
      if got != null { mine' := mine + [got]; }
    case Insert(_, _, _, _, _) =>
      got, a := DoInsert(s, v, call);
      if got != null { mine' := mine + [got]; }
    case Ref(i) =>
      a := DoRef(s, v, mine[i], i);
      mine' := mine + [mine[i]];
    case Release(i, forceErase) =>
      a := DoRelease(s, v, mine[i], i, forceErase);
      mine' := Released(mine, i);
    case Erase(key) => a := DoErase(s, v, key);
    case EraseUnRefEntries => a := DoEvict(s, v, call);
    case SetCapacity(_) => a := DoEvict(s, v, call);
    case SetStrictCapacityLimit(strict) => a := DoSetStrictCapacityLimit(s, v, strict);
    case SetHighPriorityPoolRatio(ratio) => a := DoSetHighPriorityPoolRatio(s, v, ratio);
  }

  method DoSetStrictCapacityLimit(s: LruShard, ghost v: View, strict: bool) returns (ghost a: Answer)
    requires Represents(s, v)
    modifies s`strict
    ensures Quiet(v, a) && Represents(s, Next(v, SetStrictCapacityLimit(strict), a))
  {
    s.SetStrictCapacityLimit(strict);
    a := Answer(None, None, 0, [], s.lru.list);
    assert v.freed + a.freed == v.freed;
  }

  /** Once nobody holds a handle the shard is within its capacity, even if the limit is not strict. */
  lemma NothingHeldFits(s: LruShard)
    requires s.Valid() && s.held == {}
    ensures s.usage == s.lru.usage == Charge(s.lru.list) && s.usage <= s.capacity
  {
    ListIsCached(s);
    assert LookBooks(0) && LookFiled(0);
    s.lru.Apart();
    SumSplits(s.cached + s.held, s.lru.list);
    assert (set h | h in s.cached + s.held && h !in s.lru.list) == {};
  }

  /** There is room exactly if the entries whose handles the clients hold leave it. */
  lemma RoomIsPinned(s: LruShard, v: View, charge: nat)
    requires Represents(s, v)
    ensures Room(v, charge) <==> Sum(set h | h in v.mine) + charge <= v.capacity
  {
    UsageIs(s, v);
    MineIsHeld(s, v.mine);
    assert LookBooks(0);
    s.lru.Apart();
    assert forall h :: h in s.lru.list ==> h in s.cached + s.held && h !in s.held by { assert LookFiled(0); }
    assert (set h | h in s.cached + s.held && h !in s.lru.list) == (set h | h in v.mine) by { assert LookFiled(0); }
    SumSplits(s.cached + s.held, s.lru.list);
  }

  lemma NoRoomEvictsAll(list: seq<Handle>, usage: int, limit: int, n: nat)
    requires MustGo(list, usage, limit, n) && usage - Charge(list) > limit
    ensures n == |list|
  {
    assert list == list[..n] + list[n..];
    ChargeConcat(list[..n], list[n..]);
  }

  /** After an insertion that is answered OK, a lookup of its key finds the new entry or none, exactly unless the
      insertion, without a handle, found no room and the key had an entry that a client holds: that one stays. */
  lemma InsertionIsFoundExactly(s: LruShard, v: View, call: Call, a: Answer)
    requires Represents(s, v) && call.Insert? && AnswersInsert(v, call, a) && a.entry.Some?
    ensures var v', key := Next(v, call, a), call.key;
            (IsLive(v', key) ==> v'.stored[key] == a.entry.value) <==>
              !(!call.want && !Room(v, call.charge) && IsLive(v, key) && v.stored[key] in v.mine)
  {
    var b, key := BookOf(s), call.key;
    LiveIs(v, b, key);
    MineIsHeld(s, v.mine);
    if !Stores(v, call.charge, call.want) {
      NoRoomEvictsAll(v.list, Usage(v), v.capacity - call.charge, a.evicted);
      assert v.list[..a.evicted] == v.list;
      if IsLive(v, key) { FiledAt(b.table, b.cached, b.held, b.list, v.stored[key]); }
    }
  }

  method NewShard(capacity: nat, strict: bool, ratio: real) returns (s: LruShard)
    requires 0.0 <= ratio
    ensures fresh(s) && fresh(s.lru) && fresh(s.lru.head) && s.cached == s.held == {}
    ensures Represents(s, NewView(capacity, strict, ratio)) && s.usage == 0 && s.capacity == capacity
            && s.strict == strict
  {
    s := new LruShard(capacity, strict, ratio);
    ListIsCached(s);
    assert TableIs(map[], map[], []);
  }

  ghost predicate LookTrace(k: nat) { true }

  ghost predicate Traced(v0: View, calls: seq<Call>, answers: seq<Answer>, v: View) {
    forall k: nat {:trigger LookTrace(k)} :: LookTrace(k) ==>
      AreAnswers(v0, calls, answers) && v == After(v0, calls, answers)
  }

  /** a is an answer to the call, and leads to v'. */
  ghost predicate LeadsTo(v: View, call: Call, a: Answer, v': View) {
    forall k: nat {:trigger LookTrace(k)} :: LookTrace(k) ==> IsAnswer(v, call, a) && v' == Then(v, call, a)
  }

  lemma TracedMore(v0: View, calls: seq<Call>, answers: seq<Answer>, v: View, call: Call, a: Answer, v': View)
    requires Traced(v0, calls, answers, v) && LeadsTo(v, call, a, v')
    ensures Traced(v0, calls + [call], answers + [a], v')
  {
    assert LookTrace(0);
    OneMoreAnswer(v0, calls, answers, call, a);
  }

  /** One call, if the clients can make it. */
  method Step(s: LruShard, mine: seq<Handle>, ghost v: View, call: Call)
    returns (got: Handle?, mine': seq<Handle>, ghost a: Answer, ghost v': View)
    requires Represents(s, v) && v.mine == mine
    modifies s, s.lru, s.lru.head, s.cached, s.held
    ensures a.got == Opt(got) && LeadsTo(v, call, a, v') && Represents(s, v') && mine' == v'.mine
    ensures old(s.strict) && old(s.usage) <= old(s.capacity) && KeepsLimit([call], old(s.capacity)) ==>
              && s.strict && s.usage <= s.capacity
              && s.capacity == if call.SetCapacity? then call.capacity else old(s.capacity)
    ensures forall h :: h in s.cached + s.held ==> h in old(s.cached + s.held) || fresh(h)
  {
    if CanCall(call, mine) {
      got, mine', a := Perform(s, mine, v, call);
    } else {
      got, mine', a := null, mine, Answer(None, None, 0, [], v.list);
    }
    v' := Then(v, call, a);
  }

  lemma KeepsLimitStep(calls: seq<Call>, k: nat, capacity: nat)
    requires k < |calls| && KeepsLimit(calls[k..], capacity)
    ensures KeepsLimit([calls[k]], capacity)
    ensures KeepsLimit(calls[k + 1..], if calls[k].SetCapacity? then calls[k].capacity else capacity)
  {
    assert calls[k..][1..] == calls[k + 1..];
  }

  /** What the clients may rely on. */
  lemma ViewMeans(s: LruShard, v: View)
    requires Represents(s, v)
    ensures Distinct(s.freed) && Holds(v.mine, s.held)
    ensures forall h :: h in v.mine ==> h !in s.freed && h.refs == multiset(v.mine)[h]
    ensures v.mine == [] ==> s.usage <= s.capacity && s.usage == Charge(s.lru.list)
  {
    MineIsHeld(s, v.mine);
    forall h | h in v.mine ensures h !in s.freed && h.refs == multiset(v.mine)[h] { HeldByMe(s, v.mine, h); }
    assert Distinct(s.freed) by { assert LookBooks(0) && LookFreed(0); }
    if v.mine == [] { NothingHeldFits(s); }
  }

  /** Any calls on a new shard; what the clients cannot call is passed over. The answers are those of the view, and
      the shard is in the end as the clients see it from them. */
  method Run(capacity: nat, strict: bool, ratio: real, calls: seq<Call>)
    returns (s: LruShard, got: seq<Handle?>, mine: seq<Handle>, ghost answers: seq<Answer>)
    requires 0.0 <= ratio
    ensures |got| == |answers| == |calls| && forall k :: 0 <= k < |calls| ==> answers[k].got == Opt(got[k])
    ensures AreAnswers(NewView(capacity, strict, ratio), calls, answers)
    ensures var v := After(NewView(capacity, strict, ratio), calls, answers); Represents(s, v) && mine == v.mine
    ensures Distinct(s.freed) && Holds(mine, s.held)
    ensures forall h :: h in mine ==> h !in s.freed && h.refs == multiset(mine)[h]
    ensures strict && KeepsLimit(calls, capacity) ==> s.usage <= s.capacity
    ensures mine == [] ==> s.usage <= s.capacity && s.usage == Charge(s.lru.list)
  {
    s := NewShard(capacity, strict, ratio);
    got, mine, answers := [], [], [];
    ghost var v0, v := NewView(capacity, strict, ratio), NewView(capacity, strict, ratio);
    assert calls[0..] == calls;
    for k := 0 to |calls|
      invariant fresh(s) && fresh(s.lru) && fresh(s.lru.head) && (forall h :: h in s.cached + s.held ==> fresh(h))
      invariant |got| == |answers| == k && forall j :: 0 <= j < k ==> answers[j].got == Opt(got[j])
      invariant Traced(v0, calls[..k], answers, v) && Represents(s, v) && mine == v.mine
      invariant strict && KeepsLimit(calls, capacity) ==>
                  s.strict && s.usage <= s.capacity && KeepsLimit(calls[k..], s.capacity)
    {
      if strict && KeepsLimit(calls, capacity) { KeepsLimitStep(calls, k, s.capacity); }
      assert calls[..k + 1] == calls[..k] + [calls[k]];
      var h;
      ghost var a;
      ghost var v';
      h, mine, a, v' := Step(s, mine, v, calls[k]);
      TracedMore(v0, calls[..k], answers, v, calls[k], a, v');
      v := v';
      got, answers := got + [h], answers + [a];
    }
    assert calls[..|calls|] == calls && LookTrace(0);
    ViewMeans(s, v);
  }
}
