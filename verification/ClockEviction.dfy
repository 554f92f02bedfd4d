/**
 Eviction in the CLOCK cache, by one thread: a hand goes round the list of handles, spares each
 recently used entry once, and gives up after two rounds.
 */
module ClockEviction {

  datatype Slot = Slot(inCache: bool, used: bool, refs: nat, charge: nat)

  /** In the cache or referenced: what counts for the usage. */
  predicate Occupied(x: Slot) { x.inCache || x.refs > 0 }

  predicate Evictable(x: Slot) { x.inCache && !x.used && x.refs == 0 }

  /** TryEvict. */
  function Probe(x: Slot): Slot {
    if Evictable(x) then x.(inCache := false) else x.(used := false)
  }

  ghost function Usage(s: seq<Slot>): nat {
    if s == [] then 0 else Usage(s[..|s| - 1]) + if Occupied(s[|s| - 1]) then s[|s| - 1].charge else 0
  }

  /** The charge of the referenced entries, which no eviction can free. */
  ghost function Pinned(s: seq<Slot>): nat {
    if s == [] then 0 else Pinned(s[..|s| - 1]) + if s[|s| - 1].refs > 0 then s[|s| - 1].charge else 0
  }

  lemma {:induction false} UsageUpdate(s: seq<Slot>, i: nat, x: Slot)
    requires i < |s|
    ensures Usage(s[i := x])
            == Usage(s) - (if Occupied(s[i]) then s[i].charge else 0) + (if Occupied(x) then x.charge else 0)
  {
    var n := |s| - 1;
    if i == n {
      assert s[i := x][..n] == s[..n];
    } else {
      assert s[i := x][..n] == s[..n][i := x];
      UsageUpdate(s[..n], i, x);
    }
  }

  /** Where the hand is after k probes, of at most two rounds. */
  function Hand(head: nat, k: nat, n: nat): nat
    requires head < n && k <= 2 * n
  {
    if head + k < n then head + k else if head + k < 2 * n then head + k - n else head + k - 2 * n
  }

  /** The list after k probes. */
  ghost function After(s: seq<Slot>, head: nat, k: nat): (r: seq<Slot>)
    requires head < |s| && k <= 2 * |s|
    ensures |r| == |s|
  {
    if k == 0 then s
    else
      var r := After(s, head, k - 1);
      var i := Hand(head, k - 1, |s|);
      r[i := Probe(r[i])]
  }

  /** How many probes the hand makes before it comes to slot j first. */
  function Offset(head: nat, j: nat, n: nat): nat
    requires head < n && j < n
  {
    if head <= j then j - head else j + n - head
  }

  /** What a slot is after the k-th probe. */
  function SlotAfter(x: Slot, offset: nat, k: nat, n: nat): Slot {
    if k <= offset then x else if k <= n + offset then Probe(x) else Probe(Probe(x))
  }

  /** Each slot has been probed as often as the hand has passed it. */
  lemma {:induction false} AfterAt(s: seq<Slot>, head: nat, k: nat, j: nat)
    requires head < |s| && k <= 2 * |s| && j < |s|
    ensures After(s, head, k)[j] == SlotAfter(s[j], Offset(head, j, |s|), k, |s|)
  {
    if k > 0 { AfterAt(s, head, k - 1, j); }
  }

  /** What becomes of a slot: a referenced entry stays and is no longer marked as used once the hand has passed; an
      unreferenced one goes at the first pass, or at the second if it was marked. */
  lemma SlotFate(s: seq<Slot>, head: nat, k: nat, j: nat)
    requires head < |s| && k <= 2 * |s| && j < |s|
    ensures var x, y, passed, twice :=
              s[j], After(s, head, k)[j], Offset(head, j, |s|) < k, Offset(head, j, |s|) + |s| < k;
            && y.refs == x.refs && y.charge == x.charge
            && (y.inCache <==> x.inCache && !(x.refs == 0 && if x.used then twice else passed))
            && (x.inCache && (x.refs > 0 || x.used) ==> (y.used <==> x.used && !passed))
  {
    AfterAt(s, head, k, j);
  }

  lemma UsageFalls(s: seq<Slot>, head: nat, k: nat)
    requires head < |s| && k < 2 * |s|
    ensures Usage(After(s, head, k + 1)) <= Usage(After(s, head, k))
  {
    var r, i := After(s, head, k), Hand(head, k, |s|);
    UsageUpdate(r, i, Probe(r[i]));
  }

  lemma {:induction false} UsageFallsTo(s: seq<Slot>, head: nat, k: nat, m: nat)
    requires head < |s| && k <= m <= 2 * |s|
    ensures Usage(After(s, head, m)) <= Usage(After(s, head, k))
    decreases m - k
  {
    if k < m {
      UsageFalls(s, head, k);
      UsageFallsTo(s, head, k + 1, m);
    }
  }

  /** The slot that the hand comes to last. */
  function LastSlot(head: nat, n: nat): nat
    requires head < n
  {
    if head == 0 then n - 1 else head - 1
  }

  /** An entry that the first probe spares and the second evicts. */
  predicate Lingers(x: Slot) { x.inCache && x.used && x.refs == 0 }

  /** What two rounds less one probe leave: what is referenced, and the last slot if it was spared. */
  lemma {:induction false} UsageOfSettled(s: seq<Slot>, r: seq<Slot>, last: nat)
    requires |r| == |s|
    requires forall j :: 0 <= j < |s| ==> r[j] == if j == last then Probe(s[j]) else Probe(Probe(s[j]))
    ensures Usage(r) == Pinned(s) + if last < |s| && Lingers(s[last]) then s[last].charge else 0
  {
    if s != [] {
      UsageOfSettled(s[..|s| - 1], r[..|s| - 1], last);
    }
  }

  lemma LastIsFarthest(head: nat, j: nat, n: nat)
    requires head < n && j < n
    ensures Offset(head, j, n) < n && (Offset(head, j, n) == n - 1 <==> j == LastSlot(head, n))
  {
  }

  lemma SlotSettled(x: Slot, head: nat, j: nat, n: nat, k: nat)
    requires head < n && j < n && k == 2 * n - 1
    ensures SlotAfter(x, Offset(head, j, n), k, n) == if j == LastSlot(head, n) then Probe(x) else Probe(Probe(x))
  {
    LastIsFarthest(head, j, n);
  }

  lemma AlmostTwoRounds(s: seq<Slot>, head: nat, k: nat)
    requires head < |s| && k == 2 * |s| - 1
    ensures var last := s[LastSlot(head, |s|)];
            Usage(After(s, head, k)) == Pinned(s) + if Lingers(last) then last.charge else 0
  {
    var r := After(s, head, k);
    forall j: nat | j < |s| ensures r[j] == if j == LastSlot(head, |s|) then Probe(s[j]) else Probe(Probe(s[j])) {
      AfterAt(s, head, k, j);
      SlotSettled(s[j], head, j, |s|, k);
    }
    UsageOfSettled(s, r, LastSlot(head, |s|));
  }

  /** After two rounds nothing is left that could be evicted. */
  lemma TwoRounds(s: seq<Slot>, head: nat, j: nat)
    requires head < |s| && j < |s|
    ensures Occupied(After(s, head, 2 * |s|)[j]) <==> s[j].refs > 0
    ensures After(s, head, 2 * |s|)[j].inCache ==> After(s, head, 2 * |s|)[j].refs > 0
  {
    AfterAt(s, head, 2 * |s|, j);
    LastIsFarthest(head, j, |s|);
  }

  /** Eviction makes room for an entry of this charge: the exact condition on the list it starts from. */
  ghost predicate MakesRoom(s: seq<Slot>, head: nat, capacity: nat, charge: nat) {
    if head < |s| && Lingers(s[LastSlot(head, |s|)]) then
      Pinned(s) + s[LastSlot(head, |s|)].charge + charge <= capacity
    else
      Pinned(s) + charge <= capacity
  }

  lemma {:induction false} PinnedIsUsed(s: seq<Slot>, j: nat)
    ensures Pinned(s) <= Usage(s)
    ensures j < |s| && Lingers(s[j]) ==> s[j].charge <= Usage(s)
  {
    if s != [] { PinnedIsUsed(s[..|s| - 1], j); }
  }

  lemma NothingUsed(s: seq<Slot>, head: nat, capacity: nat, charge: nat)
    requires Usage(s) == 0
    ensures MakesRoom(s, head, capacity, charge) <==> charge <= capacity
  {
    PinnedIsUsed(s, if head < |s| then LastSlot(head, |s|) else 0);
  }

  /** Before none of the first k probes is there room. */
  ghost predicate NoRoom(s: seq<Slot>, head: nat, limit: int, k: nat)
    requires head < |s| && k <= 2 * |s|
  {
    k > 0 ==> NoRoom(s, head, limit, k - 1) && Usage(After(s, head, k - 1)) > limit
  }

  /** The hand stops at the k-th probe because there is room, or after two rounds in which there was none. */
  ghost predicate Stops(s: seq<Slot>, head: nat, limit: int, k: nat, fits: bool) {
    && head < |s|
    && if fits then k < 2 * |s| && Usage(After(s, head, k)) <= limit
       else k == 2 * |s| && NoRoom(s, head, limit, k)
  }

  lemma StopsRight(s: seq<Slot>, head: nat, capacity: nat, charge: nat, k: nat, fits: bool)
    requires Stops(s, head, capacity - charge, k, fits)
    ensures fits <==> MakesRoom(s, head, capacity, charge)
  {
    AlmostTwoRounds(s, head, 2 * |s| - 1);
    if fits { UsageFallsTo(s, head, k, 2 * |s| - 1); }
  }

  lemma RefsStay(s: seq<Slot>, head: nat, k: nat, j: nat)
    requires head < |s| && k <= 2 * |s| && j < |s| && s[j].refs > 0
    ensures var x := After(s, head, k)[j]; x == s[j].(used := x.used)
  {
    AfterAt(s, head, k, j);
  }

  class ClockList {
    var list: array<Slot>
    var head: nat
    var usage: nat
    var capacity: nat

    constructor (list: array<Slot>, head: nat, usage: nat, capacity: nat)
      requires usage == Usage(list[..]) && (head < list.Length || list.Length == head == 0)
      ensures this.list == list && this.head == head && this.usage == usage && this.capacity == capacity && Valid()
    {
      this.list, this.head, this.usage, this.capacity := list, head, usage, capacity;
    }

    ghost predicate Valid()
      reads this, list
    {
      usage == Usage(list[..]) && (head < list.Length || list.Length == head == 0)
    }

    method TryEvict(i: nat)
      requires Valid() && i < list.Length
      modifies this`usage, list
      ensures Valid() && list[..] == old(list[..])[i := Probe(old(list[i]))]
    {
      UsageUpdate(list[..], i, Probe(list[i]));
      if list[i].inCache && !list[i].used && list[i].refs == 0 {
        list[i] := list[i].(inCache := false);
        usage := usage - list[i].charge;
      } else {
        list[i] := list[i].(used := false);
      }
      assert list[..] == old(list[..])[i := Probe(old(list[i]))];
    }

    /** One turn of the loop of EvictFromCache. */
    method Turn(hand: nat, ghost s: seq<Slot>, ghost k: nat) returns (next: nat)
      requires Valid() && head < list.Length == |s| && k < 2 * |s|
      requires list[..] == After(s, head, k) && hand == Hand(head, k, |s|)
      modifies this`usage, list
      ensures Valid() && list[..] == After(s, head, k + 1) && next == Hand(head, k + 1, |s|)
      ensures next == head <==> k + 1 == |s| || k + 1 == 2 * |s|
    {
      TryEvict(hand);
      next := if hand + 1 >= list.Length then 0 else hand + 1;
    }

    /** The loop of EvictFromCache. */
    method Sweep(charge: nat) returns (fits: bool, newHead: nat, ghost k: nat)
      requires Valid() && head < list.Length
      modifies this`usage, list
      ensures Valid() && Stops(old(list[..]), head, capacity - charge, k, fits)
      ensures k <= 2 * list.Length && list[..] == After(old(list[..]), head, k) && newHead == Hand(head, k, list.Length)
      ensures NoRoom(old(list[..]), head, capacity - charge, k)
    {
      newHead, k := head, 0;
      var second := false;
      ghost var s := list[..];
      while usage + charge > capacity
        invariant Valid() && k < 2 * |s| && list[..] == After(s, head, k)
        invariant newHead == Hand(head, k, |s|) && (second <==> k >= |s|)
        invariant NoRoom(s, head, capacity - charge, k)
        decreases 2 * |s| - k
      {
        newHead := Turn(newHead, s, k);
        k := k + 1;
        if newHead == head {
          if second {
            return false, newHead, k;
          }
          second := true;
        }
      }
      fits := true;
    }

    /** Reports room exactly if the referenced entries leave room, counting the last slot that the hand
        comes to among them if it was recently used. The hand makes k probes, no more than it takes to make room, and
        stays where it then is if there is room. */
    method EvictFromCache(charge: nat) returns (ok: bool, ghost k: nat)
      requires Valid()
      modifies this`usage, this`head, list
      ensures Valid() && ok == MakesRoom(old(list[..]), old(head), capacity, charge)
      ensures ok ==> usage + charge <= capacity
      ensures if list.Length == 0 then head == old(head) && k == 0
              else
                && k <= 2 * list.Length && list[..] == After(old(list[..]), old(head), k)
                && NoRoom(old(list[..]), old(head), capacity - charge, k)
                && head == if ok then Hand(old(head), k, list.Length) else old(head)
      ensures !ok && old(usage) > 0 ==> forall j :: 0 <= j < list.Length && list[j].inCache ==> list[j].refs > 0
      ensures forall j :: 0 <= j < list.Length && old(list[j]).refs > 0 ==>
              list[j] == old(list[j]).(used := list[j].used)
    {
      ghost var s := list[..];
      if usage == 0 {
        NothingUsed(s, head, capacity, charge);
        return charge <= capacity, 0;
      }
      var newHead: nat;
      ok, newHead, k := Sweep(charge);
      StopsRight(s, head, capacity, charge, k, ok);
      forall j: nat | j < |s| && s[j].refs > 0 ensures list[j] == s[j].(used := list[j].used) {
        RefsStay(s, head, k, j);
        assert list[..][j] == list[j];
      }
      if ok {
        head := newHead;
      } else {
        forall j: nat | j < |s| && list[j].inCache ensures list[j].refs > 0 {
          TwoRounds(s, head, j);
          assert list[..][j] == list[j];
        }
      }
    }
  }

  /** The code says no although it has just made room: the entry in the only slot was recently used, so
      the second round evicts it, and the hand is home again before the loop looks at the usage. */
  lemma SaysNoWithRoom()
    ensures var s := [Slot(true, true, 0, 10)];
            !MakesRoom(s, 0, 10, 5) && Usage(After(s, 0, 2)) + 5 <= 10
  {
    var s := [Slot(true, true, 0, 10)];
    AfterAt(s, 0, 2, 0);
    var r := After(s, 0, 2);
    assert r == [r[0]] && [r[0]][..0] == [] && s[..0] == [];
  }

  /** It does so exactly if the last slot lingers and its charge is what is missing. */
  lemma SaysNoWithRoomExactly(s: seq<Slot>, head: nat, capacity: nat, charge: nat)
    requires head < |s|
    ensures !MakesRoom(s, head, capacity, charge) && Usage(After(s, head, 2 * |s|)) + charge <= capacity <==>
            && Lingers(s[LastSlot(head, |s|)])
            && Pinned(s) + charge <= capacity < Pinned(s) + s[LastSlot(head, |s|)].charge + charge
  {
    TwoRoundsUsage(s, head);
  }

  lemma TwoRoundsUsage(s: seq<Slot>, head: nat)
    requires head < |s|
    ensures Usage(After(s, head, 2 * |s|)) == Pinned(s)
  {
    var r := After(s, head, 2 * |s|);
    forall j: nat | j < |s| ensures r[j] == Probe(Probe(s[j])) {
      AfterAt(s, head, 2 * |s|, j);
      LastIsFarthest(head, j, |s|);
    }
    UsageOfSettled(s, r, |s|);
  }
}
