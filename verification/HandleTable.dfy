/**
 The hash table of the LRU cache: chains in an array indexed by the upper bits of the hash, which
 doubles as it fills, and a scan over it that can stop and go on later. Chains are sequences here.
 */
module HandleTables {
  import opened Options

  type Key = int
  type Id = (nat, Key)   // hash and key

  datatype Entry = Entry(hash: nat, key: Key, val: int)

  function IdOf(e: Entry): Id { (e.hash, e.key) }

  function Pow2(n: nat): (p: nat)
    ensures p > 0
  {
    if n == 0 then 1 else 2 * Pow2(n - 1)
  }

  const HASHES: nat := 0x1_0000_0000
  const SCAN_END: nat := 0xFFFF_FFFF

  lemma {:induction false} Pow2Sum(a: nat, b: nat)
    ensures Pow2(a) * Pow2(b) == Pow2(a + b)
  {
    if a > 0 {
      Pow2Sum(a - 1, b);
      MulAssoc(2, Pow2(a - 1), Pow2(b));
    }
  }

  lemma Pow2Of32()
    ensures Pow2(32) == HASHES
  {
    assert Pow2(8) == 256;
    Pow2Sum(8, 8);
    assert Pow2(16) == 65536;
    Pow2Sum(16, 16);
  }

  /** How many hashes share a slot. */
  function Width(bits: nat): (w: nat)
    requires bits <= 32
    ensures w > 0
  {
    Pow2(32 - bits)
  }

  /** Whole widths in x: the shift of a hash to the right. */
  function Whole(x: nat, w: nat): nat
    requires w > 0
  {
    if x < w then 0 else 1 + Whole(x - w, w)
  }

  lemma {:induction false} WholeBounds(x: nat, w: nat)
    requires w > 0
    ensures Whole(x, w) * w <= x < Whole(x, w) * w + w
  {
    if x >= w {
      WholeBounds(x - w, w);
      assert Whole(x, w) * w == Whole(x - w, w) * w + w;
    }
  }

  function Slot(hash: nat, bits: nat): nat
    requires bits <= 32
  {
    Whole(hash, Width(bits))
  }

  /** The first hash of a slot: the shift back to the left. */
  function SlotStart(i: nat, bits: nat): nat
    requires bits <= 32
  {
    i * Width(bits)
  }

  /** The slots cover the hashes. */
  lemma Covers(bits: nat)
    requires bits <= 32
    ensures Pow2(bits) * Width(bits) == HASHES
  {
    Pow2Sum(bits, 32 - bits);
    Pow2Of32();
  }

  lemma WholeAtLeast(x: nat, w: nat, b: nat)
    requires w > 0
    ensures b <= Whole(x, w) <==> b * w <= x
  {
    var q := Whole(x, w);
    WholeBounds(x, w);
    if b <= q {
      MulMono(b, q, w);
    } else {
      MulMono(q + 1, b, w);
      MulStep(q, w);
    }
  }

  lemma WholeBetween(x: nat, w: nat, b: nat, e: nat)
    requires w > 0
    ensures b <= Whole(x, w) < e <==> b * w <= x < e * w
  {
    WholeAtLeast(x, w, b);
    WholeAtLeast(x, w, e);
  }

  lemma MulMono(a: nat, b: nat, w: nat)
    requires a <= b
    ensures a * w <= b * w
  {
  }

  lemma MulStep(a: nat, w: nat)
    ensures (a + 1) * w == a * w + w
  {
  }

  lemma MulAssoc(a: nat, b: nat, c: nat)
    ensures a * (b * c) == a * b * c
  {
  }

  lemma SlotInRange(hash: nat, bits: nat)
    requires bits <= 32 && hash < HASHES
    ensures Slot(hash, bits) < Pow2(bits)
  {
    Covers(bits);
    WholeBetween(hash, Width(bits), 0, Pow2(bits));
  }

  /** The slots of a finer table subdivide those of a coarser one. */
  lemma Finer(bits: nat, bits': nat)
    requires bits <= bits' <= 32
    ensures Width(bits) == Pow2(bits' - bits) * Width(bits')
  {
    Pow2Sum(bits' - bits, 32 - bits');
  }

  // ----- the table, on values -----

  ghost predicate NoTwins(chain: seq<Entry>) {
    forall i, j :: 0 <= i < j < |chain| ==> IdOf(chain[i]) != IdOf(chain[j])
  }

  /** The buckets hold exactly the entries of m, each in its slot. */
  ghost predicate Holds(buckets: seq<seq<Entry>>, bits: nat, m: map<Id, Entry>) {
    && 0 < bits <= 31 && |buckets| == Pow2(bits)
    && (forall i :: 0 <= i < |buckets| ==> NoTwins(buckets[i]))
    && (forall i, e :: 0 <= i < |buckets| && e in buckets[i] ==> InSlot(e, i, bits) && IdOf(e) in m && m[IdOf(e)] == e)
    && (forall id :: id in m ==>
          && id.0 < HASHES && IdOf(m[id]) == id
          && Slot(id.0, bits) < |buckets| && m[id] in buckets[Slot(id.0, bits)])
  }

  predicate InSlot(e: Entry, i: nat, bits: nat)
    requires bits <= 32
  {
    Slot(e.hash, bits) == i
  }

  /** Where a chain has an entry with this hash and key: its position, or the end of the chain. */
  ghost predicate IsPosition(chain: seq<Entry>, id: Id, j: nat) {
    && j <= |chain|
    && (forall k :: 0 <= k < j ==> IdOf(chain[k]) != id)
    && (j < |chain| ==> IdOf(chain[j]) == id)
  }

  lemma PositionMeans(buckets: seq<seq<Entry>>, bits: nat, m: map<Id, Entry>, id: Id, j: nat)
    requires Holds(buckets, bits, m) && id.0 < HASHES && Slot(id.0, bits) < |buckets|
    requires IsPosition(buckets[Slot(id.0, bits)], id, j)
    ensures id in m <==> j < |buckets[Slot(id.0, bits)]|
    ensures id in m ==> m[id] == buckets[Slot(id.0, bits)][j]
  {
  }

  /** One entry more, anywhere in the chain of its slot. */
  lemma HoldsAdd(buckets: seq<seq<Entry>>, bits: nat, m: map<Id, Entry>, e: Entry, i: nat, chain: seq<Entry>)
    requires Holds(buckets, bits, m) && IdOf(e) !in m && e.hash < HASHES && i < |buckets| && InSlot(e, i, bits)
    requires NoTwins(chain) && forall x :: x in chain <==> x in buckets[i] || x == e
    ensures Holds(buckets[i := chain], bits, m[IdOf(e) := e])
  {
  }

  lemma HoldsPrepend(buckets: seq<seq<Entry>>, bits: nat, m: map<Id, Entry>, e: Entry, i: nat)
    requires Holds(buckets, bits, m) && IdOf(e) !in m && e.hash < HASHES && i < |buckets| && InSlot(e, i, bits)
    ensures Holds(buckets[i := [e] + buckets[i]], bits, m[IdOf(e) := e])
  {
    assert NoTwins([e] + buckets[i]);
    HoldsAdd(buckets, bits, m, e, i, [e] + buckets[i]);
  }

  lemma HoldsAppend(buckets: seq<seq<Entry>>, bits: nat, m: map<Id, Entry>, e: Entry, i: nat)
    requires Holds(buckets, bits, m) && IdOf(e) !in m && e.hash < HASHES && i < |buckets| && InSlot(e, i, bits)
    ensures Holds(buckets[i := buckets[i] + [e]], bits, m[IdOf(e) := e])
  {
    assert NoTwins(buckets[i] + [e]);
    HoldsAdd(buckets, bits, m, e, i, buckets[i] + [e]);
  }

  lemma ChainReplace(chain: seq<Entry>, j: nat, e: Entry)
    requires NoTwins(chain) && j < |chain| && IdOf(chain[j]) == IdOf(e)
    ensures NoTwins(chain[j := e])
    ensures forall x :: x in chain[j := e] <==> x == e || (x in chain && IdOf(x) != IdOf(e))
  {
    var chain' := chain[j := e];
    assert chain'[j] == e;
    forall x | x in chain' ensures x == e || (x in chain && IdOf(x) != IdOf(e)) {
      var k :| 0 <= k < |chain'| && chain'[k] == x;
    }
    forall x | x in chain && IdOf(x) != IdOf(e) ensures x in chain' {
      var k :| 0 <= k < |chain| && chain[k] == x;
      assert chain'[k] == x;
    }
  }

  lemma HoldsInstead(buckets: seq<seq<Entry>>, bits: nat, m: map<Id, Entry>, e: Entry, i: nat, chain: seq<Entry>)
    requires Holds(buckets, bits, m) && i < |buckets| && IdOf(e) in m && InSlot(e, i, bits)
    requires NoTwins(chain) && forall x :: x in chain <==> x == e || (x in buckets[i] && IdOf(x) != IdOf(e))
    ensures Holds(buckets[i := chain], bits, m[IdOf(e) := e])
  {
  }

  lemma HoldsReplace(buckets: seq<seq<Entry>>, bits: nat, m: map<Id, Entry>, e: Entry, i: nat, j: nat)
    requires Holds(buckets, bits, m) && i < |buckets| && j < |buckets[i]| && IdOf(buckets[i][j]) == IdOf(e)
    ensures Holds(buckets[i := buckets[i][j := e]], bits, m[IdOf(e) := e])
  {
    ChainReplace(buckets[i], j, e);
    assert buckets[i][j] in buckets[i] && InSlot(buckets[i][j], i, bits);
    HoldsInstead(buckets, bits, m, e, i, buckets[i][j := e]);
  }

  lemma ChainWithout(chain: seq<Entry>, j: nat)
    requires NoTwins(chain) && j < |chain|
    ensures NoTwins(chain[..j] + chain[j + 1..])
    ensures forall x :: x in chain[..j] + chain[j + 1..] <==> x in chain && IdOf(x) != IdOf(chain[j])
  {
    var chain' := chain[..j] + chain[j + 1..];
    assert forall k :: 0 <= k < |chain'| ==> chain'[k] == chain[if k < j then k else k + 1];
    forall x | x in chain && IdOf(x) != IdOf(chain[j]) ensures x in chain' {
      var k :| 0 <= k < |chain| && chain[k] == x;
      assert x == chain'[if k < j then k else k - 1];
    }
  }

  lemma HoldsLess(buckets: seq<seq<Entry>>, bits: nat, m: map<Id, Entry>, id: Id, i: nat, chain: seq<Entry>)
    requires Holds(buckets, bits, m) && id in m && i < |buckets| && Slot(id.0, bits) == i
    requires NoTwins(chain) && forall x :: x in chain <==> x in buckets[i] && IdOf(x) != id
    ensures Holds(buckets[i := chain], bits, m - {id})
  {
  }

  lemma HoldsRemove(buckets: seq<seq<Entry>>, bits: nat, m: map<Id, Entry>, i: nat, j: nat)
    requires Holds(buckets, bits, m) && i < |buckets| && j < |buckets[i]|
    ensures Holds(buckets[i := buckets[i][..j] + buckets[i][j + 1..]], bits, m - {IdOf(buckets[i][j])})
    ensures |m - {IdOf(buckets[i][j])}| == |m| - 1
  {
    ChainWithout(buckets[i], j);
    assert buckets[i][j] in buckets[i] && InSlot(buckets[i][j], i, bits);
    SizeMinus(m, IdOf(buckets[i][j]));
    HoldsLess(buckets, bits, m, IdOf(buckets[i][j]), i, buckets[i][..j] + buckets[i][j + 1..]);
  }

  // ----- moving to a larger array -----

  /** m has what stands before position j of chain i. */
  ghost predicate Moved(buckets: seq<seq<Entry>>, bits: nat, contents: map<Id, Entry>, i: nat, j: nat,
                        m: map<Id, Entry>) {
    && bits <= 32 && i <= |buckets| && (i < |buckets| ==> j <= |buckets[i]|)
    && (forall id :: id in m ==> id in contents && m[id] == contents[id])
    && (forall id :: id in m ==> Slot(id.0, bits) < i || (i < |buckets| && m[id] in buckets[i][..j]))
    && (forall k, e :: 0 <= k < i && e in buckets[k] ==> IdOf(e) in m)
    && (i < |buckets| ==> forall e :: e in buckets[i][..j] ==> IdOf(e) in m)
  }

  lemma NextIsNew(buckets: seq<seq<Entry>>, bits: nat, contents: map<Id, Entry>, i: nat, j: nat, m: map<Id, Entry>)
    requires Holds(buckets, bits, contents) && Moved(buckets, bits, contents, i, j, m) && i < |buckets|
             && j < |buckets[i]|
    ensures var e := buckets[i][j]; IdOf(e) !in m && e.hash < HASHES && InSlot(e, i, bits)
    ensures var e := buckets[i][j]; IdOf(e) in contents && contents[IdOf(e)] == e
  {
    var e := buckets[i][j];
    assert e in buckets[i] && InSlot(e, i, bits) && IdOf(e) in contents && contents[IdOf(e)] == e;
    assert e !in buckets[i][..j] by { assert NoTwins(buckets[i]); }
  }

  lemma MovedNext(buckets: seq<seq<Entry>>, bits: nat, contents: map<Id, Entry>, i: nat, j: nat, m: map<Id, Entry>)
    requires Holds(buckets, bits, contents) && Moved(buckets, bits, contents, i, j, m) && i < |buckets|
             && j < |buckets[i]|
    ensures var e := buckets[i][j];
            IdOf(e) !in m && e.hash < HASHES && Moved(buckets, bits, contents, i, j + 1, m[IdOf(e) := e])
  {
    var e := buckets[i][j];
    NextIsNew(buckets, bits, contents, i, j, m);
    assert buckets[i][..j + 1] == buckets[i][..j] + [e];
  }

  lemma MovedRow(buckets: seq<seq<Entry>>, bits: nat, contents: map<Id, Entry>, i: nat, m: map<Id, Entry>)
    requires Holds(buckets, bits, contents) && i < |buckets| && Moved(buckets, bits, contents, i, |buckets[i]|, m)
    ensures Moved(buckets, bits, contents, i + 1, 0, m)
  {
    assert buckets[i][..|buckets[i]|] == buckets[i];
    forall id | id in m ensures Slot(id.0, bits) < i + 1 {
      assert m[id] in buckets[i] ==> InSlot(m[id], i, bits) && IdOf(m[id]) == id;
    }
    forall k, e | 0 <= k < i + 1 && e in buckets[k] ensures IdOf(e) in m {
      assert k == i ==> e in buckets[i][..|buckets[i]|];
    }
    if i + 1 < |buckets| { assert buckets[i + 1][..0] == []; }
  }

  lemma MovedAll(buckets: seq<seq<Entry>>, bits: nat, contents: map<Id, Entry>, j: nat, m: map<Id, Entry>)
    requires Holds(buckets, bits, contents) && Moved(buckets, bits, contents, |buckets|, j, m)
    ensures m == contents
  {
    forall id | id in contents ensures id in m {
      assert contents[id] in buckets[Slot(id.0, bits)];
    }
  }

  lemma HoldsNothing(buckets: seq<seq<Entry>>, bits: nat)
    requires 0 < bits <= 31 && |buckets| == Pow2(bits) && forall i :: 0 <= i < |buckets| ==> buckets[i] == []
    ensures Holds(buckets, bits, map[])
  {
  }

  // ----- the scan -----

  /** A scan goes on at a hash where a slot begins. */
  ghost predicate Aligned(state: nat, bits: nat)
    requires bits <= 32
  {
    Slot(state, bits) * Width(bits) == state
  }

  /** Where the next call goes on. */
  function NextState(state: nat, bits: nat, perLock: nat): nat
    requires bits <= 32
  {
    var end := Slot(state, bits) + perLock;
    if end >= Pow2(bits) then SCAN_END else SlotStart(end, bits)
  }

  /** The end of the hashes that a scan in this state has been through. */
  function Bound(state: nat): nat {
    if state == SCAN_END then HASHES else state
  }

  lemma SlotOfSlotStart(i: nat, bits: nat)
    requires bits <= 32
    ensures Slot(i * Width(bits), bits) == i
  {
    WholeBetween(i * Width(bits), Width(bits), i, i + 1);
    MulStep(i, Width(bits));
  }

  /** The state stays good as the table grows. */
  lemma AlignedInFiner(state: nat, bits: nat, bits': nat)
    requires bits <= bits' <= 32 && Aligned(state, bits)
    ensures Aligned(state, bits')
  {
    Finer(bits, bits');
    var i, f := Slot(state, bits), Pow2(bits' - bits);
    MulAssoc(i, f, Width(bits'));
    SlotOfSlotStart(i * f, bits');
  }

  /** The mark for the end is no place to go on at. */
  lemma EndIsNotAligned(bits: nat)
    requires bits <= 31
    ensures !Aligned(SCAN_END, bits)
  {
    var i, half := Slot(SCAN_END, bits), Pow2(31 - bits);
    MulAssoc(i, half, 2);
    assert i * Width(bits) == i * half * 2;
  }

  /** Where the slots of a call end. */
  function EndSlot(state: nat, bits: nat, perLock: nat): nat
    requires bits <= 32
  {
    if Slot(state, bits) + perLock >= Pow2(bits) then Pow2(bits) else Slot(state, bits) + perLock
  }

  lemma EndOfCall(state: nat, bits: nat, perLock: nat)
    requires 0 < bits <= 31 && state < HASHES && Aligned(state, bits)
    ensures EndSlot(state, bits, perLock) * Width(bits) == Bound(NextState(state, bits, perLock))
  {
    Covers(bits);
    SlotOfSlotStart(Slot(state, bits) + perLock, bits);
    EndIsNotAligned(bits);
  }

  /** The state that a call leaves is the end, or good to go on from. */
  lemma NextIsAligned(state: nat, bits: nat, perLock: nat)
    requires 0 < bits <= 31
    ensures var s' := NextState(state, bits, perLock); s' == SCAN_END || (s' < HASHES && Aligned(s', bits))
  {
    var end, w := Slot(state, bits) + perLock, Width(bits);
    SlotOfSlotStart(end, bits);
    if end < Pow2(bits) {
      Covers(bits);
      MulMono(end + 1, Pow2(bits), w);
      MulStep(end, w);
    }
  }

  /** One call goes through a non-empty range of hashes, if it is to go through any slot at all. */
  lemma ScanAdvances(state: nat, bits: nat, perLock: nat)
    requires 0 < bits <= 31 && state < HASHES && Aligned(state, bits)
    ensures perLock > 0 ==> Bound(NextState(state, bits, perLock)) >= state + Width(bits)
    ensures perLock == 0 ==> NextState(state, bits, perLock) == state
  {
    var i := Slot(state, bits);
    SlotInRange(state, bits);
    EndOfCall(state, bits, perLock);
    if perLock > 0 {
      MulMono(i + 1, EndSlot(state, bits, perLock), Width(bits));
      MulStep(i, Width(bits));
    }
  }

  /** A call's slots are the hashes from its state to the next. */
  lemma RangeOfCall(state: nat, bits: nat, perLock: nat, hash: nat)
    requires 0 < bits <= 31 && state < HASHES && Aligned(state, bits)
    ensures Slot(state, bits) <= Slot(hash, bits) < EndSlot(state, bits, perLock) <==>
            state <= hash < Bound(NextState(state, bits, perLock))
  {
    EndOfCall(state, bits, perLock);
    WholeBetween(hash, Width(bits), Slot(state, bits), EndSlot(state, bits, perLock));
  }

  /** The table as a call finds it. */
  datatype Table = Table(bits: nat, contents: map<Id, Entry>)

  ghost predicate Has(t: Table, e: Entry) {
    IdOf(e) in t.contents && t.contents[IdOf(e)] == e
  }

  /** Tables at successive calls: they may change in any way between the calls, but never shrink. */
  ghost predicate Grows(tables: seq<Table>) {
    && (forall k :: 0 <= k < |tables| ==> 0 < tables[k].bits <= 31)
    && (forall i, j :: 0 <= i < j < |tables| ==> tables[i].bits <= tables[j].bits)
  }

  /** Where a scan stands after these calls. A call at the end would not be made, and changes nothing. */
  ghost function StateAfter(state: nat, perLock: nat, tables: seq<Table>): nat
    requires Grows(tables)
    decreases |tables|
  {
    if tables == [] || state == SCAN_END then state
    else StateAfter(NextState(state, tables[0].bits, perLock), perLock, tables[1..])
  }

  /** A state from which a scan can go on. */
  ghost predicate CanGoOn(state: nat, tables: seq<Table>)
    requires Grows(tables)
  {
    state == SCAN_END || (state < HASHES && (tables != [] ==> Aligned(state, tables[0].bits)))
  }

  lemma GoesOn(state: nat, perLock: nat, tables: seq<Table>)
    requires Grows(tables) && tables != [] && state != SCAN_END && CanGoOn(state, tables)
    ensures Grows(tables[1..]) && CanGoOn(NextState(state, tables[0].bits, perLock), tables[1..])
  {
    var bits := tables[0].bits;
    NextIsAligned(state, bits, perLock);
    if |tables| > 1 && NextState(state, bits, perLock) != SCAN_END {
      AlignedInFiner(NextState(state, bits, perLock), bits, tables[1].bits);
    }
  }

  lemma StartIsAligned(tables: seq<Table>)
    requires Grows(tables)
    ensures CanGoOn(0, tables)
  {
    if tables != [] { SlotOfSlotStart(0, tables[0].bits); }
  }

  /** However the table grows, a scan that goes through any slot at all has come to its end after as many
      calls as half the hashes it had before it. */
  lemma {:induction false} ScanEnds(state: nat, perLock: nat, tables: seq<Table>)
    requires perLock > 0 && Grows(tables) && CanGoOn(state, tables)
    requires 2 * |tables| >= HASHES - Bound(state)
    ensures StateAfter(state, perLock, tables) == SCAN_END
    decreases |tables|
  {
    if tables != [] && state != SCAN_END {
      var bits := tables[0].bits;
      ScanAdvances(state, bits, perLock);
      assert Width(bits) == 2 * Pow2(31 - bits);
      GoesOn(state, perLock, tables);
      ScanEnds(NextState(state, bits, perLock), perLock, tables[1..]);
    }
  }

  lemma {:induction false} ScanOfNothingStalls(tables: seq<Table>)
    requires Grows(tables)
    ensures StateAfter(0, 0, tables) == 0
    decreases |tables|
  {
    if tables != [] {
      SlotOfSlotStart(0, tables[0].bits);
      ScanAdvances(0, tables[0].bits, 0);
      ScanOfNothingStalls(tables[1..]);
    }
  }

  /** How many slots a call goes through, of the number of entries that the user asks for. The code
      takes the smaller of that and one, where its comment and name suggest the larger. */
  function PerLock(requested: nat): nat {
    var in32 := if requested < SCAN_END then requested else SCAN_END;
    if in32 < 1 then in32 else 1
  }

  lemma PerLockIsOneOrNone(requested: nat)
    ensures PerLock(requested) == if requested > 0 then 1 else 0
  {
  }

  /** So a scan comes to its end exactly if the user asks for at least one entry. */
  lemma ScanEndsExactly(requested: nat, tables: seq<Table>, perLock: nat)
    requires Grows(tables) && 2 * |tables| >= HASHES && perLock == PerLock(requested)
    ensures StateAfter(0, perLock, tables) == SCAN_END <==> requested > 0
  {
    PerLockIsOneOrNone(requested);
    StartIsAligned(tables);
    if requested > 0 { ScanEnds(0, perLock, tables); } else { ScanOfNothingStalls(tables); }
  }

  // ----- what a scan visits -----

  /** What a call may hand to the callback: the entries of its slots, each once, in some order. */
  ghost predicate IsResult(t: Table, state: nat, perLock: nat, visited: seq<Entry>)
    requires t.bits <= 32
  {
    && NoTwins(visited)
    && forall e :: e in visited <==>
                   Has(t, e) && state <= e.hash < Bound(NextState(state, t.bits, perLock))
  }

  /** Results of the calls of a scan that starts in this state; once at the end, nothing is visited. */
  ghost predicate AreResults(state: nat, perLock: nat, tables: seq<Table>, results: seq<seq<Entry>>)
    requires Grows(tables)
    decreases |tables|
  {
    && |results| == |tables|
    && (tables != [] ==>
          && (if state == SCAN_END then results[0] == [] else IsResult(tables[0], state, perLock, results[0]))
          && AreResults(if state == SCAN_END then state else NextState(state, tables[0].bits, perLock), perLock,
                        tables[1..], results[1..]))
  }

  ghost function Occurs(visited: seq<Entry>, e: Entry): nat {
    multiset(visited)[e]
  }

  lemma OccursOnce(visited: seq<Entry>, e: Entry)
    requires NoTwins(visited)
    ensures Occurs(visited, e) == if e in visited then 1 else 0
  {
    if e in visited {
      var i :| 0 <= i < |visited| && visited[i] == e;
      assert visited == visited[..i] + [e] + visited[i + 1..];
      assert e !in visited[..i] && e !in visited[i + 1..];
    }
  }

  /** How often a whole scan has visited an entry. */
  ghost function Visits(results: seq<seq<Entry>>, e: Entry): nat {
    if results == [] then 0 else Occurs(results[0], e) + Visits(results[1..], e)
  }

  lemma {:induction false} NoMoreVisits(perLock: nat, tables: seq<Table>, results: seq<seq<Entry>>, e: Entry)
    requires Grows(tables) && AreResults(SCAN_END, perLock, tables, results)
    ensures Visits(results, e) == 0
    decreases |tables|
  {
    if tables != [] { NoMoreVisits(perLock, tables[1..], results[1..], e); }
  }

  /** Over the calls of a scan from this state on, whatever happens to the table between them: no entry is
      visited twice, nor if its hash is not among those gone through; one that is in the table at all the
      calls is visited if its hash is, and one that is in the table at none of them is not. */
  lemma {:induction false} ScanVisitsOnce(state: nat, perLock: nat, tables: seq<Table>, results: seq<seq<Entry>>,
                                          e: Entry)
    requires Grows(tables) && CanGoOn(state, tables) && AreResults(state, perLock, tables, results)
    ensures Bound(state) <= Bound(StateAfter(state, perLock, tables))
    ensures var gone := Bound(state) <= e.hash < Bound(StateAfter(state, perLock, tables));
            && Visits(results, e) <= (if gone then 1 else 0)
            && ((forall k :: 0 <= k < |tables| ==> Has(tables[k], e)) ==> Visits(results, e) == if gone then 1 else 0)
            && ((forall k :: 0 <= k < |tables| ==> !Has(tables[k], e)) ==> Visits(results, e) == 0)
    decreases |tables|
  {
    if tables != [] {
      if state == SCAN_END {
        NoMoreVisits(perLock, tables, results, e);
      } else {
        var bits, rest := tables[0].bits, tables[1..];
        OccursOnce(results[0], e);
        ScanAdvances(state, bits, perLock);
        GoesOn(state, perLock, tables);
        ScanVisitsOnce(NextState(state, bits, perLock), perLock, rest, results[1..], e);
        assert forall k :: 0 <= k < |rest| ==> rest[k] == tables[k + 1];
      }
    }
  }

  /** A scan from the beginning to the end visits an entry that is there all the time exactly once, however
      the table grows and changes between the calls; no entry twice; and none that is never there. */
  lemma WholeScanVisitsOnce(perLock: nat, tables: seq<Table>, results: seq<seq<Entry>>, e: Entry)
    requires Grows(tables) && e.hash < HASHES && AreResults(0, perLock, tables, results)
    requires StateAfter(0, perLock, tables) == SCAN_END
    ensures Visits(results, e) <= 1
    ensures (forall k :: 0 <= k < |tables| ==> Has(tables[k], e)) ==> Visits(results, e) == 1
    ensures (forall k :: 0 <= k < |tables| ==> !Has(tables[k], e)) ==> Visits(results, e) == 0
  {
    StartIsAligned(tables);
    ScanVisitsOnce(0, perLock, tables, results, e);
  }

  lemma SizeAdd(m: map<Id, Entry>, id: Id, e: Entry)
    ensures |m[id := e]| == if id in m then |m| else |m| + 1
  {
    if id in m {
      assert m[id := e].Keys == m.Keys;
    } else {
      assert m[id := e].Keys == m.Keys + {id};
    }
    assert |m.Keys| == |m| && |m[id := e].Keys| == |m[id := e]|;
  }

  lemma SizeMinus(m: map<Id, Entry>, id: Id)
    requires id in m
    ensures |m - {id}| == |m| - 1
  {
    assert (m - {id}).Keys == m.Keys - {id};
    assert |m.Keys| == |m| && |(m - {id}).Keys| == |m - {id}|;
  }

  lemma NoTwinsConcat(a: seq<Entry>, b: seq<Entry>)
    requires NoTwins(a) && NoTwins(b) && forall x, y :: x in a && y in b ==> IdOf(x) != IdOf(y)
    ensures NoTwins(a + b)
  {
  }

  class HandleTable {
    const maxBits: nat
    var bits: nat
    var buckets: array<seq<Entry>>
    var elems: nat
    ghost var contents: map<Id, Entry>

    constructor (maxBits: nat)
      ensures Valid() && contents == map[] && fresh(buckets) && bits == 4 && this.maxBits == maxBits
    {
      this.maxBits := maxBits;
      bits := 4;
      assert Pow2(4) == 16;
      buckets := new seq<Entry>[16](_ => []);
      elems, contents := 0, map[];
    }

    ghost predicate Valid()
      reads this, buckets
    {
      Holds(buckets[..], bits, contents) && elems == |contents|
    }

    method FindPointer(hash: nat, key: Key) returns (i: nat, j: nat)
      requires Valid() && hash < HASHES
      ensures i == Slot(hash, bits) < buckets.Length && IsPosition(buckets[i], (hash, key), j)
    {
      SlotInRange(hash, bits);
      i, j := Slot(hash, bits), 0;
      while j < |buckets[i]| && !(buckets[i][j].hash == hash && buckets[i][j].key == key)
        invariant j <= |buckets[i]| && forall k :: 0 <= k < j ==> IdOf(buckets[i][k]) != (hash, key)
      {
        j := j + 1;
      }
    }

    method Lookup(hash: nat, key: Key) returns (r: Option<Entry>)
      requires Valid() && hash < HASHES
      ensures r == if (hash, key) in contents then Some(contents[(hash, key)]) else None
    {
      var i, j := FindPointer(hash, key);
      PositionMeans(buckets[..], bits, contents, (hash, key), j);
      r := if j < |buckets[i]| then Some(buckets[i][j]) else None;
    }

    method Insert(e: Entry) returns (old_: Option<Entry>)
      requires Valid() && e.hash < HASHES
      modifies this`bits, this`buckets, this`elems, this`contents, buckets
      ensures Valid() && contents == old(contents)[IdOf(e) := e]
      ensures bits ==
              if IdOf(e) !in old(contents) && |contents| >= Pow2(old(bits)) && old(bits) < maxBits && old(bits) < 31
                      then old(bits) + 1 else old(bits)
      ensures old_ == if IdOf(e) in old(contents) then Some(old(contents)[IdOf(e)]) else None
      ensures buckets == old(buckets) || fresh(buckets)
    {
      var i, j := FindPointer(e.hash, e.key);
      PositionMeans(buckets[..], bits, contents, IdOf(e), j);
      SizeAdd(contents, IdOf(e), e);
      if j < |buckets[i]| {
        old_ := Some(buckets[i][j]);
        HoldsReplace(buckets[..], bits, contents, e, i, j);
        buckets[i] := buckets[i][j := e];
        contents := contents[IdOf(e) := e];
        assert buckets[..] == old(buckets[..])[i := old(buckets[..])[i][j := e]];
      } else {
        old_ := None;
        HoldsAppend(buckets[..], bits, contents, e, i);
        buckets[i] := buckets[i] + [e];
        contents := contents[IdOf(e) := e];
        assert buckets[..] == old(buckets[..])[i := old(buckets[..])[i] + [e]];
        elems := elems + 1;
        if Whole(elems, Pow2(bits)) > 0 {
          Resize();
        }
      }
    }

    /** Takes the j-th entry out of chain i. */
    method Cut(i: nat, j: nat)
      requires Valid() && i < buckets.Length && j < |buckets[i]|
      modifies this`elems, this`contents, buckets
      ensures Valid() && contents == old(contents) - {IdOf(old(buckets[i][j]))}
    {
      ghost var before := buckets[..];
      assert before[i] == buckets[i];
      HoldsRemove(before, bits, contents, i, j);
      contents := contents - {IdOf(buckets[i][j])};
      buckets[i] := buckets[i][..j] + buckets[i][j + 1..];
      elems := elems - 1;
      assert buckets[..] == before[i := before[i][..j] + before[i][j + 1..]];
    }

    method Remove(hash: nat, key: Key) returns (r: Option<Entry>)
      requires Valid() && hash < HASHES
      modifies this`elems, this`contents, buckets
      ensures Valid() && contents == old(contents) - {(hash, key)}
      ensures r == if (hash, key) in old(contents) then Some(old(contents)[(hash, key)]) else None
    {
      var i, j := FindPointer(hash, key);
      PositionMeans(buckets[..], bits, contents, (hash, key), j);
      r := None;
      if j < |buckets[i]| {
        r := Some(buckets[i][j]);
        Cut(i, j);
      }
    }

    /** Pushes e onto the chain of its slot in the new array. */
    method Push(fresh_: array<seq<Entry>>, newBits: nat, e: Entry, ghost m: map<Id, Entry>)
      requires Holds(fresh_[..], newBits, m) && IdOf(e) !in m && e.hash < HASHES
      modifies fresh_
      ensures Holds(fresh_[..], newBits, m[IdOf(e) := e])
    {
      SlotInRange(e.hash, newBits);
      var k := Slot(e.hash, newBits);
      HoldsPrepend(fresh_[..], newBits, m, e, k);
      fresh_[k] := [e] + fresh_[k];
      assert fresh_[..] == old(fresh_[..])[k := [e] + old(fresh_[..])[k]];
    }

    /** Moves one chain. */
    method MoveChain(fresh_: array<seq<Entry>>, newBits: nat, i: nat, ghost m: map<Id, Entry>, count: nat)
      returns (ghost m': map<Id, Entry>, count': nat)
      requires Valid() && fresh_ != buckets && i < buckets.Length && count == |m|
      requires Holds(fresh_[..], newBits, m) && Moved(buckets[..], bits, contents, i, 0, m)
      modifies fresh_
      ensures Holds(fresh_[..], newBits, m') && Moved(buckets[..], bits, contents, i + 1, 0, m') && count' == |m'|
    {
      m', count' := m, count;
      var j := 0;
      while j < |buckets[i]|
        invariant j <= |buckets[i]| && Valid()
        invariant Holds(fresh_[..], newBits, m') && Moved(buckets[..], bits, contents, i, j, m') && count' == |m'|
      {
        var e := buckets[i][j];
        MovedNext(buckets[..], bits, contents, i, j, m');
        SizeAdd(m', IdOf(e), e);
        Push(fresh_, newBits, e, m');
        m', count', j := m'[IdOf(e) := e], count' + 1, j + 1;
      }
      MovedRow(buckets[..], bits, contents, i, m');
    }

    method Resize()
      requires Valid()
      modifies this`bits, this`buckets
      ensures Valid() && contents == old(contents)
      ensures if old(bits) >= maxBits || old(bits) >= 31 then bits == old(bits) && buckets == old(buckets)
              else bits == old(bits) + 1 && fresh(buckets)
    {
      if bits >= maxBits || bits >= 31 {
        return;
      }
      var newBits := bits + 1;
      var fresh_ := new seq<Entry>[Pow2(newBits)](_ => []);
      ghost var m: map<Id, Entry> := map[];
      var count := 0;
      HoldsNothing(fresh_[..], newBits);
      for i := 0 to buckets.Length
        invariant Valid() && buckets == old(buckets) && bits == old(bits)
        invariant Holds(fresh_[..], newBits, m) && Moved(buckets[..], bits, contents, i, 0, m) && count == |m|
      {
        m, count := MoveChain(fresh_, newBits, i, m, count);
      }
      MovedAll(buckets[..], bits, contents, 0, m);
      assert elems == count;
      buckets, bits := fresh_, newBits;
    }

    /** ApplyToEntriesRange: the entries it calls back with, in order. */
    method EntriesIn(begin: nat, end: nat) returns (visited: seq<Entry>)
      requires Valid() && begin <= end <= buckets.Length
      ensures NoTwins(visited) && forall e :: e in visited <==> Present(e) && begin <= Slot(e.hash, bits) < end
    {
      visited := [];
      for i := begin to end
        invariant NoTwins(visited) && forall e :: e in visited <==> Present(e) && begin <= Slot(e.hash, bits) < i
      {
        ChainIsSlot(i);
        NoTwinsConcat(visited, buckets[i]);
        visited := visited + buckets[i];
      }
    }

    ghost predicate Present(e: Entry)
      reads this
    {
      IdOf(e) in contents && contents[IdOf(e)] == e
    }

    lemma ChainIsSlot(i: nat)
      requires Valid() && i < buckets.Length
      ensures NoTwins(buckets[i]) && forall e :: e in buckets[i] <==> Present(e) && Slot(e.hash, bits) == i
    {
      assert buckets[..][i] == buckets[i];
      forall e | e in buckets[i] ensures Present(e) && Slot(e.hash, bits) == i {
        assert e in buckets[..][i] && InSlot(e, i, bits);
      }
      forall e | Present(e) && Slot(e.hash, bits) == i ensures e in buckets[i] {
        assert IdOf(e) in contents;
      }
    }

    /** ApplyToSomeEntries: visits the entries from the given hash up to the one it returns, each once. */
    method ApplyToSomeEntries(perLock: nat, state: nat) returns (state': nat, visited: seq<Entry>)
      requires Valid() && state < HASHES && Aligned(state, bits)
      ensures state' == NextState(state, bits, perLock)
      ensures IsResult(Table(bits, contents), state, perLock, visited)
    {
      SlotInRange(state, bits);
      var begin, end := Slot(state, bits), Slot(state, bits) + perLock;
      if end >= Pow2(bits) {
        end := Pow2(bits);
        state' := SCAN_END;
      } else {
        state' := SlotStart(end, bits);
      }
      assert end == EndSlot(state, bits, perLock) && state' == NextState(state, bits, perLock);
      visited := EntriesIn(begin, end);
      forall e ensures e in visited <==> Has(Table(bits, contents), e) && state <= e.hash < Bound(state') {
        RangeOfCall(state, bits, perLock, e.hash);
      }
    }
  }
}
