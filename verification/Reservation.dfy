/**
 The cache reservation manager: holds memory used elsewhere against the block cache, by dummy entries of
 a fixed size. The cache is asked through `room`: how many more dummy entries it takes during a call.
 */
module Reservation {

  const DUMMY: nat := 256 * 1024

  ghost function Sum(amounts: seq<nat>): nat {
    if amounts == [] then 0 else Sum(amounts[..|amounts| - 1]) + amounts[|amounts| - 1]
  }

  lemma {:induction false} SumWithout(amounts: seq<nat>, i: nat)
    requires i < |amounts|
    ensures Sum(amounts[..i] + amounts[i + 1..]) == Sum(amounts) - amounts[i]
  {
    var n := |amounts| - 1;
    var rest := amounts[..i] + amounts[i + 1..];
    if i == n {
      assert rest == amounts[..n];
    } else {
      assert rest[..n - 1] == amounts[..n][..i] + amounts[..n][i + 1..];
      SumWithout(amounts[..n], i);
    }
  }

  /** Enough dummy entries for the memory, and not one too many. */
  predicate Fits(reserved: nat, memory: nat) {
    memory <= reserved < memory + DUMMY
  }

  class Manager {
    const delayedDecrease: bool
    var reserved: nat          // cache_allocated_size_
    var memory: nat             // memory_used_
    var handles: seq<nat>       // dummy_handles_, by the number in their key
    var nextKey: nat
    ghost var entries: set<nat> // the dummy entries that are in the cache
    ghost var live: seq<nat>    // what each reservation handle holds

    constructor (delayedDecrease: bool)
      ensures Valid() && memory == 0 && handles == [] && live == [] && this.delayedDecrease == delayedDecrease
    {
      this.delayedDecrease := delayedDecrease;
      reserved, memory, handles, nextKey, entries, live := 0, 0, [], 0, {}, [];
    }

    /** The reservation is what the dummy entries charge the cache, and each is in the cache under a key
        of its own. */
    ghost predicate Valid()
      reads this
    {
      && reserved == DUMMY * |handles|
      && (forall i :: 0 <= i < |handles| ==> handles[i] < nextKey && handles[i] in entries)
      && (forall i, j :: 0 <= i < j < |handles| ==> handles[i] != handles[j])
      && (forall k :: k in entries ==> k in handles)
    }

    method Increase(mem: nat, room: nat) returns (ok: bool)
      requires Valid() && mem > reserved
      modifies this`reserved, this`handles, this`nextKey, this`entries
      ensures Valid() && old(handles) <= handles
      ensures ok <==> mem <= old(reserved) + DUMMY * room
      ensures ok ==> Fits(reserved, mem)
      ensures !ok ==> reserved == old(reserved) + DUMMY * room
    {
      var left: nat := room;
      while mem > reserved
        invariant Valid() && old(handles) <= handles && left <= room
        invariant reserved == old(reserved) + DUMMY * (room - left) && reserved < mem + DUMMY
        decreases left
      {
        if left == 0 {
          nextKey := nextKey + 1;
          return false;
        }
        assert nextKey !in handles;
        handles := handles + [nextKey];
        entries := entries + {nextKey};
        nextKey := nextKey + 1;
        reserved := reserved + DUMMY;
        left := left - 1;
      }
      ok := true;
    }

    method Decrease(mem: nat)
      requires Valid() && mem < reserved
      modifies this`reserved, this`handles, this`entries
      ensures Valid() && handles <= old(handles) && Fits(reserved, mem)
    {
      while mem + DUMMY <= reserved
        invariant Valid() && handles <= old(handles) && mem <= reserved
        decreases reserved
      {
        var last := |handles| - 1;
        entries := entries - {handles[last]};
        handles := handles[..last];
        reserved := reserved - DUMMY;
      }
    }

    /** The decrease is put off: the memory is still three quarters of the reservation or more. */
    ghost predicate PutsOff(mem: nat)
      reads this
    {
      delayedDecrease && mem < reserved && mem >= reserved / 4 * 3
    }

    method UpdateCacheReservation(mem: nat, room: nat) returns (ok: bool)
      requires Valid()
      modifies this`reserved, this`memory, this`handles, this`nextKey, this`entries
      ensures Valid() && memory == mem
      ensures ok <==> mem <= old(reserved) + DUMMY * room
      ensures ok ==> mem <= reserved
      ensures ok && !old(PutsOff(mem)) ==> Fits(reserved, mem)
      ensures old(PutsOff(mem)) ==> handles == old(handles)
      ensures !ok ==> reserved == old(reserved) + DUMMY * room
      ensures old(handles) <= handles || handles <= old(handles)
    {
      memory := mem;
      if mem == reserved {
        ok := true;
      } else if mem > reserved {
        ok := Increase(mem, room);
      } else if delayedDecrease && mem >= reserved / 4 * 3 {
        ok := true;
      } else {
        Decrease(mem);
        ok := true;
      }
    }

    /** What the memory used stands for, when all of it comes from reservation handles. */
    ghost predicate Tallies()
      reads this
    {
      Valid() && memory == Sum(live) && (live == [] ==> handles == [])
    }

    /** The handle is there even if the cache had no room. */
    method MakeCacheReservation(amount: nat, room: nat) returns (ok: bool)
      requires Tallies()
      modifies this
      ensures Tallies() && live == old(live) + [amount]
      ensures ok <==> old(memory) + amount <= old(reserved) + DUMMY * room
      ensures ok ==> memory <= reserved
    {
      ok := UpdateCacheReservation(memory + amount, room);
      live := live + [amount];
      assert live[..|live| - 1] == old(live);
    }

    /** The destructor of the i-th living handle; handles may die in any order. */
    method ReleaseReservation(ghost i: nat, amount: nat, room: nat)
      requires Tallies() && i < |live| && live[i] == amount
      modifies this
      ensures Tallies() && live == old(live)[..i] + old(live)[i + 1..]
      ensures live == [] ==> memory == 0 && reserved == 0 && entries == {}
    {
      SumWithout(live, i);
      var _ := UpdateCacheReservation(memory - amount, room);
      live := live[..i] + live[i + 1..];
    }
  }
}
