/**
 The SuperVersion protocol: readers keep the current SuperVersion in a thread-local slot that they
 take with an atomic swap and give back with a compare-and-swap, while an install replaces the
 current one and scrapes the slots. Every atomic action is a step; any thread may take the next.
 */
module SuperVersion {
  import opened Options

  /** A thread-local slot: kSVInUse, kSVObsolete, or a cached SuperVersion. */
  datatype Slot = InUse | Obsolete | Cached(sv: nat)

  /** Where a thread is between GetThreadLocalSuperVersion and ReturnThreadLocalSuperVersion. The
      flag says that it took a second reference for its caller (GetReferencedSuperVersion). */
  datatype Pc =
    | Idle
    | Swapped(got: Slot)
    | Stale(sv: nat)
    | NeedLock
    | Holding(sv: nat, extra: bool)
    | Failed(sv: nat, extra: bool)

  datatype Sv = Sv(refs: nat, version: nat)

  /** An install in progress; it holds the database mutex from begin to end. */
  datatype Install = Install(old_: nat, unscraped: set<nat>, bag: multiset<nat>)

  datatype State = State(
    svs: seq<Sv>,                // every SuperVersion ever made
    current: Option<nat>,        // super_version_
    number: nat,                 // super_version_number_
    slots: seq<Slot>, pcs: seq<Pc>,
    owners: multiset<nat>,       // references handed to callers
    install: Option<Install>,
    dying: set<nat>,             // dropped to zero, waiting for the mutex to be cleaned up
    cleaned: set<nat>,
    outside: nat,                // references to the column family from outside
    cfdRefs: nat, freed: bool)   // its counter, and whether it was deleted

  datatype Step =
    | Swap(t: nat)
    | Check(t: nat)
    | UnrefStale(t: nat)
    | LockAndRef(t: nat)
    | TakeExtra(t: nat)
    | Return(t: nat)
    | UnrefFailed(t: nat)
    | ThreadExit(t: nat)
    | OwnerUnref(sv: nat)
    | Cleanup(sv: nat)
    | InstallBegin
    | Scrape(t: nat)
    | UnrefScraped(sv: nat)
    | InstallEnd
    | OutsideRef
    | OutsideUnref

  /** A column family with its first SuperVersion installed and one outside reference. */
  function Init(threads: nat): State {
    State([Sv(1, 1)], Some(0), 1, seq(threads, _ => Obsolete), seq(threads, _ => Idle),
          multiset{}, None, {}, {}, 1, 2, false)
  }

  ghost function Below(n: nat): (r: set<nat>)
    ensures forall t :: t in r <==> 0 <= t < n
    ensures |r| == n
  {
    if n == 0 then {} else Below(n - 1) + {n - 1}
  }

  // ----- the steps -----

  ghost predicate Can(s: State, step: Step) {
    match step
    case Swap(t) => t < |s.slots| == |s.pcs| && s.pcs[t].Idle? && s.outside > 0
    case Check(t) => t < |s.pcs| && s.pcs[t].Swapped?
    case UnrefStale(t) => t < |s.pcs| && s.pcs[t].Stale?
    case LockAndRef(t) => t < |s.pcs| && s.pcs[t].NeedLock? && s.install.None?
    case TakeExtra(t) => t < |s.pcs| && s.pcs[t].Holding? && !s.pcs[t].extra
    case Return(t) => t < |s.slots| == |s.pcs| && s.pcs[t].Holding?
    case UnrefFailed(t) => t < |s.pcs| && s.pcs[t].Failed?
    case ThreadExit(t) => t < |s.slots| == |s.pcs| && s.pcs[t].Idle? && s.slots[t].Cached?
    case OwnerUnref(sv) => sv in s.owners
    case Cleanup(sv) => sv in s.dying && s.install.None?
    case InstallBegin => s.install.None? && s.current.Some? && s.outside > 0
    case Scrape(t) => t < |s.slots| && s.install.Some? && t in s.install.value.unscraped
    case UnrefScraped(sv) => s.install.Some? && s.install.value.unscraped == {} && sv in s.install.value.bag
    case InstallEnd => s.install.Some? && s.install.value.unscraped == {} && s.install.value.bag == multiset{}
    case OutsideRef => s.outside > 0
    case OutsideUnref =>
      // whoever drops the last outside reference leaves no query and no install behind
      && s.outside > 0 && s.install.None?
      && (s.outside == 1 ==> forall t :: 0 <= t < |s.pcs| ==> s.pcs[t].Idle?)
  }

  /** What the code asserts, or dereferences, where it takes the step. */
  ghost predicate Asserts(s: State, step: Step)
    requires Can(s, step)
  {
    match step
    case Swap(t) => !s.slots[t].InUse? && !s.freed
    case Check(t) => s.pcs[t].got.Cached? ==> Alive(s, s.pcs[t].got.sv)
    case UnrefStale(t) => Alive(s, s.pcs[t].sv)
    case LockAndRef(t) => s.current.Some? && Alive(s, s.current.value) && !s.freed
    case TakeExtra(t) => Alive(s, s.pcs[t].sv)
    case Return(t) => !s.slots[t].Cached? && Alive(s, s.pcs[t].sv)
    case UnrefFailed(t) => Alive(s, s.pcs[t].sv) && (s.pcs[t].extra ==> s.svs[s.pcs[t].sv].refs > 1)
    case ThreadExit(t) => Alive(s, s.slots[t].sv) && s.svs[s.slots[t].sv].refs > 1
    case OwnerUnref(sv) => Alive(s, sv)
    case Cleanup(sv) => sv < |s.svs| && s.svs[sv].refs == 0 && sv !in s.cleaned && s.cfdRefs > 0
    case InstallBegin => !s.freed
    case Scrape(t) => true
    case UnrefScraped(sv) => Alive(s, sv) && s.svs[sv].refs > 1
    case InstallEnd => Alive(s, s.install.value.old_)
    case OutsideRef => !s.freed && s.cfdRefs > 0
    case OutsideUnref =>
      // the thread-local slots, released with the last outside reference, never hold the last one
      !s.freed && s.cfdRefs > 1 && s.current.Some? && Alive(s, s.current.value) &&
      CachedIn(s.slots, s.current.value) < s.svs[s.current.value].refs
  }

  /** The assertions hold, and so do those of letting go of super_version_, which a cleanup may set off. */
  ghost predicate Safe(s: State, step: Step)
    requires Can(s, step)
  {
    Asserts(s, step) && (step.Cleanup? && s.current.Some? ==> Releasable(s))
  }

  ghost predicate Alive(s: State, sv: nat) {
    sv < |s.svs| && s.svs[sv].refs > 0 && sv !in s.dying && sv !in s.cleaned
  }

  /** Unref, and the decision that goes with the last reference: someone has to clean up. */
  ghost function Unref(s: State, sv: nat, n: nat): State
    requires sv < |s.svs| && n <= s.svs[sv].refs
  {
    var left := s.svs[sv].refs - n;
    s.(svs := s.svs[sv := s.svs[sv].(refs := left)], dying := if left == 0 then s.dying + {sv} else s.dying)
  }

  ghost function Ref(s: State, sv: nat): State
    requires sv < |s.svs|
  {
    s.(svs := s.svs[sv := s.svs[sv].(refs := s.svs[sv].refs + 1)])
  }

  ghost function At(s: State, t: nat, pc: Pc): State
    requires t < |s.pcs|
  {
    s.(pcs := s.pcs[t := pc])
  }

  /** ColumnFamilyData::UnrefAndTryDelete with old_refs == 1. */
  ghost function DropCfdRef(s: State): State
    requires s.cfdRefs > 0
  {
    s.(cfdRefs := s.cfdRefs - 1, freed := s.freed || s.cfdRefs == 1)
  }

  /** SuperVersion::Cleanup and the column family reference it gives up, with what that may set off:
      when only super_version_ is left holding the column family, it is let go. */
  ghost function DoCleanup(s: State, sv: nat): State
    requires s.cfdRefs > 0 && (s.current.Some? ==> Releasable(s))
  {
    var s1 := DropCfdRef(s.(dying := s.dying - {sv}, cleaned := s.cleaned + {sv}));
    if s.cfdRefs == 2 && s.current.Some? then ReleaseCurrent(s1) else s1
  }

  ghost predicate Releasable(s: State) {
    s.current.Some? && s.current.value < |s.svs| && CachedIn(s.slots, s.current.value) < s.svs[s.current.value].refs
  }

  /** UnrefAndTryDelete with old_refs == 2: forget super_version_, drop the thread-local references,
      then super_version_'s own; the last one goes to cleanup. */
  ghost function ReleaseCurrent(s: State): State
    requires Releasable(s)
  {
    Unref(s.(current := None, slots := seq(|s.slots|, _ => Obsolete)), s.current.value,
          CachedIn(s.slots, s.current.value) + 1)
  }

  ghost function Do(s: State, step: Step): State
    requires Can(s, step) && Safe(s, step)
  {
    match step
    case Swap(t) => At(s.(slots := s.slots[t := InUse]), t, Swapped(s.slots[t]))
    case Check(t) =>
      var got := s.pcs[t].got;
      if !got.Cached? then At(s, t, NeedLock)
      else if s.svs[got.sv].version != s.number then At(s, t, Stale(got.sv))
      else At(s, t, Holding(got.sv, false))
    case UnrefStale(t) => At(Unref(s, s.pcs[t].sv, 1), t, NeedLock)
    case LockAndRef(t) => At(Ref(s, s.current.value), t, Holding(s.current.value, false))
    case TakeExtra(t) => At(Ref(s, s.pcs[t].sv), t, Holding(s.pcs[t].sv, true))
    case Return(t) =>
      var sv, extra := s.pcs[t].sv, s.pcs[t].extra;
      if s.slots[t].InUse? then
        At(s.(slots := s.slots[t := Cached(sv)], owners := s.owners + if extra then multiset{sv} else multiset{}), t,
           Idle)
      else At(s, t, Failed(sv, extra))
    case UnrefFailed(t) =>
      var sv, extra := s.pcs[t].sv, s.pcs[t].extra;
      At(Unref(s, sv, 1).(owners := s.owners + if extra then multiset{sv} else multiset{}), t, Idle)
    case ThreadExit(t) => Unref(s, s.slots[t].sv, 1).(slots := s.slots[t := Obsolete])
    case OwnerUnref(sv) => Unref(s, sv, 1).(owners := s.owners - multiset{sv})
    case Cleanup(sv) => DoCleanup(s, sv)
    case InstallBegin =>
      s.(svs := s.svs + [Sv(1, s.number + 1)], current := Some(|s.svs|), number := s.number + 1,
         cfdRefs := s.cfdRefs + 1,
         install := Some(Install(s.current.value, Below(|s.slots|), multiset{})))
    case Scrape(t) =>
      var i := s.install.value;
      s.(slots := s.slots[t := Obsolete],
         install := Some(Install(i.old_, i.unscraped - {t},
                                 i.bag + if s.slots[t].Cached? then multiset{s.slots[t].sv} else multiset{})))
    case UnrefScraped(sv) =>
      var i := s.install.value;
      Unref(s, sv, 1).(install := Some(Install(i.old_, {}, i.bag - multiset{sv})))
    case InstallEnd => Unref(s, s.install.value.old_, 1).(install := None)
    case OutsideRef => s.(outside := s.outside + 1, cfdRefs := s.cfdRefs + 1)
    case OutsideUnref =>
      var s1 := DropCfdRef(s.(outside := s.outside - 1));
      if s.cfdRefs == 2 then ReleaseCurrent(s1) else s1
  }

  // ----- who holds which reference -----

  ghost function CachedIn(slots: seq<Slot>, sv: nat): nat {
    if slots == [] then 0
    else CachedIn(slots[..|slots| - 1], sv) + if slots[|slots| - 1] == Cached(sv) then 1 else 0
  }

  function Held(pc: Pc, sv: nat): nat {
    match pc
    case Swapped(got) => if got == Cached(sv) then 1 else 0
    case Stale(x) => if x == sv then 1 else 0
    case Holding(x, extra) => if x != sv then 0 else if extra then 2 else 1
    case Failed(x, extra) => if x != sv then 0 else if extra then 2 else 1
    case _ => 0
  }

  ghost function HeldBy(pcs: seq<Pc>, sv: nat): nat {
    if pcs == [] then 0 else HeldBy(pcs[..|pcs| - 1], sv) + Held(pcs[|pcs| - 1], sv)
  }

  lemma {:induction false} HeldByUpdate(pcs: seq<Pc>, t: nat, pc: Pc, sv: nat)
    requires t < |pcs|
    ensures HeldBy(pcs[t := pc], sv) == HeldBy(pcs, sv) - Held(pcs[t], sv) + Held(pc, sv)
  {
    var n := |pcs| - 1;
    if t == n {
      assert pcs[t := pc][..n] == pcs[..n];
    } else {
      assert pcs[t := pc][..n] == pcs[..n][t := pc];
      HeldByUpdate(pcs[..n], t, pc, sv);
    }
  }

  lemma {:induction false} HeldByAtLeast(pcs: seq<Pc>, t: nat, sv: nat)
    requires t < |pcs|
    ensures Held(pcs[t], sv) <= HeldBy(pcs, sv)
  {
    var n := |pcs| - 1;
    if t < n { HeldByAtLeast(pcs[..n], t, sv); }
  }

  ghost function Count(s: State, sv: nat): nat {
    (if s.current == Some(sv) then 1 else 0)
    + (if s.install.Some? && s.install.value.old_ == sv then 1 else 0)
    + (if s.install.Some? then s.install.value.bag[sv] else 0)
    + CachedIn(s.slots, sv) + HeldBy(s.pcs, sv) + s.owners[sv]
  }

  ghost predicate InQuery(pc: Pc) {
    pc.Swapped? || pc.Stale? || pc.NeedLock? || pc.Holding?
  }

  /** The current SuperVersion, or the one an install is replacing but has not yet scraped here. */
  ghost predicate Fresh(s: State, t: nat, sv: nat) {
    s.current == Some(sv) || (s.install.Some? && t in s.install.value.unscraped && sv == s.install.value.old_)
  }

  /** The SuperVersion a query may still put back into its slot. */
  function Claim(pc: Pc): Option<nat> {
    match pc
    case Swapped(got) => if got.Cached? then Some(got.sv) else None
    case Holding(sv, _) => Some(sv)
    case _ => None
  }

  /** A slot in use belongs to a query that was not scraped, so what it holds is fresh; so is what a
      slot caches. */
  ghost predicate SlotOk(s: State, t: nat)
    requires t < |s.slots| == |s.pcs|
  {
    match s.slots[t]
    case InUse => InQuery(s.pcs[t]) && (Claim(s.pcs[t]).Some? ==> Fresh(s, t, Claim(s.pcs[t]).value))
    case Obsolete => true
    case Cached(sv) => !InQuery(s.pcs[t]) && Fresh(s, t, sv)
  }

  ghost predicate Counted(s: State) {
    forall sv :: 0 <= sv < |s.svs| ==> s.svs[sv].refs == Count(s, sv)
  }

  ghost predicate Known(s: State) {
    && (forall sv :: |s.svs| <= sv ==> Count(s, sv) == 0)
    && (forall sv :: 0 <= sv < |s.svs| ==> (s.svs[sv].refs == 0 <==> sv in s.dying || sv in s.cleaned))
    && (forall sv :: sv in s.dying || sv in s.cleaned ==> sv < |s.svs|)
    && s.dying !! s.cleaned
  }

  ghost predicate Threads(s: State) {
    && |s.slots| == |s.pcs|
    && (forall t :: 0 <= t < |s.slots| ==> SlotOk(s, t))
    && (s.install.Some? ==>
          && s.current.Some? && s.outside > 0
          && (forall t :: t in s.install.value.unscraped ==> t < |s.slots|)
          && (forall sv :: sv in s.install.value.bag ==> sv == s.install.value.old_ || s.current == Some(sv)))
    && (s.outside == 0 ==> forall t :: 0 <= t < |s.pcs| ==> s.pcs[t].Idle?)
  }

  /** The cycle: the column family counts its outside references and the SuperVersions that are not
      cleaned up; the current SuperVersion goes with the last outside reference. */
  ghost predicate Cycle(s: State) {
    && |s.cleaned| <= |s.svs|
    && s.cfdRefs == s.outside + |s.svs| - |s.cleaned|
    && (s.outside > 0 ==> s.current.Some?)
    && (s.outside == 0 && s.current.Some? ==> s.cfdRefs > 1)
    && (s.freed <==> s.cfdRefs == 0)
  }

  ghost predicate Inv(s: State) {
    Counted(s) && Known(s) && Threads(s) && Cycle(s)
  }

  /** Proofs carry the invariant folded up, as "not broken". */
  ghost predicate Broken(s: State) { !Inv(s) }

  lemma HeldAfter(pcs: seq<Pc>, t: nat, pc: Pc)
    requires t < |pcs|
    ensures forall sv :: HeldBy(pcs[t := pc], sv) == HeldBy(pcs, sv) - Held(pcs[t], sv) + Held(pc, sv)
  {
    forall sv ensures HeldBy(pcs[t := pc], sv) == HeldBy(pcs, sv) - Held(pcs[t], sv) + Held(pc, sv) {
      HeldByUpdate(pcs, t, pc, sv);
    }
  }

  lemma {:induction false} CachedUpdate(slots: seq<Slot>, t: nat, x: Slot, sv: nat)
    requires t < |slots|
    ensures CachedIn(slots[t := x], sv) ==
            CachedIn(slots, sv) - (if slots[t] == Cached(sv) then 1 else 0) + (if x == Cached(sv) then 1 else 0)
  {
    var n := |slots| - 1;
    if t == n {
      assert slots[t := x][..n] == slots[..n];
    } else {
      assert slots[t := x][..n] == slots[..n][t := x];
      CachedUpdate(slots[..n], t, x, sv);
    }
  }

  lemma CachedAfter(slots: seq<Slot>, t: nat, x: Slot)
    requires t < |slots|
    ensures forall sv :: CachedIn(slots[t := x], sv) ==
                         CachedIn(slots, sv) - (if slots[t] == Cached(sv) then 1 else 0)
                         + (if x == Cached(sv) then 1 else 0)
  {
    forall sv ensures CachedIn(slots[t := x], sv) ==
                      CachedIn(slots, sv) - (if slots[t] == Cached(sv) then 1 else 0)
                      + (if x == Cached(sv) then 1 else 0) {
      CachedUpdate(slots, t, x, sv);
    }
  }

  lemma {:induction false} NoneCached(slots: seq<Slot>, sv: nat)
    requires Cached(sv) !in slots
    ensures CachedIn(slots, sv) == 0
  {
    if slots != [] { NoneCached(slots[..|slots| - 1], sv); }
  }

  lemma {:induction false} IdleHoldsNothing(pcs: seq<Pc>, sv: nat)
    requires forall t :: 0 <= t < |pcs| ==> pcs[t].Idle?
    ensures HeldBy(pcs, sv) == 0
  {
    if pcs != [] { IdleHoldsNothing(pcs[..|pcs| - 1], sv); }
  }

  lemma SubsetSize(a: set<nat>, b: set<nat>)
    requires a <= b
    ensures |a| <= |b| && (|a| == |b| ==> a == b)
  {
    assert b == a + (b - a);
  }

  /** Cleaned up ones are some of those made, and not one that is still referenced. */
  lemma CleanedAreFewer(s: State, sv: nat)
    requires !Broken(s) && sv < |s.svs| && sv !in s.cleaned
    ensures |s.cleaned| < |s.svs|
  {
    SubsetSize(s.cleaned, Below(|s.svs|));
    assert sv in Below(|s.svs|);
  }

  lemma Referenced(s: State, sv: nat)
    requires !Broken(s) && Count(s, sv) > 0
    ensures Alive(s, sv) && s.svs[sv].refs == Count(s, sv)
  {
  }

  /** What the thread takes along is referenced. */
  lemma ThreadAssertsHold(s: State, step: Step)
    requires !Broken(s) && Can(s, step)
    requires step.Swap? || step.Check? || step.UnrefStale? || step.TakeExtra? || step.Return? || step.UnrefFailed?
    ensures Asserts(s, step)
  {
    match step
    case Swap(t) => assert SlotOk(s, t);
    case Check(t) =>
      if s.pcs[t].got.Cached? { HeldByAtLeast(s.pcs, t, s.pcs[t].got.sv); Referenced(s, s.pcs[t].got.sv); }
    case UnrefStale(t) => HeldByAtLeast(s.pcs, t, s.pcs[t].sv); Referenced(s, s.pcs[t].sv);
    case TakeExtra(t) => HeldByAtLeast(s.pcs, t, s.pcs[t].sv); Referenced(s, s.pcs[t].sv);
    case Return(t) => HeldByAtLeast(s.pcs, t, s.pcs[t].sv); Referenced(s, s.pcs[t].sv); assert SlotOk(s, t);
    case UnrefFailed(t) => HeldByAtLeast(s.pcs, t, s.pcs[t].sv); Referenced(s, s.pcs[t].sv);
  }

  lemma CurrentIsReleasable(s: State)
    requires !Broken(s) && s.current.Some?
    ensures Releasable(s) && |s.cleaned| < |s.svs|
    ensures Alive(s, s.current.value) && s.svs[s.current.value].refs == Count(s, s.current.value)
  {
    Referenced(s, s.current.value);
    CleanedAreFewer(s, s.current.value);
  }

  /** No assertion of the code can fail, and nothing it touches has been freed. */
  lemma NoAssertFails(s: State, step: Step)
    requires !Broken(s) && Can(s, step)
    ensures Asserts(s, step)
    ensures s.current.Some? ==> Releasable(s)
  {
    if s.current.Some? { CurrentIsReleasable(s); }
    match step
    case ThreadExit(t) =>
      assert SlotOk(s, t);
      CachedUpdate(s.slots, t, Obsolete, s.slots[t].sv);
      Referenced(s, s.slots[t].sv);
    case OwnerUnref(sv) => Referenced(s, sv);
    case Cleanup(sv) => CleanedAreFewer(s, sv);
    case LockAndRef(_) =>
    case InstallBegin =>
    case Scrape(_) =>
    case UnrefScraped(sv) => Referenced(s, sv);
    case InstallEnd => Referenced(s, s.install.value.old_);
    case OutsideRef =>
    case OutsideUnref =>
    case _ => ThreadAssertsHold(s, step);
  }

  // ----- every step keeps the counts -----

  /** The counter of `x` follows what is held, and the others stay as they are. */
  lemma Recount(s: State, s': State, x: nat, d: int)
    requires Counted(s) && Known(s) && x < |s.svs|
    requires forall sv :: Count(s', sv) == Count(s, sv) + if sv == x then d else 0
    requires d == 0 || (s.svs[x].refs > 0 && s.svs[x].refs + d >= 0)
    requires s'.svs == s.svs[x := Sv(s.svs[x].refs + d, s.svs[x].version)] && s'.cleaned == s.cleaned
    requires s'.dying == if d != 0 && s.svs[x].refs + d == 0 then s.dying + {x} else s.dying
    ensures Counted(s') && Known(s')
  {
  }

  lemma SameCounts(s: State, s': State)
    requires Counted(s) && Known(s)
    requires forall sv :: Count(s', sv) == Count(s, sv)
    requires s'.svs == s.svs && s'.cleaned == s.cleaned && s'.dying == s.dying
    ensures Counted(s') && Known(s')
  {
  }

  /** Threads other than `t` see no difference. */
  lemma OthersStay(s: State, s': State, t: nat)
    requires Threads(s) && t < |s.slots|
    requires |s'.slots| == |s'.pcs| == |s.slots|
    requires forall u :: 0 <= u < |s.slots| && u != t ==> s'.slots[u] == s.slots[u] && s'.pcs[u] == s.pcs[u]
    requires s'.current == s.current && s'.install == s.install && s'.outside == s.outside
    requires SlotOk(s', t) && (s.outside == 0 ==> s'.pcs[t].Idle?)
    ensures Threads(s')
  {
    forall u | 0 <= u < |s'.slots| ensures SlotOk(s', u) { assert u != t ==> SlotOk(s, u); }
  }

  lemma AllStay(s: State, s': State)
    requires Threads(s)
    requires s'.slots == s.slots && s'.pcs == s.pcs && s'.current == s.current && (s'.outside > 0 <==> s.outside > 0)
    requires s'.install == s.install ||
             (s.install.Some? && s'.install.Some? && s'.install.value.old_ == s.install.value.old_ &&
              s'.install.value.unscraped == s.install.value.unscraped && s'.install.value.bag <= s.install.value.bag)
    ensures Threads(s')
  {
    forall u | 0 <= u < |s'.slots| ensures SlotOk(s', u) { assert SlotOk(s, u); }
  }

  lemma SwapKeeps(s: State, step: Step)
    requires !Broken(s) && Can(s, step) && Asserts(s, step) && step.Swap?
    ensures !Broken(Do(s, step))
  {
    var s', t := Do(s, step), step.t;
    HeldAfter(s.pcs, t, Swapped(s.slots[t]));
    CachedAfter(s.slots, t, InUse);
    assert SlotOk(s, t);
    SameCounts(s, s');
    OthersStay(s, s', t);
  }

  /** A thread that only changes what it remembers of a reference it holds. */
  lemma MoveKeeps(s: State, t: nat, pc: Pc)
    requires !Broken(s) && t < |s.pcs|
    requires forall sv :: Held(pc, sv) == Held(s.pcs[t], sv)
    requires SlotOk(At(s, t, pc), t) && (s.outside == 0 ==> pc.Idle?)
    ensures !Broken(At(s, t, pc))
  {
    var s' := At(s, t, pc);
    HeldAfter(s.pcs, t, pc);
    SameCounts(s, s');
    OthersStay(s, s', t);
  }

  lemma CheckKeeps(s: State, step: Step)
    requires !Broken(s) && Can(s, step) && Asserts(s, step) && step.Check?
    ensures !Broken(Do(s, step))
  {
    var t, got := step.t, s.pcs[step.t].got;
    assert SlotOk(s, t);
    if !got.Cached? { MoveKeeps(s, t, NeedLock); }
    else if s.svs[got.sv].version != s.number { MoveKeeps(s, t, Stale(got.sv)); }
    else { MoveKeeps(s, t, Holding(got.sv, false)); }
  }

  lemma ReturnCachedKeeps(s: State, t: nat, owners: multiset<nat>)
    requires !Broken(s) && t < |s.pcs| && s.pcs[t].Holding? && s.slots[t].InUse?
    requires owners == s.owners + if s.pcs[t].extra then multiset{s.pcs[t].sv} else multiset{}
    ensures !Broken(At(s.(slots := s.slots[t := Cached(s.pcs[t].sv)], owners := owners), t, Idle))
  {
    var sv := s.pcs[t].sv;
    var s' := At(s.(slots := s.slots[t := Cached(sv)], owners := owners), t, Idle);
    HeldAfter(s.pcs, t, Idle);
    CachedAfter(s.slots, t, Cached(sv));
    assert SlotOk(s, t);
    assert forall x :: Count(s', x) == Count(s, x);
    SameCounts(s, s');
    OthersStay(s, s', t);
  }

  lemma ReturnKeeps(s: State, step: Step)
    requires !Broken(s) && Can(s, step) && Asserts(s, step) && step.Return?
    ensures !Broken(Do(s, step))
  {
    var t := step.t;
    if s.slots[t].InUse? { ReturnCachedKeeps(s, t, Do(s, step).owners); }
    else { MoveKeeps(s, t, Failed(s.pcs[t].sv, s.pcs[t].extra)); }
  }

  lemma LockAndRefKeeps(s: State, step: Step)
    requires !Broken(s) && Can(s, step) && Asserts(s, step) && step.LockAndRef?
    ensures !Broken(Do(s, step))
  {
    var s', t := Do(s, step), step.t;
    HeldAfter(s.pcs, t, s'.pcs[t]);
    assert SlotOk(s, t);
    Recount(s, s', s.current.value, 1);
    OthersStay(s, s', t);
  }

  lemma TakeExtraKeeps(s: State, step: Step)
    requires !Broken(s) && Can(s, step) && Asserts(s, step) && step.TakeExtra?
    ensures !Broken(Do(s, step))
  {
    var s', t := Do(s, step), step.t;
    HeldAfter(s.pcs, t, s'.pcs[t]);
    assert SlotOk(s, t);
    Recount(s, s', s.pcs[t].sv, 1);
    OthersStay(s, s', t);
  }

  /** A thread that gives up one reference, and hands another on to its caller if it took one. */
  lemma ThreadUnrefKeeps(s: State, t: nat, sv: nat, pc: Pc, given: multiset<nat>)
    requires !Broken(s) && t < |s.pcs| && Alive(s, sv)
    requires forall x :: Held(s.pcs[t], x) == Held(pc, x) + given[x] + if x == sv then 1 else 0
    requires SlotOk(At(s, t, pc), t) && (s.outside == 0 ==> pc.Idle?)
    ensures !Broken(At(Unref(s, sv, 1).(owners := s.owners + given), t, pc))
  {
    var s' := At(Unref(s, sv, 1).(owners := s.owners + given), t, pc);
    HeldAfter(s.pcs, t, pc);
    Recount(s, s', sv, -1);
    OthersStay(s, s', t);
  }

  lemma UnrefStaleKeeps(s: State, step: Step)
    requires !Broken(s) && Can(s, step) && Asserts(s, step) && step.UnrefStale?
    ensures !Broken(Do(s, step))
  {
    var t := step.t;
    assert SlotOk(s, t);
    ThreadUnrefKeeps(s, t, s.pcs[t].sv, NeedLock, multiset{});
    assert s.owners + multiset{} == s.owners;
  }

  lemma UnrefFailedKeeps(s: State, step: Step)
    requires !Broken(s) && Can(s, step) && Asserts(s, step) && step.UnrefFailed?
    ensures !Broken(Do(s, step))
  {
    var t := step.t;
    assert SlotOk(s, t);
    ThreadUnrefKeeps(s, t, s.pcs[t].sv, Idle, if s.pcs[t].extra then multiset{s.pcs[t].sv} else multiset{});
  }

  lemma ThreadExitKeeps(s: State, step: Step)
    requires !Broken(s) && Can(s, step) && Asserts(s, step) && step.ThreadExit?
    ensures !Broken(Do(s, step))
  {
    var s', t := Do(s, step), step.t;
    CachedAfter(s.slots, t, Obsolete);
    assert forall x :: Count(s', x) == Count(s, x) - if x == s.slots[t].sv then 1 else 0;
    Recount(s, s', s.slots[t].sv, -1);
    OthersStay(s, s', t);
  }

  lemma OwnerUnrefKeeps(s: State, step: Step)
    requires !Broken(s) && Can(s, step) && Asserts(s, step) && step.OwnerUnref?
    ensures !Broken(Do(s, step))
  {
    var s' := Do(s, step);
    assert forall x :: Count(s', x) == Count(s, x) - if x == step.sv then 1 else 0;
    Recount(s, s', step.sv, -1);
    AllStay(s, s');
  }

  lemma OutsideRefKeeps(s: State, step: Step)
    requires !Broken(s) && Can(s, step) && Asserts(s, step) && step.OutsideRef?
    ensures !Broken(Do(s, step))
  {
    var s' := Do(s, step);
    SameCounts(s, s');
    AllStay(s, s');
  }

  lemma InstallBeginKeeps(s: State, step: Step)
    requires !Broken(s) && Can(s, step) && Asserts(s, step) && step.InstallBegin?
    ensures !Broken(Do(s, step))
  {
    var s', n := Do(s, step), |s.svs|;
    assert Count(s, n) == 0;
    assert forall sv :: Count(s', sv) == if sv == n then 1 else Count(s, sv);
    assert Counted(s') && Known(s');
    forall u | 0 <= u < |s'.slots| ensures SlotOk(s', u) { assert SlotOk(s, u); }
  }

  lemma ScrapeKeeps(s: State, step: Step)
    requires !Broken(s) && Can(s, step) && Asserts(s, step) && step.Scrape?
    ensures !Broken(Do(s, step))
  {
    var s', t := Do(s, step), step.t;
    CachedAfter(s.slots, t, Obsolete);
    assert forall x :: Count(s', x) == Count(s, x);
    SameCounts(s, s');
    forall u | 0 <= u < |s'.slots| ensures SlotOk(s', u) { assert SlotOk(s, u); }
    assert SlotOk(s, t);
  }

  lemma UnrefScrapedKeeps(s: State, step: Step)
    requires !Broken(s) && Can(s, step) && Asserts(s, step) && step.UnrefScraped?
    ensures !Broken(Do(s, step))
  {
    var s' := Do(s, step);
    assert forall x :: Count(s', x) == Count(s, x) - if x == step.sv then 1 else 0;
    Recount(s, s', step.sv, -1);
    AllStay(s, s');
  }

  lemma InstallEndKeeps(s: State, step: Step)
    requires !Broken(s) && Can(s, step) && Asserts(s, step) && step.InstallEnd?
    ensures !Broken(Do(s, step))
  {
    var s' := Do(s, step);
    Recount(s, s', s.install.value.old_, -1);
    forall u | 0 <= u < |s'.slots| ensures SlotOk(s', u) { assert SlotOk(s, u); }
  }

  /** Letting go of super_version_: only threads at rest are left, and no slot caches another. */
  lemma ReleaseKeeps(s: State)
    requires Counted(s) && Known(s) && Threads(s) && Releasable(s) && s.install.None? && s.outside == 0
    ensures Counted(ReleaseCurrent(s)) && Known(ReleaseCurrent(s)) && Threads(ReleaseCurrent(s))
  {
    var s', sv := ReleaseCurrent(s), s.current.value;
    forall x ensures Count(s', x) == if x == sv then Count(s, x) - CachedIn(s.slots, x) - 1 else Count(s, x) {
      NoneCached(s'.slots, x);
      if x != sv {
        OnlyCurrentCached(s, x);
        NoneCached(s.slots, x);
      }
    }
    Recount(s, s', sv, -(CachedIn(s.slots, sv) + 1));
  }

  lemma OnlyCurrentCached(s: State, x: nat)
    requires Threads(s) && s.install.None? && s.current != Some(x)
    ensures Cached(x) !in s.slots
  {
    forall t | 0 <= t < |s.slots| ensures s.slots[t] != Cached(x) { assert SlotOk(s, t); }
  }

  lemma CleanupKeeps(s: State, step: Step)
    requires !Broken(s) && Can(s, step) && Safe(s, step) && step.Cleanup?
    ensures !Broken(Do(s, step))
  {
    var s1 := DropCfdRef(s.(dying := s.dying - {step.sv}, cleaned := s.cleaned + {step.sv}));
    assert forall sv :: Count(s1, sv) == Count(s, sv);
    CleanedAreFewer(s, step.sv);
    assert Counted(s1) && Known(s1);
    forall u | 0 <= u < |s1.slots| ensures SlotOk(s1, u) { assert SlotOk(s, u); }
    if s.cfdRefs == 2 && s.current.Some? {
      OtherUncleaned(s, step.sv);
      ReleaseKeeps(s1);
    }
  }

  /** When the column family counts two and one of them is being cleaned up, the other is super_version_. */
  lemma OtherUncleaned(s: State, sv: nat)
    requires !Broken(s) && s.current.Some? && sv in s.dying && s.cfdRefs == 2
    ensures s.outside == 0
  {
    Referenced(s, s.current.value);
    SubsetSize(s.cleaned + {sv, s.current.value}, Below(|s.svs|));
  }

  lemma OutsideUnrefKeeps(s: State, step: Step)
    requires !Broken(s) && Can(s, step) && Asserts(s, step) && step.OutsideUnref?
    ensures !Broken(Do(s, step))
  {
    var s1 := DropCfdRef(s.(outside := s.outside - 1));
    assert forall sv :: Count(s1, sv) == Count(s, sv);
    assert Counted(s1) && Known(s1);
    forall u | 0 <= u < |s1.slots| ensures SlotOk(s1, u) { assert SlotOk(s, u); }
    CleanedAreFewer(s, s.current.value);
    if s.cfdRefs == 2 { ReleaseKeeps(s1); }
  }

  lemma StepKeeps(s: State, step: Step)
    requires !Broken(s) && Can(s, step)
    ensures Safe(s, step)
    ensures !Broken(Do(s, step))
  {
    NoAssertFails(s, step);
    match step
    case Swap(_) => SwapKeeps(s, step);
    case Check(_) => CheckKeeps(s, step);
    case Return(_) => ReturnKeeps(s, step);
    case LockAndRef(_) => LockAndRefKeeps(s, step);
    case TakeExtra(_) => TakeExtraKeeps(s, step);
    case UnrefStale(_) => UnrefStaleKeeps(s, step);
    case UnrefFailed(_) => UnrefFailedKeeps(s, step);
    case ThreadExit(_) => ThreadExitKeeps(s, step);
    case OwnerUnref(_) => OwnerUnrefKeeps(s, step);
    case Cleanup(_) => CleanupKeeps(s, step);
    case InstallBegin => InstallBeginKeeps(s, step);
    case Scrape(_) => ScrapeKeeps(s, step);
    case UnrefScraped(_) => UnrefScrapedKeeps(s, step);
    case InstallEnd => InstallEndKeeps(s, step);
    case OutsideRef => OutsideRefKeeps(s, step);
    case OutsideUnref => OutsideUnrefKeeps(s, step);
  }

  // ----- every run -----

  ghost predicate IsRun(s: State, steps: seq<Step>)
    decreases |steps|
  {
    steps == [] || (Can(s, steps[0]) && Safe(s, steps[0]) && IsRun(Do(s, steps[0]), steps[1..]))
  }

  ghost function After(s: State, steps: seq<Step>): State
    requires IsRun(s, steps)
    decreases |steps|
  {
    if steps == [] then s else After(Do(s, steps[0]), steps[1..])
  }

  lemma {:induction false} RunKeeps(s: State, steps: seq<Step>)
    requires !Broken(s) && IsRun(s, steps)
    ensures !Broken(After(s, steps))
    decreases |steps|
  {
    if steps != [] {
      StepKeeps(s, steps[0]);
      RunKeeps(Do(s, steps[0]), steps[1..]);
    }
  }

  lemma InitIsGood(threads: nat)
    ensures !Broken(Init(threads))
  {
    var s := Init(threads);
    forall sv ensures Count(s, sv) == if sv == 0 then 1 else 0 {
      NoneCached(s.slots, sv);
      IdleHoldsNothing(s.pcs, sv);
    }
    assert Counted(s) && Known(s);
    assert Threads(s);
    assert Cycle(s);
  }

  // ----- the theorems -----

  /** In every interleaving, every SuperVersion's counter is exactly the references there are; it is
      at zero exactly when it waits for its one cleanup or has had it; no assertion of the code can
      fail next, whatever step comes, and no step touches a SuperVersion that is cleaned up. */
  lemma CountersAreExact(threads: nat, steps: seq<Step>, step: Step)
    requires IsRun(Init(threads), steps)
    ensures var s := After(Init(threads), steps);
            && (forall sv :: 0 <= sv < |s.svs| ==>
                  s.svs[sv].refs == Count(s, sv) && (s.svs[sv].refs == 0 <==> sv in s.dying || sv in s.cleaned))
            && s.dying !! s.cleaned
            && (Can(s, step) ==> Safe(s, step))
  {
    InitIsGood(threads);
    RunKeeps(Init(threads), steps);
    var s := After(Init(threads), steps);
    if Can(s, step) { StepKeeps(s, step); }
  }

  /** A thread-local slot never holds the last reference, and caches only the current SuperVersion,
      or the one being replaced by an install that has yet to scrape it. */
  lemma SlotsNeverHoldTheLast(threads: nat, steps: seq<Step>, t: nat)
    requires IsRun(Init(threads), steps)
    requires var s := After(Init(threads), steps); t < |s.slots| && s.slots[t].Cached?
    ensures var s := After(Init(threads), steps);
            var sv := s.slots[t].sv;
            sv < |s.svs| && s.svs[sv].refs > 1 && Fresh(s, t, sv)
  {
    InitIsGood(threads);
    RunKeeps(Init(threads), steps);
    var s := After(Init(threads), steps);
    assert Threads(s) && SlotOk(s, t);
    CachedUpdate(s.slots, t, Obsolete, s.slots[t].sv);
    Referenced(s, s.slots[t].sv);
  }

  /** The column family is deleted only when nothing outside, no caller and no slot refers to it or
      to any of its SuperVersions; and it is deleted as soon as that is so and nothing is waiting
      for cleanup. */
  lemma FreedWithTheLastReference(threads: nat, steps: seq<Step>)
    requires IsRun(Init(threads), steps)
    ensures var s := After(Init(threads), steps);
            && (s.freed ==> s.outside == 0 && s.owners == multiset{} && s.current.None? && |s.cleaned| == |s.svs|)
            && (s.outside == 0 && s.owners == multiset{} && s.dying == {} ==> s.freed)
  {
    InitIsGood(threads);
    RunKeeps(Init(threads), steps);
    var s := After(Init(threads), steps);
    if s.freed { AllCleaned(s); }
    if s.outside == 0 && s.owners == multiset{} && s.dying == {} { NothingLeft(s); }
  }

  lemma AllCleaned(s: State)
    requires !Broken(s) && s.freed
    ensures s.outside == 0 && s.owners == multiset{} && s.current.None? && |s.cleaned| == |s.svs|
  {
    SubsetSize(s.cleaned, Below(|s.svs|));
    assert s.outside == 0 && s.cleaned == Below(|s.svs|);
    assert forall sv :: Count(s, sv) == 0;
    assert forall sv :: s.owners[sv] <= Count(s, sv);
  }

  lemma NothingLeft(s: State)
    requires !Broken(s) && s.outside == 0 && s.owners == multiset{} && s.dying == {}
    ensures s.freed
  {
    var kept := match s.current case Some(c) => {c} case None => {};
    forall sv | 0 <= sv < |s.svs| ensures sv in s.cleaned + kept {
      if s.current != Some(sv) {
        IdleHoldsNothing(s.pcs, sv);
        OnlyCurrentCached(s, sv);
        NoneCached(s.slots, sv);
      }
    }
    assert s.cleaned + kept >= Below(|s.svs|);
    SubsetSize(Below(|s.svs|), s.cleaned + kept);
    assert |s.cleaned + kept| <= |s.cleaned| + |kept|;
  }

  // ----- how recent the view of a query is -----

  /** For each thread, super_version_number_ when its last query began. */
  ghost function NextBegan(s: State, step: Step, began: seq<nat>): seq<nat> {
    if step.Swap? && step.t < |began| then began[step.t := s.number] else began
  }

  ghost function Began(s: State, steps: seq<Step>, began: seq<nat>): seq<nat>
    requires IsRun(s, steps)
    decreases |steps|
  {
    if steps == [] then began else Began(Do(s, steps[0]), steps[1..], NextBegan(s, steps[0], began))
  }

  /** The SuperVersions are numbered as they are installed, and the current one is the last. */
  ghost predicate NumberedAsInstalled(s: State) {
    && s.number == |s.svs|
    && (forall sv :: 0 <= sv < |s.svs| ==> s.svs[sv].version == sv + 1)
    && (s.current.Some? ==> s.current.value == |s.svs| - 1)
  }

  ghost predicate Recent(s: State, began: seq<nat>) {
    && |began| == |s.pcs|
    && forall t :: 0 <= t < |s.pcs| ==>
         && began[t] <= s.number
         && (s.pcs[t].Holding? || s.pcs[t].Failed? ==> s.pcs[t].sv < |s.svs| && began[t] <= s.svs[s.pcs[t].sv].version)
  }

  lemma StepKeepsNumbers(s: State, step: Step)
    requires NumberedAsInstalled(s) && Can(s, step) && Safe(s, step)
    ensures NumberedAsInstalled(Do(s, step))
    ensures s.number <= Do(s, step).number && |s.svs| <= |Do(s, step).svs|
  {
  }

  lemma StepKeepsRecent(s: State, step: Step, began: seq<nat>)
    requires NumberedAsInstalled(s) && Recent(s, began) && Can(s, step) && Safe(s, step)
    ensures Recent(Do(s, step), NextBegan(s, step, began))
  {
    StepKeepsNumbers(s, step);
    var s', began' := Do(s, step), NextBegan(s, step, began);
    forall t | 0 <= t < |s'.pcs|
      ensures began'[t] <= s'.number
      ensures s'.pcs[t].Holding? || s'.pcs[t].Failed? ==>
                s'.pcs[t].sv < |s'.svs| && began'[t] <= s'.svs[s'.pcs[t].sv].version
    {
    }
  }

  lemma {:induction false} RunKeepsRecent(s: State, steps: seq<Step>, began: seq<nat>)
    requires NumberedAsInstalled(s) && Recent(s, began) && IsRun(s, steps)
    ensures NumberedAsInstalled(After(s, steps)) && Recent(After(s, steps), Began(s, steps, began))
    decreases |steps|
  {
    if steps != [] {
      StepKeepsNumbers(s, steps[0]);
      StepKeepsRecent(s, steps[0], began);
      RunKeepsRecent(Do(s, steps[0]), steps[1..], NextBegan(s, steps[0], began));
    }
  }

  /** In every run, a query never works on a SuperVersion that had been replaced when it began, however it came by it:
      the one it holds was installed no earlier than the one that was current then. */
  lemma QueriesAreUpToDate(threads: nat, steps: seq<Step>, t: nat)
    requires IsRun(Init(threads), steps) && t < threads
    requires var s := After(Init(threads), steps); t < |s.pcs| && (s.pcs[t].Holding? || s.pcs[t].Failed?)
    ensures var s, began := After(Init(threads), steps), Began(Init(threads), steps, seq(threads, _ => 0));
            && |began| == |s.pcs| && s.number == |s.svs| && (s.current.Some? ==> s.current.value == |s.svs| - 1)
            && s.pcs[t].sv < |s.svs| && began[t] <= s.svs[s.pcs[t].sv].version == s.pcs[t].sv + 1
  {
    RunKeepsRecent(Init(threads), steps, seq(threads, _ => 0));
  }

  // ----- queries and teardown can be carried through -----

  lemma QueryBegins(s: State, t: nat)
    requires !Broken(s) && NumberedAsInstalled(s) && t < |s.pcs| && s.pcs[t].Idle? && s.outside > 0 && s.install.None?
    ensures s.current.Some? && t < |s.slots| && Can(s, Swap(t)) && Safe(s, Swap(t)) && !Broken(Do(s, Swap(t)))
    ensures s.slots[t].Cached? ==>
              s.slots[t].sv == s.current.value < |s.svs| && s.svs[s.current.value].version == s.number
    ensures Do(s, Swap(t)) == s.(slots := s.slots[t := InUse], pcs := s.pcs[t := Swapped(s.slots[t])])
  {
    assert Threads(s) && Cycle(s);
    assert SlotOk(s, t);
    StepKeeps(s, Swap(t));
  }

  lemma CheckStep(s: State, t: nat)
    requires !Broken(s) && t < |s.pcs| && s.pcs[t].Swapped?
    ensures Can(s, Check(t)) && Safe(s, Check(t)) && !Broken(Do(s, Check(t)))
    ensures var got := s.pcs[t].got;
            && (got.Cached? ==> got.sv < |s.svs|)
            && Do(s, Check(t)) ==
               s.(pcs := s.pcs[t := if !got.Cached? then NeedLock
                                    else if s.svs[got.sv].version != s.number then Stale(got.sv)
                                    else Holding(got.sv, false)])
  {
    StepKeeps(s, Check(t));
  }

  lemma LockStep(s: State, t: nat)
    requires !Broken(s) && t < |s.pcs| && s.pcs[t].NeedLock? && s.install.None?
    ensures Can(s, LockAndRef(t)) && Safe(s, LockAndRef(t)) && s.current.Some?
    ensures var s' := Do(s, LockAndRef(t)); t < |s'.pcs| && s'.pcs[t] == Holding(s.current.value, false)
  {
    StepKeeps(s, LockAndRef(t));
  }

  lemma Prepend(s: State, step: Step, s': State, rest: seq<Step>)
    requires Can(s, step) && Safe(s, step) && s' == Do(s, step) && IsRun(s', rest)
    ensures IsRun(s, [step] + rest) && After(s, [step] + rest) == After(s', rest)
  {
    assert ([step] + rest)[1..] == rest;
  }

  ghost function QuerySteps(t: nat, cached: bool): seq<Step> {
    [Swap(t)] + if cached then [Check(t)] + [] else [Check(t)] + ([LockAndRef(t)] + [])
  }

  /** Between installs, a query with nobody in between gets the current SuperVersion, and takes no lock if its slot
      caches one. */
  lemma QueryAlone(s: State, t: nat)
    requires !Broken(s) && NumberedAsInstalled(s) && t < |s.pcs| && s.pcs[t].Idle? && s.outside > 0 && s.install.None?
    ensures t < |s.slots| && s.current.Some? && IsRun(s, QuerySteps(t, s.slots[t].Cached?))
    ensures var s' := After(s, QuerySteps(t, s.slots[t].Cached?));
            t < |s'.pcs| && s'.pcs[t] == Holding(s.current.value, false)
  {
    QueryBegins(s, t);
    var s1 := Do(s, Swap(t));
    CheckStep(s1, t);
    var s2 := Do(s1, Check(t));
    if s.slots[t].Cached? {
      Prepend(s1, Check(t), s2, []);
      Prepend(s, Swap(t), s1, [Check(t)] + []);
    } else {
      LockStep(s2, t);
      Prepend(s2, LockAndRef(t), Do(s2, LockAndRef(t)), []);
      Prepend(s1, Check(t), s2, [LockAndRef(t)] + []);
      Prepend(s, Swap(t), s1, [Check(t)] + ([LockAndRef(t)] + []));
    }
  }

  lemma CleanupStep(s: State, sv: nat)
    requires !Broken(s) && sv in s.dying && s.install.None?
    ensures Can(s, Cleanup(sv)) && Safe(s, Cleanup(sv)) && !Broken(Do(s, Cleanup(sv)))
    ensures var s' := Do(s, Cleanup(sv));
            && s'.cleaned == s.cleaned + {sv} && |s'.svs| == |s.svs| && s'.outside == s.outside && s'.owners == s.owners
            && s'.install == s.install && sv !in s.cleaned
  {
    StepKeeps(s, Cleanup(sv));
    assert Known(s);
  }

  lemma CleanedAreKnown(s: State)
    requires !Broken(s)
    ensures |s.cleaned| <= |s.svs|
  {
    assert Cycle(s);
  }

  /** Once the last outside reference and the last caller's are gone, the cleanups that wait, and those they set off,
      end with the column family freed. */
  lemma {:induction false} CleanupsFree(s: State) returns (steps: seq<Step>)
    requires !Broken(s) && s.outside == 0 && s.owners == multiset{} && s.install.None?
    ensures IsRun(s, steps) && After(s, steps).freed && forall step :: step in steps ==> step.Cleanup?
    decreases |s.svs| - |s.cleaned|
  {
    CleanedAreKnown(s);
    if s.dying == {} {
      NothingLeft(s);
      steps := [];
    } else {
      var sv :| sv in s.dying;
      CleanupStep(s, sv);
      var s' := Do(s, Cleanup(sv));
      CleanedAreKnown(s');
      var rest := CleanupsFree(s');
      Prepend(s, Cleanup(sv), s', rest);
      steps := [Cleanup(sv)] + rest;
    }
  }

  lemma OwnerUnrefStep(s: State, sv: nat)
    requires !Broken(s) && sv in s.owners
    ensures Can(s, OwnerUnref(sv)) && Safe(s, OwnerUnref(sv)) && !Broken(Do(s, OwnerUnref(sv)))
    ensures var s' := Do(s, OwnerUnref(sv));
            s'.owners == s.owners - multiset{sv} && s'.pcs == s.pcs && s'.install == s.install
              && s'.outside == s.outside
  {
    StepKeeps(s, OwnerUnref(sv));
  }

  ghost predicate AllIdle(s: State) {
    s.install.None? && forall t :: 0 <= t < |s.pcs| ==> s.pcs[t].Idle?
  }

  lemma OutsideUnrefStep(s: State)
    requires !Broken(s) && s.outside > 0 && AllIdle(s)
    ensures Can(s, OutsideUnref) && Safe(s, OutsideUnref) && !Broken(Do(s, OutsideUnref))
    ensures var s' := Do(s, OutsideUnref); AllIdle(s') && s'.outside == s.outside - 1 && s'.owners == s.owners
  {
    StepKeeps(s, OutsideUnref);
  }

  /** When no query and no install is under way: once the callers and everyone outside let go, and the cleanups have
      run, the column family is freed. */
  lemma {:induction false} TearDownFrees(s: State) returns (steps: seq<Step>)
    requires !Broken(s) && AllIdle(s)
    ensures IsRun(s, steps) && After(s, steps).freed
    ensures forall step :: step in steps ==> step.OwnerUnref? || step.OutsideUnref? || step.Cleanup?
    decreases |s.owners|, s.outside
  {
    if sv :| sv in s.owners {
      OwnerUnrefStep(s, sv);
      var s' := Do(s, OwnerUnref(sv));
      var rest := TearDownFrees(s');
      Prepend(s, OwnerUnref(sv), s', rest);
      steps := [OwnerUnref(sv)] + rest;
    } else if s.outside > 0 {
      OutsideUnrefStep(s);
      var s' := Do(s, OutsideUnref);
      var rest := TearDownFrees(s');
      Prepend(s, OutsideUnref, s', rest);
      steps := [OutsideUnref] + rest;
    } else {
      steps := CleanupsFree(s);
    }
  }

  lemma ScrapeStep(s: State, t: nat)
    requires !Broken(s) && s.install.Some? && t in s.install.value.unscraped
    ensures Can(s, Scrape(t)) && Safe(s, Scrape(t)) && !Broken(Do(s, Scrape(t)))
    ensures var s' := Do(s, Scrape(t));
            s'.install.Some? && s'.install.value.unscraped == s.install.value.unscraped - {t} && s'.current == s.current
  {
    assert Threads(s);
    StepKeeps(s, Scrape(t));
  }

  lemma UnrefScrapedStep(s: State, sv: nat)
    requires !Broken(s) && s.install.Some? && s.install.value.unscraped == {} && sv in s.install.value.bag
    ensures Can(s, UnrefScraped(sv)) && Safe(s, UnrefScraped(sv)) && !Broken(Do(s, UnrefScraped(sv)))
    ensures var s' := Do(s, UnrefScraped(sv));
            && s'.install.Some? && s'.install.value.unscraped == {} && s'.current == s.current
            && s'.install.value.bag == s.install.value.bag - multiset{sv}
  {
    StepKeeps(s, UnrefScraped(sv));
  }

  lemma InstallEndStep(s: State)
    requires !Broken(s) && s.install.Some? && s.install.value.unscraped == {} && s.install.value.bag == multiset{}
    ensures Can(s, InstallEnd) && Safe(s, InstallEnd) && !Broken(Do(s, InstallEnd))
    ensures Do(s, InstallEnd).install.None? && Do(s, InstallEnd).current == s.current
  {
    StepKeeps(s, InstallEnd);
  }

  lemma OnlyCurrentIsCached(s: State)
    requires !Broken(s) && s.install.None?
    ensures forall t :: 0 <= t < |s.slots| && s.slots[t].Cached? ==> s.current == Some(s.slots[t].sv)
  {
    assert Threads(s);
    forall t | 0 <= t < |s.slots| && s.slots[t].Cached?
      ensures s.current == Some(s.slots[t].sv) { assert SlotOk(s, t); }
  }

  /** An install can be carried through; no slot then caches what it replaced. */
  lemma {:induction false} InstallCompletes(s: State) returns (steps: seq<Step>)
    requires !Broken(s) && s.install.Some?
    ensures IsRun(s, steps)
    ensures var s' := After(s, steps);
            && s'.install.None? && s'.current == s.current && !Broken(s')
            && forall t :: 0 <= t < |s'.slots| && s'.slots[t].Cached? ==> s'.current == Some(s'.slots[t].sv)
    decreases |s.install.value.unscraped|, |s.install.value.bag|
  {
    var i := s.install.value;
    if t :| t in i.unscraped {
      ScrapeStep(s, t);
      var s' := Do(s, Scrape(t));
      var rest := InstallCompletes(s');
      Prepend(s, Scrape(t), s', rest);
      steps := [Scrape(t)] + rest;
    } else if sv :| sv in i.bag {
      UnrefScrapedStep(s, sv);
      var s' := Do(s, UnrefScraped(sv));
      var rest := InstallCompletes(s');
      Prepend(s, UnrefScraped(sv), s', rest);
      steps := [UnrefScraped(sv)] + rest;
    } else {
      InstallEndStep(s);
      var s' := Do(s, InstallEnd);
      Prepend(s, InstallEnd, s', []);
      OnlyCurrentIsCached(s');
      steps := [InstallEnd] + [];
    }
  }

  /** A thread that exits gives up the reference its slot caches, and others keep theirs. */
  lemma ExitGivesUpItsReference(s: State, t: nat)
    requires !Broken(s) && Can(s, ThreadExit(t))
    ensures Safe(s, ThreadExit(t)) && !Broken(Do(s, ThreadExit(t)))
    ensures var s', sv := Do(s, ThreadExit(t)), s.slots[t].sv;
            && sv < |s.svs| == |s'.svs| && s'.svs[sv].refs == s.svs[sv].refs - 1 > 0
            && CachedIn(s'.slots, sv) == CachedIn(s.slots, sv) - 1
            && forall u :: 0 <= u < |s.slots| && u != t ==> u < |s'.slots| && s'.slots[u] == s.slots[u]
  {
    StepKeeps(s, ThreadExit(t));
    CachedUpdate(s.slots, t, Obsolete, s.slots[t].sv);
  }
}
