/** The invariant of the whole engine, and what it says about every reachable state. */
module Safety {
  import opened Common
  import opened Ledger
  import opened Pool
  import opened Engine
  import opened Weights
  import opened Locals
  import opened PoolSafety
  import opened LockSafety
  import opened Money

  ghost predicate Sound(s: State) {
    && SoundIds(s.shared.ids)
    && (forall k :: 0 <= k < |s.threads| ==> Local(s.threads[k], s.shared.ids, s.shared.clock))
    && PoolSound(s.shared.pool, s.shared.ids, s.threads)
    && LockSound(s.shared.locks, s.shared.ids, s.threads)
    && MoneySound(s.shared, s.threads, s.initialTotal)
    && (s.running || AllFinished(s))
  }

  lemma {:induction false} EmptySlots(n: nat)
    ensures InUse(seq(n, i => FREE_SLOT)) == 0 && PinSum(seq(n, i => FREE_SLOT)) == 0
  {
    if n > 0 {
      EmptySlots(n - 1);
      var s := seq(n, i => FREE_SLOT);
      assert s[..|s| - 1] == seq(n - 1, i => FREE_SLOT);
    }
  }

  lemma FreshWeights(m: Measure, tx: Tx)
    requires m != Remaining
    ensures Weight(m, FreshThread(tx)) == 0
  {
  }

  lemma StartSound(i: Input)
    requires ValidInput(i)
    ensures Sound(Start(i))
  {
    hide Total, Sum, InUse, PinSum;
    var s := Start(i);
    EmptySlots(i.capacity);
    forall m: Measure | m != Remaining ensures Total(m, s.threads) == 0 {
      forall k | 0 <= k < |s.threads| ensures Weight(m, s.threads[k]) == 0 {
        FreshWeights(m, i.txs[k]);
      }
      TotalZero(m, s.threads);
    }
    forall j | 0 <= j < |s.shared.locks| ensures LockAgrees(s.shared.locks[j], j, s.shared.ids, s.threads) {
    }
    assert forall a: int :: Total(PinsOn(a), s.threads) == 0;
  }

  /** Any enabled action keeps the invariant. */
  lemma ActionKeepsSound(s: State, a: Action)
    requires Sound(s) && Enabled(s, a)
    ensures Sound(Apply(s, a))
  {
    hide PoolSound, LockSound, MoneySound;
    match a
    case Step(t) =>
      ThreadStepKeepsSound(s, t);
    case Tick =>
      hide LoadedList, BankCall, Lifecycle;
      assert MoneySound(Apply(s, a).shared, s.threads, s.initialTotal) by { TickKeepsMoney(s); }
    case Stop =>
  }

  lemma TickKeepsMoney(s: State)
    requires MoneySound(s.shared, s.threads, s.initialTotal)
    ensures MoneySound(s.shared.(clock := s.shared.clock + 1), s.threads, s.initialTotal)
  {
  }

  lemma ThreadStepKeepsSound(s: State, t: nat)
    requires Sound(s) && Enabled(s, Step(t))
    ensures Sound(Apply(s, Step(t)))
  {
    hide PoolSound, LockSound, MoneySound, LoadedList, Lifecycle, Timing, BankCall, Shape, ThreadStep;
    StepKeepsLocal(t, s.threads[t], s.shared);
    StepKeepsSizes(t, s.threads[t], s.shared);
    StepKeepsPool(t, s.threads, s.shared);
    StepKeepsLocks(t, s.threads, s.shared);
    StepKeepsMoney(t, s.threads, s.shared, s.initialTotal);
  }

  /** Every reachable state is sound. */
  lemma {:induction false} ReachableSound(i: Input, acts: seq<Action>)
    requires ValidInput(i) && Legal(Start(i), acts)
    ensures Sound(Exec(Start(i), acts))
    ensures Fixed(i, Exec(Start(i), acts))
    decreases |acts|
  {
    hide Sound;
    if acts == [] {
      StartSound(i);
    } else {
      var n := |acts| - 1;
      ReachableSound(i, acts[..n]);
      ActionKeepsSound(Exec(Start(i), acts[..n]), acts[n]);
      ActionKeepsFixed(i, Exec(Start(i), acts[..n]), acts[n]);
    }
  }

  /** What never changes in a run: the account table, the transactions, the capacity, the initial total. */
  predicate Fixed(i: Input, s: State) {
    && s.shared.ids == i.ids && |s.shared.balances| == |i.ids| && |s.threads| == |i.txs|
    && (forall k :: 0 <= k < |s.threads| ==> s.threads[k].tx == i.txs[k])
    && |s.shared.pool.slots| == i.capacity && s.initialTotal == Sum(i.balances)
  }

  lemma ActionKeepsFixed(i: Input, s: State, a: Action)
    requires Fixed(i, s) && Enabled(s, a)
    ensures Fixed(i, Apply(s, a))
  {
    hide ThreadStep, Sum;
    if a.Step? {
      StepKeepsSizes(a.thread, s.threads[a.thread], s.shared);
    }
  }

  // ---------- the buffer pool ----------

  /** A thread past its permit finds a duplicate or a free slot; the not-inserted fallback is never taken. */
  lemma PermitAlwaysServed(i: Input, acts: seq<Action>, t: nat)
    requires ValidInput(i) && Legal(Start(i), acts) && t < |i.txs|
    ensures var s := Exec(Start(i), acts);
            && |s.threads| == |i.txs| && !s.threads[t].pc.GiveBack?
            && (s.threads[t].pc.Claiming? ==>
                  ClaimSection(s.shared.pool, LoadTarget(s.threads[t]), Find(s.shared.ids, LoadTarget(s.threads[t]))).1 != NotInserted)
  {
    hide LockSound, MoneySound, Local;
    ReachableSound(i, acts);
    var s := Exec(Start(i), acts);
    if s.threads[t].pc.Claiming? {
      PermitFindsFreeSlot(s.shared.pool, s.shared.ids, s.threads, t);
    }
  }

  /** The wait on `full_slots` never blocks: it covers all unloaders still to wait on it. */
  lemma FullWaitNeverBlocks(i: Input, acts: seq<Action>, t: nat)
    requires ValidInput(i) && Legal(Start(i), acts) && t < |i.txs|
    ensures var s := Exec(Start(i), acts);
            && s.shared.pool.fullSem >= Total(Debtors, s.threads)
            && |s.threads| == |i.txs| && (s.threads[t].pc.AwaitFull? ==> Enabled(s, Step(t)))
  {
    hide LockSound, Local, Total;
    ReachableSound(i, acts);
    FullWaitReady(Exec(Start(i), acts), t);
  }

  lemma FullWaitReady(s: State, t: nat)
    requires Sound(s) && t < |s.threads|
    ensures s.shared.pool.fullSem >= Total(Debtors, s.threads)
    ensures s.threads[t].pc.AwaitFull? ==> Ready(s.threads[t], s.shared)
  {
    hide LockSound, Local, Total;
    FullCoversDebtors(s.shared.pool, s.shared.ids, s.threads);
    TotalCovers(Debtors, s.threads);
    assert Weight(Debtors, s.threads[t]) == if s.threads[t].pc.AwaitFull? then 1 else 0;
    LockCount(s);
  }

  lemma LockCount(s: State)
    requires Sound(s)
    ensures |s.shared.locks| == |s.shared.ids| == |s.shared.balances|
  {
  }

  /** Semaphores and slots differ by exactly the threads in flight; slots are distinct per account;
      pins count the holders; statistics agree with the slots. */
  lemma PoolAccounting(i: Input, acts: seq<Action>)
    requires ValidInput(i) && Legal(Start(i), acts)
    ensures var s := Exec(Start(i), acts);
            var p := s.shared.pool;
            && p.emptySem + Total(Permits, s.threads) + InUse(p.slots) + Total(Freers, s.threads) == i.capacity
            && p.fullSem + Total(Posters, s.threads) == InUse(p.slots) + Total(Debtors, s.threads)
            && (forall k :: 0 <= k < |p.slots| && p.slots[k].inUse ==>
                  p.slots[k].pins == Total(PinsOn(p.slots[k].account), s.threads) >= 1)
            && (forall j, k :: 0 <= j < k < |p.slots| && p.slots[j].inUse && p.slots[k].inUse ==>
                  p.slots[j].account != p.slots[k].account)
            && p.usage == InUse(p.slots) == p.loads - p.unloads && p.usage <= p.peak <= i.capacity
  {
    hide LockSound, MoneySound, Local, Total, InUse;
    ReachableSound(i, acts);
    var s := Exec(Start(i), acts);
    assert PoolSound(s.shared.pool, s.shared.ids, s.threads);
  }

  /** Inside a bank call every touched account is in a used slot that points at its bank account. */
  lemma TouchedAccountsResident(i: Input, acts: seq<Action>, t: nat, a: int)
    requires ValidInput(i) && Legal(Start(i), acts) && t < |i.txs|
    requires var th := Exec(Start(i), acts).threads;
             t < |th| && OnOp(th[t].pc) && !InLoad(th[t].pc) && a in UsedBy(CurrentOp(th[t]))
    ensures var p := Exec(Start(i), acts).shared.pool;
            var k := SlotOf(p.slots, a);
            && k < |p.slots| && p.slots[k].inUse && p.slots[k].account == a
            && p.slots[k].data == Find(i.ids, a) && Find(i.ids, a).Some?
  {
    hide LockSound, MoneySound, Total;
    ReachableSound(i, acts);
    var s := Exec(Start(i), acts);
    var th := s.threads[t];
    assert LoadedList(th, s.shared.ids);
    assert a in Held(th);
    HeldIsResident(s.shared.pool, s.shared.ids, s.threads, t, a);
  }

  /** The account's slot is the same one in both pools, and still points where it did. */
  predicate SameSlot(p: PoolState, p': PoolState, a: int) {
    var k := SlotOf(p.slots, a);
    k < |p.slots| == |p'.slots| && SlotOf(p'.slots, a) == k && p'.slots[k].inUse && p'.slots[k].data == p.slots[k].data
  }

  /** An account keeps its slot, and the slot its contents, through any step while one thread holds it. */
  lemma HeldSlotStays(s: State, me: nat, t: nat, a: int)
    requires Sound(s) && Enabled(s, Step(me)) && t < |s.threads| && a in Held(s.threads[t])
    requires a in Held(Apply(s, Step(me)).threads[t])
    ensures SameSlot(s.shared.pool, Apply(s, Step(me)).shared.pool, a)
  {
    hide PoolSound, LockSound, MoneySound, LoadedList, Lifecycle, Timing, BankCall, Total, SlotFrom, ThreadStep;
    var s' := Apply(s, Step(me));
    ThreadStepKeepsSound(s, me);
    StepKeepsSizes(me, s.threads[me], s.shared);
    HeldIsResident(s.shared.pool, s.shared.ids, s.threads, t, a);
    HeldIsResident(s'.shared.pool, s.shared.ids, s'.threads, t, a);
    SlotsMoveOne(me, s, a);
  }

  /** Thread `t` holds account `a` all along the run: at the start, and after each of its actions. */
  ghost predicate HeldThroughout(s: State, acts: seq<Action>, t: nat, a: int) {
    forall n :: 0 <= n <= |acts| ==>
      Legal(s, acts[..n]) && t < |Exec(s, acts[..n]).threads| && a in Held(Exec(s, acts[..n]).threads[t])
  }

  lemma HeldSlotStaysIn(s: State, b: Action, t: nat, a: int)
    requires Sound(s) && Enabled(s, b) && t < |s.threads| && a in Held(s.threads[t])
    requires t < |Apply(s, b).threads| && a in Held(Apply(s, b).threads[t])
    ensures SameSlot(s.shared.pool, Apply(s, b).shared.pool, a)
  {
    hide Sound, Held, SlotFrom, ThreadStep;
    if b.Step? {
      HeldSlotStays(s, b.thread, t, a);
    } else {
      SoundHeld(s, t, a);
    }
  }

  lemma HeldBefore(s: State, acts: seq<Action>, t: nat, a: int)
    requires Legal(s, acts) && acts != [] && HeldThroughout(s, acts, t, a)
    ensures var n := |acts| - 1;
            && Legal(s, acts[..n]) && HeldThroughout(s, acts[..n], t, a)
            && t < |Exec(s, acts[..n]).threads| && a in Held(Exec(s, acts[..n]).threads[t])
            && t < |Exec(s, acts).threads| && a in Held(Exec(s, acts).threads[t])
  {
    hide Exec, Legal, Held;
    var n := |acts| - 1;
    assert acts[..|acts|] == acts;
    forall j | 0 <= j <= n ensures acts[..n][..j] == acts[..j] {
    }
    assert acts[..n] == acts[..n][..n];
  }

  /** Whatever all threads do, the holder included, an account held throughout stays in its slot, which keeps
      pointing at it. */
  lemma {:induction false} HeldSlotStaysInRun(s: State, acts: seq<Action>, t: nat, a: int)
    requires Sound(s) && Legal(s, acts) && HeldThroughout(s, acts, t, a)
    ensures Sound(Exec(s, acts)) && SameSlot(s.shared.pool, Exec(s, acts).shared.pool, a)
    decreases |acts|
  {
    hide Sound, SlotOf, Apply, Enabled, Held, HeldThroughout;
    if acts == [] {
      HeldNow(s, t, a);
      SoundHeld(s, t, a);
    } else {
      var n := |acts| - 1;
      HeldBefore(s, acts, t, a);
      HeldSlotStaysInRun(s, acts[..n], t, a);
      ActionKeepsSound(Exec(s, acts[..n]), acts[n]);
      HeldSlotStaysIn(Exec(s, acts[..n]), acts[n], t, a);
    }
  }

  lemma HeldNow(s: State, t: nat, a: int)
    requires HeldThroughout(s, [], t, a)
    ensures t < |s.threads| && a in Held(s.threads[t])
  {
    var none: seq<Action> := [];
    assert none[..0] == none;
    assert Exec(s, none) == s;
  }

  /** A run is its first `m` actions followed by the rest. */
  lemma {:induction false} RunSplits(s: State, acts: seq<Action>, m: nat)
    requires Legal(s, acts) && m <= |acts|
    ensures Legal(s, acts[..m]) && Legal(Exec(s, acts[..m]), acts[m..])
    ensures Exec(Exec(s, acts[..m]), acts[m..]) == Exec(s, acts)
    decreases |acts|
  {
    hide Enabled, Apply;
    if m == |acts| {
      assert acts[..m] == acts && acts[m..] == [];
    } else {
      var n := |acts| - 1;
      RunSplits(s, acts[..n], m);
      assert acts[..n][..m] == acts[..m] && acts[..n][m..] == acts[m..][..n - m];
    }
  }

  lemma SoundHeld(s: State, t: nat, a: int)
    requires Sound(s) && t < |s.threads| && a in Held(s.threads[t])
    ensures var k := SlotOf(s.shared.pool.slots, a); k < |s.shared.pool.slots| && s.shared.pool.slots[k].inUse
  {
    hide LockSound, MoneySound, Local, Total;
    HeldIsResident(s.shared.pool, s.shared.ids, s.threads, t, a);
  }

  /** A used slot is only ever freed or re-pinned; it never changes hands in one step. */
  lemma SlotsMoveOne(me: nat, s: State, a: int)
    requires Sound(s) && Enabled(s, Step(me)) && Resident(s.shared.pool.slots, a)
    requires Resident(Apply(s, Step(me)).shared.pool.slots, a)
    ensures var p, p' := s.shared.pool, Apply(s, Step(me)).shared.pool;
            SlotOf(p'.slots, a) == SlotOf(p.slots, a) && p'.slots[SlotOf(p'.slots, a)].data == p.slots[SlotOf(p.slots, a)].data
  {
    hide LockSound, MoneySound, Local, Total, InUse, PinSum;
    var t := s.threads[me];
    var p, p' := s.shared.pool, Apply(s, Step(me)).shared.pool;
    PoolStepShape(me, t, s.shared, a);
    assert SlotsSound(p.slots, s.shared.ids);
  }

  /** How one step can change the slots. */
  lemma PoolStepShape(me: nat, t: Thread, m: Shared, a: int)
    requires Ready(t, m)
    ensures var p, p' := m.pool, ThreadStep(me, t, m).1.pool;
            || p'.slots == p.slots
            || exists k :: 0 <= k < |p.slots| && p'.slots == p.slots[k := p'.slots[k]]
                 && (p.slots[k].inUse && p'.slots[k].inUse ==> p'.slots[k].account == p.slots[k].account && p'.slots[k].data == p.slots[k].data)
                 && (!p.slots[k].inUse && p'.slots[k].inUse ==> !Resident(p.slots, p'.slots[k].account))
  {
    hide Find, SlotFrom, FreeSlotFrom, FirstLock, SecondLock;
    var p, p' := m.pool, ThreadStep(me, t, m).1.pool;
    if InPool(t.pc) {
      var k := SlotOf(p.slots, LoadTarget(t));
      var k' := if k < |p.slots| then k else FreeSlot(p.slots);
      assert p'.slots == p.slots || (k' < |p.slots| && p'.slots == p.slots[k' := p'.slots[k']]);
    } else if t.pc.Unload? && t.loaded != [] {
      var k := SlotOf(p.slots, t.loaded[|t.loaded| - 1]);
      assert p'.slots == p.slots || (k < |p.slots| && p'.slots == p.slots[k := p'.slots[k]]);
    }
  }

  /** The largest use of the pool over the run so far. */
  ghost function LargestUse(i: Input, acts: seq<Action>): int
    requires Legal(Start(i), acts)
  {
    var now := InUse(Exec(Start(i), acts).shared.pool.slots);
    if acts == [] then now else Max(LargestUse(i, acts[..|acts| - 1]), now)
  }

  lemma {:induction false} PeakIsLargestUse(i: Input, acts: seq<Action>)
    requires ValidInput(i) && Legal(Start(i), acts)
    ensures Exec(Start(i), acts).shared.pool.peak == LargestUse(i, acts)
  {
    hide InUse, LockSound, MoneySound, Local, Total, ThreadStep;
    ReachableSound(i, acts);
    if acts == [] {
    } else {
      var n := |acts| - 1;
      PeakIsLargestUse(i, acts[..n]);
      ReachableSound(i, acts[..n]);
      var s := Exec(Start(i), acts[..n]);
      if acts[n].Step? {
        PeakStep(acts[n].thread, s.threads[acts[n].thread], s.shared);
      }
    }
  }

  lemma PeakStep(me: nat, t: Thread, m: Shared)
    requires Ready(t, m) && m.pool.usage <= m.pool.peak
    ensures var p' := ThreadStep(me, t, m).1.pool; p'.peak == Max(m.pool.peak, p'.usage)
  {
    hide Find, SlotFrom, FreeSlotFrom, FirstLock, SecondLock;
  }

  /** How often in the run a slot was taken, and how often one was freed. */
  ghost function Taken(i: Input, acts: seq<Action>): nat
    requires Legal(Start(i), acts)
  {
    if acts == [] then 0
    else
      var n := |acts| - 1;
      var before, after := Exec(Start(i), acts[..n]).shared.pool.slots, Exec(Start(i), acts).shared.pool.slots;
      Taken(i, acts[..n]) + if InUse(after) > InUse(before) then 1 else 0
  }

  ghost function Freed(i: Input, acts: seq<Action>): nat
    requires Legal(Start(i), acts)
  {
    if acts == [] then 0
    else
      var n := |acts| - 1;
      var before, after := Exec(Start(i), acts[..n]).shared.pool.slots, Exec(Start(i), acts).shared.pool.slots;
      Freed(i, acts[..n]) + if InUse(after) < InUse(before) then 1 else 0
  }

  /** load_count counts the slots taken, not the pins added to resident accounts; unload_count the slots freed. */
  lemma {:induction false} CountersCountSlots(i: Input, acts: seq<Action>)
    requires ValidInput(i) && Legal(Start(i), acts)
    ensures Exec(Start(i), acts).shared.pool.loads == Taken(i, acts)
    ensures Exec(Start(i), acts).shared.pool.unloads == Freed(i, acts)
  {
    hide InUse, Sound, ThreadStep, Ready;
    ReachableSound(i, acts);
    UsageIsUse(Exec(Start(i), acts));
    if acts != [] {
      var n := |acts| - 1;
      CountersCountSlots(i, acts[..n]);
      ReachableSound(i, acts[..n]);
      var s := Exec(Start(i), acts[..n]);
      UsageIsUse(s);
      if acts[n].Step? {
        CounterStep(acts[n].thread, s.threads[acts[n].thread], s.shared);
      }
    }
  }

  lemma UsageIsUse(s: State)
    requires Sound(s)
    ensures s.shared.pool.usage == InUse(s.shared.pool.slots)
  {
    hide LockSound, MoneySound, Local, InUse;
  }

  lemma CounterStep(me: nat, t: Thread, m: Shared)
    requires Ready(t, m)
    ensures var p, p' := m.pool, ThreadStep(me, t, m).1.pool;
            || (p'.usage == p.usage && p'.loads == p.loads && p'.unloads == p.unloads)
            || (p'.usage == p.usage + 1 && p'.loads == p.loads + 1 && p'.unloads == p.unloads)
            || (p'.usage == p.usage - 1 && p'.loads == p.loads && p'.unloads == p.unloads + 1)
  {
    hide Find, SlotFrom, FreeSlotFrom, FirstLock, SecondLock;
  }

  /** Once every transaction has ended, the pool is as it was initialised, but for the counters. */
  lemma CleanDrain(i: Input, acts: seq<Action>)
    requires ValidInput(i) && Legal(Start(i), acts) && AllFinished(Exec(Start(i), acts))
    ensures var p := Exec(Start(i), acts).shared.pool;
            && p == EmptyPool(i.capacity).(loads := p.loads, unloads := p.unloads, peak := p.peak)
            && p.loads == p.unloads
  {
    hide LockSound, MoneySound, Total, InUse, PinSum;
    ReachableSound(i, acts);
    var s := Exec(Start(i), acts);
    var p := s.shared.pool;
    forall m | m == Permits || m == Posters || m == Freers || m == Debtors || m == Holdings ensures Total(m, s.threads) == 0 {
      forall k | 0 <= k < |s.threads| ensures Weight(m, s.threads[k]) == 0 {
        assert LoadedList(s.threads[k], i.ids);
      }
      TotalZero(m, s.threads);
    }
    UseWithinPins(p.slots);
    InUseExtremes(p.slots);
    assert p.slots == seq(i.capacity, j => FREE_SLOT);
  }
}
