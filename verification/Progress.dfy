/** Why the engine can get stuck: never at account locks, only with every slot of the pool taken. */
module Progress {
  import opened Common
  import opened Ledger
  import opened Engine
  import opened Weights
  import opened Locals
  import opened PoolSafety
  import opened LockSafety
  import opened Safety

  /** Some transaction has not ended, and none can step, now or after any number of ticks. */
  predicate Stuck(s: State) {
    && !AllFinished(s)
    && forall k :: 0 <= k < |s.threads| && !s.threads[k].pc.Finished? ==>
         !s.threads[k].pc.AwaitTick? && !Ready(s.threads[k], s.shared)
  }

  /** An upper bound of all account ids. */
  lemma {:induction false} IdBound(ids: seq<int>) returns (bound: int)
    ensures forall i :: 0 <= i < |ids| ==> ids[i] <= bound
  {
    if ids == [] {
      bound := 0;
    } else {
      bound := IdBound(ids[..|ids| - 1]);
      bound := if bound > ids[|ids| - 1] then bound else ids[|ids| - 1];
    }
  }

  /** Whenever some thread stands at an account lock, some thread inside a bank call can step. */
  lemma LocksNeverDeadlock(i: Input, acts: seq<Action>, k: nat) returns (u: nat)
    requires ValidInput(i) && Legal(Start(i), acts) && k < |i.txs|
    requires var th := Exec(Start(i), acts).threads; k < |th| && (th[k].pc.LockFirst? || th[k].pc.LockSecond?)
    ensures var s := Exec(Start(i), acts); u < |s.threads| && InBank(s.threads[u].pc) && Enabled(s, Step(u))
  {
    hide PoolSound, LoadedList, Lifecycle, Timing, LockSound;
    ReachableSound(i, acts);
    var s := Exec(Start(i), acts);
    var bound := IdBound(s.shared.ids);
    u := LockProgress(s.threads, s.shared, k, bound);
  }

  /** The account a thread at a lock asks for: its only one, or of a transfer's two the smaller id first. */
  function Asked(t: Thread, ids: seq<int>): nat
    requires t.src < |ids| && t.dst < |ids|
  {
    if (ids[t.src] <= ids[t.dst]) == t.pc.LockFirst? then t.src else t.dst
  }

  /** Locks are granted exactly when they can be: a query unless somebody writes the account, so alongside any number
      of other queries; a write lock unless somebody has the account in either way. */
  lemma LocksGrantedExactly(i: Input, acts: seq<Action>, k: nat)
    requires ValidInput(i) && Legal(Start(i), acts) && k < |i.txs|
    requires var th := Exec(Start(i), acts).threads; k < |th| && (th[k].pc.LockFirst? || th[k].pc.LockSecond?)
    ensures var s := Exec(Start(i), acts);
            var t := s.threads[k];
            && t.src < |i.ids| && t.dst < |i.ids|
            && var l := Asked(t, i.ids);
               Enabled(s, Step(k)) <==>
                 forall u :: 0 <= u < |s.threads| ==>
                   && !HoldsWrite(s.threads[u], l, i.ids)
                   && (CurrentOp(t).kind != Balance ==> !HoldsRead(s.threads[u], l))
  {
    hide Sound, HoldsWrite, HoldsRead, Exec, Legal, Ready;
    ReachableSound(i, acts);
    var s := Exec(Start(i), acts);
    InCall(s, k);
    AskedIsTested(s.threads[k], s.shared);
    LockHolders(s, Asked(s.threads[k], i.ids));
  }

  lemma InCall(s: State, k: nat)
    requires Sound(s) && k < |s.threads| && InBank(s.threads[k].pc)
    ensures BankCall(s.threads[k], s.shared.ids) && PointersInRange(s.threads[k], s.shared)
    ensures SoundIds(s.shared.ids)
  {
    hide PoolSound, LoadedList, Lifecycle, Timing;
    LockCount(s);
    assert Local(s.threads[k], s.shared.ids, s.shared.clock);
  }

  lemma AskedIsTested(t: Thread, m: Shared)
    requires (t.pc.LockFirst? || t.pc.LockSecond?) && PointersInRange(t, m) && BankCall(t, m.ids) && SoundIds(m.ids)
    ensures Ready(t, m) <==>
              if CurrentOp(t).kind == Balance then m.locks[Asked(t, m.ids)].writer.None?
              else WriteFree(m.locks[Asked(t, m.ids)])
  {
  }

  /** A lock is as the threads that hold it say. */
  lemma LockHolders(s: State, l: nat)
    requires Sound(s) && l < |s.shared.ids|
    ensures l < |s.shared.locks|
    ensures s.shared.locks[l].writer.None? <==>
              forall u :: 0 <= u < |s.threads| ==> !HoldsWrite(s.threads[u], l, s.shared.ids)
    ensures s.shared.locks[l].readers == {} <==> forall u :: 0 <= u < |s.threads| ==> !HoldsRead(s.threads[u], l)
  {
    hide PoolSound, Local, HoldsWrite, HoldsRead;
    var lock := s.shared.locks[l];
    assert LockAgrees(lock, l, s.shared.ids, s.threads);
    if lock.writer.Some? {
      assert IsWriter(lock, lock.writer.value);
    }
    if lock.readers != {} {
      var u := Member(lock.readers);
      assert IsReader(lock, u);
    }
    forall u: nat | u < |s.threads| && HoldsWrite(s.threads[u], l, s.shared.ids) ensures lock.writer.Some? {
      assert IsWriter(lock, u);
    }
    forall u: nat | u < |s.threads| && HoldsRead(s.threads[u], l) ensures lock.readers != {} {
      assert IsReader(lock, u);
    }
  }

  /** No ring of threads waits for each other's account locks in any reachable state. */
  lemma NoReachableWaitCycle(i: Input, acts: seq<Action>, ring: seq<nat>)
    requires ValidInput(i) && Legal(Start(i), acts) && |ring| > 0
    requires var s := Exec(Start(i), acts);
             forall k :: 0 <= k < |ring| - 1 ==> WaitsFor(s.shared.ids, s.threads, ring[k], ring[k + 1])
    ensures var s := Exec(Start(i), acts); !WaitsFor(s.shared.ids, s.threads, ring[|ring| - 1], ring[0])
  {
    hide PoolSound, LoadedList, Lifecycle, Timing, LockSound, WaitsFor;
    ReachableSound(i, acts);
    var s := Exec(Start(i), acts);
    NoWaitCycle(s.shared.ids, s.threads, ring);
  }

  /** In a stuck state every transaction that has not ended waits for a pool permit, and the pool is full. */
  lemma StuckMeansFull(s: State)
    requires Sound(s) && Stuck(s)
    ensures forall k :: 0 <= k < |s.threads| && !s.threads[k].pc.Finished? ==> s.threads[k].pc.AwaitPermit?
    ensures InUse(s.shared.pool.slots) == |s.shared.pool.slots|
    ensures s.shared.pool.emptySem == 0
  {
    hide PoolSound, LockSound, LoadedList, Lifecycle, Timing, Total, InUse;
    forall k | 0 <= k < |s.threads| && !s.threads[k].pc.Finished? ensures s.threads[k].pc.AwaitPermit? {
      BlockedOnlyByPermit(s, k);
    }
    NoneInFlight(s);
  }

  lemma NoneInFlight(s: State)
    requires Sound(s) && !AllFinished(s)
    requires forall k :: 0 <= k < |s.threads| ==>
               s.threads[k].pc.Finished? || (s.threads[k].pc.AwaitPermit? && !Ready(s.threads[k], s.shared))
    ensures InUse(s.shared.pool.slots) == |s.shared.pool.slots| && s.shared.pool.emptySem == 0
  {
    hide LockSound, Local, Total, InUse, PinSum;
    LockCount(s);
    TotalZero(Permits, s.threads);
    TotalZero(Freers, s.threads);
    assert SemaphoresAgree(s.shared.pool, s.threads);
  }

  lemma BlockedOnlyByPermit(s: State, k: nat)
    requires Sound(s) && Stuck(s) && k < |s.threads| && !s.threads[k].pc.Finished?
    ensures s.threads[k].pc.AwaitPermit?
  {
    hide PoolSound, LoadedList, Lifecycle, Timing, LockSound, Total;
    LockCount(s);
    var t := s.threads[k];
    FullWaitReady(s, k);
    if t.pc.LockFirst? || t.pc.LockSecond? {
      var bound := IdBound(s.shared.ids);
      var u := LockProgress(s.threads, s.shared, k, bound);
    }
  }

  lemma PinsBoundUse(s: State)
    requires Sound(s)
    ensures InUse(s.shared.pool.slots) <= Total(Holdings, s.threads)
  {
    hide LockSound, Local, Total, InUse, PinSum;
    UseWithinPins(s.shared.pool.slots);
    assert SemaphoresAgree(s.shared.pool, s.threads);
  }
}
