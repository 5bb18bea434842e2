/** Account locks: exclusion in every reachable state, and no wait-for cycle. */
module LockSafety {
  import opened Common
  import opened Ledger
  import opened Pool
  import opened Engine
  import opened Locals

  /** Write locks a thread holds, read off its program point. */
  predicate HoldsWrite(t: Thread, i: nat, ids: seq<int>) {
    && CurrentOp(t).kind != Balance && InBank(t.pc) && t.src < |ids| && t.dst < |ids|
    && match t.pc
       case LockFirst => false
       case LockSecond => i == FirstLock(ids, t)
       case UnlockSecond => i == t.dst
       case _ => i == t.src || i == t.dst
  }

  predicate HoldsRead(t: Thread, i: nat) {
    CurrentOp(t).kind == Balance && (t.pc.ReadCell? || t.pc.UnlockFirst?) && i == t.src
  }

  predicate IsWriter(l: RwLock, t: nat) {
    l.writer == Some(t)
  }

  predicate IsReader(l: RwLock, t: nat) {
    t in l.readers
  }

  /** The lock's writer and readers are the threads at a point where they hold it, and never both kinds. */
  ghost predicate LockAgrees(l: RwLock, i: nat, ids: seq<int>, ts: seq<Thread>) {
    && (forall t: nat :: IsWriter(l, t) <==> t < |ts| && HoldsWrite(ts[t], i, ids))
    && (forall t: nat :: IsReader(l, t) <==> t < |ts| && HoldsRead(ts[t], i))
    && (l.writer.Some? ==> l.readers == {})
  }

  ghost predicate LockSound(locks: seq<RwLock>, ids: seq<int>, ts: seq<Thread>) {
    |locks| == |ids| && forall i :: 0 <= i < |locks| ==> LockAgrees(locks[i], i, ids, ts)
  }

  /** Two threads never hold the write lock of one account; a writer excludes the readers. */
  lemma WriterExcludes(locks: seq<RwLock>, ids: seq<int>, ts: seq<Thread>, i: nat, t: nat, u: nat)
    requires LockSound(locks, ids, ts) && i < |locks| && t < |ts| && u < |ts|
    requires HoldsWrite(ts[t], i, ids) && (HoldsWrite(ts[u], i, ids) || HoldsRead(ts[u], i))
    ensures t == u
  {
    assert LockAgrees(locks[i], i, ids, ts);
    assert IsWriter(locks[i], t);
    assert IsReader(locks[i], u) || IsWriter(locks[i], u);
  }

  // ---------- each step ----------

  /** A thread that holds lock `i` as before keeps the lock in agreement. */
  lemma LockFrame(l: RwLock, i: nat, ids: seq<int>, ts: seq<Thread>, k: nat, t: Thread)
    requires LockAgrees(l, i, ids, ts) && k < |ts|
    requires HoldsWrite(t, i, ids) <==> HoldsWrite(ts[k], i, ids)
    requires HoldsRead(t, i) <==> HoldsRead(ts[k], i)
    ensures LockAgrees(l, i, ids, ts[k := t])
  {
    hide HoldsWrite, HoldsRead;
    var ts' := ts[k := t];
    forall u: nat ensures IsWriter(l, u) <==> u < |ts'| && HoldsWrite(ts'[u], i, ids) {
      assert IsWriter(l, u) <==> u < |ts| && HoldsWrite(ts[u], i, ids);
    }
    forall u: nat ensures IsReader(l, u) <==> u < |ts'| && HoldsRead(ts'[u], i) {
      assert IsReader(l, u) <==> u < |ts| && HoldsRead(ts[u], i);
    }
  }

  lemma LocksFrame(locks: seq<RwLock>, ids: seq<int>, ts: seq<Thread>, k: nat, t: Thread)
    requires LockSound(locks, ids, ts) && k < |ts|
    requires forall i: nat :: (HoldsWrite(t, i, ids) <==> HoldsWrite(ts[k], i, ids)) && (HoldsRead(t, i) <==> HoldsRead(ts[k], i))
    ensures LockSound(locks, ids, ts[k := t])
  {
    hide HoldsWrite, HoldsRead, LockAgrees;
    forall i | 0 <= i < |locks| ensures LockAgrees(locks[i], i, ids, ts[k := t]) {
      LockFrame(locks[i], i, ids, ts, k, t);
    }
  }

  /** Thread `k` takes or drops lock `j`, and nothing else. */
  ghost predicate Switches(locks: seq<RwLock>, ids: seq<int>, k: nat, t: Thread, t': Thread, j: nat, l: RwLock)
    requires j < |locks|
  {
    && (forall i: nat :: i != j ==> (HoldsWrite(t', i, ids) <==> HoldsWrite(t, i, ids)))
    && (forall i: nat :: i != j ==> (HoldsRead(t', i) <==> HoldsRead(t, i)))
    && (forall u: nat :: u != k ==> (IsWriter(l, u) <==> IsWriter(locks[j], u)))
    && (forall u: nat :: u != k ==> (IsReader(l, u) <==> IsReader(locks[j], u)))
    && (IsWriter(l, k) <==> HoldsWrite(t', j, ids))
    && (IsReader(l, k) <==> HoldsRead(t', j))
    && (l.writer.Some? ==> l.readers == {})
  }

  lemma SwitchKeepsLocks(locks: seq<RwLock>, ids: seq<int>, ts: seq<Thread>, k: nat, t: Thread, j: nat, l: RwLock)
    requires LockSound(locks, ids, ts) && k < |ts| && j < |locks| && Switches(locks, ids, k, ts[k], t, j, l)
    ensures LockSound(locks[j := l], ids, ts[k := t])
  {
    hide HoldsWrite, HoldsRead, IsWriter, IsReader;
    var ts', locks' := ts[k := t], locks[j := l];
    forall i | 0 <= i < |locks| ensures LockAgrees(locks'[i], i, ids, ts') {
      assert LockAgrees(locks[i], i, ids, ts);
      if i != j {
        LockFrame(locks[i], i, ids, ts, k, t);
      } else {
        forall u: nat ensures IsWriter(l, u) <==> u < |ts'| && HoldsWrite(ts'[u], i, ids) {
          assert IsWriter(locks[i], u) <==> u < |ts| && HoldsWrite(ts[u], i, ids);
        }
        forall u: nat ensures IsReader(l, u) <==> u < |ts'| && HoldsRead(ts'[u], i) {
          assert IsReader(locks[i], u) <==> u < |ts| && HoldsRead(ts[u], i);
        }
      }
    }
  }

  /** The lock a locking step touches. */
  function Touched(t: Thread, ids: seq<int>): nat
    requires InLocking(t.pc) && t.src < |ids| && t.dst < |ids|
  {
    match t.pc
    case LockFirst => FirstLock(ids, t)
    case LockSecond => SecondLock(ids, t)
    case UnlockFirst => t.src
    case UnlockSecond => t.dst
  }

  lemma StepLockKeepsLocks(me: nat, ts: seq<Thread>, m: Shared)
    requires me < |ts| && Ready(ts[me], m) && InLocking(ts[me].pc)
    requires LockSound(m.locks, m.ids, ts) && BankCall(ts[me], m.ids)
    ensures var (t', m') := StepLock(me, ts[me], m); LockSound(m'.locks, m.ids, ts[me := t'])
  {
    var t := ts[me];
    var (t', m') := StepLock(me, t, m);
    var j := Touched(t, m.ids);
    LockStepSwitches(me, t, m, ts);
    SwitchKeepsLocks(m.locks, m.ids, ts, me, t', j, m'.locks[j]);
  }

  lemma LockStepSwitches(me: nat, t: Thread, m: Shared, ts: seq<Thread>)
    requires me < |ts| && ts[me] == t && Ready(t, m) && InLocking(t.pc)
    requires LockSound(m.locks, m.ids, ts) && BankCall(t, m.ids)
    ensures var (t', m') := StepLock(me, t, m);
            var j := Touched(t, m.ids);
            m'.locks == m.locks[j := m'.locks[j]] && Switches(m.locks, m.ids, me, t, t', j, m'.locks[j])
  {
    hide HoldsWrite, HoldsRead, StepLock, BankCall;
    var j := Touched(t, m.ids);
    StepLockHolding(me, t, m);
    StepLockCell(me, t, m);
    assert LockAgrees(m.locks[j], j, m.ids, ts);
    assert IsWriter(m.locks[j], me) <==> HoldsWrite(t, j, m.ids);
    assert IsReader(m.locks[j], me) <==> HoldsRead(t, j);
  }

  /** A lock step takes or drops exactly the lock it touches, by the thread's program points. */
  lemma StepLockHolding(me: nat, t: Thread, m: Shared)
    requires Ready(t, m) && InLocking(t.pc) && BankCall(t, m.ids)
    ensures var t' := StepLock(me, t, m).0;
            var j := Touched(t, m.ids);
            var read := CurrentOp(t).kind == Balance;
            var taking := t.pc.LockFirst? || t.pc.LockSecond?;
            && (forall i: nat :: i != j ==> (HoldsWrite(t', i, m.ids) <==> HoldsWrite(t, i, m.ids)))
            && (forall i: nat :: i != j ==> (HoldsRead(t', i) <==> HoldsRead(t, i)))
            && HoldsWrite(t', j, m.ids) == (!read && taking) && HoldsRead(t', j) == (read && taking)
            && HoldsWrite(t, j, m.ids) == (!read && !taking) && HoldsRead(t, j) == (read && !taking)
  {
  }

  /** What the step does to that lock. */
  lemma StepLockCell(me: nat, t: Thread, m: Shared)
    requires Ready(t, m) && InLocking(t.pc) && BankCall(t, m.ids)
    ensures var m' := StepLock(me, t, m).1;
            var j := Touched(t, m.ids);
            var read := CurrentOp(t).kind == Balance;
            && m'.locks == m.locks[j := m'.locks[j]]
            && (t.pc.LockFirst? || t.pc.LockSecond? ==>
                  m'.locks[j] == Acquire(me, m.locks[j], read) && if read then m.locks[j].writer.None? else WriteFree(m.locks[j]))
            && (t.pc.UnlockFirst? || t.pc.UnlockSecond? ==> m'.locks[j] == Release(me, m.locks[j], read))
  {
  }

  lemma StepKeepsLocks(me: nat, ts: seq<Thread>, m: Shared)
    requires me < |ts| && Ready(ts[me], m)
    requires LockSound(m.locks, m.ids, ts) && BankCall(ts[me], m.ids)
    ensures var (t', m') := ThreadStep(me, ts[me], m); LockSound(m'.locks, m.ids, ts[me := t'])
  {
    hide LockSound;
    var t := ts[me];
    if InLocking(t.pc) {
      StepLockKeepsLocks(me, ts, m);
    } else {
      OthersKeepHolding(me, t, m);
      LocksFrame(m.locks, m.ids, ts, me, ThreadStep(me, t, m).0);
    }
  }

  lemma OthersKeepHolding(me: nat, t: Thread, m: Shared)
    requires Ready(t, m) && !InLocking(t.pc) && BankCall(t, m.ids)
    ensures var (t', m') := ThreadStep(me, t, m);
            && m'.locks == m.locks
            && (forall i: nat :: HoldsWrite(t', i, m.ids) <==> HoldsWrite(t, i, m.ids))
            && (forall i: nat :: HoldsRead(t', i) <==> HoldsRead(t, i))
  {
    if InMoney(t.pc) {
      MoneyKeepsHolding(t, m);
    } else {
      OutsideHoldsNothing(t, m.ids);
      OutsideStaysOutside(me, t, m);
      OutsideHoldsNothing(ThreadStep(me, t, m).0, m.ids);
    }
  }

  lemma MoneyKeepsHolding(t: Thread, m: Shared)
    requires Ready(t, m) && InMoney(t.pc) && BankCall(t, m.ids)
    ensures var (t', m') := StepMoney(t, m);
            && m'.locks == m.locks
            && (forall i: nat :: HoldsWrite(t', i, m.ids) <==> HoldsWrite(t, i, m.ids))
            && (forall i: nat :: HoldsRead(t', i) <==> HoldsRead(t, i))
  {
  }

  lemma OutsideHoldsNothing(t: Thread, ids: seq<int>)
    requires !InBank(t.pc) || t.pc.LockFirst?
    ensures forall i: nat :: !HoldsWrite(t, i, ids) && !HoldsRead(t, i)
  {
  }

  lemma OutsideStaysOutside(me: nat, t: Thread, m: Shared)
    requires Ready(t, m) && !InBank(t.pc)
    ensures var (t', m') := ThreadStep(me, t, m); m'.locks == m.locks && (!InBank(t'.pc) || t'.pc.LockFirst?)
  {
    hide Find, SlotFrom, FreeSlotFrom;
  }

  // ---------- waiting ----------

  /** The lock a thread is about to take. */
  predicate Wants(t: Thread, i: nat, ids: seq<int>) {
    && t.src < |ids| && t.dst < |ids|
    && ((t.pc.LockFirst? && i == FirstLock(ids, t)) || (t.pc.LockSecond? && i == SecondLock(ids, t)))
  }

  /** Thread `t` waits for a lock that thread `u` holds. */
  ghost predicate WaitsFor(ids: seq<int>, ts: seq<Thread>, t: nat, u: nat) {
    && t < |ts| && u < |ts|
    && exists i: nat :: i < |ids| && Wants(ts[t], i, ids) && (HoldsWrite(ts[u], i, ids) || HoldsRead(ts[u], i))
  }

  /** A thread that waits while it holds a lock waits for a larger id than any it holds. */
  lemma WaitersClimb(ids: seq<int>, t: Thread, held: nat, wanted: nat)
    requires SoundIds(ids) && BankCall(t, ids) && held < |ids| && wanted < |ids|
    requires Wants(t, wanted, ids) && (HoldsWrite(t, held, ids) || HoldsRead(t, held))
    ensures ids[held] < ids[wanted]
  {
  }

  /** Along a chain of waits, once the first waiter is itself waited for, wanted ids strictly climb. */
  lemma {:induction false} ChainClimbs(ids: seq<int>, ts: seq<Thread>, chain: seq<nat>, first: nat, last: nat)
    requires SoundIds(ids) && forall k :: 0 <= k < |ts| ==> BankCall(ts[k], ids)
    requires |chain| >= 2
    requires forall k :: 0 <= k < |chain| - 1 ==> WaitsFor(ids, ts, chain[k], chain[k + 1])
    requires chain[0] < |ts| && first < |ids| && (HoldsWrite(ts[chain[0]], first, ids) || HoldsRead(ts[chain[0]], first))
    requires last < |ids| && chain[|chain| - 2] < |ts| && Wants(ts[chain[|chain| - 2]], last, ids)
    ensures ids[first] < ids[last]
  {
    assert WaitsFor(ids, ts, chain[0], chain[1]);
    var i: nat :| i < |ids| && Wants(ts[chain[0]], i, ids) && (HoldsWrite(ts[chain[1]], i, ids) || HoldsRead(ts[chain[1]], i));
    WaitersClimb(ids, ts[chain[0]], first, i);
    if |chain| > 2 {
      var rest := chain[1..];
      assert rest[|rest| - 2] == chain[|chain| - 2];
      forall k | 0 <= k < |rest| - 1 ensures WaitsFor(ids, ts, rest[k], rest[k + 1]) {
        assert WaitsFor(ids, ts, chain[k + 1], chain[k + 2]);
      }
      ChainClimbs(ids, ts, rest, i, last);
    }
  }

  /** No set of threads waits for each other in a ring. */
  lemma NoWaitCycle(ids: seq<int>, ts: seq<Thread>, ring: seq<nat>)
    requires SoundIds(ids) && forall k :: 0 <= k < |ts| ==> BankCall(ts[k], ids)
    requires |ring| > 0 && forall k :: 0 <= k < |ring| - 1 ==> WaitsFor(ids, ts, ring[k], ring[k + 1])
    ensures !WaitsFor(ids, ts, ring[|ring| - 1], ring[0])
  {
    if WaitsFor(ids, ts, ring[|ring| - 1], ring[0]) {
      var n := |ring| - 1;
      var i: nat :| i < |ids| && Wants(ts[ring[n]], i, ids) && (HoldsWrite(ts[ring[0]], i, ids) || HoldsRead(ts[ring[0]], i));
      var chain := ring + [ring[0]];
      assert chain[|chain| - 2] == ring[n];
      ChainClimbs(ids, ts, chain, i, i);
    }
  }

  function WantedId(t: Thread, ids: seq<int>): int {
    if t.src < |ids| && t.dst < |ids| then ids[SecondLock(ids, t)] else 0
  }

  /** Some lock holder, or the thread itself, can step whenever a thread stands at a lock. */
  lemma {:induction false} LockProgress(ts: seq<Thread>, m: Shared, k: nat, bound: int) returns (u: nat)
    requires SoundIds(m.ids) && (forall j :: 0 <= j < |ts| ==> BankCall(ts[j], m.ids))
    requires LockSound(m.locks, m.ids, ts) && |m.balances| == |m.ids|
    requires k < |ts| && (ts[k].pc.LockFirst? || ts[k].pc.LockSecond?)
    requires forall i :: 0 <= i < |m.ids| ==> m.ids[i] <= bound
    ensures u < |ts| && Ready(ts[u], m) && InBank(ts[u].pc)
    decreases (if ts[k].pc.LockFirst? then 1 else 0), bound - WantedId(ts[k], m.ids)
  {
    var t := ts[k];
    var i := if t.pc.LockFirst? then FirstLock(m.ids, t) else SecondLock(m.ids, t);
    if Ready(t, m) {
      u := k;
    } else {
      var h := HolderOf(m, ts, i);
      if ts[h].pc.LockSecond? {
        if t.pc.LockSecond? {
          assert FirstLock(m.ids, ts[h]) == i;
        }
        u := LockProgress(ts, m, h, bound);
      } else {
        u := h;
      }
    }
  }

  lemma HolderOf(m: Shared, ts: seq<Thread>, i: nat) returns (h: nat)
    requires LockSound(m.locks, m.ids, ts) && i < |m.locks| && !WriteFree(m.locks[i])
    ensures h < |ts| && (HoldsWrite(ts[h], i, m.ids) || HoldsRead(ts[h], i))
  {
    assert LockAgrees(m.locks[i], i, m.ids, ts);
    if m.locks[i].writer.Some? {
      h := m.locks[i].writer.value;
      assert IsWriter(m.locks[i], h);
    } else {
      h :| h in m.locks[i].readers;
      assert IsReader(m.locks[i], h);
    }
  }
}
