/** The running total, the bounds of every balance, and the clock, in every reachable state. */
module Conservation {
  import opened Common
  import opened Ledger
  import opened Pool
  import opened Engine
  import opened Weights
  import opened Locals
  import opened LockSafety
  import opened PoolSafety
  import opened Money
  import opened Safety

  /** Balances plus money in transit are the initial total plus the flow of the operations done so far. */
  lemma RunningTotal(i: Input, acts: seq<Action>)
    requires ValidInput(i) && Legal(Start(i), acts)
    ensures var s := Exec(Start(i), acts);
            Sum(s.shared.balances) + Total(InTransit, s.threads) == Sum(i.balances) + Total(ExternalFlow, s.threads)
  {
    hide PoolSound, LockSound, Local, Sum, Total;
    ReachableSound(i, acts);
  }

  // ---------- bounds ----------

  /** All non-negative deposit amounts of the trace. */
  function AllDeposits(txs: seq<Tx>): nat {
    if txs == [] then 0
    else
      var tx := txs[|txs| - 1];
      AllDeposits(txs[..|txs| - 1]) + DepositCapUpTo(tx.ops, |tx.ops|)
  }

  lemma {:induction false} CapMonotone(ops: seq<Operation>, n: nat, k: nat)
    requires n <= k <= |ops|
    ensures DepositCapUpTo(ops, n) <= DepositCapUpTo(ops, k)
  {
    if n < k {
      CapMonotone(ops, n, k - 1);
    }
  }

  /** Withdrawals that succeeded had a non-negative amount, so the flow is within the deposits. */
  lemma {:induction false} EffectWithinCap(ops: seq<Operation>, n: nat)
    requires n <= |ops|
    requires forall j :: 0 <= j < n && ops[j].kind == Withdraw ==> ops[j].amount >= 0
    ensures EffectUpTo(ops, n) <= DepositCapUpTo(ops, n)
  {
    if n > 0 {
      EffectWithinCap(ops, n - 1);
    }
  }

  /** Every withdrawal a thread has carried out had a non-negative amount. */
  predicate WithdrawalsReal(t: Thread) {
    && (forall j :: 0 <= j < t.op && j < |t.tx.ops| && t.tx.ops[j].kind == Withdraw ==> t.tx.ops[j].amount >= 0)
    && (TakenEffect(t) && Succeeded(t.pending) && CurrentOp(t).kind == Withdraw ==> CurrentOp(t).amount >= 0)
  }

  lemma StepKeepsWithdrawalsReal(me: nat, t: Thread, m: Shared)
    requires Ready(t, m) && Shape(t) && BankCall(t, m.ids) && WithdrawalsReal(t)
    ensures WithdrawalsReal(ThreadStep(me, t, m).0)
  {
    hide Find, FirstLock, SecondLock;
    if InMoney(t.pc) {
      MoneyKeepsWithdrawalsReal(t, m);
    } else if InLocking(t.pc) {
      LockKeepsWithdrawalsReal(me, t, m);
    } else {
      RestKeepsWithdrawalsReal(me, t, m);
    }
  }

  lemma MoneyKeepsWithdrawalsReal(t: Thread, m: Shared)
    requires Ready(t, m) && InMoney(t.pc) && BankCall(t, m.ids) && WithdrawalsReal(t)
    ensures WithdrawalsReal(StepMoney(t, m).0)
  {
  }

  lemma LockKeepsWithdrawalsReal(me: nat, t: Thread, m: Shared)
    requires Ready(t, m) && InLocking(t.pc) && BankCall(t, m.ids) && WithdrawalsReal(t)
    ensures WithdrawalsReal(StepLock(me, t, m).0)
  {
    hide FirstLock, SecondLock;
  }

  lemma RestKeepsWithdrawalsReal(me: nat, t: Thread, m: Shared)
    requires Ready(t, m) && !InMoney(t.pc) && !InLocking(t.pc) && WithdrawalsReal(t)
    ensures WithdrawalsReal(ThreadStep(me, t, m).0)
  {
    hide Find, SlotFrom, FreeSlotFrom;
  }

  lemma {:induction false} WithdrawalsAlwaysReal(i: Input, acts: seq<Action>, k: nat)
    requires ValidInput(i) && Legal(Start(i), acts) && k < |i.txs|
    ensures |Exec(Start(i), acts).threads| == |i.txs| && WithdrawalsReal(Exec(Start(i), acts).threads[k])
    decreases |acts|
  {
    hide PoolSound, LockSound, MoneySound, LoadedList, Lifecycle, Timing, BankCall, WithdrawalsReal, ThreadStep;
    ReachableSound(i, acts);
    if acts == [] {
      assert WithdrawalsReal(FreshThread(i.txs[k])) by { FreshWithdrawals(i.txs[k]); }
    } else {
      var n := |acts| - 1;
      WithdrawalsAlwaysReal(i, acts[..n], k);
      ReachableSound(i, acts[..n]);
      var s := Exec(Start(i), acts[..n]);
      if acts[n] == Step(k) {
        StepKeepsWithdrawalsReal(k, s.threads[k], s.shared);
      }
    }
  }

  lemma FreshWithdrawals(tx: Tx)
    ensures WithdrawalsReal(FreshThread(tx))
  {
  }

  lemma FlowWithinCap(t: Thread)
    requires Shape(t) && WithdrawalsReal(t)
    ensures Flow(t) <= DepositCapUpTo(t.tx.ops, |t.tx.ops|)
  {
    EffectWithinCap(t.tx.ops, t.op);
    CapMonotone(t.tx.ops, t.op, |t.tx.ops|);
    if t.op < |t.tx.ops| {
      CapMonotone(t.tx.ops, t.op + 1, |t.tx.ops|);
    }
  }

  lemma {:induction false} FlowsWithinDeposits(ts: seq<Thread>, txs: seq<Tx>)
    requires |ts| == |txs| && forall k :: 0 <= k < |ts| ==> ts[k].tx == txs[k] && Shape(ts[k]) && WithdrawalsReal(ts[k])
    ensures Total(ExternalFlow, ts) <= AllDeposits(txs)
  {
    hide WithdrawalsReal, Flow;
    if ts == [] {
    } else {
      var n := |ts| - 1;
      FlowsWithinDeposits(ts[..n], txs[..n]);
      FlowWithinCap(ts[n]);
    }
  }

  /** If the initial total and all non-negative deposits fit in an `int`, no reachable balance, nor any value
      a balance write stores, leaves [0, INT_MAX]; a balance query never sees a negative balance. */
  lemma BalancesInRange(i: Input, acts: seq<Action>)
    requires ValidInput(i) && Legal(Start(i), acts)
    requires Sum(i.balances) + AllDeposits(i.txs) <= INT_MAX
    ensures var s := Exec(Start(i), acts);
            && (forall j :: 0 <= j < |s.shared.balances| ==> 0 <= s.shared.balances[j] <= INT_MAX)
            && 0 <= Sum(s.shared.balances) <= INT_MAX
  {
    hide Sum, Total, Sound, Shape;
    ReachableSound(i, acts);
    var s := Exec(Start(i), acts);
    forall k | 0 <= k < |s.threads| ensures WithdrawalsReal(s.threads[k]) {
      WithdrawalsAlwaysReal(i, acts, k);
    }
    TotalWithinDeposits(i, s);
    SumBoundsTerm(s.shared.balances);
  }

  lemma TotalWithinDeposits(i: Input, s: State)
    requires Sound(s) && Fixed(i, s) && forall k :: 0 <= k < |s.threads| ==> WithdrawalsReal(s.threads[k])
    ensures Sum(s.shared.balances) <= Sum(i.balances) + AllDeposits(i.txs)
    ensures forall j :: 0 <= j < |s.shared.balances| ==> s.shared.balances[j] >= 0
  {
    hide Sum, Total, LockSound, PoolSound, LoadedList, Lifecycle, Timing, WithdrawalsReal;
    forall k | 0 <= k < |s.threads| ensures Shape(s.threads[k]) && Weight(InTransit, s.threads[k]) >= 0 {
      assert Local(s.threads[k], s.shared.ids, s.shared.clock);
    }
    FlowsWithinDeposits(s.threads, i.txs);
    TotalCovers(InTransit, s.threads);
  }

  /** A balance query on an existing account never aborts: what it reads is never negative. */
  lemma BalanceQueryNeverAborts(i: Input, acts: seq<Action>, k: nat)
    requires ValidInput(i) && Legal(Start(i), acts) && k < |i.txs|
    ensures var s := Exec(Start(i), acts);
            && |s.threads| == |i.txs|
            && ReadsSucceed(s.threads[k])
    decreases |acts|
  {
    hide PoolSound, LockSound, ThreadStep, LoadedList, Lifecycle, Timing, Shape;
    ReachableSound(i, acts);
    if acts == [] {
    } else {
      var n := |acts| - 1;
      BalanceQueryNeverAborts(i, acts[..n], k);
      ReachableSound(i, acts[..n]);
      var s := Exec(Start(i), acts[..n]);
      if acts[n] == Step(k) {
        ReadStep(k, s.threads[k], s.shared);
      }
    }
  }

  /** No query in progress has read a negative balance. */
  predicate ReadsSucceed(t: Thread) {
    TakenEffect(t) && CurrentOp(t).kind == Balance ==> Succeeded(t.pending)
  }

  lemma ReadStep(me: nat, t: Thread, m: Shared)
    requires Ready(t, m) && Shape(t) && LoadedList(t, m.ids) && BankCall(t, m.ids)
    requires forall j :: 0 <= j < |m.balances| ==> m.balances[j] >= 0
    requires ReadsSucceed(t)
    ensures ReadsSucceed(ThreadStep(me, t, m).0)
  {
    hide Find, FindFrom, FirstLock, SecondLock, LoadedList, Shape;
    if InMoney(t.pc) {
      assert ReadsSucceed(StepMoney(t, m).0) by { MoneyReads(t, m); }
    } else if t.pc.Enter? {
      EnterReads(t, m.ids);
    } else if InLocking(t.pc) {
      assert ReadsSucceed(StepLock(me, t, m).0) by { LockReads(me, t, m); }
    }
  }

  lemma MoneyReads(t: Thread, m: Shared)
    requires Ready(t, m) && InMoney(t.pc) && BankCall(t, m.ids)
    requires forall j :: 0 <= j < |m.balances| ==> m.balances[j] >= 0
    ensures ReadsSucceed(StepMoney(t, m).0)
  {
  }

  lemma LockReads(me: nat, t: Thread, m: Shared)
    requires Ready(t, m) && InLocking(t.pc) && BankCall(t, m.ids) && ReadsSucceed(t)
    ensures ReadsSucceed(StepLock(me, t, m).0)
  {
    hide FirstLock, SecondLock;
  }

  lemma EnterReads(t: Thread, ids: seq<int>)
    requires t.pc.Enter? && Shape(t) && LoadedList(t, ids)
    ensures ReadsSucceed(EnterCall(t, ids))
  {
    assert CurrentOp(t).account in UsedBy(CurrentOp(t));
  }

  // ---------- the clock ----------

  /** Finished transactions have start_tick <= actual_start <= actual_end <= now, and the clock stops only after all. */
  lemma ClockOrder(i: Input, acts: seq<Action>, k: nat)
    requires ValidInput(i) && Legal(Start(i), acts) && k < |i.txs|
    ensures var s := Exec(Start(i), acts);
            && |s.threads| == |i.txs|
            && (var t := s.threads[k];
                && (t.pc.Finished? ==>
                      i.txs[k].startTick <= t.actualStart <= t.actualEnd <= s.shared.clock
                      && t.waitTicks == t.actualStart - i.txs[k].startTick >= 0)
                && (!t.pc.Finished? ==> Enabled(s, Tick)))
  {
    hide PoolSound, LockSound, MoneySound, LoadedList, Lifecycle, BankCall;
    ReachableSound(i, acts);
    assert Timing(Exec(Start(i), acts).threads[k], Exec(Start(i), acts).shared.clock);
  }
}
