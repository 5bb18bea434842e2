/** What each thread keeps about its own fields, whatever the other threads do. */
module Locals {
  import opened Common
  import opened Ledger
  import opened Pool
  import opened Engine
  import opened Weights

  /** Inside the body of the operation loop. */
  predicate OnOp(pc: Pc) {
    InLoad(pc) || pc.Enter? || InBank(pc) || pc.Leave?
  }

  predicate Started(pc: Pc) {
    !pc.AwaitTick? && !pc.RecordStart?
  }

  /** The end has been recorded and the status settled. */
  predicate Ended(pc: Pc) {
    pc.Unload? || pc.AwaitFull? || pc.PostEmpty? || pc.Finished?
  }

  predicate Shape(t: Thread) {
    && t.op <= |t.tx.ops| <= MAX_OPS_PER_TX
    && (OnOp(t.pc) ==> t.op < |t.tx.ops|)
  }

  /** The loaded list has room for both accounts of every operation so far. */
  function LoadedRoom(t: Thread): nat {
    if !Started(t.pc) || t.pc.Finished? then 0
    else if t.pc.Dispatch? then 2 * t.op
    else if InLoad(t.pc) then 2 * t.op + if t.pc.second then 1 else 0
    else if OnOp(t.pc) then 2 * t.op + 2
    else 2 * |t.tx.ops|
  }

  predicate LoadedList(t: Thread, ids: seq<int>)
    requires Shape(t)
  {
    && Distinct(t.loaded)
    && (forall a :: a in t.loaded ==> a in ids && a in Used(t.tx))
    && |t.loaded| <= LoadedRoom(t)
    && (InLoad(t.pc) && t.pc.second ==> CurrentOp(t).kind == Transfer && CurrentOp(t).account in t.loaded)
    && (InPool(t.pc) ==> LoadTarget(t) in ids && LoadTarget(t) !in t.loaded)
    && (OnOp(t.pc) && !InLoad(t.pc) ==> forall a :: a in UsedBy(CurrentOp(t)) ==> a in t.loaded)
  }

  /** The pointers of a bank call are those of the operation's accounts, and each step fits the kind. */
  predicate BankCall(t: Thread, ids: seq<int>) {
    var op := CurrentOp(t);
    && (InBank(t.pc) ==>
          && t.src < |ids| && ids[t.src] == op.account
          && t.dst < |ids| && ids[t.dst] == (if op.kind == Transfer then op.target else op.account)
          && (if op.kind == Transfer then t.src != t.dst else t.src == t.dst)
          && (op.kind != Balance ==> op.amount >= 0))
    && (t.pc.LockSecond? || t.pc.UnlockSecond? ==> op.kind == Transfer)
    && (t.pc.Check? || t.pc.Debit? ==> op.kind == Withdraw || op.kind == Transfer)
    && (t.pc.Credit? ==> op.kind == Deposit || op.kind == Transfer)
    && (t.pc.Credit? && op.kind == Transfer ==> t.pending == Accepted)
    && (t.pc.ReadCell? ==> op.kind == Balance)
    && ((t.pc.UnlockFirst? || t.pc.UnlockSecond? || t.pc.Leave?) && op.kind == Deposit ==> t.pending == Accepted)
  }

  /** Why a transaction is aborted: an account it needs does not exist, or its last bank call failed. */
  predicate AbortReason(t: Thread, ids: seq<int>) {
    || (|t.results| == t.op && !KnownOp(CurrentOp(t), ids))
    || (|t.results| == t.op + 1 && !Succeeded(t.results[t.op])
        && KnownOp(CurrentOp(t), ids) && CurrentOp(t).kind != Deposit)
  }

  /** All accounts of the operation exist. */
  predicate KnownOp(op: Operation, ids: seq<int>) {
    forall a :: a in UsedBy(op) ==> a in ids
  }

  predicate Lifecycle(t: Thread, ids: seq<int>)
    requires Shape(t)
  {
    && t.op <= |t.results|
    && (forall j :: 0 <= j < t.op ==> Succeeded(t.results[j]) && KnownOp(t.tx.ops[j], ids))
    && (t.status != Aborted ==> |t.results| == t.op)
    && (t.status == Running <==> !Ended(t.pc) && !(t.pc.RecordEnd? && t.status == Aborted))
    && (t.status == Committed ==> t.op == |t.tx.ops|)
    && (t.pc.RecordEnd? && t.status == Running ==> t.op == |t.tx.ops|)
    && (t.status == Aborted ==> t.op < |t.tx.ops| && AbortReason(t, ids))
  }

  predicate Timing(t: Thread, clock: int) {
    && (!t.pc.AwaitTick? ==> t.tx.startTick <= clock)
    && (Started(t.pc) ==> t.tx.startTick <= t.actualStart <= clock && t.waitTicks == t.actualStart - t.tx.startTick)
    && (Ended(t.pc) ==> t.actualStart <= t.actualEnd <= clock)
  }

  predicate Local(t: Thread, ids: seq<int>, clock: int) {
    Shape(t) && LoadedList(t, ids) && BankCall(t, ids) && Lifecycle(t, ids) && Timing(t, clock)
  }

  predicate SoundIds(ids: seq<int>) {
    Distinct(ids) && forall i :: 0 <= i < |ids| ==> ids[i] >= 0
  }

  // ---------- each step keeps them ----------

  lemma {:induction false} UsedCovers(ops: seq<Operation>, n: nat, k: nat)
    requires k < n <= |ops|
    ensures UsedBy(ops[k]) <= UsedUpTo(ops, n)
  {
    if k < n - 1 {
      UsedCovers(ops, n - 1, k);
    }
  }

  /** All of `Local` but the loaded list. */
  predicate Books(t: Thread, ids: seq<int>, clock: int) {
    Shape(t) && BankCall(t, ids) && Lifecycle(t, ids) && Timing(t, clock)
  }

  /** Inside a bank call only the pointers, the pending outcome and the program point move. */
  lemma InsideCallKeepsLocal(t: Thread, t': Thread, ids: seq<int>, clock: int)
    requires Local(t, ids, clock)
    requires OnOp(t.pc) && !InLoad(t.pc) && OnOp(t'.pc) && !InLoad(t'.pc)
    requires t' == t.(pc := t'.pc, src := t'.src, dst := t'.dst, pending := t'.pending)
    requires BankCall(t', ids)
    ensures Local(t', ids, clock)
  {
  }

  lemma ScheduleKeepsList(t: Thread, m: Shared)
    requires Shape(t) && LoadedList(t, m.ids) && InSchedule(t.pc)
    ensures var t' := StepSchedule(t, m).0; Shape(t') && LoadedList(t', m.ids)
  {
    hide Used;
  }

  lemma ScheduleKeepsBooks(t: Thread, m: Shared)
    requires Ready(t, m) && Books(t, m.ids, m.clock) && InSchedule(t.pc)
    ensures Books(StepSchedule(t, m).0, m.ids, m.clock)
  {
    hide KnownOp, UsedBy;
  }

  lemma AppendKeepsList(t: Thread, ids: seq<int>)
    requires Shape(t) && LoadedList(t, ids) && InPool(t.pc)
    ensures Shape(Append(t)) && LoadedList(Append(t), ids)
  {
    UsedCovers(t.tx.ops, |t.tx.ops|, t.op);
  }

  lemma AppendKeepsBooks(t: Thread, ids: seq<int>, clock: int)
    requires Books(t, ids, clock) && InPool(t.pc)
    ensures Books(Append(t), ids, clock)
  {
  }

  lemma AfterLoadCheck(t: Thread, ids: seq<int>, clock: int)
    requires SoundIds(ids) && Local(t, ids, clock) && t.pc.LoadCheck?
    ensures |t.loaded| < MAX_LOADED_ACCOUNTS_PER_TX
    ensures LoadTarget(t) in t.loaded ==> Local(AfterLoad(t), ids, clock)
    ensures LoadTarget(t) !in ids ==> Local(Abort(t), ids, clock)
    ensures LoadTarget(t) in ids && LoadTarget(t) !in t.loaded ==> Local(t.(pc := Scan(t.pc.second)), ids, clock)
  {
    hide Used;
    if LoadTarget(t) !in ids {
      assert LoadTarget(t) in UsedBy(CurrentOp(Abort(t)));
    }
  }

  lemma LoadCheckKeepsLocal(t: Thread, m: Shared)
    requires SoundIds(m.ids) && Local(t, m.ids, m.clock) && t.pc.LoadCheck?
    ensures Local(StepLoad(t, m).0, m.ids, m.clock)
  {
    hide LoadedList, BankCall, Lifecycle, Timing, Shape;
    AfterLoadCheck(t, m.ids, m.clock);
  }

  lemma LoadKeepsLocal(t: Thread, m: Shared)
    requires Ready(t, m) && Local(t, m.ids, m.clock) && InPool(t.pc)
    ensures Local(StepLoad(t, m).0, m.ids, m.clock)
  {
    AppendKeepsList(t, m.ids);
    AppendKeepsBooks(t, m.ids, m.clock);
    var t' := StepLoad(t, m).0;
    if t' != Append(t) {
      WaitingKeepsLocal(t, t'.pc, m.ids, m.clock);
    }
  }

  lemma WaitingKeepsLocal(t: Thread, pc: Pc, ids: seq<int>, clock: int)
    requires Local(t, ids, clock) && InPool(t.pc) && InPool(pc) && pc.second == t.pc.second
    ensures Local(t.(pc := pc), ids, clock)
  {
  }

  lemma UnloadKeepsList(t: Thread, m: Shared)
    requires Ready(t, m) && Shape(t) && LoadedList(t, m.ids) && InUnload(t.pc)
    ensures var t' := StepUnload(t, m).0; Shape(t') && LoadedList(t', m.ids)
  {
    hide ReleaseSection, Used, UsedBy, CurrentOp, LoadTarget;
  }

  lemma UnloadKeepsBooks(t: Thread, m: Shared)
    requires Ready(t, m) && Books(t, m.ids, m.clock) && InUnload(t.pc)
    ensures Books(StepUnload(t, m).0, m.ids, m.clock)
  {
    hide SlotFrom, KnownOp, UsedBy;
  }

  lemma LockKeepsCall(me: nat, t: Thread, m: Shared)
    requires Ready(t, m) && BankCall(t, m.ids) && InLocking(t.pc)
    ensures BankCall(StepLock(me, t, m).0, m.ids)
  {
  }

  lemma MoneyKeepsCall(t: Thread, m: Shared)
    requires Ready(t, m) && BankCall(t, m.ids) && InMoney(t.pc)
    ensures BankCall(StepMoney(t, m).0, m.ids)
  {
  }

  lemma EnterKeepsCall(t: Thread, m: Shared)
    requires BankCall(t, m.ids) && t.pc.Enter?
    ensures BankCall(EnterCall(t, m.ids), m.ids)
  {
    hide FindFrom;
  }

  lemma LeaveKeepsList(t: Thread, ids: seq<int>)
    requires Shape(t) && LoadedList(t, ids) && t.pc.Leave?
    ensures var t' := LeaveCall(t); Shape(t') && LoadedList(t', ids)
  {
  }

  lemma LeaveKeepsBooks(t: Thread, ids: seq<int>, clock: int)
    requires Local(t, ids, clock) && t.pc.Leave?
    ensures Books(LeaveCall(t), ids, clock)
  {
  }

  /** The account table, the clock and all sizes are the same. */
  predicate SameSizes(m: Shared, m': Shared) {
    && m'.ids == m.ids && m'.clock == m.clock
    && |m'.locks| == |m.locks| && |m'.balances| == |m.balances| && |m'.pool.slots| == |m.pool.slots|
  }

  lemma LoadKeepsSizes(t: Thread, m: Shared)
    requires InLoad(t.pc) && (t.pc.AwaitPermit? ==> m.pool.emptySem > 0)
    ensures var (t', m') := StepLoad(t, m); t'.tx == t.tx && SameSizes(m, m')
  {
    hide Find, SlotFrom, FreeSlotFrom, LoadTarget;
  }

  lemma UnloadKeepsSizes(t: Thread, m: Shared)
    requires InUnload(t.pc) && (t.pc.AwaitFull? ==> m.pool.fullSem > 0)
    ensures var (t', m') := StepUnload(t, m); t'.tx == t.tx && SameSizes(m, m')
  {
    hide SlotFrom;
  }

  lemma LockKeepsSizes(me: nat, t: Thread, m: Shared)
    requires InLocking(t.pc) && PointersInRange(t, m)
    ensures var (t', m') := StepLock(me, t, m); t'.tx == t.tx && SameSizes(m, m')
  {
    hide CurrentOp, Acquire, Release;
  }

  lemma MoneyKeepsSizes(t: Thread, m: Shared)
    requires InMoney(t.pc) && PointersInRange(t, m)
    ensures var (t', m') := StepMoney(t, m); t'.tx == t.tx && SameSizes(m, m')
  {
    hide CurrentOp;
  }

  lemma CallKeepsTx(t: Thread, ids: seq<int>)
    requires t.pc.Enter? || t.pc.Leave?
    ensures StepCall(t, ids).tx == t.tx
  {
    hide Find, CurrentOp, Succeeded;
  }

  /** The transaction, the clock, the account table and all sizes are untouched by thread steps. */
  lemma StepKeepsSizes(me: nat, t: Thread, m: Shared)
    requires Ready(t, m)
    ensures var (t', m') := ThreadStep(me, t, m); t'.tx == t.tx && SameSizes(m, m')
  {
    hide StepLoad, StepUnload, StepLock, StepMoney, StepCall, FirstLock, SecondLock;
    if InLoad(t.pc) {
      LoadKeepsSizes(t, m);
    } else if InUnload(t.pc) {
      UnloadKeepsSizes(t, m);
    } else if InLocking(t.pc) {
      LockKeepsSizes(me, t, m);
    } else if InMoney(t.pc) {
      MoneyKeepsSizes(t, m);
    } else if !InSchedule(t.pc) {
      CallKeepsTx(t, m.ids);
    }
  }

  lemma StepKeepsLocal(me: nat, t: Thread, m: Shared)
    requires Ready(t, m) && SoundIds(m.ids) && Local(t, m.ids, m.clock)
    ensures var (t', m') := ThreadStep(me, t, m); Local(t', m.ids, m.clock)
  {
    hide LoadedList, BankCall, Lifecycle, Timing, Shape, FindFrom, FirstLock, SecondLock, SlotFrom, FreeSlotFrom;
    var t' := ThreadStep(me, t, m).0;
    if InSchedule(t.pc) {
      ScheduleKeepsList(t, m);
      ScheduleKeepsBooks(t, m);
    } else if t.pc.LoadCheck? {
      LoadCheckKeepsLocal(t, m);
    } else if InLoad(t.pc) {
      LoadKeepsLocal(t, m);
    } else if InUnload(t.pc) {
      UnloadKeepsList(t, m);
      UnloadKeepsBooks(t, m);
    } else if InLocking(t.pc) {
      LockKeepsCall(me, t, m);
      InsideCallKeepsLocal(t, t', m.ids, m.clock);
    } else if InMoney(t.pc) {
      MoneyKeepsCall(t, m);
      InsideCallKeepsLocal(t, t', m.ids, m.clock);
    } else if t.pc.Enter? {
      EnterKeepsCall(t, m);
      InsideCallKeepsLocal(t, t', m.ids, m.clock);
    } else {
      LeaveKeepsList(t, m.ids);
      LeaveKeepsBooks(t, m.ids, m.clock);
    }
  }
}
