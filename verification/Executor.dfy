/** The transaction executor as the program writes it, run with nobody else around, and what one
    transaction alone must compute whatever the schedule. */
module Executor {
  import opened Common
  import opened Ledger
  import opened Pool
  import opened Engine
  import opened Weights
  import opened Locals
  import opened PoolSafety
  import opened Safety
  import opened Linearizability
  import BankStore
  import PoolStore

  // ---------- the meaning of a transaction on its own ----------

  /** Balances, outcomes, and whether it has aborted. */
  datatype Outcomes = Outcomes(balances: seq<int>, results: seq<Outcome>, aborted: bool)

  /** At most the first `n` operations, stopping at the first one that names an unknown account or fails.
      Nothing is rolled back. */
  function RunAlone(ids: seq<int>, balances: seq<int>, ops: seq<Operation>, n: nat): (r: Outcomes)
    requires |ids| == |balances| && n <= |ops|
    ensures |r.balances| == |ids|
  {
    if n == 0 then Outcomes(balances, [], false)
    else
      var before := RunAlone(ids, balances, ops, n - 1);
      if before.aborted then before
      else if !KnownOp(ops[n - 1], ids) then before.(aborted := true)
      else
        PerformKeepsSize(ids, before.balances, ops[n - 1]);
        var (after, r) := Perform(ids, before.balances, ops[n - 1]);
        Outcomes(after, before.results + [r], !Succeeded(r))
  }

  lemma {:induction false} AbortedStays(ids: seq<int>, balances: seq<int>, ops: seq<Operation>, n: nat, k: nat)
    requires |ids| == |balances| && n <= k <= |ops| && RunAlone(ids, balances, ops, n).aborted
    ensures RunAlone(ids, balances, ops, k) == RunAlone(ids, balances, ops, n)
  {
    if n < k {
      AbortedStays(ids, balances, ops, n, k - 1);
    }
  }

  /** A faithful one-thread history that goes through the program in order is the run alone. */
  lemma {:induction false} HistoryIsRunAlone(ids: seq<int>, balances: seq<int>, ops: seq<Operation>, h: seq<Event>)
    requires |ids| == |balances| && |h| <= |ops| && Faithful(ids, balances, h)
    requires forall k :: 0 <= k < |h| ==> h[k].op == ops[k] && KnownOp(ops[k], ids)
    requires forall k :: 0 <= k < |h| - 1 ==> Succeeded(h[k].outcome)
    ensures var r := RunAlone(ids, balances, ops, |h|);
            && r.balances == Replay(ids, balances, h)
            && |r.results| == |h| && (forall k :: 0 <= k < |h| ==> r.results[k] == h[k].outcome)
            && (r.aborted <==> h != [] && !Succeeded(h[|h| - 1].outcome))
  {
    hide Perform, KnownOp, Succeeded;
    if h != [] {
      var n := |h| - 1;
      HistoryIsRunAlone(ids, balances, ops, h[..n]);
      assert forall k :: 0 <= k < n ==> h[..n][k] == h[k];
    }
  }

  lemma {:induction false} OneThreadOwnsAll(h: seq<Event>)
    requires forall k :: 0 <= k < |h| ==> h[k].thread == 0
    ensures Of(h, 0) == h
  {
    if h != [] {
      OneThreadOwnsAll(h[..|h| - 1]);
    }
  }

  lemma {:induction false} EventsOfThreads(i: Input, acts: seq<Action>)
    requires ValidInput(i) && Legal(Start(i), acts)
    ensures forall k :: 0 <= k < |History(Start(i), acts)| ==> History(Start(i), acts)[k].thread < |i.txs|
    decreases |acts|
  {
    hide Sound, ThreadStep, TakenEffect;
    if acts != [] {
      var n := |acts| - 1;
      EventsOfThreads(i, acts[..n]);
      ReachableSound(i, acts[..n]);
    }
  }

  /** A system with a single transaction, under every schedule that ends it, gives exactly the run alone. */
  lemma SingleTransactionExact(i: Input, acts: seq<Action>)
    requires ValidInput(i) && |i.txs| == 1 && Legal(Start(i), acts) && AllFinished(Exec(Start(i), acts))
    ensures var s := Exec(Start(i), acts);
            var r := RunAlone(i.ids, i.balances, i.txs[0].ops, |i.txs[0].ops|);
            && s.shared.balances == r.balances && |s.threads| == 1
            && s.threads[0].results == r.results
            && s.threads[0].status == if r.aborted then Aborted else Committed
  {
    hide Sound, Replay, Faithful, History, Exec, Of, RunAlone, KnownOp, Legal;
    var s, h := Exec(Start(i), acts), History(Start(i), acts);
    var ops := i.txs[0].ops;
    FinalBalancesSequential(i, acts);
    ReachableSound(i, acts);
    EventsOfThreads(i, acts);
    OneThreadOwnsAll(h);
    var t := s.threads[0];
    assert t.tx == i.txs[0];
    EndFacts(s);
    HistoryIsRunAlone(i.ids, i.balances, ops, h);
    if t.status == Aborted {
      if |h| == t.op {
        StopsAtUnknown(i.ids, i.balances, ops, t.op);
      }
      AbortedStays(i.ids, i.balances, ops, t.op + 1, |ops|);
    }
    assert RunAlone(i.ids, i.balances, ops, |ops|).results == t.results;
  }

  lemma StopsAtUnknown(ids: seq<int>, balances: seq<int>, ops: seq<Operation>, n: nat)
    requires |ids| == |balances| && n < |ops| && !KnownOp(ops[n], ids) && !RunAlone(ids, balances, ops, n).aborted
    ensures RunAlone(ids, balances, ops, n + 1) == RunAlone(ids, balances, ops, n).(aborted := true)
  {
  }

  lemma EndFacts(s: State)
    requires Sound(s) && |s.threads| == 1 && s.threads[0].pc.Finished?
    ensures var t := s.threads[0];
            && t.op <= |t.results| <= t.op + 1 && t.op <= |t.tx.ops|
            && (forall k :: 0 <= k < |t.results| && k < |t.tx.ops| ==> KnownOp(t.tx.ops[k], s.shared.ids))
            && (forall k :: 0 <= k < t.op ==> Succeeded(t.results[k]))
            && (if t.status == Committed then t.op == |t.tx.ops| == |t.results|
                else t.status == Aborted && t.op < |t.tx.ops|
                     && (if |t.results| == t.op then !KnownOp(t.tx.ops[t.op], s.shared.ids) else !Succeeded(t.results[t.op])))
  {
    hide PoolSound, LockSafety.LockSound, Money.MoneySound, LoadedList, BankCall, Timing, KnownOp;
  }

  // ---------- one holder of the pool ----------

  /** A thread that holds `loaded` and is nowhere inside the pool. */
  function Holder(loaded: seq<int>, pc: Pc, account: int): Thread {
    FreshThread(Tx(0, 0, [Operation(Balance, account, 0, -1)])).(loaded := loaded, pc := pc)
  }

  /** The pool is sound and `loaded` is exactly what is pinned. */
  ghost predicate PoolHolds(p: PoolState, ids: seq<int>, loaded: seq<int>) {
    PoolSound(p, ids, [Holder(loaded, Unload, 0)])
  }

  lemma SwapHolder(p: PoolState, ids: seq<int>, t: Thread, t': Thread)
    requires PoolSound(p, ids, [t]) && SameRole(t, t')
    ensures PoolSound(p, ids, [t'])
  {
    hide PoolSound;
    RoleFrame(p, ids, [t], 0, t');
    assert [t][0 := t'] == [t'];
  }

  lemma SingleHoldings(p: PoolState, ids: seq<int>, loaded: seq<int>, account: int)
    requires PoolHolds(p, ids, loaded)
    ensures account !in loaded ==> !Resident(p.slots, account)
    ensures p.emptySem + InUse(p.slots) == |p.slots| && p.fullSem == InUse(p.slots)
    ensures InUse(p.slots) <= |loaded| == PinSum(p.slots)
  {
    hide Total, InUse, PinSum;
    var t := Holder(loaded, Unload, 0);
    assert [t][..0] == [];
    forall m ensures Total(m, [t]) == Weight(m, t) {
      TotalOfOne(m, t);
    }
    UseWithinPins(p.slots);
    if account !in loaded && Resident(p.slots, account) {
      SlotPins(p, ids, [t], account);
    }
  }

  /** A distinct holder uses one slot per account. */
  lemma HoldsCount(p: PoolState, ids: seq<int>, loaded: seq<int>)
    requires PoolHolds(p, ids, loaded)
    ensures InUse(p.slots) == |loaded|
  {
    hide Total, InUse, PinSum;
    SingleHoldings(p, ids, loaded, 0);
    var t := Holder(loaded, Unload, 0);
    forall k | 0 <= k < |p.slots| ensures p.slots[k].pins <= if p.slots[k].inUse then 1 else 0 {
      TotalOfOne(PinsOn(p.slots[k].account), t);
    }
    SinglePinsWithinUse(p.slots);
  }

  lemma InsertAlone(p: PoolState, ids: seq<int>, loaded: seq<int>, account: int)
    requires PoolSound(p, ids, [Holder(loaded, Claiming(false), account)])
    requires account in ids && !Resident(p.slots, account)
    ensures var f := FreeSlot(p.slots);
            f < |p.slots| && (var q := Insert(p, f, account, Find(ids, account));
                              PoolHolds(q.(fullSem := q.fullSem + 1), ids, loaded + [account]))
  {
    hide PoolSound, Total, InUse, PinSum, FreeSlotFrom, SlotFrom, Resident;
    var t1 := Holder(loaded, Claiming(false), account);
    var t2 := Holder(loaded, PostFull(false), account);
    var t3 := Holder(loaded + [account], Unload, 0);
    InsertKeepsPool(p, ids, [t1], 0, t2, account);
    assert [t1][0 := t2] == [t2];
    var q := Insert(p, FreeSlot(p.slots), account, Find(ids, account));
    FullMoves(q, ids, [t2], 0, t3, q.fullSem + 1);
    assert [t2][0 := t3] == [t3];
  }

  /** Loading one more account alone: it waits exactly when the pool is full of the loader's own pins. */
  lemma LoadAloneHolds(p: PoolState, ids: seq<int>, loaded: seq<int>, account: int)
    requires PoolHolds(p, ids, loaded) && account in ids && account !in loaded
    ensures var (p', done) := PoolStore.LoadAlone(p, account, Find(ids, account));
            && |p'.slots| == |p.slots|
            && (done <==> |loaded| < |p.slots|)
            && (done ==> PoolHolds(p', ids, loaded + [account]))
            && (!done ==> p' == p)
  {
    hide PoolSound, Total, InUse, PinSum, FreeSlotFrom, SlotFrom;
    SingleHoldings(p, ids, loaded, account);
    HoldsCount(p, ids, loaded);
    if |loaded| < |p.slots| {
      var t0 := Holder(loaded, AwaitPermit(false), account);
      var t1 := Holder(loaded, Claiming(false), account);
      SwapHolder(p, ids, Holder(loaded, Unload, 0), t0);
      var p1 := p.(emptySem := p.emptySem - 1);
      PermitMoves(p, ids, [t0], 0, t1, p.emptySem - 1);
      assert [t0][0 := t1] == [t1];
      InsertAlone(p1, ids, loaded, account);
    }
  }

  /** Unloading the last account alone never waits. */
  lemma UnloadAloneHolds(p: PoolState, ids: seq<int>, loaded: seq<int>)
    requires PoolHolds(p, ids, loaded) && Distinct(loaded) && loaded != []
    ensures var last := |loaded| - 1;
            var (p', done) := PoolStore.UnloadAlone(p, loaded[last]);
            done && PoolHolds(p', ids, loaded[..last]) && |p'.slots| == |p.slots|
  {
    hide PoolSound, Total, InUse, PinSum, SlotFrom;
    var last := |loaded| - 1;
    var rest := loaded[..last];
    var t0 := Holder(loaded, Unload, 0);
    var (p1, freed) := ReleaseSection(p, loaded[last]);
    var t1 := Holder(rest, if freed then AwaitFull else Unload, 0);
    ReleaseKeepsPool(p, ids, [t0], 0, t1, loaded[last]);
    assert [t0][0 := t1] == [t1];
    if freed {
      FullCoversDebtors(p1, ids, [t1]);
      TotalOfOne(Debtors, t1);
      var t2 := Holder(rest, PostEmpty, 0);
      var t3 := Holder(rest, Unload, 0);
      FullMoves(p1, ids, [t1], 0, t2, p1.fullSem - 1);
      assert [t1][0 := t2] == [t2];
      var p2 := p1.(fullSem := p1.fullSem - 1);
      PermitMoves(p2, ids, [t2], 0, t3, p2.emptySem + 1);
      assert [t2][0 := t3] == [t3];
    }
  }

  /** Nothing held: the pool is as initialised, but for its counters. */
  lemma NothingHeld(p: PoolState, ids: seq<int>)
    requires PoolHolds(p, ids, [])
    ensures p == EmptyPool(|p.slots|).(loads := p.loads, unloads := p.unloads, peak := p.peak) && p.loads == p.unloads
  {
    hide Total, InUse, PinSum;
    HoldsCount(p, ids, []);
    SingleHoldings(p, ids, [], 0);
    InUseExtremes(p.slots);
    assert p.slots == seq(|p.slots|, i => FREE_SLOT);
  }

  lemma FreshPoolHolds(capacity: nat, ids: seq<int>)
    ensures PoolHolds(EmptyPool(capacity), ids, [])
  {
    hide Total, InUse, PinSum;
    EmptySlots(capacity);
    var t := Holder([], Unload, 0);
    forall m ensures Total(m, [t]) == Weight(m, t) {
      TotalOfOne(m, t);
    }
  }

  // ---------- a whole load or unload is its steps in a row ----------

  /** At most `n` steps of one load with nobody else stepping, until it is done or waits for a permit. */
  function LoadSteps(t: Thread, m: Shared, n: nat): (Thread, Shared)
    decreases n
  {
    if n == 0 || !InPool(t.pc) || (t.pc.AwaitPermit? && m.pool.emptySem == 0) then (t, m)
    else
      var (t', m') := StepLoad(t, m);
      LoadSteps(t', m', n - 1)
  }

  lemma LoadAloneIsSteps(t: Thread, m: Shared)
    requires t.pc.Scan?
    ensures var (p, done) := PoolStore.LoadAlone(m.pool, LoadTarget(t), Find(m.ids, LoadTarget(t)));
            var (t', m') := LoadSteps(t, m, 4);
            && m' == m.(pool := p)
            && (if done then !InPool(t'.pc) && t'.loaded == t.loaded + [LoadTarget(t)]
                else t' == t.(pc := AwaitPermit(t.pc.second)))
  {
    hide Find, SlotOf, ClaimSection, StepLoad, LoadSteps;
    var a := LoadTarget(t);
    ScanStep(t, m);
    assert LoadSteps(t, m, 4) == LoadSteps(StepLoad(t, m).0, StepLoad(t, m).1, 3) by { OneLoadStep(t, m, 4); }
    if SlotOf(m.pool.slots, a) < |m.pool.slots| {
      NoLoadStep(StepLoad(t, m).0, StepLoad(t, m).1, 3);
    } else if m.pool.emptySem == 0 {
      NoLoadStep(StepLoad(t, m).0, StepLoad(t, m).1, 3);
    } else {
      PermitSteps(t.(pc := AwaitPermit(t.pc.second)), m);
    }
  }

  lemma OneLoadStep(t: Thread, m: Shared, n: nat)
    requires n > 0 && InPool(t.pc) && !(t.pc.AwaitPermit? && m.pool.emptySem == 0)
    ensures LoadSteps(t, m, n) == LoadSteps(StepLoad(t, m).0, StepLoad(t, m).1, n - 1)
  {
    hide StepLoad;
  }

  lemma NoLoadStep(t: Thread, m: Shared, n: nat)
    requires !InPool(t.pc) || (t.pc.AwaitPermit? && m.pool.emptySem == 0)
    ensures LoadSteps(t, m, n) == (t, m)
  {
    hide StepLoad;
  }

  lemma ScanStep(t: Thread, m: Shared)
    requires t.pc.Scan?
    ensures var a := LoadTarget(t);
            var k := SlotOf(m.pool.slots, a);
            StepLoad(t, m) ==
              if k < |m.pool.slots| then (Append(t), m.(pool := Pin(m.pool, k)))
              else (t.(pc := AwaitPermit(t.pc.second)), m)
  {
    hide Find, SlotOf;
  }

  /** Permit, second section, post. */
  lemma PermitSteps(t: Thread, m: Shared)
    requires t.pc.AwaitPermit? && m.pool.emptySem > 0
    ensures var a := LoadTarget(t);
            var (claimed, claim) := ClaimSection(m.pool.(emptySem := m.pool.emptySem - 1), a, Find(m.ids, a));
            var p := if claim == Inserted then claimed.(fullSem := claimed.fullSem + 1)
                     else claimed.(emptySem := claimed.emptySem + 1);
            var (t', m') := LoadSteps(t, m, 3);
            m' == m.(pool := p) && !InPool(t'.pc) && t'.loaded == t.loaded + [a]
  {
    hide Find, ClaimSection, LoadSteps;
    var (t1, m1) := StepLoad(t, m);
    OneLoadStep(t, m, 3);
    var (t2, m2) := StepLoad(t1, m1);
    OneLoadStep(t1, m1, 2);
    OneLoadStep(t2, m2, 1);
    assert LoadTarget(t1) == LoadTarget(t) && LoadTarget(t2) == LoadTarget(t);
    var (t3, m3) := StepLoad(t2, m2);
    NoLoadStep(t3, m3, 0);
  }

  /** At most `n` steps of one unload with nobody else stepping, until it is done or waits for a full slot. */
  function UnloadSteps(t: Thread, m: Shared, n: nat): (Thread, Shared)
    decreases n
  {
    if n == 0 || !InUnload(t.pc) || (t.pc.AwaitFull? && m.pool.fullSem == 0) then (t, m)
    else
      var (t', m') := StepUnload(t, m);
      if t'.pc.Unload? then (t', m') else UnloadSteps(t', m', n - 1)
  }

  lemma UnloadAloneIsSteps(t: Thread, m: Shared)
    requires t.pc.Unload? && t.loaded != []
    ensures var last := |t.loaded| - 1;
            var (p, done) := PoolStore.UnloadAlone(m.pool, t.loaded[last]);
            var (t', m') := UnloadSteps(t, m, 3);
            m' == m.(pool := p) && t' == t.(loaded := t.loaded[..last], pc := if done then Unload else AwaitFull)
  {
    hide SlotOf;
    var (t1, m1) := StepUnload(t, m);
    if t1.pc.AwaitFull? && m1.pool.fullSem > 0 {
      var (t2, m2) := StepUnload(t1, m1);
      assert UnloadSteps(t1, m1, 2) == UnloadSteps(t2, m2, 1);
    }
  }

  // ---------- when a transaction alone hangs ----------

  /** With `held` pinned, one of the loads of `op` waits for ever: a known account finds the pool full. */
  predicate Blocks(held: set<int>, op: Operation, ids: seq<int>, slots: nat) {
    && op.account in ids
    && (|held + {op.account}| > slots
        || (op.kind == Transfer && op.target in ids && |held + {op.account, op.target}| > slots))
  }

  /** The transaction gets to an operation one of whose loads waits for ever. */
  predicate Hangs(ids: seq<int>, balances: seq<int>, ops: seq<Operation>, slots: nat)
    requires |ids| == |balances|
  {
    exists n :: 0 <= n < |ops| && !RunAlone(ids, balances, ops, n).aborted && Blocks(UsedUpTo(ops, n), ops[n], ids, slots)
  }

  /** A hang needs more distinct existing accounts than slots. */
  lemma HangNeedsAccounts(ids: seq<int>, balances: seq<int>, ops: seq<Operation>, slots: nat)
    requires |ids| == |balances| && Hangs(ids, balances, ops, slots)
    ensures |UsedUpTo(ops, |ops|) * Elements(ids)| > slots
  {
    hide RunAlone;
    var n :| 0 <= n < |ops| && !RunAlone(ids, balances, ops, n).aborted && Blocks(UsedUpTo(ops, n), ops[n], ids, slots);
    RunUsesKnown(ids, balances, ops, n);
    UsedGrows(ops, n + 1, |ops|);
    var more := if |UsedUpTo(ops, n) + {ops[n].account}| > slots then {ops[n].account} else {ops[n].account, ops[n].target};
    forall a | a in UsedUpTo(ops, n) + more ensures a in UsedUpTo(ops, |ops|) * Elements(ids) {
    }
    SubsetCount(UsedUpTo(ops, n) + more, UsedUpTo(ops, |ops|) * Elements(ids));
  }

  /** What has run so far has named existing accounts only. */
  lemma {:induction false} RunUsesKnown(ids: seq<int>, balances: seq<int>, ops: seq<Operation>, n: nat)
    requires |ids| == |balances| && n <= |ops| && !RunAlone(ids, balances, ops, n).aborted
    ensures UsedUpTo(ops, n) <= Elements(ids)
  {
    hide Perform;
    if n > 0 {
      RunUsesKnown(ids, balances, ops, n - 1);
    }
  }

  lemma {:induction false} UsedGrows(ops: seq<Operation>, n: nat, k: nat)
    requires n <= k <= |ops|
    ensures UsedUpTo(ops, n) <= UsedUpTo(ops, k)
  {
    if n < k {
      UsedGrows(ops, n, k - 1);
    }
  }

  lemma NothingRun(ids: seq<int>, balances: seq<int>, ops: seq<Operation>)
    requires |ids| == |balances|
    ensures RunAlone(ids, balances, ops, 0) == Outcomes(balances, [], false)
    ensures UsedUpTo(ops, 0) == Elements([]) == {} && Distinct<int>([])
  {
  }

  /** One operation more. */
  lemma NextRun(ids: seq<int>, balances: seq<int>, ops: seq<Operation>, n: nat)
    requires |ids| == |balances| && n < |ops| && !RunAlone(ids, balances, ops, n).aborted
    ensures UsedUpTo(ops, n + 1) == UsedUpTo(ops, n) + UsedBy(ops[n])
    ensures var before := RunAlone(ids, balances, ops, n);
            if !KnownOp(ops[n], ids) then RunAlone(ids, balances, ops, n + 1) == before.(aborted := true)
            else
              var (after, r) := Perform(ids, before.balances, ops[n]);
              RunAlone(ids, balances, ops, n + 1) == Outcomes(after, before.results + [r], !Succeeded(r))
  {
    hide Perform, KnownOp, UsedBy;
  }

  lemma HangsHere(ids: seq<int>, balances: seq<int>, ops: seq<Operation>, n: nat, slots: nat)
    requires |ids| == |balances| && n < |ops| && !RunAlone(ids, balances, ops, n).aborted
    requires Blocks(UsedUpTo(ops, n), ops[n], ids, slots)
    ensures Hangs(ids, balances, ops, slots)
  {
    hide Blocks, UsedUpTo, RunAlone;
  }

  lemma NeverHangs(ids: seq<int>, balances: seq<int>, ops: seq<Operation>, slots: nat)
    requires |ids| == |balances| && forall k :: 0 <= k < |ops| ==> !Blocks(UsedUpTo(ops, k), ops[k], ids, slots)
    ensures !Hangs(ids, balances, ops, slots)
  {
    hide Blocks, UsedUpTo, RunAlone;
  }

  /** An operation that fails ends the run: nothing later is reached, so nothing later hangs. */
  lemma StopsHere(ids: seq<int>, balances: seq<int>, ops: seq<Operation>, n: nat, slots: nat)
    requires |ids| == |balances| && n < |ops| && RunAlone(ids, balances, ops, n + 1).aborted
    requires forall k :: 0 <= k <= n ==> !Blocks(UsedUpTo(ops, k), ops[k], ids, slots)
    ensures RunAlone(ids, balances, ops, |ops|) == RunAlone(ids, balances, ops, n + 1)
    ensures !Hangs(ids, balances, ops, slots)
  {
    hide RunAlone, Blocks, UsedUpTo;
    AbortedStays(ids, balances, ops, n + 1, |ops|);
    forall k | n < k < |ops| ensures RunAlone(ids, balances, ops, k).aborted {
      AbortedStays(ids, balances, ops, n + 1, k);
    }
  }

  lemma BothOperands(held: set<int>, op: Operation)
    ensures held + {op.account, op.target} == held + {op.account} + {op.target}
  {
  }

  lemma HeldWithinPool(p: PoolState, ids: seq<int>, loaded: seq<int>)
    requires PoolHolds(p, ids, loaded)
    ensures |loaded| <= |p.slots|
  {
    hide PoolHolds, InUse;
    HoldsCount(p, ids, loaded);
    InUseExtremes(p.slots);
  }

  /** One more account among distinct ones. */
  lemma HeldCount(loaded: seq<int>, a: int)
    requires Distinct(loaded)
    ensures |Elements(loaded)| == |loaded|
    ensures |Elements(loaded) + {a}| == |loaded| + if a in loaded then 0 else 1
    ensures Elements(loaded) + {a} == Elements(if a in loaded then loaded else loaded + [a])
  {
    DistinctCount(loaded);
    assert forall b :: b in loaded + [a] <==> b in loaded || b == a;
    if a in loaded {
      assert Elements(loaded) + {a} == Elements(loaded);
    }
  }

  // ---------- the executor ----------

  /** The simulation clock. The timer thread ticks on its own, so any number of ticks may pass while the executor
      waits, works, or reads the clock. `readings` are the values it has read for the record. */
  class Clock {
    var now: int
    ghost var readings: seq<int>

    constructor ()
      ensures now == 0 && readings == []
    {
      now := 0;
      readings := [];
    }

    /** The timer runs for a while. */
    method Pass()
      modifies this`now
      ensures now >= old(now)
    {
      var ticks: int := *;
      if ticks > 0 {
        now := now + ticks;
      }
    }

    /** Reads the clock under its mutex. */
    method Read() returns (tick: int)
      modifies this
      ensures tick == now >= old(now) && readings == old(readings) + [tick]
    {
      Pass();
      tick := now;
      readings := readings + [tick];
    }

    /** `wait_until_tick`: sleeps through ticks until the target is reached; the waker may be late. */
    method WaitUntil(target: int)
      modifies this`now
      ensures now >= old(now) && now >= target
      ensures old(now) >= target ==> now == old(now)
    {
      while now < target
        invariant now >= old(now) && (old(now) >= target ==> now == old(now))
        decreases target - now
      {
        now := now + 1;
        Pass();
      }
    }
  }

  datatype Load = Loaded | Failed | Waits

  class Transaction {
    const id: int
    const startTick: int
    const ops: array<Operation>
    var numOps: nat
    var status: Status
    var actualStart: int
    var actualEnd: int
    var waitTicks: int

    ghost predicate Valid()
      reads this
    {
      ops.Length == MAX_OPS_PER_TX && numOps <= MAX_OPS_PER_TX
    }

    ghost function Ops(): seq<Operation>
      requires Valid()
      reads this, ops
    {
      ops[..numOps]
    }

    /** The transaction as the parser stored it: its operations in the fixed array, its record not yet filled in. */
    constructor (tx: Tx)
      requires |tx.ops| <= MAX_OPS_PER_TX
      ensures Valid() && fresh(ops) && Ops() == tx.ops && id == tx.id && startTick == tx.startTick
      ensures status == Running && actualStart == actualEnd == -1 && waitTicks == 0
    {
      id, startTick := tx.id, tx.startTick;
      ops := new Operation[MAX_OPS_PER_TX](k => if 0 <= k < |tx.ops| then tx.ops[k] else BLANK);
      numOps := |tx.ops|;
      status, actualStart, actualEnd, waitTicks := Running, -1, -1, 0;
    }

    /** `transaction_has_loaded_account`. */
    static method HasLoaded(loaded: array<int>, count: nat, account: int) returns (found: bool)
      requires count <= loaded.Length
      ensures found <==> account in loaded[..count]
    {
      for i := 0 to count
        invariant account !in loaded[..i]
      {
        if loaded[i] == account {
          return true;
        }
      }
      return false;
    }

    /** `load_account_for_transaction`: a loaded account is left alone, a full list or an unknown account fails, a
        new account is loaded and appended. */
    static method LoadFor(loaded: array<int>, count: nat, bank: BankStore.Bank, pool: PoolStore.BufferPool, account: int)
      returns (r: Load, count': nat)
      requires bank.Valid() && count <= loaded.Length == MAX_LOADED_ACCOUNTS_PER_TX
      requires loaded != pool.slots as object && Distinct(loaded[..count])
      requires forall a :: a in loaded[..count] ==> a in bank.Ids()
      requires PoolHolds(pool.State(), bank.Ids(), loaded[..count])
      requires bank.accounts != loaded as object && bank.accounts != pool.slots as object
      modifies loaded, pool, pool.slots
      ensures count <= count' <= count + 1 && count' <= loaded.Length && Distinct(loaded[..count'])
      ensures bank.Valid() && bank.Ids() == old(bank.Ids()) && bank.Balances() == old(bank.Balances())
      ensures PoolHolds(pool.State(), bank.Ids(), loaded[..count']) && pool.slots.Length == old(|pool.State().slots|)
      ensures r.Failed? <==>
                account !in old(loaded[..count]) && (count == MAX_LOADED_ACCOUNTS_PER_TX || account !in bank.Ids())
      ensures r.Waits? <==>
                account !in old(loaded[..count]) && count < MAX_LOADED_ACCOUNTS_PER_TX && account in bank.Ids()
                && count >= pool.slots.Length
      ensures loaded[..count'] == old(loaded[..count]) + if r.Loaded? && account !in old(loaded[..count]) then [account] else []
      ensures r.Loaded? ==> Elements(loaded[..count']) == Elements(old(loaded[..count])) + {account}
      ensures count < MAX_LOADED_ACCOUNTS_PER_TX ==>
                (r.Waits? <==>
                   account in bank.Ids() && |Elements(old(loaded[..count])) + {account}| > pool.slots.Length)
    {
      hide PoolHolds, PoolStore.LoadAlone, FindFrom, SoundBank, Elements;
      count' := count;
      ghost var before := loaded[..count];
      HeldWithinPool(pool.State(), bank.Ids(), before);
      HeldCount(before, account);
      var known := HasLoaded(loaded, count, account);
      if known {
        return Loaded, count;
      }
      if count >= MAX_LOADED_ACCOUNTS_PER_TX {
        return Failed, count;
      }
      var found := bank.GetAccount(account);
      if found.None? {
        return Failed, count;
      }
      LoadAloneHolds(pool.State(), bank.Ids(), before, account);
      var done := pool.LoadAccount(account, found);
      assert loaded[..count] == before;
      if !done {
        return Waits, count;
      }
      loaded[count] := account;
      count' := count + 1;
      assert loaded[..count'] == before + [account];
      r := Loaded;
    }

    /** `unload_transaction_accounts`: last to first. */
    static method UnloadAll(loaded: array<int>, count: nat, pool: PoolStore.BufferPool, ghost ids: seq<int>)
      requires count <= loaded.Length && Distinct(loaded[..count])
      requires loaded != pool.slots as object && PoolHolds(pool.State(), ids, loaded[..count])
      modifies pool, pool.slots
      ensures PoolHolds(pool.State(), ids, [])
    {
      var i := count;
      while i > 0
        invariant 0 <= i <= count && Distinct(loaded[..i])
        invariant PoolHolds(pool.State(), ids, loaded[..i])
      {
        UnloadAloneHolds(pool.State(), ids, loaded[..i]);
        assert loaded[..i][..i - 1] == loaded[..i - 1];
        var done := pool.UnloadAccount(loaded[i - 1]);
        i := i - 1;
      }
      assert loaded[..0] == [];
    }

    /** The bank call of one operation. */
    static method Call(bank: BankStore.Bank, op: Operation) returns (r: Outcome)
      requires bank.Valid()
      modifies bank.accounts
      ensures bank.Valid() && bank.Ids() == old(bank.Ids())
      ensures (bank.Balances(), r) == Perform(old(bank.Ids()), old(bank.Balances()), op)
    {
      match op.kind {
        case Deposit =>
          bank.Deposit(op.account, op.amount);
          r := Accepted;
        case Withdraw =>
          var ok := bank.Withdraw(op.account, op.amount);
          r := if ok then Accepted else Refused;
        case Transfer =>
          var ok := bank.Transfer(op.account, op.target, op.amount);
          r := if ok then Accepted else Refused;
        case Balance =>
          var balance := bank.GetBalance(op.account);
          r := Read(balance);
      }
    }

    /** The loads before a bank call: the account, and for a transfer the target. */
    static method LoadOperands(loaded: array<int>, count: nat, bank: BankStore.Bank, pool: PoolStore.BufferPool, op: Operation)
      returns (r: Load, count': nat)
      requires bank.Valid() && count + 1 < loaded.Length == MAX_LOADED_ACCOUNTS_PER_TX
      requires loaded != pool.slots as object && Distinct(loaded[..count])
      requires forall a :: a in loaded[..count] ==> a in bank.Ids()
      requires PoolHolds(pool.State(), bank.Ids(), loaded[..count])
      requires bank.accounts != loaded as object && bank.accounts != pool.slots as object
      modifies loaded, pool, pool.slots
      ensures count <= count' <= count + 2 && Distinct(loaded[..count'])
      ensures bank.Valid() && bank.Ids() == old(bank.Ids()) && bank.Balances() == old(bank.Balances())
      ensures PoolHolds(pool.State(), bank.Ids(), loaded[..count'])
      ensures r.Loaded? ==> Elements(loaded[..count']) == Elements(old(loaded[..count])) + UsedBy(op)
      ensures r.Waits? <==> Blocks(Elements(old(loaded[..count])), op, bank.Ids(), pool.slots.Length)
      ensures r.Failed? ==> !KnownOp(op, bank.Ids())
      ensures r.Loaded? ==> KnownOp(op, bank.Ids())
      ensures forall a :: a in loaded[..count'] ==> a in bank.Ids()
    {
      hide PoolHolds, SoundBank, Elements, Distinct;
      ghost var before := Elements(loaded[..count]);
      r, count' := LoadFor(loaded, count, bank, pool, op.account);
      if r.Loaded? && op.kind == Transfer {
        BothOperands(before, op);
        r, count' := LoadFor(loaded, count', bank, pool, op.target);
      }
    }

    /** The operation loop: stops at the first operation that hangs or fails. Meanwhile the timer runs. */
    method RunOps(loaded: array<int>, bank: BankStore.Bank, pool: PoolStore.BufferPool, clock: Clock)
      returns (end: Load, count: nat, results: seq<Outcome>)
      requires Valid() && bank.Valid() && PoolHolds(pool.State(), bank.Ids(), [])
      requires loaded.Length == MAX_LOADED_ACCOUNTS_PER_TX && loaded != pool.slots as object && loaded != bank.accounts as object
      requires ops as object != bank.accounts && ops as object != pool.slots && ops as object != loaded
      requires bank.accounts as object != pool.slots
      modifies loaded, bank.accounts, pool, pool.slots, clock`now
      ensures bank.Valid() && bank.Ids() == old(bank.Ids()) && Ops() == old(Ops()) && clock.now >= old(clock.now)
      ensures count <= loaded.Length && Distinct(loaded[..count]) && PoolHolds(pool.State(), bank.Ids(), loaded[..count])
      ensures end.Waits? <==> Hangs(old(bank.Ids()), old(bank.Balances()), Ops(), pool.slots.Length)
      ensures end.Waits? ==>
        && |results| < |Ops()|
        && RunAlone(old(bank.Ids()), old(bank.Balances()), Ops(), |results|) == Outcomes(bank.Balances(), results, false)
      ensures !end.Waits? ==>
        RunAlone(old(bank.Ids()), old(bank.Balances()), Ops(), |Ops()|) == Outcomes(bank.Balances(), results, end.Failed?)
    {
      hide PoolHolds, Perform, RunAlone, UsedUpTo, UsedBy, SoundBank, KnownOp, Blocks, Hangs, Elements, Distinct;
      ghost var ids, balances, program, slots := bank.Ids(), bank.Balances(), Ops(), pool.slots.Length;
      count := 0;
      results := [];
      assert loaded[..0] == [];
      NothingRun(ids, balances, program);
      for i := 0 to numOps
        invariant bank.Valid() && bank.Ids() == ids && Ops() == program && clock.now >= old(clock.now)
        invariant RunAlone(ids, balances, program, i) == Outcomes(bank.Balances(), results, false) && |results| == i
        invariant count <= 2 * i && Distinct(loaded[..count]) && PoolHolds(pool.State(), ids, loaded[..count])
        invariant Elements(loaded[..count]) == UsedUpTo(program, i) && forall a :: a in loaded[..count] ==> a in ids
        invariant forall n :: 0 <= n < i ==> !Blocks(UsedUpTo(program, n), program[n], ids, slots)
      {
        var op := ops[i];
        assert op == program[i];
        NextRun(ids, balances, program, i);
        clock.Pass();
        end, count := LoadOperands(loaded, count, bank, pool, op);
        if end.Waits? {
          HangsHere(ids, balances, program, i, slots);
          return;
        }
        if end.Failed? {
          StopsHere(ids, balances, program, i, slots);
          return;
        }
        var r := Call(bank, op);
        results := results + [r];
        if !Succeeded(r) {
          StopsHere(ids, balances, program, i, slots);
          return Failed, count, results;
        }
      }
      NeverHangs(ids, balances, program, slots);
      end := Loaded;
    }

    /** `execute_transaction` with nobody else around. It hangs exactly if the transaction gets to an operation with
        an account too many for the pool; otherwise it computes the run alone, records the times, settles
        the status, and leaves the pool as it found it. */
    method Execute(bank: BankStore.Bank, pool: PoolStore.BufferPool, clock: Clock) returns (hangs: bool, results: seq<Outcome>)
      requires Valid() && bank.Valid() && PoolHolds(pool.State(), bank.Ids(), [])
      requires ops as object != bank.accounts && ops as object != pool.slots && bank.accounts as object != pool.slots
      modifies this`status, this`actualStart, this`actualEnd, this`waitTicks, bank.accounts, pool, pool.slots, clock
      ensures Valid() && Ops() == old(Ops()) && bank.Valid() && bank.Ids() == old(bank.Ids())
      ensures old(clock.now) <= actualStart <= clock.now && waitTicks == actualStart - startTick >= 0
      ensures clock.readings == old(clock.readings) + if hangs then [actualStart] else [actualStart, actualEnd]
      ensures hangs <==> Hangs(old(bank.Ids()), old(bank.Balances()), Ops(), pool.slots.Length)
      ensures hangs ==>
        && status == Running && |results| < |Ops()|
        && RunAlone(old(bank.Ids()), old(bank.Balances()), Ops(), |results|) == Outcomes(bank.Balances(), results, false)
      ensures !hangs ==>
        var r := RunAlone(old(bank.Ids()), old(bank.Balances()), Ops(), |Ops()|);
        && bank.Balances() == r.balances && results == r.results
        && status == (if r.aborted then Aborted else Committed) && actualStart <= actualEnd == clock.now
        && PoolHolds(pool.State(), bank.Ids(), [])
    {
      hide PoolHolds, RunAlone, SoundBank, Hangs, Distinct, Elements, BankStore.IdsOf, BankStore.BalancesOf;
      var loaded := new int[MAX_LOADED_ACCOUNTS_PER_TX];
      clock.WaitUntil(startTick);
      actualStart := clock.Read();
      waitTicks := actualStart - startTick;
      status := Running;
      var end, count;
      end, count, results := RunOps(loaded, bank, pool, clock);
      hangs := end.Waits?;
      if !hangs {
        actualEnd := clock.Read();
        status := if end.Failed? then Aborted else Committed;
        UnloadAll(loaded, count, pool, bank.Ids());
      }
    }
  }

  /** The whole life of one transaction: a new pool, the run, and an empty pool again. */
  method RunInNewPool(tx: Tx, bank: BankStore.Bank, clock: Clock)
    returns (t: Transaction, pool: PoolStore.BufferPool, hangs: bool, results: seq<Outcome>)
    requires |tx.ops| <= MAX_OPS_PER_TX && bank.Valid()
    modifies bank.accounts, clock
    ensures fresh(t) && fresh(pool) && bank.Valid() && bank.Ids() == old(bank.Ids())
    ensures |Used(tx) * Elements(bank.Ids())| <= PoolStore.BUFFER_POOL_SIZE ==> !hangs
    ensures !hangs ==>
      var r := RunAlone(old(bank.Ids()), old(bank.Balances()), tx.ops, |tx.ops|);
      && bank.Balances() == r.balances && results == r.results
      && t.status == (if r.aborted then Aborted else Committed)
      && tx.startTick <= t.actualStart <= t.actualEnd == clock.now
      && clock.readings == old(clock.readings) + [t.actualStart, t.actualEnd]
      && (forall k :: 0 <= k < pool.slots.Length ==> pool.slots[k] == FREE_SLOT)
      && pool.emptySem == pool.slots.Length == PoolStore.BUFFER_POOL_SIZE && pool.fullSem == 0
      && pool.currentUsage == 0 && pool.loadCount == pool.unloadCount
  {
    hide PoolHolds, RunAlone, Hangs;
    pool := new PoolStore.BufferPool();
    assert pool.slots.Length == |pool.State().slots| == PoolStore.BUFFER_POOL_SIZE;
    t := new Transaction(tx);
    FreshPoolHolds(PoolStore.BUFFER_POOL_SIZE, bank.Ids());
    ghost var ids, balances := bank.Ids(), bank.Balances();
    hangs, results := t.Execute(bank, pool, clock);
    if hangs {
      HangNeedsAccounts(ids, balances, tx.ops, PoolStore.BUFFER_POOL_SIZE);
    } else {
      NothingHeld(pool.State(), bank.Ids());
      assert |pool.State().slots| == pool.slots.Length;
      assert forall k :: 0 <= k < pool.slots.Length ==> pool.slots[k] == pool.State().slots[k];
    }
  }
}
