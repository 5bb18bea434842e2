/** Runs are bounded, and without a jam they end all transactions. */
module Termination {
  import opened Common
  import opened Ledger
  import opened Pool
  import opened Engine
  import opened Weights
  import opened Locals
  import opened PoolSafety
  import opened LockSafety
  import opened Safety
  import opened Jams

  lemma LoadUsesWork(t: Thread, m: Shared)
    requires Ready(t, m) && InLoad(t.pc) && Shape(t)
    requires t.pc.second ==> CurrentOp(t).kind == Transfer
    ensures 0 <= StepsLeft(StepLoad(t, m).0) < StepsLeft(t)
  {
    hide Find;
  }

  lemma BankUsesWork(me: nat, t: Thread, m: Shared)
    requires Ready(t, m) && (InLocking(t.pc) || InMoney(t.pc)) && Shape(t) && BankCall(t, m.ids)
    ensures 0 <= StepsLeft(ThreadStep(me, t, m).0) < StepsLeft(t)
  {
    hide FirstLock, SecondLock, StepsLeft, StepMoney, StepLock, BankCall;
    if InMoney(t.pc) {
      MoneyUsesWork(t, m);
    } else {
      LockUsesWork(me, t, m);
    }
  }

  lemma MoneyUsesWork(t: Thread, m: Shared)
    requires Ready(t, m) && InMoney(t.pc) && Shape(t)
    ensures 0 <= StepsLeft(StepMoney(t, m).0) < StepsLeft(t)
  {
  }

  lemma LockUsesWork(me: nat, t: Thread, m: Shared)
    requires Ready(t, m) && InLocking(t.pc) && Shape(t) && BankCall(t, m.ids)
    ensures 0 <= StepsLeft(StepLock(me, t, m).0) < StepsLeft(t)
  {
    hide FirstLock, SecondLock;
  }

  lemma ScheduleUsesWork(t: Thread, m: Shared)
    requires Ready(t, m) && InSchedule(t.pc) && Shape(t) && LoadedList(t, m.ids)
    ensures 0 <= StepsLeft(StepSchedule(t, m).0) < StepsLeft(t)
  {
    hide Used, UsedBy, Distinct;
  }

  lemma UnloadUsesWork(t: Thread, m: Shared)
    requires Ready(t, m) && InUnload(t.pc)
    ensures 0 <= StepsLeft(StepUnload(t, m).0) < StepsLeft(t)
  {
    hide SlotFrom;
  }

  lemma CallUsesWork(t: Thread, ids: seq<int>)
    requires (t.pc.Enter? || t.pc.Leave?) && Shape(t)
    ensures 0 <= StepsLeft(StepCall(t, ids)) < StepsLeft(t)
  {
    hide Find;
  }

  /** Every step of a thread uses up some of its remaining work. */
  lemma StepUsesWork(me: nat, t: Thread, m: Shared)
    requires Ready(t, m) && Local(t, m.ids, m.clock)
    ensures 0 <= StepsLeft(ThreadStep(me, t, m).0) < StepsLeft(t)
  {
    hide StepsLeft, ThreadStep, StepLoad, StepSchedule, StepUnload, StepCall;
    if InLoad(t.pc) {
      assert ThreadStep(me, t, m) == StepLoad(t, m) by { StepPart(me, t, m); }
      LoadUsesWork(t, m);
    } else if InLocking(t.pc) || InMoney(t.pc) {
      BankUsesWork(me, t, m);
    } else if InSchedule(t.pc) {
      assert ThreadStep(me, t, m) == StepSchedule(t, m) by { StepPart(me, t, m); }
      ScheduleUsesWork(t, m);
    } else if InUnload(t.pc) {
      assert ThreadStep(me, t, m) == StepUnload(t, m) by { StepPart(me, t, m); }
      UnloadUsesWork(t, m);
    } else {
      assert ThreadStep(me, t, m).0 == StepCall(t, m.ids) by { StepPart(me, t, m); }
      CallUsesWork(t, m.ids);
    }
  }

  /** The part of the step function that a program point uses. */
  lemma StepPart(me: nat, t: Thread, m: Shared)
    requires Ready(t, m)
    ensures InLoad(t.pc) ==> ThreadStep(me, t, m) == StepLoad(t, m)
    ensures InSchedule(t.pc) ==> ThreadStep(me, t, m) == StepSchedule(t, m)
    ensures InUnload(t.pc) ==> ThreadStep(me, t, m) == StepUnload(t, m)
    ensures t.pc.Enter? || t.pc.Leave? ==> ThreadStep(me, t, m).0 == StepCall(t, m.ids)
  {
  }

  lemma WorkIsNatural(t: Thread)
    requires Shape(t)
    ensures StepsLeft(t) >= 0
  {
  }

  function StepsIn(acts: seq<Action>): nat {
    if acts == [] then 0
    else StepsIn(acts[..|acts| - 1]) + if acts[|acts| - 1].Step? then 1 else 0
  }

  /** A run takes at most 26 steps per operation and 5 per transaction, whatever the schedule. */
  lemma {:induction false} StepsBounded(i: Input, acts: seq<Action>)
    requires ValidInput(i) && Legal(Start(i), acts)
    ensures StepsIn(acts) + Total(Remaining, Exec(Start(i), acts).threads) <= Total(Remaining, Start(i).threads)
    ensures Total(Remaining, Exec(Start(i), acts).threads) >= 0
    decreases |acts|
  {
    hide PoolSound, LockSound, Total, LoadedList, BankCall, Lifecycle, Timing, StepsLeft, ThreadStep;
    var s' := Exec(Start(i), acts);
    ReachableSound(i, acts);
    forall k | 0 <= k < |s'.threads| ensures Weight(Remaining, s'.threads[k]) >= 0 {
      WorkIsNatural(s'.threads[k]);
    }
    TotalCovers(Remaining, s'.threads);
    if acts != [] {
      var n := |acts| - 1;
      StepsBounded(i, acts[..n]);
      ReachableSound(i, acts[..n]);
      WorkDrops(Exec(Start(i), acts[..n]), acts[n]);
    }
  }

  lemma WorkDrops(s: State, a: Action)
    requires Sound(s) && Enabled(s, a)
    ensures Total(Remaining, Apply(s, a).threads) <= Total(Remaining, s.threads) - if a.Step? then 1 else 0
  {
    hide PoolSound, LockSound, Total, LoadedList, BankCall, Lifecycle, Timing, StepsLeft, ThreadStep;
    if a.Step? {
      StepUsesWork(a.thread, s.threads[a.thread], s.shared);
      TotalUpdate(Remaining, s.threads, a.thread, ThreadStep(a.thread, s.threads[a.thread], s.shared).0);
    }
  }

  function StartWork(txs: seq<Tx>): nat {
    if txs == [] then 0 else StartWork(txs[..|txs| - 1]) + STEPS_PER_OP * |txs[|txs| - 1].ops| + 5
  }

  lemma {:induction false} StartWorkIs(ts: seq<Thread>, txs: seq<Tx>)
    requires |ts| == |txs| && forall k :: 0 <= k < |ts| ==> ts[k] == FreshThread(txs[k])
    ensures Total(Remaining, ts) == StartWork(txs)
  {
    if ts == [] {
    } else {
      StartWorkIs(ts[..|ts| - 1], txs[..|txs| - 1]);
    }
  }

  /** No run has more thread steps than this; and where no thread can step although every start tick has
      passed, all transactions have ended. So every run that keeps ticking and stepping ends them all. */
  lemma RunsEnd(i: Input, acts: seq<Action>)
    requires ValidInput(i) && Legal(Start(i), acts) && !JamPossible(i)
    ensures StepsIn(acts) <= StartWork(i.txs)
    ensures var s := Exec(Start(i), acts);
            (forall k :: 0 <= k < |i.txs| ==> i.txs[k].startTick <= s.shared.clock)
            && (forall k: nat :: !Enabled(s, Step(k)))
            ==> AllFinished(s)
  {
    hide Total, Sound, JamPossible, StepsIn, StartWork, Exec, Legal;
    StepsBounded(i, acts);
    StartWorkIs(Start(i).threads, i.txs);
    NeverStuckWithoutJam(i, acts);
    ReachableSound(i, acts);
    var s := Exec(Start(i), acts);
    LockCount(s);
    if (forall k :: 0 <= k < |i.txs| ==> i.txs[k].startTick <= s.shared.clock) && (forall k: nat :: !Enabled(s, Step(k))) {
      forall k | 0 <= k < |s.threads| ensures !Ready(s.threads[k], s.shared) {
        assert !Enabled(s, Step(k));
      }
    }
  }

  /** From every reachable state some continuation ends all transactions. */
  lemma {:induction false} CanFinish(i: Input, acts: seq<Action>) returns (more: seq<Action>)
    requires ValidInput(i) && Legal(Start(i), acts) && !JamPossible(i)
    ensures Legal(Start(i), acts + more) && AllFinished(Exec(Start(i), acts + more))
    decreases WorkLeft(i, acts), TicksLeft(i.txs, Exec(Start(i), acts).shared.clock)
  {
    hide Sound, Total, JamPossible, Ready, ThreadStep, Exec, Legal;
    var s := Exec(Start(i), acts);
    ReachableSound(i, acts);
    if AllFinished(s) {
      more := [];
      assert acts + more == acts;
    } else {
      NeverStuckWithoutJam(i, acts);
      var k: nat :| k < |s.threads| && !s.threads[k].pc.Finished? && (s.threads[k].pc.AwaitTick? || Ready(s.threads[k], s.shared));
      var a := if Ready(s.threads[k], s.shared) then Step(k) else Tick;
      assert Enabled(s, a) by { CanAct(s, k); }
      Extend(i, acts, a);
      WorkGoesDown(i, acts, a, k);
      var rest := CanFinish(i, acts + [a]);
      more := [a] + rest;
      assert acts + more == acts + [a] + rest;
    }
  }

  lemma CanAct(s: State, k: nat)
    requires Sound(s) && k < |s.threads| && !s.threads[k].pc.Finished?
    ensures Enabled(s, if Ready(s.threads[k], s.shared) then Step(k) else Tick)
  {
  }

  lemma Extend(i: Input, acts: seq<Action>, a: Action)
    requires Legal(Start(i), acts) && Enabled(Exec(Start(i), acts), a)
    ensures Legal(Start(i), acts + [a])
    ensures Exec(Start(i), acts + [a]) == Apply(Exec(Start(i), acts), a)
  {
    hide Apply, Enabled;
    assert (acts + [a])[..|acts|] == acts;
  }

  ghost function WorkLeft(i: Input, acts: seq<Action>): nat
    requires ValidInput(i) && Legal(Start(i), acts)
  {
    StepsBounded(i, acts);
    Total(Remaining, Exec(Start(i), acts).threads)
  }

  /** Ticks until the last start tick. */
  function TicksLeft(txs: seq<Tx>, clock: int): nat {
    if txs == [] then 0
    else
      var tx := txs[|txs| - 1];
      TicksLeft(txs[..|txs| - 1], clock) + if tx.startTick > clock then tx.startTick - clock else 0
  }

  lemma {:induction false} TickHelps(txs: seq<Tx>, clock: int, k: nat)
    requires k <= |txs|
    ensures TicksLeft(txs, clock + 1) <= TicksLeft(txs, clock)
    ensures k < |txs| && txs[k].startTick > clock ==> TicksLeft(txs, clock + 1) < TicksLeft(txs, clock)
  {
    if txs != [] {
      var n := |txs| - 1;
      TickHelps(txs[..n], clock, if k < n then k else n);
    }
  }

  lemma WorkGoesDown(i: Input, acts: seq<Action>, a: Action, k: nat)
    requires ValidInput(i) && Legal(Start(i), acts) && Legal(Start(i), acts + [a])
    requires var s := Exec(Start(i), acts);
             && Enabled(s, a) && Exec(Start(i), acts + [a]) == Apply(s, a)
             && k < |s.threads| && (a == Step(k) || (a == Tick && s.threads[k].pc.AwaitTick? && !Ready(s.threads[k], s.shared)))
    ensures var clock, clock' := Exec(Start(i), acts).shared.clock, Exec(Start(i), acts + [a]).shared.clock;
            || WorkLeft(i, acts + [a]) < WorkLeft(i, acts)
            || (WorkLeft(i, acts + [a]) <= WorkLeft(i, acts) && TicksLeft(i.txs, clock') < TicksLeft(i.txs, clock))
  {
    hide Total, ThreadStep, Exec, Legal;
    ReachableSound(i, acts);
    var s := Exec(Start(i), acts);
    assert Sound(s);
    LockCount(s);
    WorkDrops(s, a);
    if a == Tick {
      TickHelps(i.txs, s.shared.clock, k);
    }
  }
}
