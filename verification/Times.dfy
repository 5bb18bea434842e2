/** The clock of a run, and the ticks that transactions record from it. */
module Times {
  import opened Ledger
  import opened Engine
  import opened Locals
  import opened PoolSafety
  import opened LockSafety
  import opened Money
  import opened Safety

  // ---------- the clock ----------

  function TicksIn(acts: seq<Action>): nat {
    if acts == [] then 0 else TicksIn(acts[..|acts| - 1]) + if acts[|acts| - 1].Tick? then 1 else 0
  }

  /** The clock shows how often the timer has ticked. */
  lemma {:induction false} ClockCountsTicks(i: Input, acts: seq<Action>)
    requires Legal(Start(i), acts)
    ensures Exec(Start(i), acts).shared.clock == TicksIn(acts)
    decreases |acts|
  {
    hide ThreadStep;
    if acts != [] {
      var n := |acts| - 1;
      ClockCountsTicks(i, acts[..n]);
      var s := Exec(Start(i), acts[..n]);
      if acts[n].Step? {
        StepKeepsSizes(acts[n].thread, s.threads[acts[n].thread], s.shared);
      }
    }
  }

  /** `main` can stop the timer as soon as all transactions have ended, and not before; from then on nothing moves. */
  lemma StopIsFinal(i: Input, acts: seq<Action>, a: Action)
    requires ValidInput(i) && Legal(Start(i), acts)
    ensures var s := Exec(Start(i), acts);
            && (Enabled(s, Stop) <==> s.running && AllFinished(s))
            && (!s.running ==> AllFinished(s) && !Enabled(s, a))
            && (s.running ==> Enabled(s, Tick))
  {
    hide PoolSound, LockSound, MoneySound, Local;
    ReachableSound(i, acts);
  }

  // ---------- recorded ticks ----------

  /** A step that starts or ends the transaction records the clock; no step changes what has been recorded. */
  lemma StepRecords(me: nat, t: Thread, m: Shared)
    requires Ready(t, m)
    ensures var t' := ThreadStep(me, t, m).0;
            && (Started(t.pc) ==> Started(t'.pc) && t'.actualStart == t.actualStart)
            && (!Started(t.pc) && Started(t'.pc) ==> t'.actualStart == m.clock)
            && (Ended(t.pc) ==> Ended(t'.pc) && t'.actualEnd == t.actualEnd)
            && (!Ended(t.pc) && Ended(t'.pc) ==> t'.actualEnd == m.clock)
  {
    hide StepLoad, StepUnload, StepLock, StepMoney, StepCall, FirstLock, SecondLock;
    if InLoad(t.pc) {
      LoadRecordsNothing(t, m);
    } else if InUnload(t.pc) {
      UnloadRecordsNothing(t, m);
    } else if InLocking(t.pc) {
      LockRecordsNothing(me, t, m);
    } else if InMoney(t.pc) {
      MoneyRecordsNothing(t, m);
    } else if !InSchedule(t.pc) {
      CallRecordsNothing(t, m.ids);
    }
  }

  /** Inside the transaction, before its end, nothing is recorded. */
  predicate Undisturbed(t: Thread, t': Thread) {
    && Started(t.pc) && Started(t'.pc) && !Ended(t.pc) && !Ended(t'.pc)
    && t'.actualStart == t.actualStart
  }

  lemma LoadRecordsNothing(t: Thread, m: Shared)
    requires InLoad(t.pc) && (t.pc.AwaitPermit? ==> m.pool.emptySem > 0)
    ensures Undisturbed(t, StepLoad(t, m).0)
  {
    hide Find, LoadTarget;
  }

  lemma UnloadRecordsNothing(t: Thread, m: Shared)
    requires InUnload(t.pc) && (t.pc.AwaitFull? ==> m.pool.fullSem > 0)
    ensures var t' := StepUnload(t, m).0; Ended(t'.pc) && t'.actualStart == t.actualStart && t'.actualEnd == t.actualEnd
  {
  }

  lemma LockRecordsNothing(me: nat, t: Thread, m: Shared)
    requires InLocking(t.pc) && PointersInRange(t, m)
    ensures Undisturbed(t, StepLock(me, t, m).0)
  {
    hide CurrentOp, Acquire, Release;
  }

  lemma MoneyRecordsNothing(t: Thread, m: Shared)
    requires InMoney(t.pc) && PointersInRange(t, m)
    ensures Undisturbed(t, StepMoney(t, m).0)
  {
    hide CurrentOp;
  }

  lemma CallRecordsNothing(t: Thread, ids: seq<int>)
    requires t.pc.Enter? || t.pc.Leave?
    ensures Undisturbed(t, StepCall(t, ids))
  {
    hide Find, CurrentOp;
  }

  /** The recorded ticks are those at which it happened: after a prefix of the run in which the transaction has not
      started (ended), the clock is at most its start (end) tick; once it has, the clock is at least that. */
  lemma {:induction false} RecordedTicksExact(i: Input, acts: seq<Action>, n: nat, k: nat)
    requires ValidInput(i) && Legal(Start(i), acts) && n <= |acts| && k < |i.txs|
    ensures Legal(Start(i), acts[..n])
    ensures k < |Exec(Start(i), acts[..n]).threads| && k < |Exec(Start(i), acts).threads|
    ensures var clock := Exec(Start(i), acts[..n]).shared.clock;
            var past, now := Exec(Start(i), acts[..n]).threads[k], Exec(Start(i), acts).threads[k];
            && clock <= Exec(Start(i), acts).shared.clock
            && (Started(past.pc) ==> Started(now.pc) && now.actualStart == past.actualStart <= clock)
            && (!Started(past.pc) && Started(now.pc) ==> clock <= now.actualStart)
            && (Ended(past.pc) ==> Ended(now.pc) && now.actualEnd == past.actualEnd <= clock)
            && (!Ended(past.pc) && Ended(now.pc) ==> clock <= now.actualEnd)
    decreases |acts|
  {
    hide Sound, ThreadStep, Started, Ended, Ready;
    ReachableSound(i, acts);
    if n == |acts| {
      assert acts[..n] == acts;
      TimesInPast(Exec(Start(i), acts), k);
    } else {
      var m := |acts| - 1;
      assert acts[..m][..n] == acts[..n];
      RecordedTicksExact(i, acts[..m], n, k);
      var s := Exec(Start(i), acts[..m]);
      if acts[m].Step? {
        var u := acts[m].thread;
        StepKeepsSizes(u, s.threads[u], s.shared);
        StepRecords(u, s.threads[u], s.shared);
      }
    }
  }

  lemma TimesInPast(s: State, k: nat)
    requires Sound(s) && k < |s.threads|
    ensures var t := s.threads[k];
            && (Started(t.pc) ==> t.actualStart <= s.shared.clock) && (Ended(t.pc) ==> t.actualEnd <= s.shared.clock)
  {
    hide PoolSound, LockSound, MoneySound, LoadedList, BankCall, Lifecycle;
    assert Local(s.threads[k], s.shared.ids, s.shared.clock);
  }
}
