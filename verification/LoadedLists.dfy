/** The loaded list of a transaction: bounded, without duplicates, and unloaded exactly once on every exit path. */
module LoadedLists {
  import opened Common
  import opened Ledger
  import opened Pool
  import opened Engine
  import opened Weights
  import opened Locals
  import opened PoolSafety
  import opened LockSafety
  import opened Money
  import opened Safety

  /** At most two entries per operation so far, all different; the capacity check never rejects a load. */
  lemma ListWithinBounds(i: Input, acts: seq<Action>, k: nat)
    requires ValidInput(i) && Legal(Start(i), acts) && k < |i.txs|
    ensures var s := Exec(Start(i), acts);
            && |s.threads| == |i.txs|
            && (var t := s.threads[k];
                && Distinct(t.loaded) && |t.loaded| <= 2 * |i.txs[k].ops| <= MAX_LOADED_ACCOUNTS_PER_TX
                && (OnOp(t.pc) ==> |t.loaded| <= 2 * (t.op + 1))
                && (t.pc.LoadCheck? ==> |t.loaded| < MAX_LOADED_ACCOUNTS_PER_TX))
  {
    hide PoolSound, LockSound, MoneySound, Lifecycle, Timing, BankCall;
    ReachableSound(i, acts);
    assert LoadedList(Exec(Start(i), acts).threads[k], i.ids);
  }

  /** The account the action makes thread `k` pin, if any. */
  function PinnedIn(s: State, a: Action, k: nat): seq<int>
    requires Enabled(s, a)
  {
    if a != Step(k) then []
    else
      var t := s.threads[k];
      if t.pc.Claiming? || (t.pc.Scan? && Resident(s.shared.pool.slots, LoadTarget(t))) then [LoadTarget(t)] else []
  }

  /** The account the action makes thread `k` unload, if any. */
  function UnloadedIn(s: State, a: Action, k: nat): seq<int>
    requires Enabled(s, a)
  {
    if a != Step(k) then []
    else
      var t := s.threads[k];
      if t.pc.Unload? && t.loaded != [] then [t.loaded[|t.loaded| - 1]] else []
  }

  /** All accounts thread `k` pinned in the run, in order. */
  ghost function Pinned(s: State, acts: seq<Action>, k: nat): seq<int>
    requires Legal(s, acts)
  {
    if acts == [] then []
    else
      var n := |acts| - 1;
      Pinned(s, acts[..n], k) + PinnedIn(Exec(s, acts[..n]), acts[n], k)
  }

  /** All accounts thread `k` unloaded in the run, the latest first. */
  ghost function Unloaded(s: State, acts: seq<Action>, k: nat): seq<int>
    requires Legal(s, acts)
  {
    if acts == [] then []
    else
      var n := |acts| - 1;
      UnloadedIn(Exec(s, acts[..n]), acts[n], k) + Unloaded(s, acts[..n], k)
  }

  /** One step moves an account from the outside to the held list, or from its end to the unloaded ones. */
  lemma StepMovesOne(me: nat, s: State)
    requires Enabled(s, Step(me)) && !s.threads[me].pc.GiveBack?
    requires s.threads[me].pc.Claiming? ==> FreeSlot(s.shared.pool.slots) < |s.shared.pool.slots|
    ensures var t, t' := s.threads[me], Apply(s, Step(me)).threads[me];
            Held(t) + PinnedIn(s, Step(me), me) == Held(t') + UnloadedIn(s, Step(me), me)
    ensures PinnedIn(s, Step(me), me) == [] || UnloadedIn(s, Step(me), me) == []
  {
    hide Find, FirstLock, SecondLock, FreeSlotFrom, SlotFrom;
    var t, m := s.threads[me], s.shared;
    var t' := ThreadStep(me, t, m).0;
    if InPool(t.pc) {
      PoolStepHeld(t, m);
    } else if InUnload(t.pc) {
      if t.pc.Unload? && t.loaded != [] {
        assert t.loaded == t'.loaded + [t.loaded[|t.loaded| - 1]];
      }
    } else if InSchedule(t.pc) {
      ScheduleKeepsRole(t, m);
    } else if t.pc.LoadCheck? {
      LoadCheckKeepsRole(t, m);
    } else if InLocking(t.pc) || InMoney(t.pc) {
      BankKeepsRole(me, t, m);
    } else {
      CallKeepsRole(t, m);
    }
  }

  lemma PoolStepHeld(t: Thread, m: Shared)
    requires Ready(t, m) && InPool(t.pc) && !t.pc.GiveBack?
    requires t.pc.Claiming? ==> Resident(m.pool.slots, LoadTarget(t)) || FreeSlot(m.pool.slots) < |m.pool.slots|
    ensures var t' := StepLoad(t, m).0;
            Held(t') == Held(t) + if t.pc.Claiming? || (t.pc.Scan? && Resident(m.pool.slots, LoadTarget(t))) then [LoadTarget(t)] else []
  {
    hide Find, FreeSlotFrom, SlotFrom;
  }

  /** At every moment: what a thread pinned is what it still holds, followed by what it has unloaded. */
  lemma {:induction false} PinnedIsHeldOrUnloaded(i: Input, acts: seq<Action>, k: nat)
    requires ValidInput(i) && Legal(Start(i), acts) && k < |i.txs|
    ensures |Exec(Start(i), acts).threads| == |i.txs|
    ensures var t := Exec(Start(i), acts).threads[k];
            && Pinned(Start(i), acts, k) == Held(t) + Unloaded(Start(i), acts, k)
            && (!Ended(t.pc) ==> Unloaded(Start(i), acts, k) == [])
            && Distinct(Pinned(Start(i), acts, k))
    decreases |acts|
  {
    hide Sound, Held, ThreadStep, PinnedIn, UnloadedIn, Ended, Distinct;
    ReachableSound(i, acts);
    if acts == [] {
      FreshHoldsNothing(i.txs[k]);
    } else {
      var n := |acts| - 1;
      var s := Exec(Start(i), acts[..n]);
      PinnedIsHeldOrUnloaded(i, acts[..n], k);
      ReachableSound(i, acts[..n]);
      if acts[n] == Step(k) {
        ClaimsServed(s, k);
        StepMovesOne(k, s);
        PinsBeforeUnloads(k, s);
        var before, moved := Pinned(Start(i), acts[..n], k), PinnedIn(s, Step(k), k);
        if moved == [] {
          assert before + moved == before;
        } else {
          assert before == Held(s.threads[k]);
        }
        Shuffle(Held(s.threads[k]), PinnedIn(s, Step(k), k), Unloaded(Start(i), acts[..n], k),
                Held(Apply(s, Step(k)).threads[k]), UnloadedIn(s, Step(k), k));
      } else {
        OthersMoveNothing(s, acts[n], k);
        assert Pinned(Start(i), acts, k) == Pinned(Start(i), acts[..n], k);
        assert Unloaded(Start(i), acts, k) == Unloaded(Start(i), acts[..n], k);
      }
    }
  }

  /** With only one of the two moves at a time, the concatenations stay in step. */
  lemma Shuffle(held: seq<int>, pinned: seq<int>, unloaded: seq<int>, held': seq<int>, out: seq<int>)
    requires held + pinned == held' + out && (pinned == [] || out == [])
    requires pinned != [] ==> unloaded == []
    ensures held + unloaded + pinned == held' + (out + unloaded)
  {
    assert held' + (out + unloaded) == held' + out + unloaded;
    if pinned == [] {
      assert held + pinned == held;
    } else {
      assert out + unloaded == [];
    }
  }

  /** Pinning happens before the end, of an account not held; unloading only after it. */
  lemma PinsBeforeUnloads(k: nat, s: State)
    requires Enabled(s, Step(k)) && Sound(s)
    ensures var t, t' := s.threads[k], Apply(s, Step(k)).threads[k];
            && (PinnedIn(s, Step(k), k) != [] ==> !Ended(t.pc))
            && (UnloadedIn(s, Step(k), k) != [] ==> Ended(t'.pc))
            && (Ended(t.pc) ==> Ended(t'.pc))
            && (Distinct(Held(t)) ==> Distinct(Held(t) + PinnedIn(s, Step(k), k)))
  {
    hide PoolSound, LockSound, MoneySound, BankCall, Lifecycle, Timing, ThreadStep, UsedBy, Used;
    assert Local(s.threads[k], s.shared.ids, s.shared.clock);
    EndedStays(k, s.threads[k], s.shared);
  }

  lemma EndedStays(me: nat, t: Thread, m: Shared)
    requires Ready(t, m)
    ensures Ended(t.pc) ==> Ended(ThreadStep(me, t, m).0.pc)
  {
    hide SlotFrom;
  }

  /** When a transaction has ended, it has unloaded exactly what it pinned, each account once. */
  lemma EveryPinUnloadedOnce(i: Input, acts: seq<Action>, k: nat)
    requires ValidInput(i) && Legal(Start(i), acts) && k < |i.txs|
    requires var th := Exec(Start(i), acts).threads; k < |th| && th[k].pc.Finished?
    ensures Unloaded(Start(i), acts, k) == Pinned(Start(i), acts, k)
    ensures Distinct(Unloaded(Start(i), acts, k))
  {
    hide Pinned, Unloaded, PoolSound, LockSound, MoneySound, BankCall, Lifecycle, Timing;
    PinnedIsHeldOrUnloaded(i, acts, k);
    ReachableSound(i, acts);
    assert LoadedList(Exec(Start(i), acts).threads[k], i.ids);
  }

  lemma {:induction false} UnloadedGrows(s: State, acts: seq<Action>, n: nat, k: nat)
    requires Legal(s, acts) && n <= |acts|
    ensures Legal(s, acts[..n])
    ensures forall a :: a in Unloaded(s, acts[..n], k) ==> a in Unloaded(s, acts, k)
    ensures forall a :: a in Pinned(s, acts[..n], k) ==> a in Pinned(s, acts, k)
    decreases |acts|
  {
    hide PinnedIn, UnloadedIn, Enabled, Apply;
    if n == |acts| {
      assert acts[..n] == acts;
    } else {
      var m := |acts| - 1;
      assert acts[..m][..n] == acts[..n];
      UnloadedGrows(s, acts[..m], n, k);
    }
  }

  /** What a thread has pinned and not unloaded, it holds. */
  lemma PinnedIsHeld(i: Input, acts: seq<Action>, n: nat, k: nat, a: int)
    requires ValidInput(i) && Legal(Start(i), acts) && n <= |acts| && k < |i.txs|
    requires Legal(Start(i), acts[..n])
    requires a in Pinned(Start(i), acts[..n], k) && a !in Unloaded(Start(i), acts, k)
    ensures k < |Exec(Start(i), acts[..n]).threads| && a in Held(Exec(Start(i), acts[..n]).threads[k])
  {
    hide Pinned, Unloaded, Held, Distinct, Exec, Legal;
    UnloadedGrows(Start(i), acts, n, k);
    PinnedIsHeldOrUnloaded(i, acts[..n], k);
  }

  /** Residency. From the action that pins an account until the transaction unloads it, whatever all threads do,
      the account stays in the slot it was pinned in, and the slot points at its bank account. */
  lemma ResidentUntilUnloaded(i: Input, acts: seq<Action>, m: nat, k: nat, a: int)
    requires ValidInput(i) && Legal(Start(i), acts) && m < |acts| && k < |i.txs|
    requires Legal(Start(i), acts[..m]) && Legal(Start(i), acts[..m + 1]) && Enabled(Exec(Start(i), acts[..m]), acts[m])
    requires PinnedIn(Exec(Start(i), acts[..m]), acts[m], k) == [a] && a !in Unloaded(Start(i), acts, k)
    ensures var p, p' := Exec(Start(i), acts[..m + 1]).shared.pool, Exec(Start(i), acts).shared.pool;
            var j := SlotOf(p.slots, a);
            && j < |p.slots| == |p'.slots| && SlotOf(p'.slots, a) == j
            && p'.slots[j].inUse && p'.slots[j].account == a
            && p'.slots[j].data == p.slots[j].data == Find(i.ids, a)
  {
    hide Held, Pinned, PinnedIn, Unloaded, Sound, Find, SlotFrom, Legal, Exec, Enabled;
    var from := acts[..m + 1];
    PinIsPinned(Start(i), from, k, a) by { assert from[..m] == acts[..m]; }
    var s := Exec(Start(i), from);
    RunSplits(Start(i), acts, m + 1);
    var rest := acts[m + 1..];
    forall n | 0 <= n <= |rest|
      ensures Legal(s, rest[..n]) && k < |Exec(s, rest[..n]).threads| && a in Held(Exec(s, rest[..n]).threads[k])
    {
      PinStays(i, acts, m + 1, n, k, a);
    }
    assert rest[..|rest|] == rest && rest[..0] == [];
    ReachableSound(i, from);
    ReachableSound(i, acts);
    HeldSlotStaysInRun(s, rest, k, a);
    HeldPoints(Exec(Start(i), acts), k, a);
  }

  lemma PinIsPinned(s: State, acts: seq<Action>, k: nat, a: int)
    requires Legal(s, acts) && acts != []
    requires PinnedIn(Exec(s, acts[..|acts| - 1]), acts[|acts| - 1], k) == [a]
    ensures a in Pinned(s, acts, k)
  {
    hide PinnedIn, Exec;
  }

  lemma PinStays(i: Input, acts: seq<Action>, m: nat, n: nat, k: nat, a: int)
    requires ValidInput(i) && Legal(Start(i), acts) && k < |i.txs| && m + n <= |acts|
    requires Legal(Start(i), acts[..m]) && a in Pinned(Start(i), acts[..m], k) && a !in Unloaded(Start(i), acts, k)
    ensures var s := Exec(Start(i), acts[..m]);
            var now := acts[m..][..n];
            Legal(s, now) && k < |Exec(s, now).threads| && a in Held(Exec(s, now).threads[k])
  {
    hide Pinned, Unloaded, Held, Exec, Legal;
    var upTo := acts[..m + n];
    assert upTo[..m] == acts[..m] && upTo[m..] == acts[m..][..n];
    UnloadedGrows(Start(i), acts, m + n, k);
    UnloadedGrows(Start(i), upTo, m, k);
    RunSplits(Start(i), upTo, m);
    PinnedIsHeld(i, acts, m + n, k, a);
  }

  lemma HeldPoints(s: State, k: nat, a: int)
    requires Sound(s) && k < |s.threads| && a in Held(s.threads[k])
    ensures var j := SlotOf(s.shared.pool.slots, a);
            j < |s.shared.pool.slots| && s.shared.pool.slots[j].data == Find(s.shared.ids, a)
  {
    hide LockSound, MoneySound, Local, Total;
    HeldIsResident(s.shared.pool, s.shared.ids, s.threads, k, a);
  }

  lemma FreshHoldsNothing(tx: Tx)
    ensures Held(FreshThread(tx)) == [] && !Ended(FreshThread(tx).pc) && Distinct<int>([])
  {
  }

  lemma OthersMoveNothing(s: State, a: Action, k: nat)
    requires Enabled(s, a) && a != Step(k) && k < |s.threads|
    ensures PinnedIn(s, a, k) == [] == UnloadedIn(s, a, k) && Apply(s, a).threads[k] == s.threads[k]
  {
    hide ThreadStep;
  }

  lemma ClaimsServed(s: State, k: nat)
    requires Sound(s) && k < |s.threads|
    ensures !s.threads[k].pc.GiveBack?
    ensures s.threads[k].pc.Claiming? ==> FreeSlot(s.shared.pool.slots) < |s.shared.pool.slots|
  {
    hide LockSound, MoneySound, Local;
    if s.threads[k].pc.Claiming? {
      PermitFindsFreeSlot(s.shared.pool, s.shared.ids, s.threads, k);
    }
  }
}
