/** The buffer-pool protocol: slots, semaphores and in-flight threads agree in every reachable state. */
module PoolSafety {
  import opened Common
  import opened Ledger
  import opened Pool
  import opened Engine
  import opened Weights
  import opened Locals

  /** At most one slot per account; a used slot is pinned and points at its account; a free slot is blank. */
  predicate SlotsSound(slots: seq<Slot>, ids: seq<int>) {
    && (forall k :: 0 <= k < |slots| ==>
          if slots[k].inUse then
            slots[k].pins >= 1 && slots[k].data.Some? && slots[k].data.value < |ids|
            && ids[slots[k].data.value] == slots[k].account
          else slots[k] == FREE_SLOT)
    && (forall j, k :: 0 <= j < k < |slots| && slots[j].inUse && slots[k].inUse ==> slots[j].account != slots[k].account)
  }

  /** The pin count of a used slot is the number of threads holding its account; no account is held without a slot. */
  ghost predicate PinsAgree(slots: seq<Slot>, ts: seq<Thread>) {
    && (forall k :: 0 <= k < |slots| && slots[k].inUse ==> slots[k].pins == Total(PinsOn(slots[k].account), ts))
    && (forall a: int :: !Resident(slots, a) ==> Total(PinsOn(a), ts) == 0)
  }

  /** Each inserter that has not posted yet holds its own slot; nobody fell through the insertion loop. */
  predicate PostersApart(ts: seq<Thread>) {
    && (forall j, k :: 0 <= j < k < |ts| && ts[j].pc.PostFull? && ts[k].pc.PostFull? ==> LoadTarget(ts[j]) != LoadTarget(ts[k]))
    && (forall k :: 0 <= k < |ts| ==> !ts[k].pc.GiveBack?)
  }

  /** Permits, posts and waits in flight make up the difference between the semaphores and the slots. */
  predicate SemaphoresAgree(p: PoolState, ts: seq<Thread>) {
    && p.emptySem + Total(Permits, ts) + InUse(p.slots) + Total(Freers, ts) == |p.slots|
    && p.fullSem + Total(Posters, ts) == InUse(p.slots) + Total(Debtors, ts)
    && PinSum(p.slots) == Total(Holdings, ts)
  }

  predicate StatisticsAgree(p: PoolState) {
    && p.usage == InUse(p.slots) == p.loads - p.unloads
    && p.usage <= p.peak <= |p.slots|
  }

  ghost predicate PoolSound(p: PoolState, ids: seq<int>, ts: seq<Thread>) {
    SlotsSound(p.slots, ids) && PinsAgree(p.slots, ts) && PostersApart(ts) && SemaphoresAgree(p, ts) && StatisticsAgree(p)
  }

  // ---------- what a thread's role in the pool is ----------

  /** Same in-flight counts at the semaphores. */
  predicate SameFlight(t: Thread, t': Thread) {
    && Weight(Permits, t) == Weight(Permits, t') && Weight(Posters, t) == Weight(Posters, t')
    && Weight(Freers, t) == Weight(Freers, t') && Weight(Debtors, t) == Weight(Debtors, t')
  }

  /** Same pins and same in-flight counts: the pool cannot tell the two apart. */
  predicate SameRole(t: Thread, t': Thread) {
    && Held(t) == Held(t')
    && SameFlight(t, t')
    && !t.pc.PostFull? && !t'.pc.GiveBack?
  }

  /** The in-flight counts and the pins held after thread `k` becomes `t`. */
  lemma FlightUpdate(ts: seq<Thread>, k: nat, t: Thread)
    requires k < |ts|
    ensures Total(Permits, ts[k := t]) == Total(Permits, ts) - Weight(Permits, ts[k]) + Weight(Permits, t)
    ensures Total(Posters, ts[k := t]) == Total(Posters, ts) - Weight(Posters, ts[k]) + Weight(Posters, t)
    ensures Total(Freers, ts[k := t]) == Total(Freers, ts) - Weight(Freers, ts[k]) + Weight(Freers, t)
    ensures Total(Debtors, ts[k := t]) == Total(Debtors, ts) - Weight(Debtors, ts[k]) + Weight(Debtors, t)
    ensures Total(Holdings, ts[k := t]) == Total(Holdings, ts) - Weight(Holdings, ts[k]) + Weight(Holdings, t)
  {
    hide Total, InUse, PinSum, SlotFrom, FreeSlotFrom;
    TotalUpdate(Permits, ts, k, t);
    TotalUpdate(Posters, ts, k, t);
    TotalUpdate(Freers, ts, k, t);
    TotalUpdate(Debtors, ts, k, t);
    TotalUpdate(Holdings, ts, k, t);
  }

  lemma PinsUpdate(ts: seq<Thread>, k: nat, t: Thread)
    requires k < |ts|
    ensures forall a :: Total(PinsOn(a), ts[k := t]) ==
                        Total(PinsOn(a), ts) - Weight(PinsOn(a), ts[k]) + Weight(PinsOn(a), t)
  {
    hide Total, InUse, PinSum, SlotFrom, FreeSlotFrom;
    forall a ensures Total(PinsOn(a), ts[k := t]) ==
                     Total(PinsOn(a), ts) - Weight(PinsOn(a), ts[k]) + Weight(PinsOn(a), t)
    {
      TotalUpdate(PinsOn(a), ts, k, t);
    }
  }

  /** A thread that keeps its role keeps the pool sound. */
  lemma RoleFrame(p: PoolState, ids: seq<int>, ts: seq<Thread>, k: nat, t: Thread)
    requires PoolSound(p, ids, ts) && k < |ts| && SameRole(ts[k], t)
    ensures PoolSound(p, ids, ts[k := t])
  {
    hide Total, InUse, PinSum, SlotFrom, FreeSlotFrom;
    FlightUpdate(ts, k, t);
    PinsUpdate(ts, k, t);
  }

  /** A held account is resident, and the pins of its slot count the holders. */
  lemma HeldIsResident(p: PoolState, ids: seq<int>, ts: seq<Thread>, k: nat, a: int)
    requires PoolSound(p, ids, ts) && k < |ts| && a in Held(ts[k])
    ensures var i := SlotOf(p.slots, a);
            i < |p.slots| && p.slots[i].pins == Total(PinsOn(a), ts) >= 1
            && p.slots[i].data.Some? && p.slots[i].data.value < |ids| && ids[p.slots[i].data.value] == a
  {
    hide Total, InUse, PinSum, SlotFrom, FreeSlotFrom;
    if !Resident(p.slots, a) {
      NotResidentNotHeld(p.slots, ts, a);
    } else {
      SlotPins(p, ids, ts, a);
    }
  }

  /** Slot `i` becomes `s`; only account `a` is concerned. */
  lemma ReplaceKeepsSlots(slots: seq<Slot>, ids: seq<int>, i: nat, s: Slot, a: int)
    requires SlotsSound(slots, ids) && i < |slots|
    requires Occupies(slots[i], a) || !Resident(slots, a)
    requires s == FREE_SLOT || (Occupies(s, a) && s.pins >= 1 && s.data.Some? && s.data.value < |ids| && ids[s.data.value] == a)
    ensures SlotsSound(slots[i := s], ids)
  {
    forall j | 0 <= j < |slots| && j != i && slots[j].inUse ensures slots[j].account != a {
      assert Occupies(slots[j], slots[j].account);
    }
  }

  lemma ReplaceKeepsPins(slots: seq<Slot>, ids: seq<int>, ts: seq<Thread>, ts': seq<Thread>, i: nat, s: Slot, a: int)
    requires SlotsSound(slots, ids) && PinsAgree(slots, ts) && i < |slots|
    requires Occupies(slots[i], a) || (!slots[i].inUse && !Resident(slots, a))
    requires if s.inUse then s.account == a && s.pins == Total(PinsOn(a), ts') else Total(PinsOn(a), ts') == 0
    requires forall b :: b != a ==> Total(PinsOn(b), ts') == Total(PinsOn(b), ts)
    ensures PinsAgree(slots[i := s], ts')
  {
    hide Total;
    var slots' := slots[i := s];
    forall j | 0 <= j < |slots| && j != i && slots[j].inUse ensures slots[j].account != a {
      assert Occupies(slots[j], slots[j].account);
    }
    assert s.inUse ==> Occupies(slots'[i], a);
    forall b | b != a && Resident(slots, b) ensures Resident(slots', b) {
      var j :| 0 <= j < |slots| && Occupies(slots[j], b);
      assert Occupies(slots'[j], b);
    }
  }

  lemma ChangeKeepsPosters(ts: seq<Thread>, k: nat, t: Thread)
    requires PostersApart(ts) && k < |ts| && !t.pc.GiveBack?
    requires t.pc.PostFull? ==> forall j :: 0 <= j < |ts| && ts[j].pc.PostFull? ==> LoadTarget(ts[j]) != LoadTarget(t)
    ensures PostersApart(ts[k := t])
  {
  }

  /** Re-pinning a resident account, by the first scan or as a duplicate. */
  lemma PinKeepsPool(p: PoolState, ids: seq<int>, ts: seq<Thread>, k: nat, t: Thread, a: int)
    requires PoolSound(p, ids, ts) && k < |ts| && Resident(p.slots, a)
    requires a !in Held(ts[k]) && Held(t) == Held(ts[k]) + [a]
    requires SameFlight(ts[k], t)
    requires !ts[k].pc.PostFull? && !t.pc.GiveBack?
    ensures PoolSound(Pin(p, SlotOf(p.slots, a)), ids, ts[k := t])
  {
    hide Total, InUse, PinSum, SlotFrom, SlotsSound, PinsAgree, PostersApart;
    FlightUpdate(ts, k, t);
    PinsUpdate(ts, k, t);
    SlotPins(p, ids, ts, a);
    var i := SlotOf(p.slots, a);
    var pinned := p.slots[i].(pins := p.slots[i].pins + 1);
    InUseUpdate(p.slots, i, pinned);
    PinSumUpdate(p.slots, i, pinned);
    ReplaceKeepsSlots(p.slots, ids, i, pinned, a);
    ReplaceKeepsPins(p.slots, ids, ts, ts[k := t], i, pinned, a);
    ChangeKeepsPosters(ts, k, t);
  }

  /** A resident account's slot carries exactly the pins of its holders, and points at the account. */
  lemma SlotPins(p: PoolState, ids: seq<int>, ts: seq<Thread>, a: int)
    requires PoolSound(p, ids, ts) && Resident(p.slots, a)
    ensures var s := p.slots[SlotOf(p.slots, a)];
            && s.pins == Total(PinsOn(a), ts) >= 1
            && s.data.Some? && s.data.value < |ids| && ids[s.data.value] == a
  {
    hide Total, InUse, PinSum, SlotFrom, PostersApart, SemaphoresAgree;
    assert Occupies(p.slots[SlotOf(p.slots, a)], a);
  }

  /** Taking a permit, or giving one back as a duplicate: only `empty_slots` and the permit count move. */
  lemma PermitMoves(p: PoolState, ids: seq<int>, ts: seq<Thread>, k: nat, t: Thread, sem: nat)
    requires PoolSound(p, ids, ts) && k < |ts|
    requires Held(t) == Held(ts[k]) && !ts[k].pc.PostFull? && !t.pc.PostFull? && !t.pc.GiveBack?
    requires Weight(Debtors, t) == Weight(Debtors, ts[k])
    requires sem + Weight(Permits, t) + Weight(Freers, t) == p.emptySem + Weight(Permits, ts[k]) + Weight(Freers, ts[k])
    ensures PoolSound(p.(emptySem := sem), ids, ts[k := t])
  {
    hide Total, InUse, PinSum, SlotFrom, FreeSlotFrom;
    FlightUpdate(ts, k, t);
    PinsUpdate(ts, k, t);
  }

  /** Posting or consuming `full_slots`. */
  lemma FullMoves(p: PoolState, ids: seq<int>, ts: seq<Thread>, k: nat, t: Thread, sem: nat)
    requires PoolSound(p, ids, ts) && k < |ts|
    requires Held(t) == Held(ts[k]) && !t.pc.PostFull? && !t.pc.GiveBack?
    requires Weight(Permits, t) == Weight(Permits, ts[k]) && Weight(Freers, t) == Weight(Freers, ts[k])
    requires sem + Weight(Posters, t) - Weight(Debtors, t) == p.fullSem + Weight(Posters, ts[k]) - Weight(Debtors, ts[k])
    ensures PoolSound(p.(fullSem := sem), ids, ts[k := t])
  {
    hide Total, InUse, PinSum, SlotFrom, FreeSlotFrom;
    FlightUpdate(ts, k, t);
    PinsUpdate(ts, k, t);
  }

  /** A taken permit guarantees a free slot. */
  lemma PermitFindsFreeSlot(p: PoolState, ids: seq<int>, ts: seq<Thread>, k: nat)
    requires PoolSound(p, ids, ts) && k < |ts| && Weight(Permits, ts[k]) == 1
    ensures FreeSlot(p.slots) < |p.slots|
  {
    hide Total, InUse, PinSum, SlotFrom, FreeSlotFrom;
    TotalCovers(Permits, ts);
    TotalCovers(Freers, ts);
    InUseExtremes(p.slots);
  }

  /** Inserting a new account into the first free slot. */
  lemma InsertKeepsPool(p: PoolState, ids: seq<int>, ts: seq<Thread>, k: nat, t: Thread, a: int)
    requires PoolSound(p, ids, ts) && k < |ts| && a in ids && !Resident(p.slots, a)
    requires ts[k].pc.Claiming? && a == LoadTarget(ts[k]) && t == ts[k].(pc := PostFull(ts[k].pc.second))
    ensures FreeSlot(p.slots) < |p.slots|
    ensures PoolSound(Insert(p, FreeSlot(p.slots), a, Find(ids, a)), ids, ts[k := t])
  {
    hide Total, InUse, PinSum, FreeSlotFrom, SlotsSound, PostersApart;
    PermitFindsFreeSlot(p, ids, ts, k);
    NotResidentNotHeld(p.slots, ts, a);
    assert LoadTarget(t) == a && Held(t) == Held(ts[k]) + [a];
    FlightUpdate(ts, k, t);
    PinsUpdate(ts, k, t);
    var f := FreeSlot(p.slots);
    var s := Slot(a, Find(ids, a), true, 1);
    InUseUpdate(p.slots, f, s);
    PinSumUpdate(p.slots, f, s);
    InUseExtremes(p.slots[f := s]);
    ReplaceKeepsSlots(p.slots, ids, f, s, a);
    ReplaceKeepsPins(p.slots, ids, ts, ts[k := t], f, s, a);
    ChangeKeepsPosters(ts, k, t);
    assert p.slots[f].pins == 0 by { FreeSlotsBlank(p.slots, ids, f); }
  }

  lemma FreeSlotsBlank(slots: seq<Slot>, ids: seq<int>, f: nat)
    requires SlotsSound(slots, ids) && f < |slots| && !slots[f].inUse
    ensures slots[f] == FREE_SLOT
  {
  }

  lemma NotResidentNotHeld(slots: seq<Slot>, ts: seq<Thread>, a: int)
    requires PinsAgree(slots, ts) && !Resident(slots, a)
    ensures Total(PinsOn(a), ts) == 0
    ensures forall j :: 0 <= j < |ts| ==> a !in Held(ts[j])
    ensures forall j :: 0 <= j < |ts| && ts[j].pc.PostFull? ==> LoadTarget(ts[j]) != a
  {
    hide Total;
    TotalCovers(PinsOn(a), ts);
    forall j | 0 <= j < |ts| ensures a !in Held(ts[j]) {
      assert Weight(PinsOn(a), ts[j]) <= 0;
    }
    forall j | 0 <= j < |ts| && ts[j].pc.PostFull? ensures LoadTarget(ts[j]) != a {
      assert LoadTarget(ts[j]) in Held(ts[j]);
    }
  }

  /** Dropping one pin, and the slot with the last one. */
  lemma ReleaseKeepsPool(p: PoolState, ids: seq<int>, ts: seq<Thread>, k: nat, t: Thread, a: int)
    requires PoolSound(p, ids, ts) && k < |ts|
    requires ts[k].pc.Unload? && Distinct(ts[k].loaded) && ts[k].loaded != [] && a == ts[k].loaded[|ts[k].loaded| - 1]
    requires t == ts[k].(loaded := ts[k].loaded[..|ts[k].loaded| - 1], pc := if ReleaseSection(p, a).1 then AwaitFull else Unload)
    ensures PoolSound(ReleaseSection(p, a).0, ids, ts[k := t])
  {
    hide Total, InUse, PinSum, SlotFrom, SlotsSound, PinsAgree, PostersApart;
    HeldIsResident(p, ids, ts, k, a);
    FlightUpdate(ts, k, t);
    PopWeights(ts[k], t);
    PinsUpdate(ts, k, t);
    var i := SlotOf(p.slots, a);
    var s := if p.slots[i].pins == 1 then FREE_SLOT else p.slots[i].(pins := p.slots[i].pins - 1);
    InUseUpdate(p.slots, i, s);
    PinSumUpdate(p.slots, i, s);
    ReplaceKeepsSlots(p.slots, ids, i, s, a);
    ReplaceKeepsPins(p.slots, ids, ts, ts[k := t], i, s, a);
    ChangeKeepsPosters(ts, k, t);
  }

  lemma PopWeights(t: Thread, t': Thread)
    requires t.pc.Unload? && Distinct(t.loaded) && t.loaded != []
    requires (t'.pc.Unload? || t'.pc.AwaitFull?) && t'.loaded == t.loaded[..|t.loaded| - 1]
    ensures forall b :: Weight(PinsOn(b), t') ==
                        Weight(PinsOn(b), t) - if b == t.loaded[|t.loaded| - 1] then 1 else 0
  {
    var last := |t.loaded| - 1;
    assert t.loaded == t'.loaded + [t.loaded[last]];
  }

  // ---------- every step ----------

  lemma LoadKeepsPool(me: nat, ts: seq<Thread>, m: Shared)
    requires me < |ts| && Ready(ts[me], m) && InPool(ts[me].pc)
    requires PoolSound(m.pool, m.ids, ts) && Local(ts[me], m.ids, m.clock)
    ensures var (t', m') := StepLoad(ts[me], m); PoolSound(m'.pool, m.ids, ts[me := t'])
  {
    hide PoolSound, BankCall, Lifecycle, Timing, SlotFrom, FreeSlotFrom, FindFrom, Used;
    var t := ts[me];
    var (t', m') := StepLoad(t, m);
    var a := LoadTarget(t);
    match t.pc
    case Scan(_) =>
      if Resident(m.pool.slots, a) {
        PinKeepsPool(m.pool, m.ids, ts, me, t', a);
      } else {
        RoleFrame(m.pool, m.ids, ts, me, t');
      }
    case AwaitPermit(_) => PermitMoves(m.pool, m.ids, ts, me, t', m'.pool.emptySem);
    case Claiming(_) => ClaimKeepsPool(me, ts, m);
    case PostFull(_) => FullMoves(m.pool, m.ids, ts, me, t', m'.pool.fullSem);
    case ReturnPermit(_) => PermitMoves(m.pool, m.ids, ts, me, t', m'.pool.emptySem);
    case GiveBack(_) => GiveBackUnreachable(m.pool, m.ids, ts, me);
  }

  /** The second section: a duplicate is pinned, a new account inserted. */
  lemma ClaimKeepsPool(me: nat, ts: seq<Thread>, m: Shared)
    requires me < |ts| && ts[me].pc.Claiming?
    requires PoolSound(m.pool, m.ids, ts) && Local(ts[me], m.ids, m.clock)
    ensures var (t', m') := StepLoad(ts[me], m); PoolSound(m'.pool, m.ids, ts[me := t'])
  {
    hide PoolSound, BankCall, Lifecycle, Timing, SlotFrom, FreeSlotFrom, FindFrom, Used;
    var t' := StepLoad(ts[me], m).0;
    var a := LoadTarget(ts[me]);
    if Resident(m.pool.slots, a) {
      assert LoadTarget(t') == a;
      PinKeepsPool(m.pool, m.ids, ts, me, t', a);
    } else {
      PermitFindsFreeSlot(m.pool, m.ids, ts, me);
      InsertKeepsPool(m.pool, m.ids, ts, me, t', a);
    }
  }

  /** The fallback of `load_account` that inserts nothing is dead code. */
  lemma GiveBackUnreachable(p: PoolState, ids: seq<int>, ts: seq<Thread>, k: nat)
    requires PoolSound(p, ids, ts) && k < |ts|
    ensures !ts[k].pc.GiveBack?
  {
  }

  lemma UnloadKeepsPool(me: nat, ts: seq<Thread>, m: Shared)
    requires me < |ts| && Ready(ts[me], m) && InUnload(ts[me].pc)
    requires PoolSound(m.pool, m.ids, ts) && Local(ts[me], m.ids, m.clock)
    ensures var (t', m') := StepUnload(ts[me], m); PoolSound(m'.pool, m.ids, ts[me := t'])
  {
    hide PoolSound, BankCall, Lifecycle, Timing;
    var t := ts[me];
    var (t', m') := StepUnload(t, m);
    match t.pc
    case Unload =>
      if t.loaded == [] {
        RoleFrame(m.pool, m.ids, ts, me, t');
      } else {
        ReleaseKeepsPool(m.pool, m.ids, ts, me, t', t.loaded[|t.loaded| - 1]);
      }
    case AwaitFull => FullMoves(m.pool, m.ids, ts, me, t', m'.pool.fullSem);
    case PostEmpty => PermitMoves(m.pool, m.ids, ts, me, t', m'.pool.emptySem);
  }

  lemma ScheduleKeepsRole(t: Thread, m: Shared)
    requires InSchedule(t.pc)
    ensures var (t', m') := StepSchedule(t, m); SameRole(t, t') && m'.pool == m.pool
  {
  }

  lemma BankKeepsRole(me: nat, t: Thread, m: Shared)
    requires Ready(t, m) && (InLocking(t.pc) || InMoney(t.pc))
    ensures var (t', m') := ThreadStep(me, t, m); SameRole(t, t') && m'.pool == m.pool
  {
    hide FirstLock, SecondLock;
  }

  lemma CallKeepsRole(t: Thread, m: Shared)
    requires t.pc.Enter? || t.pc.Leave?
    ensures SameRole(t, StepCall(t, m.ids))
  {
  }

  lemma LoadCheckKeepsRole(t: Thread, m: Shared)
    requires t.pc.LoadCheck?
    ensures var (t', m') := StepLoad(t, m); SameRole(t, t') && m'.pool == m.pool
  {
  }

  lemma StepKeepsPool(me: nat, ts: seq<Thread>, m: Shared)
    requires me < |ts| && Ready(ts[me], m)
    requires PoolSound(m.pool, m.ids, ts) && Local(ts[me], m.ids, m.clock)
    ensures var (t', m') := ThreadStep(me, ts[me], m); PoolSound(m'.pool, m.ids, ts[me := t'])
  {
    hide PoolSound, Local, SameRole;
    if InPool(ts[me].pc) {
      LoadKeepsPool(me, ts, m);
    } else if InUnload(ts[me].pc) {
      UnloadKeepsPool(me, ts, m);
    } else {
      var t := ts[me];
      if InSchedule(t.pc) {
        ScheduleKeepsRole(t, m);
      } else if t.pc.LoadCheck? {
        LoadCheckKeepsRole(t, m);
      } else if InLocking(t.pc) || InMoney(t.pc) {
        BankKeepsRole(me, t, m);
      } else {
        CallKeepsRole(t, m);
      }
      RoleFrame(m.pool, m.ids, ts, me, ThreadStep(me, ts[me], m).0);
    }
  }

  /** Unposted inserters are at most the used slots: each pins a slot of its own. */
  lemma {:induction false} PostersWithinUse(slots: seq<Slot>, ts: seq<Thread>)
    requires PostersApart(ts)
    requires forall k :: 0 <= k < |ts| && ts[k].pc.PostFull? ==> Resident(slots, LoadTarget(ts[k]))
    ensures Total(Posters, ts) <= InUse(slots)
    decreases |ts|
  {
    if ts == [] {
    } else {
      var n := |ts| - 1;
      var rest := ts[..n];
      if ts[n].pc.PostFull? {
        var k := SlotOf(slots, LoadTarget(ts[n]));
        var slots' := slots[k := FREE_SLOT];
        InUseUpdate(slots, k, FREE_SLOT);
        forall j | 0 <= j < n && ts[j].pc.PostFull? ensures Resident(slots', LoadTarget(ts[j])) {
          var i := SlotOf(slots, LoadTarget(ts[j]));
          assert Occupies(slots'[i], LoadTarget(ts[j]));
        }
        PostersWithinUse(slots', rest);
      } else {
        PostersWithinUse(slots, rest);
      }
    }
  }

  /** `full_slots` covers every unloader still to wait on it. */
  lemma FullCoversDebtors(p: PoolState, ids: seq<int>, ts: seq<Thread>)
    requires PoolSound(p, ids, ts)
    ensures p.fullSem >= Total(Debtors, ts)
  {
    hide Total, InUse, PinSum, SlotFrom, FreeSlotFrom;
    forall k | 0 <= k < |ts| && ts[k].pc.PostFull? ensures Resident(p.slots, LoadTarget(ts[k])) {
      HeldIsResident(p, ids, ts, k, LoadTarget(ts[k]));
    }
    PostersWithinUse(p.slots, ts);
  }
}
