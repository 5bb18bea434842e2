/** The jam condition is exact: where the needs of the transactions allow a jam, some program of those needs gets
    stuck. */
module DemandBound {
  import opened Common
  import opened Ledger
  import opened Pool
  import opened Engine
  import opened Weights
  import opened Locals
  import opened PoolSafety
  import opened LockSafety
  import opened Safety
  import opened Progress
  import opened Jams
  import opened Termination

  /** The sizes the program's arrays allow; the parser creates no transaction without an operation. */
  predicate WithinLimits(i: Input) {
    && |i.ids| <= MAX_ACCOUNTS && |i.txs| <= MAX_TRANSACTIONS
    && forall t :: 0 <= t < |i.txs| ==> i.txs[t].startTick >= 0 && |i.txs[t].ops| >= 1
  }

  /** `i` runs on the accounts `ids`, of which its transactions name exactly `needs`. */
  predicate HasNeeds(i: Input, capacity: nat, ids: seq<int>, needs: seq<set<int>>) {
    && ValidInput(i) && WithinLimits(i) && i.capacity == capacity
    && i.ids == ids && Needs(i.txs, Elements(ids)) == needs
  }

  /** `i` runs one transaction per demand, each naming that many distinct existing accounts, and no more than
      `accounts` in all. */
  predicate HasDemands(i: Input, capacity: nat, demands: seq<nat>, accounts: nat) {
    && ValidInput(i) && WithinLimits(i) && i.capacity == capacity
    && var needs := Needs(i.txs, Elements(i.ids));
       Sizes(needs) == demands && |Union(needs)| <= accounts
  }

  // ---------- a program that gets stuck ----------

  /** A transaction reads the accounts of `order`, one balance each; the stuck run stops it at `cut`. */
  datatype Plan = Plan(order: seq<int>, cut: nat)

  predicate GoodPlan(p: Plan) {
    Distinct(p.order) && (if p.order == [] then p.cut == 0 else p.cut < |p.order|)
  }

  /** A stuck run to be: a jam, and for each transaction a plan. */
  datatype Script = Script(plans: seq<Plan>, needs: seq<set<int>>, owner: map<int, nat>, turn: seq<int>)

  /** The plan of transaction `t` reads what it needs: first what it owns, then, at the cut, an account it misses. */
  ghost predicate PlanFits(p: Plan, t: nat, need: set<int>, owner: map<int, nat>, turn: seq<int>) {
    && GoodPlan(p) && Elements(p.order) == need && p.cut == |OwnedBy(owner, t)|
    && (p.order != [] ==> Missing(p.order[p.cut], need, owner, turn, t))
    && (forall j :: 0 <= j < p.cut ==> p.order[j] in owner && owner[p.order[j]] == t)
  }

  ghost predicate Follows(c: Script, t: nat)
    requires t < |c.plans| == |c.needs|
  {
    PlanFits(c.plans[t], t, c.needs[t], c.owner, c.turn)
  }

  ghost predicate GoodScript(c: Script) {
    && |c.plans| == |c.needs| == |c.turn|
    && forall t: nat :: t < |c.plans| ==> Follows(c, t)
  }

  predicate AllGood(ps: seq<Plan>) {
    forall t :: 0 <= t < |ps| ==> GoodPlan(ps[t])
  }

  predicate Known(order: seq<int>, ids: seq<int>) {
    forall a :: a in order ==> a in ids && a >= 0
  }

  predicate AccountsKnown(ps: seq<Plan>, ids: seq<int>) {
    forall k :: 0 <= k < |ps| ==> Known(ps[k].order, ids)
  }

  function ReadOf(account: int): Operation {
    Operation(Balance, account, 0, -1)
  }

  /** Reads of the accounts in order; for none, one read of an account that does not exist. */
  function ReadAll(order: seq<int>): seq<Operation> {
    if order == [] then [ReadOf(-1)] else seq(|order|, j requires 0 <= j < |order| => ReadOf(order[j]))
  }

  predicate Before(pc: Pc) {
    pc.AwaitTick? || pc.RecordStart? || pc.Dispatch?
  }

  predicate FirstLoad(pc: Pc) {
    InLoad(pc) && !pc.ReturnPermit? && !pc.GiveBack? && !pc.second
  }

  predicate ReadCall(pc: Pc) {
    pc.Enter? || pc.LockFirst? || pc.ReadCell? || pc.UnlockFirst? || pc.Leave?
  }

  /** The thread is on its way to its cut and has not passed it. */
  predicate OnPath(t: Thread, p: Plan) {
    && t.tx.ops == ReadAll(p.order) && t.tx.startTick == 0
    && (p.order == [] ==>
          && t.loaded == [] && t.op == 0
          && (Before(t.pc) || t.pc == LoadCheck(false) || t.pc.RecordEnd? || t.pc.Unload? || t.pc.Finished?))
    && (p.order != [] ==>
          && t.status != Aborted && t.op <= p.cut < |p.order|
          && (t.op == p.cut ==> Before(t.pc) || t.pc.LoadCheck? || t.pc.Scan? || t.pc.AwaitPermit?)
          && (Before(t.pc) || FirstLoad(t.pc) || ReadCall(t.pc))
          && t.loaded == p.order[..if ReadCall(t.pc) then t.op + 1 else t.op]
          && (t.pc.UnlockFirst? || t.pc.Leave? ==> Succeeded(t.pending)))
  }

  predicate AtCut(t: Thread, p: Plan) {
    if p.order == [] then t.pc.Finished? else t.pc.AwaitPermit? && t.op == p.cut
  }

  predicate AllOnPath(s: State, ps: seq<Plan>) {
    |s.threads| == |ps| && forall k :: 0 <= k < |ps| ==> OnPath(s.threads[k], ps[k])
  }

  predicate Unstarted(t: Thread) {
    t.pc.AwaitTick? && t.loaded == []
  }

  /** Turns are kept: while a thread is short of its cut, those of later turns have not started. */
  predicate InSequence(ts: seq<Thread>, ps: seq<Plan>, turn: seq<int>)
    requires |ts| == |ps| == |turn|
  {
    forall t, u :: 0 <= t < |ts| && 0 <= u < |ts| && !AtCut(ts[t], ps[t]) && turn[t] < turn[u] ==> Unstarted(ts[u])
  }

  /** A state of the run that the script describes. */
  ghost predicate Staged(s: State, c: Script) {
    GoodScript(c) && AllOnPath(s, c.plans) && InSequence(s.threads, c.plans, c.turn)
  }

  /** Pins held, and the permit about to become one. */
  function Claims(t: Thread): int {
    |Held(t)| + Weight(Permits, t)
  }

  lemma PathClaims(t: Thread, p: Plan)
    requires OnPath(t, p) && GoodPlan(p)
    ensures Claims(t) <= p.cut && Weight(Freers, t) == 0
    ensures t.pc.AwaitPermit? && t.op < p.cut ==> Claims(t) < p.cut
    ensures forall a :: a in Held(t) ==> exists j :: 0 <= j < p.cut && p.order[j] == a
    ensures AtCut(t, p) ==> |Held(t)| == p.cut && Weight(Permits, t) == 0
  {
    assert CurrentOp(t).account == if t.op < |p.order| then p.order[t.op] else -1;
    forall a | a in Held(t) ensures exists j :: 0 <= j < p.cut && p.order[j] == a {
      var j :| 0 <= j < |Held(t)| && Held(t)[j] == a;
      assert p.order[j] == a;
    }
  }

  /** The totals of claims stay within the cuts; with one thread short of its cut, below them. */
  lemma {:induction false} ClaimsWithinCuts(ts: seq<Thread>, cuts: seq<int>)
    requires |ts| == |cuts| && forall k :: 0 <= k < |ts| ==> Claims(ts[k]) <= cuts[k]
    ensures Total(Permits, ts) + Total(Holdings, ts) <= Sum(cuts)
  {
    hide Claims, Held;
    if ts != [] {
      var n := |ts| - 1;
      ClaimsWithinCuts(ts[..n], cuts[..n]);
      assert Claims(ts[n]) == Weight(Holdings, ts[n]) + Weight(Permits, ts[n]) by { ClaimsAre(ts[n]); }
    }
  }

  lemma ClaimsAre(t: Thread)
    ensures Claims(t) == Weight(Holdings, t) + Weight(Permits, t)
  {
  }

  function Cuts(ps: seq<Plan>): seq<int> {
    seq(|ps|, k requires 0 <= k < |ps| => ps[k].cut)
  }

  /** A thread short of its cut always finds a permit. */
  lemma PermitAvailable(s: State, ps: seq<Plan>, k: nat)
    requires Sound(s) && AllOnPath(s, ps) && AllGood(ps) && Sum(Cuts(ps)) == |s.shared.pool.slots|
    requires k < |ps| && s.threads[k].pc.AwaitPermit? && !AtCut(s.threads[k], ps[k])
    ensures s.shared.pool.emptySem > 0
  {
    hide LockSound, Local, Total, InUse, PinSum, Sum, OnPath, Claims;
    forall j | 0 <= j < |ps| ensures Claims(s.threads[j]) <= Cuts(ps)[j] && Weight(Freers, s.threads[j]) == 0 {
      PathClaims(s.threads[j], ps[j]);
    }
    PathClaims(s.threads[k], ps[k]);
    assert s.threads[k].op < ps[k].cut by { ShortOfCut(s.threads[k], ps[k]); }
    var lower := Cuts(ps)[k := Cuts(ps)[k] - 1];
    SumUpdate(Cuts(ps), k, Cuts(ps)[k] - 1);
    ClaimsWithinCuts(s.threads, lower);
    TotalZero(Freers, s.threads);
    PinsBoundUse(s);
    assert SemaphoresAgree(s.shared.pool, s.threads);
  }

  lemma ShortOfCut(t: Thread, p: Plan)
    requires OnPath(t, p) && t.pc.AwaitPermit? && !AtCut(t, p)
    ensures t.op < p.cut
  {
  }

  /** What a thread short of its cut wants next is not resident: nobody else owns it, or only somebody of a later
      turn, who has not started. */
  lemma NextNotResident(s: State, c: Script, k: nat)
    requires Sound(s) && Staged(s, c) && k < |c.plans| && (s.threads[k].pc.Scan? || s.threads[k].pc.Claiming?)
    ensures !Resident(s.shared.pool.slots, LoadTarget(s.threads[k]))
  {
    hide LockSound, Local, Total, Held, InSequence;
    var t, p := s.threads[k], c.plans[k];
    var a := LoadTarget(t);
    assert Follows(c, k);
    NextTarget(t, p);
    if Resident(s.shared.pool.slots, a) {
      SlotPins(s.shared.pool, s.shared.ids, s.threads, a);
      var u := TotalWitness(PinsOn(a), s.threads);
      assert Follows(c, u);
      PathClaims(s.threads[u], c.plans[u]);
      assert a in c.owner && c.owner[a] == u;
      if u == k {
        WaitingHoldsEarlier(t, p);
      } else {
        assert c.turn[k] < c.turn[u];
        LaterUnstarted(s.threads, c.plans, c.turn, k, u);
      }
    }
  }

  lemma LaterUnstarted(ts: seq<Thread>, ps: seq<Plan>, turn: seq<int>, k: nat, u: nat)
    requires |ts| == |ps| == |turn| && InSequence(ts, ps, turn) && k < |ts| && u < |ts|
    requires !AtCut(ts[k], ps[k]) && turn[k] < turn[u]
    ensures Held(ts[u]) == []
  {
    assert Unstarted(ts[u]);
  }

  lemma NextTarget(t: Thread, p: Plan)
    requires OnPath(t, p) && (t.pc.Scan? || t.pc.AwaitPermit? || t.pc.Claiming?)
    ensures t.op <= p.cut < |p.order| && LoadTarget(t) == p.order[t.op]
    ensures t.pc.Claiming? ==> t.op < p.cut
    ensures !t.pc.AwaitPermit? ==> !AtCut(t, p)
  {
  }

  lemma WaitingHoldsEarlier(t: Thread, p: Plan)
    requires OnPath(t, p) && GoodPlan(p) && (t.pc.Scan? || t.pc.AwaitPermit? || t.pc.Claiming?)
    ensures LoadTarget(t) !in Held(t)
  {
  }

  /** Read-only threads never find an account lock taken for writing. */
  lemma ReadersNeverWait(s: State, ps: seq<Plan>, k: nat)
    requires Sound(s) && AllOnPath(s, ps) && k < |ps| && s.threads[k].pc.LockFirst?
    ensures Ready(s.threads[k], s.shared)
  {
    hide PoolSound, LoadedList, Lifecycle, Timing, LockSound, Total;
    LockCount(s);
    var t := s.threads[k];
    var l := FirstLock(s.shared.ids, t);
    assert CurrentOp(t).kind == Balance;
    if s.shared.locks[l].writer.Some? {
      NoWriters(s, ps, l, s.shared.locks[l].writer.value);
    }
  }

  lemma NoWriters(s: State, ps: seq<Plan>, l: nat, u: nat)
    requires Sound(s) && AllOnPath(s, ps) && l < |s.shared.locks|
    ensures !IsWriter(s.shared.locks[l], u)
  {
    hide PoolSound, Local, Total;
    assert LockAgrees(s.shared.locks[l], l, s.shared.ids, s.threads);
    if u < |s.threads| {
      assert CurrentOp(s.threads[u]).kind == Balance;
    }
  }

  /** A thread that is not at its cut can step. */
  lemma PathReady(s: State, ps: seq<Plan>, k: nat)
    requires Sound(s) && AllOnPath(s, ps) && AllGood(ps) && Sum(Cuts(ps)) == |s.shared.pool.slots|
    requires s.shared.clock >= 0 && k < |ps| && !AtCut(s.threads[k], ps[k])
    ensures Ready(s.threads[k], s.shared)
  {
    hide LockSound, PoolSound, Total, Sum, LoadedList, Lifecycle, Timing;
    LockCount(s);
    if s.threads[k].pc.AwaitPermit? {
      PermitAvailable(s, ps, k);
    } else if s.threads[k].pc.LockFirst? {
      ReadersNeverWait(s, ps, k);
    }
  }

  lemma LoadStaysOnPath(t: Thread, p: Plan, m: Shared)
    requires Ready(t, m) && OnPath(t, p) && GoodPlan(p) && InLoad(t.pc) && !AtCut(t, p)
    requires t.pc.LoadCheck? ==> LoadTarget(t) in m.ids && LoadTarget(t) >= 0 && |t.loaded| < MAX_LOADED_ACCOUNTS_PER_TX
    requires t.pc.Scan? || t.pc.Claiming? ==> !Resident(m.pool.slots, LoadTarget(t))
    requires t.pc.Claiming? ==> FreeSlot(m.pool.slots) < |m.pool.slots|
    ensures OnPath(StepLoad(t, m).0, p)
  {
    hide FreeSlotFrom, SlotFrom;
    assert CurrentOp(t) == ReadOf(p.order[t.op]);
    assert t.op < |p.order| && p.order[..t.op + 1] == p.order[..t.op] + [p.order[t.op]];
  }

  lemma CallStaysOnPath(me: nat, t: Thread, p: Plan, m: Shared)
    requires Ready(t, m) && OnPath(t, p) && ReadCall(t.pc) && t.op < p.cut
    requires CurrentOp(t).account in m.ids && BankCall(t, m.ids)
    requires forall j :: 0 <= j < |m.balances| ==> m.balances[j] >= 0
    ensures OnPath(ThreadStep(me, t, m).0, p)
  {
    hide FirstLock, SecondLock;
    assert CurrentOp(t) == ReadOf(p.order[t.op]);
  }

  lemma RestStaysOnPath(me: nat, t: Thread, p: Plan, m: Shared)
    requires Ready(t, m) && OnPath(t, p) && !InLoad(t.pc) && !ReadCall(t.pc)
    ensures OnPath(ThreadStep(me, t, m).0, p)
  {
  }

  lemma StepStaysOnPath(s: State, c: Script, k: nat)
    requires Sound(s) && Staged(s, c)
    requires k < |c.plans| && Ready(s.threads[k], s.shared) && !AtCut(s.threads[k], c.plans[k])
    requires AccountsKnown(c.plans, s.shared.ids)
    ensures AllOnPath(Apply(s, Step(k)), c.plans)
  {
    hide LockSound, PoolSound, Total, OnPath, Ready, ThreadStep, LoadedList, Lifecycle, Timing, Resident, InSequence;
    var t, p, m := s.threads[k], c.plans[k], s.shared;
    assert Follows(c, k);
    if p.order == [] {
      IdleStaysOnPath(k, t, p, m);
    } else if InLoad(t.pc) {
      assert ThreadStep(k, t, m) == StepLoad(t, m) by { StepPart(k, t, m); }
      if t.pc.Scan? || t.pc.Claiming? {
        NextNotResident(s, c, k);
      }
      if t.pc.Claiming? {
        PermitFindsFreeSlot(m.pool, m.ids, s.threads, k);
      }
      PathTarget(t, p, m.ids, m.clock);
      LoadStaysOnPath(t, p, m);
    } else if ReadCall(t.pc) {
      PathTarget(t, p, m.ids, m.clock);
      CallStaysOnPath(k, t, p, m);
    } else {
      RestStaysOnPath(k, t, p, m);
    }
  }

  /** The transaction that names no existing account aborts at once. */
  lemma IdleStaysOnPath(me: nat, t: Thread, p: Plan, m: Shared)
    requires Ready(t, m) && OnPath(t, p) && p.order == []
    ensures OnPath(ThreadStep(me, t, m).0, p)
  {
  }

  /** Stepping the earliest turn among those short of their cuts keeps the sequence. */
  lemma StepStaysStaged(s: State, c: Script, k: nat)
    requires Sound(s) && Staged(s, c)
    requires k < |c.plans| && Ready(s.threads[k], s.shared) && !AtCut(s.threads[k], c.plans[k])
    requires forall t :: 0 <= t < |c.plans| && !AtCut(s.threads[t], c.plans[t]) ==> c.turn[k] <= c.turn[t]
    requires AccountsKnown(c.plans, s.shared.ids)
    ensures Staged(Apply(s, Step(k)), c)
  {
    hide Sound, OnPath, AtCut, ThreadStep, Ready, AccountsKnown, GoodScript;
    StepStaysOnPath(s, c, k);
    assert |c.plans| == |c.turn| by { ScriptSizes(c); }
  }

  lemma ScriptSizes(c: Script)
    requires GoodScript(c)
    ensures |c.plans| == |c.needs| == |c.turn| && AllGood(c.plans)
  {
    forall t: nat | t < |c.plans| ensures GoodPlan(c.plans[t]) {
      assert Follows(c, t);
    }
  }

  lemma PathTarget(t: Thread, p: Plan, ids: seq<int>, clock: int)
    requires OnPath(t, p) && (InLoad(t.pc) || ReadCall(t.pc)) && Local(t, ids, clock) && p.order != []
    requires Known(p.order, ids)
    ensures LoadTarget(t) in ids && LoadTarget(t) >= 0 && CurrentOp(t).account in ids
    ensures |t.loaded| < MAX_LOADED_ACCOUNTS_PER_TX || !t.pc.LoadCheck?
    ensures ReadCall(t.pc) ==> t.op < p.cut
  {
    hide BankCall, Lifecycle, Timing;
    assert CurrentOp(t) == ReadOf(p.order[t.op]);
    assert p.order[t.op] in p.order;
  }

  lemma {:induction false} OneHolder(a: int, ts: seq<Thread>)
    requires forall j, k :: 0 <= j < k < |ts| ==> a !in Held(ts[j]) || a !in Held(ts[k])
    ensures Total(PinsOn(a), ts) <= 1
    ensures (forall k :: 0 <= k < |ts| ==> a !in Held(ts[k])) ==> Total(PinsOn(a), ts) == 0
  {
    hide Held;
    if ts != [] {
      var n := |ts| - 1;
      OneHolder(a, ts[..n]);
      assert forall k :: 0 <= k < n ==> ts[..n][k] == ts[k];
    }
  }

  lemma HoldersApart(s: State, c: Script, a: int)
    requires AllOnPath(s, c.plans) && GoodScript(c)
    ensures Total(PinsOn(a), s.threads) <= 1
  {
    hide OnPath, Held, Total;
    forall j: nat, k: nat | j < k < |s.threads| ensures a !in Held(s.threads[j]) || a !in Held(s.threads[k]) {
      assert Follows(c, j) && Follows(c, k);
      PathClaims(s.threads[j], c.plans[j]);
      PathClaims(s.threads[k], c.plans[k]);
    }
    OneHolder(a, s.threads);
  }

  lemma {:induction false} HoldingsAtCuts(ts: seq<Thread>, ps: seq<Plan>)
    requires |ts| == |ps| && forall k :: 0 <= k < |ps| ==> OnPath(ts[k], ps[k]) && GoodPlan(ps[k]) && AtCut(ts[k], ps[k])
    ensures Total(Holdings, ts) == Sum(Cuts(ps))
  {
    hide OnPath, Held, GoodPlan, AtCut;
    if ts != [] {
      var n := |ts| - 1;
      HoldingsAtCuts(ts[..n], ps[..n]);
      PathClaims(ts[n], ps[n]);
      assert Cuts(ps)[..n] == Cuts(ps[..n]);
    }
  }

  /** At the cuts every slot is taken, and everybody left wants another account. */
  lemma CutsAreStuck(s: State, c: Script)
    requires Sound(s) && AllOnPath(s, c.plans) && GoodScript(c)
    requires Sum(Cuts(c.plans)) == |s.shared.pool.slots|
    requires forall k :: 0 <= k < |c.plans| ==> AtCut(s.threads[k], c.plans[k])
    requires exists k :: 0 <= k < |c.needs| && c.needs[k] != {}
    ensures Stuck(s)
  {
    hide LockSound, Local, Total, InUse, PinSum, Sum, OnPath, GoodPlan, Held, Follows;
    var p := s.shared.pool;
    ScriptSizes(c);
    HoldingsAtCuts(s.threads, c.plans);
    forall k | 0 <= k < |p.slots| ensures p.slots[k].pins <= if p.slots[k].inUse then 1 else 0 {
      HoldersApart(s, c, p.slots[k].account);
    }
    SinglePinsWithinUse(p.slots);
    TotalZero(Permits, s.threads);
    TotalZero(Freers, s.threads);
    assert SemaphoresAgree(p, s.threads);
    var k: nat :| k < |c.needs| && c.needs[k] != {};
    assert c.plans[k].order != [] by { NeedyPlan(c, k); }
  }

  lemma NeedyPlan(c: Script, k: nat)
    requires GoodScript(c) && k < |c.needs| && c.needs[k] != {}
    ensures c.plans[k].order != []
  {
    assert Follows(c, k);
  }

  /** The first turn among the transactions short of their cuts. */
  lemma {:induction false} FirstTurn(ts: seq<Thread>, ps: seq<Plan>, turn: seq<int>, n: nat) returns (k: nat)
    requires |ts| == |ps| == |turn| && n <= |ts| && exists u :: 0 <= u < n && !AtCut(ts[u], ps[u])
    ensures k < n && !AtCut(ts[k], ps[k]) && forall u :: 0 <= u < n && !AtCut(ts[u], ps[u]) ==> turn[k] <= turn[u]
  {
    hide AtCut;
    if u :| 0 <= u < n - 1 && !AtCut(ts[u], ps[u]) {
      k := FirstTurn(ts, ps, turn, n - 1);
      if !AtCut(ts[n - 1], ps[n - 1]) && turn[n - 1] < turn[k] {
        k := n - 1;
      }
    } else {
      k := n - 1;
    }
  }

  /** From any state of the script, stepping whoever is short of the cut and comes first leads to a stuck state. */
  lemma {:induction false} DriveToCuts(i: Input, acts: seq<Action>, c: Script) returns (all: seq<Action>)
    requires ValidInput(i) && Legal(Start(i), acts) && Staged(Exec(Start(i), acts), c)
    requires Sum(Cuts(c.plans)) == i.capacity && Exec(Start(i), acts).shared.clock >= 0
    requires AccountsKnown(c.plans, i.ids) && exists k :: 0 <= k < |c.needs| && c.needs[k] != {}
    ensures Legal(Start(i), all) && Stuck(Exec(Start(i), all))
    decreases WorkLeft(i, acts)
  {
    hide Sound, Total, Sum, OnPath, AtCut, GoodScript, Ready, Exec, Legal, ThreadStep, Stuck, AccountsKnown, InSequence;
    var s := Exec(Start(i), acts);
    ReachableSound(i, acts);
    ScriptSizes(c);
    if forall k :: 0 <= k < |c.plans| ==> AtCut(s.threads[k], c.plans[k]) {
      CutsAreStuck(s, c);
      all := acts;
    } else {
      var k := FirstTurn(s.threads, c.plans, c.turn, |c.plans|);
      PathReady(s, c.plans, k);
      StepStaysStaged(s, c, k);
      Extend(i, acts, Step(k));
      StepWorkDrops(i, acts, k);
      all := DriveToCuts(i, acts + [Step(k)], c);
    }
  }

  lemma StepWorkDrops(i: Input, acts: seq<Action>, k: nat)
    requires ValidInput(i) && Legal(Start(i), acts) && Legal(Start(i), acts + [Step(k)])
    requires Enabled(Exec(Start(i), acts), Step(k))
    requires Exec(Start(i), acts + [Step(k)]) == Apply(Exec(Start(i), acts), Step(k))
    ensures WorkLeft(i, acts + [Step(k)]) < WorkLeft(i, acts)
    ensures Exec(Start(i), acts + [Step(k)]).shared.clock == Exec(Start(i), acts).shared.clock
  {
    hide Total, ThreadStep, Exec, Legal, Sound;
    ReachableSound(i, acts);
    WorkDrops(Exec(Start(i), acts), Step(k));
    StepKeepsSizes(k, Exec(Start(i), acts).threads[k], Exec(Start(i), acts).shared);
  }

  // ---------- the script of a jam ----------

  lemma {:induction false} Enumerate(s: set<int>) returns (q: seq<int>)
    ensures Distinct(q) && Elements(q) == s && |q| == |s|
    decreases |s|
  {
    if s == {} {
      q := [];
    } else {
      var x := Member(s);
      var rest := Enumerate(s - {x});
      q := [x] + rest;
      assert forall y :: y in q <==> y == x || y in Elements(rest);
    }
  }

  /** First the members of `own`, then `x`, then the rest of `need`. */
  lemma Arrange(own: set<int>, x: int, need: set<int>) returns (order: seq<int>)
    requires own <= need && x in need && x !in own
    ensures Distinct(order) && Elements(order) == need
    ensures |own| < |order| && order[|own|] == x
    ensures forall j :: 0 <= j < |own| ==> order[j] in own
  {
    var first := Enumerate(own);
    var rest := Enumerate(need - own - {x});
    forall j | 0 <= j < |first| ensures first[j] in own {
      assert first[j] in Elements(first);
    }
    forall j | 0 <= j < |rest| ensures rest[j] in need - own - {x} {
      assert rest[j] in Elements(rest);
    }
    order := first + [x] + rest;
    assert forall y :: y in order <==> y in Elements(first) || y == x || y in Elements(rest);
  }

  /** What a transaction owns, then an account it misses, then the rest of what it needs. */
  lemma PlanFor(needs: seq<set<int>>, owner: map<int, nat>, turn: seq<int>, t: nat) returns (p: Plan)
    requires Jam(needs, owner, turn) && t < |needs|
    ensures PlanFits(p, t, needs[t], owner, turn)
  {
    hide Distinct;
    OwnedSpare(needs, owner, turn, t);
    if needs[t] == {} {
      assert Distinct<int>([]) by { NothingTwice(); }
      p := Plan([], 0);
    } else {
      var x :| Missing(x, needs[t], owner, turn, t);
      forall a | a in OwnedBy(owner, t) ensures a in needs[t] {
        assert a in owner && owner[a] == t;
      }
      var order := Arrange(OwnedBy(owner, t), x, needs[t]);
      p := Plan(order, |OwnedBy(owner, t)|);
    }
  }

  lemma NothingTwice()
    ensures Distinct<int>([])
  {
  }

  lemma {:induction false} PlansFor(needs: seq<set<int>>, owner: map<int, nat>, turn: seq<int>, n: nat)
    returns (ps: seq<Plan>)
    requires Jam(needs, owner, turn) && n <= |needs|
    ensures |ps| == n && forall t: nat :: t < n ==> PlanFits(ps[t], t, needs[t], owner, turn)
  {
    hide Jam, PlanFits;
    if n == 0 {
      ps := [];
    } else {
      var rest := PlansFor(needs, owner, turn, n - 1);
      var last := PlanFor(needs, owner, turn, n - 1);
      ps := rest + [last];
    }
  }

  /** Every owned account is owned by one transaction, so the cuts add up to the jam. */
  lemma {:induction false} CutsAddUp(ps: seq<Plan>, owner: map<int, nat>)
    requires forall t: nat :: t < |ps| ==> ps[t].cut == |OwnedBy(owner, t)|
    ensures Sum(Cuts(ps)) == |OwnedBelow(owner, |ps|)|
  {
    var below := OwnedBelow(owner, |ps|);
    if ps == [] {
      assert below == {};
    } else {
      var n := |ps| - 1;
      CutsAddUp(ps[..n], owner);
      assert Cuts(ps)[..n] == Cuts(ps[..n]);
      assert below == OwnedBelow(owner, n) + OwnedBy(owner, n);
    }
  }

  lemma ScriptOf(needs: seq<set<int>>, owner: map<int, nat>, turn: seq<int>) returns (c: Script)
    requires Jam(needs, owner, turn)
    ensures GoodScript(c) && c.needs == needs && Sum(Cuts(c.plans)) == |owner|
  {
    hide Sum, GoodPlan, Missing;
    var ps := PlansFor(needs, owner, turn, |needs|);
    c := Script(ps, needs, owner, turn);
    forall t: nat | t < |ps| ensures Follows(c, t) {
      assert PlanFits(ps[t], t, needs[t], owner, turn);
    }
    CutsAddUp(ps, owner);
    AllOwned(needs, owner, turn);
  }

  /** The program that the plans describe: balance reads only. */
  function ReadProgram(ps: seq<Plan>, capacity: nat, ids: seq<int>): Input {
    Input(capacity, ids, seq(|ids|, j => 0),
          seq(|ps|, t requires 0 <= t < |ps| => Tx(t, 0, ReadAll(ps[t].order))))
  }

  lemma {:induction false} ReadsUse(order: seq<int>, n: nat)
    requires n <= |order|
    ensures n <= |ReadAll(order)| && UsedUpTo(ReadAll(order), n) == Elements(order[..n])
  {
    if n > 0 {
      ReadsUse(order, n - 1);
      assert ReadAll(order)[n - 1] == ReadOf(order[n - 1]);
      assert order[..n] == order[..n - 1] + [order[n - 1]];
    }
  }

  /** One transaction of the program names exactly what it needs. */
  lemma ReadsNeed(order: seq<int>, ids: seq<int>, t: nat)
    requires SoundIds(ids) && Elements(order) <= Elements(ids)
    ensures Used(Tx(t, 0, ReadAll(order))) * Elements(ids) == Elements(order)
  {
    if order == [] {
      var ops := ReadAll(order);
      assert UsedUpTo(ops, 1) == UsedUpTo(ops, 0) + {-1};
      assert -1 !in ids;
    } else {
      ReadsUse(order, |order|);
      assert order[..|order|] == order;
    }
  }

  lemma ReadProgramFits(c: Script, capacity: nat, ids: seq<int>)
    requires GoodScript(c) && SoundIds(ids) && |ids| <= MAX_ACCOUNTS && |c.needs| <= MAX_TRANSACTIONS
    requires forall t :: 0 <= t < |c.needs| ==> c.needs[t] <= Elements(ids)
    ensures HasNeeds(ReadProgram(c.plans, capacity, ids), capacity, ids, c.needs)
  {
    hide UsedUpTo, Used, Missing;
    var i := ReadProgram(c.plans, capacity, ids);
    var needs := Needs(i.txs, Elements(ids));
    forall t: nat | t < |c.plans| ensures |i.txs[t].ops| <= MAX_OPS_PER_TX && needs[t] == c.needs[t] {
      assert Follows(c, t);
      ReadsNeed(c.plans[t].order, ids, t);
      DistinctCount(c.plans[t].order);
      DistinctCount(ids);
      SubsetCount(c.needs[t], Elements(ids));
    }
    assert needs == c.needs;
  }

  lemma StartStaged(c: Script, capacity: nat, ids: seq<int>)
    requires GoodScript(c)
    ensures Staged(Start(ReadProgram(c.plans, capacity, ids)), c)
  {
    hide Follows;
    forall t: nat | t < |c.plans| ensures OnPath(Start(ReadProgram(c.plans, capacity, ids)).threads[t], c.plans[t]) {
      assert GoodPlan(c.plans[t]) by { ScriptSizes(c); }
    }
  }

  /** Where the needs allow a jam, some program of exactly these needs reaches a stuck state. */
  lemma StuckReachable(ids: seq<int>, needs: seq<set<int>>, owner: map<int, nat>, turn: seq<int>)
    returns (i: Input, acts: seq<Action>)
    requires Jam(needs, owner, turn)
    requires SoundIds(ids) && |ids| <= MAX_ACCOUNTS && |needs| <= MAX_TRANSACTIONS
    requires forall t :: 0 <= t < |needs| ==> needs[t] <= Elements(ids)
    ensures HasNeeds(i, |owner|, ids, needs) && Legal(Start(i), acts) && Stuck(Exec(Start(i), acts))
  {
    hide Sum, Staged, Stuck, HasNeeds, UsedUpTo, Missing, Jam, GoodScript, Exec, Legal, AccountsKnown;
    var c := ScriptOf(needs, owner, turn);
    i := ReadProgram(c.plans, |owner|, ids);
    ReadProgramFits(c, |owner|, ids);
    StartStaged(c, |owner|, ids);
    assert ValidInput(i) by { NeedsValid(i, |owner|, ids, needs); }
    PlansKnown(c, ids);
    SomeoneNeeds(needs, owner, turn);
    NothingDone(Start(i));
    acts := DriveToCuts(i, [], c);
  }

  lemma PlansKnown(c: Script, ids: seq<int>)
    requires GoodScript(c) && SoundIds(ids) && forall t :: 0 <= t < |c.needs| ==> c.needs[t] <= Elements(ids)
    ensures AccountsKnown(c.plans, ids)
  {
    hide Missing;
    forall k: nat | k < |c.plans| ensures Known(c.plans[k].order, ids) {
      assert Follows(c, k);
      ElementsKnown(c.plans[k].order, ids);
    }
  }

  lemma ElementsKnown(order: seq<int>, ids: seq<int>)
    requires SoundIds(ids) && Elements(order) <= Elements(ids)
    ensures Known(order, ids)
  {
    forall a | a in order ensures a in ids && a >= 0 {
      assert a in Elements(order);
    }
  }

  lemma SomeoneNeeds(needs: seq<set<int>>, owner: map<int, nat>, turn: seq<int>)
    requires Jam(needs, owner, turn)
    ensures exists k :: 0 <= k < |needs| && needs[k] != {}
  {
  }

  lemma NothingDone(s: State)
    ensures Legal(s, []) && Exec(s, []) == s
  {
  }

  lemma NeedsValid(i: Input, capacity: nat, ids: seq<int>, needs: seq<set<int>>)
    requires HasNeeds(i, capacity, ids, needs)
    ensures ValidInput(i) && i.capacity == capacity && (JamPossible(i) <==> CanJam(needs, capacity))
  {
  }

  /** The exact bound. Knowing which accounts each transaction needs, every schedule of every such program avoids
      a stuck state if and only if the needs allow no jam of the pool's capacity. */
  lemma ProgressExactlyWithoutJam(capacity: nat, ids: seq<int>, needs: seq<set<int>>)
    requires SoundIds(ids) && |ids| <= MAX_ACCOUNTS && |needs| <= MAX_TRANSACTIONS
    requires forall t :: 0 <= t < |needs| ==> needs[t] <= Elements(ids)
    ensures !CanJam(needs, capacity) <==>
              forall i: Input, acts: seq<Action> ::
                HasNeeds(i, capacity, ids, needs) && Legal(Start(i), acts) ==> !Stuck(Exec(Start(i), acts))
  {
    hide Stuck, HasNeeds, Exec, Legal, Jam, JamPossible;
    if CanJam(needs, capacity) {
      var owner: map<int, nat>, turn: seq<int> :| Jam(needs, owner, turn) && |owner| == capacity;
      var i, acts := StuckReachable(ids, needs, owner, turn);
      assert HasNeeds(i, capacity, ids, needs) && Legal(Start(i), acts) && Stuck(Exec(Start(i), acts));
    } else {
      forall i: Input, acts: seq<Action> | HasNeeds(i, capacity, ids, needs) && Legal(Start(i), acts)
        ensures !Stuck(Exec(Start(i), acts))
      {
        NeedsValid(i, capacity, ids, needs);
        NeverStuckWithoutJam(i, acts);
      }
    }
  }

  // ---------- knowing only how many accounts ----------

  /** Cuts below each demand that add up to the capacity. */
  lemma {:induction false} ChooseCuts(demands: seq<nat>, capacity: nat) returns (cuts: seq<nat>)
    requires SpareSum(demands) >= capacity
    ensures |cuts| == |demands| && Sum(cuts) == capacity
    ensures forall t :: 0 <= t < |cuts| ==> if demands[t] == 0 then cuts[t] == 0 else cuts[t] < demands[t]
  {
    if demands == [] {
      cuts := [];
    } else {
      var n := |demands| - 1;
      var spare := if demands[n] == 0 then 0 else demands[n] - 1;
      var last := if spare > capacity then capacity else spare;
      var rest := ChooseCuts(demands[..n], capacity - last);
      cuts := rest + [last];
      assert cuts[..n] == rest;
    }
  }

  /** A set extends to any size up to that of a larger one, within it. */
  lemma {:induction false} Complete(some: set<int>, all: set<int>, size: nat) returns (r: set<int>)
    requires some <= all && |some| <= size <= |all|
    ensures some <= r <= all && |r| == size
    decreases size - |some|
  {
    if |some| == size {
      r := some;
    } else {
      assert all == some + (all - some);
      var x := Member(all - some);
      r := Complete(some + {x}, all, size);
    }
  }

  /** Needs of the demanded sizes: disjoint blocks of accounts below `wall`, owned, and `wall`, which all miss. */
  lemma {:induction false} MakeNeeds(demands: seq<nat>, cuts: seq<nat>, wall: nat, all: set<int>)
    returns (needs: seq<set<int>>, owner: map<int, nat>)
    requires |cuts| == |demands| && Sum(cuts) <= wall && forall a :: 0 <= a <= wall ==> a in all
    requires forall t :: 0 <= t < |cuts| ==>
               demands[t] <= |all| && if demands[t] == 0 then cuts[t] == 0 else cuts[t] < demands[t]
    ensures forall a :: a in owner <==> 0 <= a < Sum(cuts)
    ensures Sum(cuts) >= 0
    ensures |needs| == |demands| && Sizes(needs) == demands
    ensures forall t :: 0 <= t < |needs| ==> needs[t] <= all && (needs[t] != {} ==> wall in needs[t])
    ensures forall a :: a in owner ==> owner[a] < |needs| && a in needs[owner[a]]
  {
    if demands == [] {
      needs, owner := [], map[];
    } else {
      var n := |demands| - 1;
      var before, owned := MakeNeeds(demands[..n], cuts[..n], wall, all);
      var base := Sum(cuts[..n]);
      var block := Block(base, cuts[n]);
      var need := NeedOf(demands[n], block, wall, all);
      needs := before + [need];
      owner := owned + map a | a in block :: n;
    }
  }

  lemma NeedOf(demand: nat, block: set<int>, wall: nat, all: set<int>) returns (need: set<int>)
    requires block <= all && wall in all && wall !in block && demand <= |all|
    requires if demand == 0 then block == {} else |block| < demand
    ensures block <= need <= all && |need| == demand && (need != {} ==> wall in need)
  {
    if demand == 0 {
      need := {};
    } else {
      need := Complete(block + {wall}, all, demand);
    }
  }

  lemma DemandsMeet(ids: seq<int>, needs: seq<set<int>>, i: Input, capacity: nat)
    requires HasNeeds(i, capacity, ids, needs) && forall t :: 0 <= t < |needs| ==> needs[t] <= Elements(ids)
    ensures HasDemands(i, capacity, Sizes(needs), |ids|)
  {
    UnionWithin(needs, Elements(ids));
    SubsetCount(Union(needs), Elements(ids));
    DistinctCount(ids);
  }

  lemma {:induction false} UnionWithin(needs: seq<set<int>>, all: set<int>)
    requires forall t :: 0 <= t < |needs| ==> needs[t] <= all
    ensures Union(needs) <= all
  {
    if needs != [] {
      UnionWithin(needs[..|needs| - 1], all);
    }
  }

  /** Enough demand and more accounts than slots: a program of these demands and a schedule that gets it stuck. */
  lemma DemandGetsStuck(capacity: nat, demands: seq<nat>, accounts: nat) returns (i: Input, acts: seq<Action>)
    requires 0 < capacity < accounts <= MAX_ACCOUNTS && |demands| <= MAX_TRANSACTIONS
    requires forall t :: 0 <= t < |demands| ==> demands[t] <= accounts
    requires SpareSum(demands) >= capacity
    ensures HasDemands(i, capacity, demands, accounts) && Legal(Start(i), acts) && Stuck(Exec(Start(i), acts))
  {
    hide Stuck, HasNeeds, HasDemands, SpareSum, Exec, Legal, Jam;
    var ids := Range(0, accounts);
    RangeElements(0, accounts);
    var needs, owner := JamOf(demands, capacity, Elements(ids));
    i, acts := StuckReachable(ids, needs, owner, seq(|needs|, t => 0));
    DemandsMeet(ids, needs, i, capacity);
  }

  /** A jam of the demanded sizes among given accounts. */
  lemma JamOf(demands: seq<nat>, capacity: nat, all: set<int>) returns (needs: seq<set<int>>, owner: map<int, nat>)
    requires 0 < capacity <= SpareSum(demands) && forall a :: 0 <= a <= capacity ==> a in all
    requires forall t :: 0 <= t < |demands| ==> demands[t] <= |all|
    ensures Jam(needs, owner, seq(|needs|, t => 0)) && |owner| == capacity
    ensures Sizes(needs) == demands && |needs| == |demands| && forall t :: 0 <= t < |needs| ==> needs[t] <= all
  {
    hide Sum, SpareSum, Jam;
    var cuts := ChooseCuts(demands, capacity);
    needs, owner := MakeNeeds(demands, cuts, capacity, all);
    OwnerCount(owner, capacity);
    WallJams(needs, owner, seq(|needs|, t => 0), capacity);
  }

  lemma OwnerCount(owner: map<int, nat>, n: nat)
    requires forall a :: a in owner <==> 0 <= a < n
    ensures |owner| == n
  {
    var slots := Block(0, n);
    assert forall a: int :: a in slots <==> a in owner;
    KeysCount(owner, slots);
  }

  lemma WallJams(needs: seq<set<int>>, owner: map<int, nat>, turn: seq<int>, wall: int)
    requires |turn| == |needs| && |owner| > 0 && wall !in owner
    requires forall t :: 0 <= t < |needs| && needs[t] != {} ==> wall in needs[t]
    requires forall a :: a in owner ==> owner[a] < |needs| && a in needs[owner[a]]
    ensures Jam(needs, owner, turn)
  {
    forall t: nat | t < |needs| && needs[t] != {} ensures exists x :: Missing(x, needs[t], owner, turn, t) {
      assert Missing(wall, needs[t], owner, turn, t);
    }
    var a := Member(owner.Keys);
    assert a in needs[owner[a]];
  }

  lemma DemandsBounded(i: Input, capacity: nat, demands: seq<nat>, accounts: nat)
    requires HasDemands(i, capacity, demands, accounts)
    ensures ValidInput(i) && i.capacity == capacity
    ensures Sizes(Needs(i.txs, Elements(i.ids))) == demands && |Union(Needs(i.txs, Elements(i.ids)))| <= accounts
  {
  }

  /** The exact bound from sizes alone. Knowing how many distinct accounts each transaction names and how many the
      whole trace names at most, every schedule of every such program avoids a stuck state if and only if the sum
      of (accounts - 1) is below the pool capacity, or the trace names no more accounts than there are slots. */
  lemma ProgressExactlyBelowDemand(capacity: nat, demands: seq<nat>, accounts: nat)
    requires 0 < capacity && accounts <= MAX_ACCOUNTS && |demands| <= MAX_TRANSACTIONS
    requires forall t :: 0 <= t < |demands| ==> demands[t] <= accounts
    ensures SpareSum(demands) < capacity || accounts <= capacity <==>
              forall i: Input, acts: seq<Action> ::
                HasDemands(i, capacity, demands, accounts) && Legal(Start(i), acts) ==> !Stuck(Exec(Start(i), acts))
  {
    hide Stuck, HasDemands, Exec, Legal, SpareSum, Union, Needs, JamPossible;
    if SpareSum(demands) < capacity || accounts <= capacity {
      forall i: Input, acts: seq<Action> | HasDemands(i, capacity, demands, accounts) && Legal(Start(i), acts)
        ensures !Stuck(Exec(Start(i), acts))
      {
        DemandsBounded(i, capacity, demands, accounts);
        if SpareSum(demands) < capacity {
          NeverStuckLowDemand(i, acts);
        } else {
          NeverStuckFewAccounts(i, acts);
        }
      }
    } else {
      var i, acts := DemandGetsStuck(capacity, demands, accounts);
      assert HasDemands(i, capacity, demands, accounts) && Legal(Start(i), acts) && Stuck(Exec(Start(i), acts));
    }
  }

  /** The smallest case with five slots: one transaction that reads six accounts. */
  lemma SixAccountsHang() returns (i: Input, acts: seq<Action>)
    ensures HasDemands(i, 5, [6], 6) && Legal(Start(i), acts) && Stuck(Exec(Start(i), acts))
  {
    assert SpareSum([6]) == 5 by {
      assert [6 as nat][..0] == [];
    }
    i, acts := DemandGetsStuck(5, [6], 6);
  }
}
