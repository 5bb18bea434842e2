/** Which programs can fill the buffer pool with transactions that wait for each other's accounts. */
module Jams {
  import opened Common
  import opened Ledger
  import opened Pool
  import opened Engine
  import opened Weights
  import opened Locals
  import opened PoolSafety
  import opened LockSafety
  import opened Money
  import opened Safety
  import opened Progress

  /** The existing accounts each transaction names. */
  function Needs(txs: seq<Tx>, known: set<int>): (r: seq<set<int>>)
    ensures |r| == |txs| && forall t :: 0 <= t < |r| ==> r[t] == Used(txs[t]) * known
  {
    seq(|txs|, t requires 0 <= t < |txs| => Used(txs[t]) * known)
  }

  /** An account that `need` still wants: nobody owns it, or a transaction of a later turn does. */
  ghost predicate Missing(x: int, need: set<int>, owner: map<int, nat>, turn: seq<int>, t: nat) {
    x in need && (x in owner ==> t < |turn| && owner[x] < |turn| && turn[t] < turn[owner[x]])
  }

  /** A jam: pinned accounts, each owned by a transaction that needs it, such that every transaction that needs
      anything misses an account. A missing account may be owned only in a later turn: `load_account` looks for it
      before it waits for a permit, so an insertion in between goes unnoticed. */
  ghost predicate Jam(needs: seq<set<int>>, owner: map<int, nat>, turn: seq<int>) {
    && |turn| == |needs|
    && (exists t :: 0 <= t < |needs| && needs[t] != {})
    && (forall a :: a in owner ==> owner[a] < |needs| && a in needs[owner[a]])
    && (forall t :: 0 <= t < |needs| && needs[t] != {} ==> exists x :: Missing(x, needs[t], owner, turn, t))
  }

  /** Some jam takes exactly `capacity` slots. */
  ghost predicate CanJam(needs: seq<set<int>>, capacity: nat) {
    exists owner: map<int, nat>, turn: seq<int> :: Jam(needs, owner, turn) && |owner| == capacity
  }

  ghost predicate JamPossible(i: Input) {
    CanJam(Needs(i.txs, Elements(i.ids)), i.capacity)
  }

  // ---------- waiters come before the holders of what they want ----------

  /** The turns of a run: whoever waits for a permit has an earlier turn than every holder of its account. */
  predicate InTurn(turn: seq<int>, ts: seq<Thread>) {
    && |turn| == |ts|
    && forall w, h :: 0 <= w < |ts| && 0 <= h < |ts| && ts[w].pc.AwaitPermit? && LoadTarget(ts[w]) in Held(ts[h]) ==>
         turn[w] < turn[h]
  }

  /** An integer beyond all elements, either way. */
  lemma {:induction false} Beyond(s: seq<int>) returns (b: int)
    ensures forall k :: 0 <= k < |s| ==> -b < s[k] < b
  {
    if s == [] {
      b := 0;
    } else {
      var x := s[|s| - 1];
      b := Beyond(s[..|s| - 1]);
      b := Max(b, Max(x + 1, 1 - x));
    }
  }

  /** A thread begins to wait only for an account that is not resident. */
  lemma NewWaiter(me: nat, t: Thread, m: Shared)
    requires Ready(t, m)
    ensures var t' := ThreadStep(me, t, m).0;
            t'.pc.AwaitPermit? ==>
              !Resident(m.pool.slots, LoadTarget(t)) && Held(t') == Held(t) && LoadTarget(t') == LoadTarget(t)
  {
    hide Find, SlotFrom, FreeSlotFrom, FirstLock, SecondLock;
    if InLoad(t.pc) {
      NewWaiterLoads(t, m);
    } else if InLocking(t.pc) || InMoney(t.pc) {
      NoWaiterInBank(me, t, m);
    }
  }

  lemma NewWaiterLoads(t: Thread, m: Shared)
    requires InLoad(t.pc) && (t.pc.AwaitPermit? ==> m.pool.emptySem > 0)
    ensures var t' := StepLoad(t, m).0;
            t'.pc.AwaitPermit? ==>
              !Resident(m.pool.slots, LoadTarget(t)) && Held(t') == Held(t) && LoadTarget(t') == LoadTarget(t)
  {
    hide Find, SlotFrom, FreeSlotFrom;
  }

  lemma NoWaiterInBank(me: nat, t: Thread, m: Shared)
    requires Ready(t, m) && (InLocking(t.pc) || InMoney(t.pc))
    ensures !ThreadStep(me, t, m).0.pc.AwaitPermit?
  {
    hide FirstLock, SecondLock;
  }

  /** Any step but one that begins to wait may move the thread to the last turn. */
  lemma StepKeepsTurns(s: State, me: nat, turn: seq<int>) returns (turn': seq<int>)
    requires Sound(s) && Enabled(s, Step(me)) && InTurn(turn, s.threads)
    ensures InTurn(turn', Apply(s, Step(me)).threads)
  {
    hide LockSound, MoneySound, Local, Held, LoadTarget, ThreadStep, Total, SlotFrom;
    NewWaiter(me, s.threads[me], s.shared);
    if Apply(s, Step(me)).threads[me].pc.AwaitPermit? {
      NotResidentNotHeld(s.shared.pool.slots, s.threads, LoadTarget(s.threads[me]));
      turn' := turn;
    } else {
      var last := Beyond(turn);
      turn' := turn[me := last];
    }
  }

  lemma {:induction false} RunsInTurn(i: Input, acts: seq<Action>) returns (turn: seq<int>)
    requires ValidInput(i) && Legal(Start(i), acts)
    ensures InTurn(turn, Exec(Start(i), acts).threads)
    decreases |acts|
  {
    hide Sound, InTurn, ThreadStep;
    if acts == [] {
      turn := StartInTurn(i);
    } else {
      var n := |acts| - 1;
      turn := RunsInTurn(i, acts[..n]);
      ReachableSound(i, acts[..n]);
      if acts[n].Step? {
        turn := StepKeepsTurns(Exec(Start(i), acts[..n]), acts[n].thread, turn);
      }
    }
  }

  lemma StartInTurn(i: Input) returns (turn: seq<int>)
    ensures InTurn(turn, Start(i).threads)
  {
    turn := seq(|i.txs|, t => 0);
  }

  // ---------- a stuck state is a jam ----------

  /** Some thread that holds the account. */
  ghost function HolderOf(ts: seq<Thread>, a: int): nat {
    if h: nat :| h < |ts| && a in Held(ts[h]) then h else 0
  }

  /** The thread has ended, or waits; what it holds and what it waits for, it needs. */
  predicate WaitsOrEnded(t: Thread, need: set<int>) {
    && (forall a :: a in Held(t) ==> t.pc.AwaitPermit? && a in need)
    && (t.pc.AwaitPermit? || t.pc.Finished?)
    && (t.pc.AwaitPermit? ==> LoadTarget(t) in need)
  }

  lemma WaitersNeed(i: Input, s: State, t: nat)
    requires Sound(s) && Fixed(i, s) && Stuck(s) && t < |s.threads|
    ensures WaitsOrEnded(s.threads[t], Needs(i.txs, Elements(i.ids))[t])
  {
    hide PoolSound, LockSound, MoneySound, BankCall, Lifecycle, Timing, Stuck, Sum, UsedUpTo;
    var th := s.threads[t];
    BlockedIfUnfinished(s, t);
    assert Local(th, s.shared.ids, s.shared.clock);
    assert th.tx == i.txs[t];
    if th.pc.AwaitPermit? {
      UsedCovers(th.tx.ops, |th.tx.ops|, th.op);
      assert LoadTarget(th) in UsedBy(CurrentOp(th)) && UsedBy(CurrentOp(th)) <= Used(th.tx);
    }
  }

  lemma BlockedIfUnfinished(s: State, t: nat)
    requires Sound(s) && Stuck(s) && t < |s.threads|
    ensures s.threads[t].pc.AwaitPermit? || s.threads[t].pc.Finished?
  {
    hide Sound;
    if !s.threads[t].pc.Finished? {
      BlockedOnlyByPermit(s, t);
    }
  }

  /** Every account of a full pool has a holder. */
  lemma FullPool(s: State) returns (accounts: set<int>)
    requires Sound(s) && InUse(s.shared.pool.slots) == |s.shared.pool.slots|
    ensures |accounts| == |s.shared.pool.slots|
    ensures forall a :: a in accounts ==> var h := HolderOf(s.threads, a); h < |s.threads| && a in Held(s.threads[h])
  {
    hide LockSound, MoneySound, Local, Total, Held, SlotFrom;
    var p := s.shared.pool;
    InUseExtremes(p.slots);
    var all := seq(|p.slots|, k requires 0 <= k < |p.slots| => p.slots[k].account);
    accounts := Elements(all);
    DistinctCount(all);
    forall a | a in accounts ensures exists h: nat :: h < |s.threads| && a in Held(s.threads[h]) {
      var k :| 0 <= k < |all| && all[k] == a;
      var h := TotalWitness(PinsOn(a), s.threads);
      assert a in Held(s.threads[h]);
    }
  }

  ghost function Owners(ts: seq<Thread>, accounts: set<int>): map<int, nat> {
    map a | a in accounts :: HolderOf(ts, a)
  }

  /** The turns of the waiting threads; those that have ended come first. */
  function Settled(turn: seq<int>, ts: seq<Thread>, first: int): seq<int>
    requires |turn| == |ts|
  {
    seq(|ts|, t requires 0 <= t < |ts| => if ts[t].pc.Finished? then first else turn[t])
  }

  predicate AllHeld(ts: seq<Thread>, owner: map<int, nat>) {
    forall a :: a in owner ==> owner[a] < |ts| && a in Held(ts[owner[a]])
  }

  lemma MissesOne(ts: seq<Thread>, needs: seq<set<int>>, owner: map<int, nat>, turn: seq<int>, first: int, t: nat)
    requires |needs| == |ts| && (forall u :: 0 <= u < |ts| ==> WaitsOrEnded(ts[u], needs[u]))
    requires InTurn(turn, ts) && (forall u :: 0 <= u < |turn| ==> first < turn[u]) && AllHeld(ts, owner)
    requires t < |ts| && needs[t] != {}
    ensures exists x :: Missing(x, needs[t], owner, Settled(turn, ts, first), t)
  {
    hide Held, LoadTarget;
    assert WaitsOrEnded(ts[t], needs[t]);
    var x := Member(needs[t]);
    if ts[t].pc.AwaitPermit? {
      x := LoadTarget(ts[t]);
    }
    if x in owner {
      assert WaitsOrEnded(ts[owner[x]], needs[owner[x]]);
    }
    assert Missing(x, needs[t], owner, Settled(turn, ts, first), t);
  }

  lemma HoldersJam(ts: seq<Thread>, needs: seq<set<int>>, owner: map<int, nat>, turn: seq<int>, first: int)
    requires |needs| == |ts| && (forall u :: 0 <= u < |ts| ==> WaitsOrEnded(ts[u], needs[u]))
    requires InTurn(turn, ts) && (forall u :: 0 <= u < |turn| ==> first < turn[u]) && AllHeld(ts, owner)
    requires exists u :: 0 <= u < |ts| && !ts[u].pc.Finished?
    ensures Jam(needs, owner, Settled(turn, ts, first))
  {
    hide Missing, InTurn;
    TurnsCount(turn, ts);
    forall t: nat | t < |needs| && needs[t] != {}
      ensures exists x :: Missing(x, needs[t], owner, Settled(turn, ts, first), t)
    {
      MissesOne(ts, needs, owner, turn, first, t);
    }
    forall a | a in owner ensures a in needs[owner[a]] {
      assert WaitsOrEnded(ts[owner[a]], needs[owner[a]]);
    }
    var u :| 0 <= u < |ts| && !ts[u].pc.Finished?;
    assert WaitsOrEnded(ts[u], needs[u]);
  }

  lemma TurnsCount(turn: seq<int>, ts: seq<Thread>)
    requires InTurn(turn, ts)
    ensures |turn| == |ts|
  {
  }

  lemma StuckIsJam(i: Input, s: State, turn: seq<int>)
    requires Sound(s) && Fixed(i, s) && Stuck(s) && InTurn(turn, s.threads)
    ensures JamPossible(i)
  {
    hide Sound, Held, LoadTarget, HolderOf, Sum, Jam, InTurn, WaitsOrEnded, Ready, InUse;
    StuckMeansFull(s);
    var accounts := FullPool(s);
    var needs := Needs(i.txs, Elements(i.ids));
    forall t: nat | t < |s.threads| ensures WaitsOrEnded(s.threads[t], needs[t]) {
      WaitersNeed(i, s, t);
    }
    var owner := Owners(s.threads, accounts);
    assert owner.Keys == accounts;
    TurnsCount(turn, s.threads);
    var b := Beyond(turn);
    HoldersJam(s.threads, needs, owner, turn, -b);
  }

  /** Where the accounts the transactions need allow no jam, no reachable state is stuck. */
  lemma NeverStuckWithoutJam(i: Input, acts: seq<Action>)
    requires ValidInput(i) && Legal(Start(i), acts) && !JamPossible(i)
    ensures !Stuck(Exec(Start(i), acts))
  {
    hide Sound, Stuck, JamPossible, InTurn, Exec, Legal;
    ReachableSound(i, acts);
    var s := Exec(Start(i), acts);
    if Stuck(s) {
      var turn := RunsInTurn(i, acts);
      StuckIsJam(i, s, turn);
    }
  }

  // ---------- two simple reasons why there is no jam ----------

  /** How many distinct existing accounts each transaction names. */
  function Sizes(needs: seq<set<int>>): (r: seq<nat>)
    ensures |r| == |needs| && forall t :: 0 <= t < |r| ==> r[t] == |needs[t]|
  {
    seq(|needs|, t requires 0 <= t < |needs| => |needs[t]|)
  }

  /** The pins that transactions can hold while each still waits for another account. */
  function SpareSum(demands: seq<nat>): nat {
    if demands == [] then 0
    else
      var d := demands[|demands| - 1];
      SpareSum(demands[..|demands| - 1]) + if d == 0 then 0 else d - 1
  }

  /** All accounts somebody needs. */
  function Union(needs: seq<set<int>>): set<int> {
    if needs == [] then {} else Union(needs[..|needs| - 1]) + needs[|needs| - 1]
  }

  lemma {:induction false} InUnion(needs: seq<set<int>>, t: nat)
    requires t < |needs|
    ensures needs[t] <= Union(needs)
  {
    if t < |needs| - 1 {
      InUnion(needs[..|needs| - 1], t);
    }
  }

  function OwnedBy(owner: map<int, nat>, t: nat): set<int> {
    set a | a in owner && owner[a] == t
  }

  function OwnedBelow(owner: map<int, nat>, n: nat): set<int> {
    set a | a in owner && owner[a] < n
  }

  /** A jammed transaction owns at most all but one of its accounts. */
  lemma {:induction false} OwnersSpare(needs: seq<set<int>>, owner: map<int, nat>, turn: seq<int>, n: nat)
    requires Jam(needs, owner, turn) && n <= |needs|
    ensures |OwnedBelow(owner, n)| <= SpareSum(Sizes(needs)[..n])
  {
    var below := OwnedBelow(owner, n);
    if n == 0 {
      assert below == {};
    } else {
      OwnersSpare(needs, owner, turn, n - 1);
      assert below == OwnedBelow(owner, n - 1) + OwnedBy(owner, n - 1);
      assert Sizes(needs)[..n][..n - 1] == Sizes(needs)[..n - 1];
      OwnedSpare(needs, owner, turn, n - 1);
    }
  }

  lemma OwnedSpare(needs: seq<set<int>>, owner: map<int, nat>, turn: seq<int>, t: nat)
    requires Jam(needs, owner, turn) && t < |needs|
    ensures |OwnedBy(owner, t)| <= if needs[t] == {} then 0 else |needs[t]| - 1
  {
    forall a | a in OwnedBy(owner, t) ensures a in needs[t] {
      assert a in owner && owner[a] == t;
    }
    if needs[t] != {} {
      var x :| Missing(x, needs[t], owner, turn, t);
      SubsetCount(OwnedBy(owner, t), needs[t] - {x});
    }
  }

  lemma AllOwned(needs: seq<set<int>>, owner: map<int, nat>, turn: seq<int>)
    requires Jam(needs, owner, turn)
    ensures |OwnedBelow(owner, |needs|)| == |owner|
  {
    forall a | a in owner ensures owner[a] < |needs| {
    }
    assert owner.Keys == OwnedBelow(owner, |needs|);
  }

  lemma JamNeedsSpare(needs: seq<set<int>>, owner: map<int, nat>, turn: seq<int>)
    requires Jam(needs, owner, turn)
    ensures |owner| <= SpareSum(Sizes(needs))
  {
    hide SpareSum;
    OwnersSpare(needs, owner, turn, |needs|);
    assert Sizes(needs)[..|needs|] == Sizes(needs);
    AllOwned(needs, owner, turn);
  }

  /** The last turn among the first `n` transactions that need anything. */
  lemma {:induction false} LastTurn(needs: seq<set<int>>, turn: seq<int>, n: nat) returns (t: nat)
    requires |turn| == |needs| && n <= |needs| && exists u :: 0 <= u < n && needs[u] != {}
    ensures t < n && needs[t] != {} && forall u :: 0 <= u < n && needs[u] != {} ==> turn[u] <= turn[t]
  {
    if u :| 0 <= u < n - 1 && needs[u] != {} {
      t := LastTurn(needs, turn, n - 1);
      if needs[n - 1] != {} && turn[t] < turn[n - 1] {
        t := n - 1;
      }
    } else {
      t := n - 1;
    }
  }

  /** Whoever comes last in a jam misses an account that nobody owns. */
  lemma JamNeedsMoreAccounts(needs: seq<set<int>>, owner: map<int, nat>, turn: seq<int>)
    requires Jam(needs, owner, turn)
    ensures |owner| < |Union(needs)|
  {
    var t := LastTurn(needs, turn, |needs|);
    var x :| Missing(x, needs[t], owner, turn, t);
    InUnion(needs, t);
    forall a | a in owner ensures a in Union(needs) {
      InUnion(needs, owner[a]);
    }
    SubsetCount(owner.Keys + {x}, Union(needs));
  }

  /** With a capacity above the sum of (distinct accounts - 1), no reachable state is stuck. */
  lemma NeverStuckLowDemand(i: Input, acts: seq<Action>)
    requires ValidInput(i) && Legal(Start(i), acts)
    requires SpareSum(Sizes(Needs(i.txs, Elements(i.ids)))) < i.capacity
    ensures !JamPossible(i) && !Stuck(Exec(Start(i), acts))
  {
    hide Stuck, Exec, Legal, Jam, Needs, SpareSum;
    LowDemandNoJam(Needs(i.txs, Elements(i.ids)), i.capacity);
    NeverStuckWithoutJam(i, acts);
  }

  lemma LowDemandNoJam(needs: seq<set<int>>, capacity: nat)
    requires SpareSum(Sizes(needs)) < capacity
    ensures !CanJam(needs, capacity)
  {
    hide Jam, SpareSum;
    forall owner: map<int, nat>, turn: seq<int> | Jam(needs, owner, turn) ensures |owner| != capacity {
      JamNeedsSpare(needs, owner, turn);
    }
  }

  /** With no more distinct accounts in the whole trace than slots, no reachable state is stuck, however many
      transactions use them and however often. */
  lemma NeverStuckFewAccounts(i: Input, acts: seq<Action>)
    requires ValidInput(i) && Legal(Start(i), acts)
    requires |Union(Needs(i.txs, Elements(i.ids)))| <= i.capacity
    ensures !JamPossible(i) && !Stuck(Exec(Start(i), acts))
  {
    hide Stuck, Exec, Legal, Jam, Needs, Union;
    FewAccountsNoJam(Needs(i.txs, Elements(i.ids)), i.capacity);
    NeverStuckWithoutJam(i, acts);
  }

  lemma FewAccountsNoJam(needs: seq<set<int>>, capacity: nat)
    requires |Union(needs)| <= capacity
    ensures !CanJam(needs, capacity)
  {
    hide Jam, Union;
    forall owner: map<int, nat>, turn: seq<int> | Jam(needs, owner, turn) ensures |owner| != capacity {
      JamNeedsMoreAccounts(needs, owner, turn);
    }
  }

  // ---------- why turns matter ----------

  /** Transactions in a chain, each sharing an account with the next. */
  function Chain(n: nat): (r: seq<set<int>>)
    ensures |r| == n && forall t :: 0 <= t < n ==> r[t] == {t + 1, t + 2}
  {
    seq(n, t => {t + 1, t + 2})
  }

  /** A chain of three or more jams as many slots, but only because an insertion after the first scan goes unnoticed:
      whichever of its accounts fill the pool, some transaction of the chain finds both of its accounts there. */
  lemma ChainJamsByTurns(n: nat)
    requires n >= 3
    ensures CanJam(Chain(n), n)
    ensures forall pool: set<int> :: |pool| == n && pool <= Union(Chain(n)) ==>
              exists t :: 0 <= t < n && Chain(n)[t] <= pool
  {
    ChainJams(n);
    ChainUnion(n);
    forall pool: set<int> | |pool| == n && pool <= Union(Chain(n))
      ensures exists t :: 0 <= t < n && Chain(n)[t] <= pool
    {
      var t := AllButOne(pool, n);
      assert Chain(n)[t] <= pool;
    }
  }

  lemma ChainJams(n: nat)
    requires n > 0
    ensures CanJam(Chain(n), n)
  {
    var slots := Block(1, n);
    var owner: map<int, nat> := map a | a in slots :: a - 1;
    assert owner.Keys == slots;
    var turn := seq(n, t => t);
    forall t: nat | t < n ensures exists x :: Missing(x, Chain(n)[t], owner, turn, t) {
      assert Missing(t + 2, Chain(n)[t], owner, turn, t);
    }
    assert 1 in Chain(n)[0];
    assert Jam(Chain(n), owner, turn);
  }

  lemma {:induction false} ChainUnion(n: nat)
    ensures forall a :: a in Union(Chain(n)) <==> n > 0 && 1 <= a <= n + 1
  {
    if n > 0 {
      assert Chain(n)[..n - 1] == Chain(n - 1);
      ChainUnion(n - 1);
    }
  }

  /** Only one account of the chain is out of the pool, so one of its ends has both. */
  lemma AllButOne(pool: set<int>, n: nat) returns (t: nat)
    requires n >= 3 && |pool| == n && forall a :: a in pool ==> 1 <= a <= n + 1
    ensures t < n && t + 1 in pool && t + 2 in pool
  {
    t := if 1 in pool && 2 in pool then 0 else n - 1;
    if !(t + 1 in pool && t + 2 in pool) {
      var x, y := if 1 in pool then 2 else 1, if n in pool then n + 1 else n;
      var all := Block(1, n + 1);
      assert forall a: int :: a in pool ==> a in all - {x, y};
      SubsetCount(pool, all - {x, y});
    }
  }
}
