/** Every interleaving is equivalent to whole operations run one at a time. */
module Linearizability {
  import opened Ledger
  import opened Engine
  import opened Weights
  import opened Locals
  import opened LockSafety
  import opened Money
  import opened Safety

  /** One whole operation of one thread, with the outcome the thread sees. */
  datatype Event = Event(thread: nat, op: Operation, outcome: Outcome)

  /** The operation that takes effect in this action, if any. */
  function EventOf(s: State, a: Action): seq<Event>
    requires Enabled(s, a)
  {
    match a
    case Step(k) =>
      var t := s.threads[k];
      var t' := ThreadStep(k, t, s.shared).0;
      if TakesEffect(t, t') then [Event(k, CurrentOp(t), t'.pending)] else []
    case Tick => []
    case Stop => []
  }

  /** The sequential history of a run: its operations in the order they take effect. */
  ghost function History(s: State, acts: seq<Action>): seq<Event>
    requires Legal(s, acts)
  {
    if acts == [] then []
    else
      var n := |acts| - 1;
      History(s, acts[..n]) + EventOf(Exec(s, acts[..n]), acts[n])
  }

  /** Balances after running the events as whole operations, one at a time. */
  ghost function Replay(ids: seq<int>, balances: seq<int>, h: seq<Event>): (r: seq<int>)
    requires |ids| == |balances|
    ensures |r| == |ids|
  {
    if h == [] then balances
    else
      var n := |h| - 1;
      var before := Replay(ids, balances, h[..n]);
      PerformKeepsSize(ids, before, h[n].op);
      Perform(ids, before, h[n].op).0
  }

  lemma PerformKeepsSize(ids: seq<int>, balances: seq<int>, op: Operation)
    requires |ids| == |balances|
    ensures |Perform(ids, balances, op).0| == |balances|
  {
  }

  /** Each outcome is the one the whole operation gives at its place in the sequence. */
  ghost predicate Faithful(ids: seq<int>, balances: seq<int>, h: seq<Event>)
    requires |ids| == |balances|
  {
    h == [] ||
    var n := |h| - 1;
    Faithful(ids, balances, h[..n]) && h[n].outcome == Perform(ids, Replay(ids, balances, h[..n]), h[n].op).1
  }

  /** The events of one thread, in order. */
  ghost function Of(h: seq<Event>, t: nat): seq<Event> {
    if h == [] then []
    else
      var n := |h| - 1;
      Of(h[..n], t) + if h[n].thread == t then [h[n]] else []
  }

  /** What the thread has seen so far: returned outcomes, and the pending one once it has taken effect. */
  function Seen(t: Thread): seq<Outcome> {
    t.results + if TakenEffect(t) then [t.pending] else []
  }

  /** The thread's own events are its program's first operations, in program order, with the outcomes it saw. */
  ghost predicate InProgramOrder(h: seq<Event>, t: Thread, k: nat) {
    var mine := Of(h, k);
    && |mine| == |Seen(t)| <= |t.tx.ops|
    && forall j :: 0 <= j < |mine| ==> mine[j] == Event(k, t.tx.ops[j], Seen(t)[j])
  }

  lemma StepSeen(me: nat, t: Thread, m: Shared)
    requires Ready(t, m) && Local(t, m.ids, m.clock)
    ensures var t' := ThreadStep(me, t, m).0;
            && t'.tx == t.tx
            && (if TakesEffect(t, t') then
                  Seen(t') == Seen(t) + [t'.pending] && |Seen(t)| == t.op < |t.tx.ops| && CurrentOp(t) == t.tx.ops[t.op]
                else Seen(t') == Seen(t))
  {
    hide Find, FirstLock, SecondLock, LoadedList, Timing;
    var t' := ThreadStep(me, t, m).0;
    if InMoney(t.pc) {
      MoneySeen(t, m);
    } else if InLocking(t.pc) {
      LockSeen(me, t, m);
    } else if InLoad(t.pc) {
      LoadSeen(t, m);
    } else {
      ElsewhereSeen(me, t, m);
    }
  }

  lemma MoneySeen(t: Thread, m: Shared)
    requires Ready(t, m) && InMoney(t.pc) && Shape(t) && Lifecycle(t, m.ids) && BankCall(t, m.ids)
    ensures var t' := StepMoney(t, m).0;
            && t'.tx == t.tx
            && (if TakesEffect(t, t') then
                  Seen(t') == Seen(t) + [t'.pending] && |Seen(t)| == t.op < |t.tx.ops| && CurrentOp(t) == t.tx.ops[t.op]
                else Seen(t') == Seen(t))
  {
  }

  lemma LockSeen(me: nat, t: Thread, m: Shared)
    requires Ready(t, m) && InLocking(t.pc) && BankCall(t, m.ids)
    ensures var t' := StepLock(me, t, m).0;
            t'.tx == t.tx && Seen(t') == Seen(t) && !TakesEffect(t, t')
  {
    hide FirstLock, SecondLock;
  }

  lemma LoadSeen(t: Thread, m: Shared)
    requires Ready(t, m) && InLoad(t.pc)
    ensures var t' := StepLoad(t, m).0;
            t'.tx == t.tx && Seen(t') == Seen(t) && !TakesEffect(t, t')
  {
  }

  lemma ElsewhereSeen(me: nat, t: Thread, m: Shared)
    requires Ready(t, m) && !InMoney(t.pc) && !InLocking(t.pc) && !InLoad(t.pc)
    requires Shape(t) && Lifecycle(t, m.ids)
    ensures var t' := ThreadStep(me, t, m).0;
            && t'.tx == t.tx
            && (if TakesEffect(t, t') then
                  Seen(t') == Seen(t) + [t'.pending] && |Seen(t)| == t.op < |t.tx.ops| && CurrentOp(t) == t.tx.ops[t.op]
                else Seen(t') == Seen(t))
  {
    hide Find;
  }

  lemma OfAppend(h: seq<Event>, e: Event, k: nat)
    ensures Of(h + [e], k) == Of(h, k) + if e.thread == k then [e] else []
  {
    assert (h + [e])[..|h|] == h;
  }

  /** The history extends by one action in step with the threads. */
  lemma ActionKeepsOrder(s: State, a: Action, h: seq<Event>, k: nat)
    requires Sound(s) && Enabled(s, a) && k < |s.threads|
    requires InProgramOrder(h, s.threads[k], k)
    ensures InProgramOrder(h + EventOf(s, a), Apply(s, a).threads[k], k)
  {
    hide PoolSafety.PoolSound, LockSound, MoneySound, LoadedList, BankCall, Lifecycle, Timing, ThreadStep, TakesEffect, Seen;
    if a.Step? {
      StepSeen(a.thread, s.threads[a.thread], s.shared);
      if EventOf(s, a) != [] {
        OfAppend(h, EventOf(s, a)[0], k);
        assert h + EventOf(s, a) == h + [EventOf(s, a)[0]];
      } else {
        assert h + EventOf(s, a) == h;
      }
    } else {
      assert h + EventOf(s, a) == h;
    }
  }

  lemma ReplayAppend(ids: seq<int>, balances: seq<int>, h: seq<Event>, e: Event)
    requires |ids| == |balances| && Faithful(ids, balances, h)
    requires e.outcome == Perform(ids, Replay(ids, balances, h), e.op).1
    ensures Replay(ids, balances, h + [e]) == Perform(ids, Replay(ids, balances, h), e.op).0
    ensures Faithful(ids, balances, h + [e])
  {
    hide Perform;
    assert (h + [e])[..|h|] == h;
  }

  lemma ActionRefines(s: State, a: Action, ids: seq<int>, balances: seq<int>, h: seq<Event>)
    requires Sound(s) && Enabled(s, a) && ids == s.shared.ids && |ids| == |balances|
    requires Replay(ids, balances, h) == Virtual(s.shared.balances, s.threads) && Faithful(ids, balances, h)
    ensures var s' := Apply(s, a);
            var h' := h + EventOf(s, a);
            Replay(ids, balances, h') == Virtual(s'.shared.balances, s'.threads) && Faithful(ids, balances, h')
  {
    hide PoolSafety.PoolSound, LockSound, LoadedList, Lifecycle, Timing, ThreadStep, TakesEffect, Perform, Replay, Faithful, Virtual;
    if a.Step? {
      StepRefines(a.thread, s.threads, s.shared);
    }
    if EventOf(s, a) == [] {
      assert h + EventOf(s, a) == h;
    } else {
      ReplayAppend(ids, balances, h, EventOf(s, a)[0]);
      assert h + EventOf(s, a) == h + [EventOf(s, a)[0]];
    }
  }

  /** Linearizability. Every reachable state's balances, half-done transfers completed, are those of running
      the history one whole operation at a time; each outcome is the sequential one; and each thread's events
      are its program in order, up to and including the operation that has taken effect. */
  lemma {:induction false} Linearizable(i: Input, acts: seq<Action>)
    requires ValidInput(i) && Legal(Start(i), acts)
    ensures var s, h := Exec(Start(i), acts), History(Start(i), acts);
            && Replay(i.ids, i.balances, h) == Virtual(s.shared.balances, s.threads)
            && Faithful(i.ids, i.balances, h)
            && |s.threads| == |i.txs|
            && (forall k: nat :: k < |s.threads| ==> InProgramOrder(h, s.threads[k], k))
    decreases |acts|
  {
    hide Sound, InProgramOrder, Virtual, ThreadStep, EventOf;
    ReachableSound(i, acts);
    if acts == [] {
      StartLinear(i);
    } else {
      var n := |acts| - 1;
      var s, h := Exec(Start(i), acts[..n]), History(Start(i), acts[..n]);
      Linearizable(i, acts[..n]);
      ReachableSound(i, acts[..n]);
      ActionRefines(s, acts[n], i.ids, i.balances, h);
      forall k: nat | k < |i.txs| ensures InProgramOrder(History(Start(i), acts), Exec(Start(i), acts).threads[k], k) {
        ActionKeepsOrder(s, acts[n], h, k);
      }
    }
  }

  /** The history of a prefix of a run is a prefix of its history. */
  lemma {:induction false} HistoryGrows(s: State, acts: seq<Action>, n: nat)
    requires n <= |acts| && Legal(s, acts)
    ensures Legal(s, acts[..n]) && History(s, acts[..n]) <= History(s, acts)
    decreases |acts|
  {
    hide EventOf, Enabled, Apply;
    if n == |acts| {
      assert acts[..n] == acts;
    } else {
      var m := |acts| - 1;
      assert acts[..m][..n] == acts[..n];
      HistoryGrows(s, acts[..m], n);
    }
  }

  // ---------- real-time order ----------

  /** Position `x` of the history holds event number `j` of thread `t`. */
  ghost predicate Stands(h: seq<Event>, x: nat, t: nat, j: nat) {
    x < |h| && h[x].thread == t && |Of(h[..x], t)| == j
  }

  lemma {:induction false} OfGrows(h: seq<Event>, t: nat, x: nat, y: nat)
    requires x <= y <= |h|
    ensures |Of(h[..x], t)| <= |Of(h[..y], t)|
    ensures x < y && h[x].thread == t ==> |Of(h[..x], t)| < |Of(h[..y], t)|
    decreases y - x
  {
    if x < y {
      assert h[..y][..y - 1] == h[..y - 1];
      OfGrows(h, t, x, y - 1);
    }
  }

  /** Every event of a thread stands somewhere. */
  lemma {:induction false} EventStands(h: seq<Event>, t: nat, j: nat) returns (x: nat)
    requires j < |Of(h, t)|
    ensures Stands(h, x, t, j)
  {
    var n := |h| - 1;
    if j < |Of(h[..n], t)| {
      x := EventStands(h[..n], t, j);
      assert h[..n][..x] == h[..x];
    } else {
      x := n;
    }
  }

  /** Real-time order. When, after some prefix of the run, operation `j` of thread `a` has returned while operation
      `k` of thread `b` has not taken effect (so in particular when `b` has not called it yet), then `a`'s operation
      precedes `b`'s in the sequential history of the whole run. */
  lemma RealTimeOrder(i: Input, acts: seq<Action>, n: nat, a: nat, j: nat, b: nat, k: nat)
    requires ValidInput(i) && Legal(Start(i), acts) && n <= |acts| && Legal(Start(i), acts[..n])
    requires a < |i.txs| && b < |i.txs|
    requires var mid := Exec(Start(i), acts[..n]).threads;
             a < |mid| && b < |mid| && j < |mid[a].results| && |Seen(mid[b])| <= k
    requires k < |Of(History(Start(i), acts), b)|
    ensures var h := History(Start(i), acts);
            && (exists x: nat :: Stands(h, x, a, j))
            && (exists y: nat :: Stands(h, y, b, k))
            && (forall x: nat, y: nat :: Stands(h, x, a, j) && Stands(h, y, b, k) ==> x < y)
  {
    hide Of, Replay, Faithful, History, Exec, Legal, Virtual;
    var h, g := History(Start(i), acts), History(Start(i), acts[..n]);
    HistoryGrows(Start(i), acts, n);
    Linearizable(i, acts[..n]);
    var mid := Exec(Start(i), acts[..n]).threads;
    assert InProgramOrder(g, mid[a], a) && InProgramOrder(g, mid[b], b);
    var x0 := EventStands(g, a, j);
    assert h[..x0] == g[..x0] && Stands(h, x0, a, j);
    var y0 := EventStands(h, b, k);
    assert h[..|g|] == g;
    forall x: nat, y: nat | Stands(h, x, a, j) && Stands(h, y, b, k) ensures x < y {
      if x > x0 {
        OfGrows(h, a, x0, x);
      }
      if y < |g| {
        OfGrows(h, b, y, |g|);
      }
    }
  }

  lemma StartLinear(i: Input)
    requires ValidInput(i)
    ensures Virtual(i.balances, Start(i).threads) == i.balances
    ensures forall k: nat :: k < |i.txs| ==> InProgramOrder([], Start(i).threads[k], k)
  {
    hide Total;
    forall j: nat ensures Total(CreditDue(j), Start(i).threads) == 0 {
      TotalZero(CreditDue(j), Start(i).threads);
    }
  }

  /** When all transactions have ended, the final balances are the sequential ones, and the history holds
      exactly the outcomes each transaction got. */
  lemma FinalBalancesSequential(i: Input, acts: seq<Action>)
    requires ValidInput(i) && Legal(Start(i), acts) && AllFinished(Exec(Start(i), acts))
    ensures var s, h := Exec(Start(i), acts), History(Start(i), acts);
            && s.shared.balances == Replay(i.ids, i.balances, h)
            && Faithful(i.ids, i.balances, h)
            && |s.threads| == |i.txs|
            && (forall k: nat :: k < |i.txs| ==>
                  |Of(h, k)| == |s.threads[k].results| <= |i.txs[k].ops|
                  && forall j :: 0 <= j < |Of(h, k)| ==> Of(h, k)[j] == Event(k, i.txs[k].ops[j], s.threads[k].results[j]))
  {
    hide Sound, Replay, Faithful, History, Exec, InProgramOrder, Virtual;
    Linearizable(i, acts);
    var s, h := Exec(Start(i), acts), History(Start(i), acts);
    NothingDueAtEnd(s);
    ReachableSound(i, acts);
    forall k: nat | k < |i.txs|
      ensures |Of(h, k)| == |s.threads[k].results| <= |i.txs[k].ops|
      ensures forall j :: 0 <= j < |Of(h, k)| ==> Of(h, k)[j] == Event(k, i.txs[k].ops[j], s.threads[k].results[j])
    {
      OrderAtEnd(h, s.threads[k], k);
    }
  }

  lemma NothingDueAtEnd(s: State)
    requires AllFinished(s)
    ensures Virtual(s.shared.balances, s.threads) == s.shared.balances
  {
    hide Total;
    forall j: nat ensures Total(CreditDue(j), s.threads) == 0 {
      TotalZero(CreditDue(j), s.threads);
    }
  }

  lemma OrderAtEnd(h: seq<Event>, t: Thread, k: nat)
    requires InProgramOrder(h, t, k) && t.pc.Finished?
    ensures |Of(h, k)| == |t.results| <= |t.tx.ops|
    ensures forall j :: 0 <= j < |Of(h, k)| ==> Of(h, k)[j] == Event(k, t.tx.ops[j], t.results[j])
  {
    assert Seen(t) == t.results;
  }
}
