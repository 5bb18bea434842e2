/** The final audit: its exact gap, exactly when it passes, and a trace it rejects. */
module Audit {
  import opened Common
  import opened Ledger
  import opened Engine
  import opened Weights
  import opened Locals
  import opened LockSafety
  import opened PoolSafety
  import opened Safety
  import opened Conservation
  import opened Jams
  import opened Termination
  import BankStore

  /** `compute_committed_external_flow`: declared amounts of committed transactions. */
  function CommittedFlow(ts: seq<Thread>): int {
    if ts == [] then 0
    else
      var t := ts[|ts| - 1];
      CommittedFlow(ts[..|ts| - 1]) + if t.status == Committed then DeclaredUpTo(t.tx.ops, |t.tx.ops|) else 0
  }

  /** Negative deposit amounts in committed transactions: counted by the audit, ignored by `deposit`. */
  function IgnoredDeposits(ts: seq<Thread>): (r: int)
    ensures r <= 0
  {
    if ts == [] then 0
    else
      var t := ts[|ts| - 1];
      IgnoredDeposits(ts[..|ts| - 1]) + if t.status == Committed then NegativeDepositsUpTo(t.tx.ops, |t.tx.ops|) else 0
  }

  /** What aborted transactions had brought in before they failed: nothing is rolled back. */
  function AbortedFlow(ts: seq<Thread>): int {
    if ts == [] then 0
    else
      var t := ts[|ts| - 1];
      AbortedFlow(ts[..|ts| - 1])
      + if t.status == Aborted && t.op <= |t.tx.ops| then EffectUpTo(t.tx.ops, t.op) else 0
  }

  /** `verify_balance_conservation`: final total against initial total plus committed flow. */
  predicate AuditPasses(initialTotal: int, ts: seq<Thread>, balances: seq<int>) {
    initialTotal + CommittedFlow(ts) == Sum(balances)
  }

  lemma {:induction false} FlowSplits(ts: seq<Thread>, ids: seq<int>)
    requires forall k :: 0 <= k < |ts| ==> Shape(ts[k]) && Lifecycle(ts[k], ids) && ts[k].pc.Finished?
    ensures CommittedFlow(ts) - Total(ExternalFlow, ts) == IgnoredDeposits(ts) - AbortedFlow(ts)
  {
    hide Lifecycle, DeclaredUpTo, EffectUpTo, NegativeDepositsUpTo;
    if ts == [] {
    } else {
      var n := |ts| - 1;
      FlowSplits(ts[..n], ids);
      DeclaredMinusEffect(ts[n].tx.ops, |ts[n].tx.ops|);
      EndedStatus(ts[n], ids);
    }
  }

  lemma EndedStatus(t: Thread, ids: seq<int>)
    requires Shape(t) && Lifecycle(t, ids) && t.pc.Finished?
    ensures if t.status == Committed then t.op == |t.tx.ops| else t.status == Aborted && t.op < |t.tx.ops|
  {
  }

  lemma EndFlows(s: State)
    requires Sound(s) && AllFinished(s)
    ensures forall k :: 0 <= k < |s.threads| ==> Shape(s.threads[k]) && Lifecycle(s.threads[k], s.shared.ids)
    ensures Sum(s.shared.balances) == s.initialTotal + Total(ExternalFlow, s.threads)
  {
    hide PoolSound, LockSound, Total, Sum, LoadedList, BankCall, Timing, Lifecycle;
    TotalZero(InTransit, s.threads);
  }

  /** The exact gap of the audit once every transaction has ended, and so exactly when it passes. */
  lemma AuditGap(i: Input, acts: seq<Action>)
    requires ValidInput(i) && Legal(Start(i), acts) && AllFinished(Exec(Start(i), acts))
    ensures var s := Exec(Start(i), acts);
            && (s.initialTotal + CommittedFlow(s.threads)) - Sum(s.shared.balances)
               == IgnoredDeposits(s.threads) - AbortedFlow(s.threads)
            && (AuditPasses(s.initialTotal, s.threads, s.shared.balances)
                <==> IgnoredDeposits(s.threads) == AbortedFlow(s.threads))
  {
    hide Sound, Sum, Total, Exec, Legal, CommittedFlow, IgnoredDeposits, AbortedFlow;
    ReachableSound(i, acts);
    var s := Exec(Start(i), acts);
    EndFlows(s);
    FlowSplits(s.threads, i.ids);
  }

  /** No deposit of the program has a negative amount. */
  predicate NonNegativeDeposits(ops: seq<Operation>) {
    forall j :: 0 <= j < |ops| && ops[j].kind == Deposit ==> ops[j].amount >= 0
  }

  lemma {:induction false} NothingIgnoredUpTo(ops: seq<Operation>, n: nat)
    requires n <= |ops|
    ensures NegativeDepositsUpTo(ops, n) == 0 <==> NonNegativeDeposits(ops[..n])
  {
    if n > 0 {
      NothingIgnoredUpTo(ops, n - 1);
      assert ops[..n] == ops[..n - 1] + [ops[n - 1]];
    }
  }

  /** The audit ignores nothing exactly when no committed transaction deposits a negative amount. */
  lemma {:induction false} NothingIgnored(ts: seq<Thread>)
    ensures IgnoredDeposits(ts) == 0 <==>
              forall k :: 0 <= k < |ts| && ts[k].status == Committed ==> NonNegativeDeposits(ts[k].tx.ops)
  {
    hide NonNegativeDeposits;
    if ts == [] {
    } else {
      var n := |ts| - 1;
      NothingIgnored(ts[..n]);
      NothingIgnoredUpTo(ts[n].tx.ops, |ts[n].tx.ops|);
      assert ts[n].tx.ops[..|ts[n].tx.ops|] == ts[n].tx.ops;
      assert forall k :: 0 <= k < n ==> ts[..n][k] == ts[k];
    }
  }

  /** With no negative deposit amounts, the audit passes exactly when the aborted prefixes net to zero. */
  lemma AuditExact(i: Input, acts: seq<Action>)
    requires ValidInput(i) && Legal(Start(i), acts) && AllFinished(Exec(Start(i), acts))
    requires forall k :: 0 <= k < |i.txs| ==> NonNegativeDeposits(i.txs[k].ops)
    ensures var s := Exec(Start(i), acts);
            AuditPasses(s.initialTotal, s.threads, s.shared.balances) <==> AbortedFlow(s.threads) == 0
  {
    hide Sound, Sum, IgnoredDeposits, NonNegativeDeposits;
    ReachableSound(i, acts);
    AuditGap(i, acts);
    NothingIgnored(Exec(Start(i), acts).threads);
  }

  lemma {:induction false} NoAbortNoFlow(ts: seq<Thread>)
    requires forall k :: 0 <= k < |ts| ==> ts[k].status != Aborted
    ensures AbortedFlow(ts) == 0
  {
    if ts != [] {
      NoAbortNoFlow(ts[..|ts| - 1]);
    }
  }

  /** When the status array shows no abort, the audit passes exactly when no transaction of the trace deposits a
      negative amount. */
  lemma AuditWithoutAborts(i: Input, acts: seq<Action>)
    requires ValidInput(i) && Legal(Start(i), acts) && AllFinished(Exec(Start(i), acts))
    requires var s := Exec(Start(i), acts); forall k :: 0 <= k < |s.threads| ==> s.threads[k].status != Aborted
    ensures var s := Exec(Start(i), acts);
            AuditPasses(s.initialTotal, s.threads, s.shared.balances) <==>
              forall k :: 0 <= k < |i.txs| ==> NonNegativeDeposits(i.txs[k].ops)
  {
    hide Sound, Sum, IgnoredDeposits, NonNegativeDeposits, Exec, Legal;
    ReachableSound(i, acts);
    AuditGap(i, acts);
    var s := Exec(Start(i), acts);
    forall k | 0 <= k < |s.threads| ensures s.threads[k].status == Committed {
      EndsSettled(s, k);
    }
    NothingIgnored(s.threads);
    NoAbortNoFlow(s.threads);
    assert forall k :: 0 <= k < |s.threads| ==> s.threads[k].tx == i.txs[k];
  }

  lemma EndsSettled(s: State, k: nat)
    requires Sound(s) && k < |s.threads| && s.threads[k].pc.Finished?
    ensures s.threads[k].status == Committed || s.threads[k].status == Aborted
  {
    hide PoolSound, LockSound, LoadedList, BankCall, Timing;
    EndedStatus(s.threads[k], s.shared.ids);
  }

  // ---------- a trace the audit rejects ----------

  /** One account holding 100; one transaction that deposits 50 and then overdraws. */
  const OVERDRAW: Input :=
    Input(5, [1], [100], [Tx(1, 0, [Operation(Deposit, 1, 50, -1), Operation(Withdraw, 1, 9999, -1)])])

  /** Whatever the schedule, that transaction aborts with its deposit kept, and the audit fails. */
  lemma AuditRejectsOverdraw(acts: seq<Action>)
    requires Legal(Start(OVERDRAW), acts) && AllFinished(Exec(Start(OVERDRAW), acts))
    ensures var s := Exec(Start(OVERDRAW), acts);
            && ValidInput(OVERDRAW)
            && |s.threads| == 1 && s.threads[0].status == Aborted && s.threads[0].op == 1
            && !AuditPasses(s.initialTotal, s.threads, s.shared.balances)
  {
    hide Sound, Total, Sum, Exec, EffectUpTo, Flow;
    var i := OVERDRAW;
    ReachableSound(i, acts);
    RunningTotal(i, acts);
    var s := Exec(Start(i), acts);
    var t := s.threads[0];
    assert s.threads == [t];
    TotalOfOne(ExternalFlow, t);
    assert Sum([100]) == 100 by { SumOfOne(100); }
    OverdrawFacts(s);
    OverdrawEnd(t, i.ids);
    AuditGap(i, acts);
    NothingIgnored(s.threads);
    assert AbortedFlow([t]) == EffectUpTo(t.tx.ops, t.op) by { assert [t][..0] == []; }
  }

  lemma SumOfOne(v: int)
    ensures Sum([v]) == v
  {
    assert [v][..0] == [];
  }

  lemma OverdrawFacts(s: State)
    requires Sound(s) && AllFinished(s) && |s.threads| == 1
    ensures Shape(s.threads[0]) && Lifecycle(s.threads[0], s.shared.ids)
    ensures Sum(s.shared.balances) >= 0 && Total(InTransit, s.threads) == 0
  {
    hide PoolSound, LockSound, Total, Sum, LoadedList, BankCall, Timing;
    TotalZero(InTransit, s.threads);
    SumBoundsTerm(s.shared.balances);
  }

  lemma OverdrawEnd(t: Thread, ids: seq<int>)
    requires t.tx == OVERDRAW.txs[0] && ids == [1] && Shape(t) && Lifecycle(t, ids) && t.pc.Finished?
    requires 100 + Flow(t) >= 0
    ensures t.status == Aborted && t.op == 1 && EffectUpTo(t.tx.ops, 1) == 50
  {
    var ops := t.tx.ops;
    assert EffectUpTo(ops, 1) == EffectUpTo(ops, 0) + 50;
    assert EffectUpTo(ops, 2) == EffectUpTo(ops, 1) - 9999;
    assert t.op == 0 ==> UsedBy(CurrentOp(t)) == {1};
  }

  lemma OverdrawNoJam()
    ensures !JamPossible(OVERDRAW)
  {
    var needs := Needs(OVERDRAW.txs, Elements(OVERDRAW.ids));
    assert Elements(OVERDRAW.ids) == {1};
    assert needs[..0] == [] && Union(needs) == Union([]) + needs[0];
    SubsetCount(Union(needs), {1});
    FewAccountsNoJam(needs, OVERDRAW.capacity);
  }

  /** Such a run exists: the audit can fail although every step did what it should. */
  lemma AuditCanFail() returns (acts: seq<Action>)
    ensures ValidInput(OVERDRAW) && Legal(Start(OVERDRAW), acts) && AllFinished(Exec(Start(OVERDRAW), acts))
    ensures var s := Exec(Start(OVERDRAW), acts); !AuditPasses(s.initialTotal, s.threads, s.shared.balances)
  {
    hide Exec, JamPossible;
    OverdrawNoJam();
    var more := CanFinish(OVERDRAW, []);
    acts := [] + more;
    AuditRejectsOverdraw(acts);
  }

  // ---------- the audit's own loops ----------

  /** `compute_committed_external_flow`. */
  method CommittedExternalFlow(ts: seq<Thread>) returns (net: int)
    ensures net == CommittedFlow(ts)
  {
    net := 0;
    for i := 0 to |ts|
      invariant net == CommittedFlow(ts[..i])
    {
      assert ts[..i + 1][..i] == ts[..i];
      if ts[i].status == Committed {
        ghost var before := net;
        for j := 0 to |ts[i].tx.ops|
          invariant net == before + DeclaredUpTo(ts[i].tx.ops, j)
        {
          var op := ts[i].tx.ops[j];
          if op.kind == Deposit {
            net := net + op.amount;
          } else if op.kind == Withdraw {
            net := net - op.amount;
          }
        }
      }
    }
    assert ts[..|ts|] == ts;
  }

  /** `verify_balance_conservation`: true for PASS. */
  method VerifyConservation(bank: BankStore.Bank, initialTotal: int, ts: seq<Thread>) returns (pass: bool)
    requires bank.Valid()
    ensures pass <==> AuditPasses(initialTotal, ts, bank.Balances())
  {
    var net := CommittedExternalFlow(ts);
    var final := bank.TotalBalance();
    pass := initialTotal + net == final;
  }
}
