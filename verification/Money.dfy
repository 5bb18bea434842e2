/** Money: conservation in every state, and each operation acting at one instant. */
module Money {
  import opened Common
  import opened Ledger
  import opened Engine
  import opened Weights
  import opened Locals
  import opened LockSafety

  /** No balance is negative, a checked debit stays covered, and the balances plus the money in transit
      are the initial total plus what came in from outside. */
  predicate MoneySound(m: Shared, ts: seq<Thread>, initial: int) {
    && |m.balances| == |m.ids|
    && (forall i :: 0 <= i < |m.balances| ==> m.balances[i] >= 0)
    && (forall k :: 0 <= k < |ts| ==> DebitCovered(ts[k], m.balances))
    && Sum(m.balances) + Total(InTransit, ts) == initial + Total(ExternalFlow, ts)
  }

  predicate DebitCovered(t: Thread, balances: seq<int>) {
    t.pc.Debit? ==> t.src < |balances| && balances[t.src] >= CurrentOp(t).amount
  }

  // ---------- conservation ----------

  /** A step moves the balances by exactly what it moves between transit and outside. */
  lemma MoneyStepBalances(t: Thread, m: Shared)
    requires Ready(t, m) && InMoney(t.pc) && Shape(t) && BankCall(t, m.ids)
    ensures var (t', m') := StepMoney(t, m);
            Sum(m'.balances) - Sum(m.balances) == (Flow(t') - Flow(t)) - (Transit(t') - Transit(t))
  {
    hide Sum, EffectUpTo;
    var op := CurrentOp(t);
    SumUpdate(m.balances, t.src, m.balances[t.src] - op.amount);
    SumUpdate(m.balances, t.src, m.balances[t.src] + op.amount);
    SumUpdate(m.balances, t.dst, m.balances[t.dst] + op.amount);
  }

  lemma CallStepBalances(t: Thread, ids: seq<int>)
    requires (t.pc.Enter? || t.pc.Leave?) && Shape(t) && LoadedList(t, ids)
    ensures var t' := StepCall(t, ids); Flow(t') - Flow(t) == Transit(t') - Transit(t) == 0
  {
    assert CurrentOp(t).account in UsedBy(CurrentOp(t));
  }

  lemma ElsewhereBalances(me: nat, t: Thread, m: Shared)
    requires Ready(t, m) && (InSchedule(t.pc) || InLoad(t.pc) || InUnload(t.pc))
    ensures var (t', m') := ThreadStep(me, t, m);
            m'.balances == m.balances && Flow(t') == Flow(t) && Transit(t') == Transit(t) == 0 && !t'.pc.Debit?
  {
  }

  lemma LockStepBalances(me: nat, t: Thread, m: Shared)
    requires Ready(t, m) && InLocking(t.pc) && BankCall(t, m.ids)
    ensures var (t', m') := StepLock(me, t, m);
            m'.balances == m.balances && Flow(t') == Flow(t) && Transit(t') == Transit(t) == 0 && !t'.pc.Debit?
  {
  }

  lemma StepBalances(me: nat, t: Thread, m: Shared)
    requires Ready(t, m) && Local(t, m.ids, m.clock)
    ensures var (t', m') := ThreadStep(me, t, m);
            && Sum(m'.balances) - Sum(m.balances) == (Flow(t') - Flow(t)) - (Transit(t') - Transit(t))
            && (m'.balances != m.balances ==> InMoney(t.pc))
            && (t'.pc.Debit? ==> t.pc.Check?)
  {
    hide Sum, EffectUpTo, LoadedList, Lifecycle, Timing, Flow, Transit;
    if InMoney(t.pc) {
      MoneyStepBalances(t, m);
    } else if InLocking(t.pc) {
      LockStepBalances(me, t, m);
    } else if t.pc.Enter? || t.pc.Leave? {
      CallStepBalances(t, m.ids);
    } else {
      ElsewhereBalances(me, t, m);
    }
  }

  /** A balance write is covered by the writer's lock, so nobody else's check goes stale. */
  lemma MoneyKeepsCover(me: nat, ts: seq<Thread>, m: Shared, k: nat)
    requires me < |ts| && k < |ts| && Ready(ts[me], m) && InMoney(ts[me].pc)
    requires LockSound(m.locks, m.ids, ts) && BankCall(ts[me], m.ids) && BankCall(ts[k], m.ids)
    requires DebitCovered(ts[k], m.balances) && DebitCovered(ts[me], m.balances)
    requires forall i :: 0 <= i < |m.balances| ==> m.balances[i] >= 0
    ensures var (t', m') := StepMoney(ts[me], m);
            && DebitCovered(ts[me := t'][k], m'.balances)
            && (forall i :: 0 <= i < |m.balances| ==> m'.balances[i] >= 0)
  {
    hide LockSound;
    var t := ts[me];
    var written := if t.pc.Credit? && CurrentOp(t).kind == Transfer then t.dst else t.src;
    if ts[k].pc.Debit? && (t.pc.Debit? || t.pc.Credit?) && ts[k].src == written {
      WriterExcludes(m.locks, m.ids, ts, written, me, k);
    }
  }

  lemma StepKeepsMoney(me: nat, ts: seq<Thread>, m: Shared, initial: int)
    requires me < |ts| && Ready(ts[me], m)
    requires MoneySound(m, ts, initial) && LockSound(m.locks, m.ids, ts)
    requires forall k :: 0 <= k < |ts| ==> Local(ts[k], m.ids, m.clock)
    ensures var (t', m') := ThreadStep(me, ts[me], m); MoneySound(m', ts[me := t'], initial)
  {
    hide Sum, Total, LockSound, LoadedList, Lifecycle, Timing, Shape, Flow, Transit, StepMoney, BankCall;
    var t := ts[me];
    var (t', m') := ThreadStep(me, t, m);
    StepBalances(me, t, m);
    StepKeepsSizes(me, t, m);
    TotalUpdate(InTransit, ts, me, t');
    TotalUpdate(ExternalFlow, ts, me, t');
    if InMoney(t.pc) {
      MoneyKeepsCover(me, ts, m, me);
      var ts' := ts[me := t'];
      forall k | 0 <= k < |ts| ensures DebitCovered(ts'[k], m'.balances) {
        MoneyKeepsCover(me, ts, m, k);
      }
    }
  }

  // ---------- linearization ----------

  /** The balances with every half-done transfer completed. */
  function Virtual(balances: seq<int>, ts: seq<Thread>): (v: seq<int>)
    ensures |v| == |balances|
    ensures forall i :: 0 <= i < |v| ==> v[i] == balances[i] + Total(CreditDue(i), ts)
  {
    seq(|balances|, i requires 0 <= i < |balances| => balances[i] + Total(CreditDue(i), ts))
  }

  /** No credit is due on an account somebody else has locked. */
  lemma NoCreditDue(m: Shared, ts: seq<Thread>, k: nat, i: nat)
    requires LockSound(m.locks, m.ids, ts) && i < |m.ids| == |m.locks| && k < |ts|
    requires forall j :: 0 <= j < |ts| ==> BankCall(ts[j], m.ids)
    requires (HoldsWrite(ts[k], i, m.ids) || HoldsRead(ts[k], i)) && Transit(ts[k]) == 0
    ensures Total(CreditDue(i), ts) == 0
  {
    hide Total, LockSound;
    forall j | 0 <= j < |ts| ensures Weight(CreditDue(i), ts[j]) == 0 {
      if ts[j].pc.Credit? && CurrentOp(ts[j]).kind == Transfer && ts[j].dst == i {
        WriterExcludes(m.locks, m.ids, ts, i, j, k);
      }
    }
    TotalZero(CreditDue(i), ts);
  }

  lemma CreditsUpdate(ts: seq<Thread>, k: nat, t: Thread)
    requires k < |ts|
    ensures forall i: nat :: Total(CreditDue(i), ts[k := t]) ==
                             Total(CreditDue(i), ts) - Weight(CreditDue(i), ts[k]) + Weight(CreditDue(i), t)
  {
    forall i: nat ensures Total(CreditDue(i), ts[k := t]) ==
                          Total(CreditDue(i), ts) - Weight(CreditDue(i), ts[k]) + Weight(CreditDue(i), t)
    {
      TotalUpdate(CreditDue(i), ts, k, t);
    }
  }

  /** The step at which the operation takes effect. */
  predicate TakesEffect(t: Thread, t': Thread) {
    !TakenEffect(t) && TakenEffect(t')
  }

  /** A money step either is invisible on the virtual balances, or performs the whole operation at once. */
  lemma MoneyStepRefines(me: nat, ts: seq<Thread>, m: Shared)
    requires me < |ts| && Ready(ts[me], m) && InMoney(ts[me].pc)
    requires LockSound(m.locks, m.ids, ts) && SoundIds(m.ids)
    requires forall j :: 0 <= j < |ts| ==> BankCall(ts[j], m.ids)
    requires DebitCovered(ts[me], m.balances)
    ensures var t := ts[me];
            var (t', m') := StepMoney(t, m);
            var before, after := Virtual(m.balances, ts), Virtual(m'.balances, ts[me := t']);
            if TakesEffect(t, t') then Perform(m.ids, before, CurrentOp(t)) == (after, t'.pending) else before == after
  {
    hide Total, LockSound;
    var t := ts[me];
    var op := CurrentOp(t);
    var (t', m') := StepMoney(t, m);
    CreditsUpdate(ts, me, t');
    if Transit(t) == 0 {
      NoCreditDue(m, ts, me, t.src);
    }
    PointersAreFound(t, m.ids);
    MoneyStepRefinesAt(t, t', m, m', Virtual(m.balances, ts), Virtual(m'.balances, ts[me := t']));
  }

  lemma PointersAreFound(t: Thread, ids: seq<int>)
    requires SoundIds(ids) && BankCall(t, ids) && InBank(t.pc)
    ensures Find(ids, CurrentOp(t).account) == Some(t.src)
    ensures CurrentOp(t).kind == Transfer ==> Find(ids, CurrentOp(t).target) == Some(t.dst)
  {
  }

  lemma MoneyStepRefinesAt(t: Thread, t': Thread, m: Shared, m': Shared, before: seq<int>, after: seq<int>)
    requires Ready(t, m) && InMoney(t.pc) && StepMoney(t, m) == (t', m') && BankCall(t, m.ids)
    requires Find(m.ids, CurrentOp(t).account) == Some(t.src)
    requires CurrentOp(t).kind == Transfer ==> Find(m.ids, CurrentOp(t).target) == Some(t.dst)
    requires |before| == |after| == |m.balances| == |m.ids|
    requires forall i: nat :: i < |before| ==>
      after[i] - before[i] == m'.balances[i] - m.balances[i] + Weight(CreditDue(i), t') - Weight(CreditDue(i), t)
    requires Transit(t) == 0 ==> before[t.src] == m.balances[t.src]
    requires t.pc.Debit? ==> m.balances[t.src] >= CurrentOp(t).amount
    ensures if TakesEffect(t, t') then Perform(m.ids, before, CurrentOp(t)) == (after, t'.pending) else before == after
  {
    hide Find;
    if TakesEffect(t, t') {
      assert Perform(m.ids, before, CurrentOp(t)).0 == after;
    }
  }

  /** Entering a call either goes on to the lock, or performs an operation that ignores the balances. */
  lemma EnterRefines(t: Thread, ids: seq<int>, balances: seq<int>)
    requires t.pc.Enter? && |ids| == |balances|
    ensures var t' := EnterCall(t, ids);
            && Transit(t') == 0
            && (TakesEffect(t, t') ==> Perform(ids, balances, CurrentOp(t)) == (balances, t'.pending))
  {
    hide Find;
  }

  /** Every other step is invisible. */
  lemma QuietStep(me: nat, t: Thread, m: Shared)
    requires Ready(t, m) && !InMoney(t.pc) && !t.pc.Enter? && BankCall(t, m.ids)
    ensures var (t', m') := ThreadStep(me, t, m);
            && m'.balances == m.balances && Transit(t) == Transit(t') == 0 && !TakesEffect(t, t')
            && (TakenEffect(t) && TakenEffect(t') ==> t'.pending == t.pending)
  {
  }

  lemma StepRefines(me: nat, ts: seq<Thread>, m: Shared)
    requires me < |ts| && Ready(ts[me], m) && |m.balances| == |m.ids|
    requires LockSound(m.locks, m.ids, ts) && SoundIds(m.ids)
    requires forall j :: 0 <= j < |ts| ==> BankCall(ts[j], m.ids)
    requires DebitCovered(ts[me], m.balances)
    ensures var t := ts[me];
            var (t', m') := ThreadStep(me, t, m);
            var before, after := Virtual(m.balances, ts), Virtual(m'.balances, ts[me := t']);
            if TakesEffect(t, t') then Perform(m.ids, before, CurrentOp(t)) == (after, t'.pending) else before == after
  {
    hide Total, LockSound, Perform, BankCall;
    var t := ts[me];
    var (t', m') := ThreadStep(me, t, m);
    CreditsUpdate(ts, me, t');
    if InMoney(t.pc) {
      MoneyStepRefines(me, ts, m);
    } else {
      if t.pc.Enter? {
        EnterRefines(t, m.ids, Virtual(m.balances, ts));
      } else {
        QuietStep(me, t, m);
      }
      assert Virtual(m.balances, ts) == Virtual(m'.balances, ts[me := t']);
    }
  }
}
