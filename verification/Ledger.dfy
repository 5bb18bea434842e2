/** Operations and their meaning on the bank, one whole operation at a time. */
module Ledger {
  import opened Common

  const MAX_ACCOUNTS: nat := 100
  const MAX_TRANSACTIONS: nat := 256
  const MAX_OPS_PER_TX: nat := 256
  const INT_MAX: int := 0x7FFF_FFFF

  datatype OpType = Deposit | Withdraw | Transfer | Balance

  /** `target` is only meaningful for transfers. */
  datatype Operation = Operation(kind: OpType, account: int, amount: int, target: int)

  /** What an unused entry of a transaction's operation array holds. */
  const BLANK: Operation := Operation(Balance, -1, 0, -1)

  /** What a bank call hands back: nothing or true, false, or a balance (-1 when the account is missing). */
  datatype Outcome = Accepted | Refused | Read(balance: int)

  /** The executor goes on to the next operation exactly on these outcomes. */
  predicate Succeeded(r: Outcome) {
    match r
    case Accepted => true
    case Refused => false
    case Read(b) => b >= 0
  }

  /** The linear scan of `get_account`: the first array position holding `id`. */
  function Find(ids: seq<int>, id: int): (r: Option<nat>)
    ensures r.Some? <==> id in ids
    ensures r.Some? ==> r.value < |ids| && ids[r.value] == id
    ensures r.Some? ==> forall i :: 0 <= i < r.value ==> ids[i] != id
  {
    FindFrom(ids, id, 0)
  }

  function FindFrom(ids: seq<int>, id: int, from: nat): (r: Option<nat>)
    requires from <= |ids|
    ensures r.Some? <==> id in ids[from..]
    ensures r.Some? ==> from <= r.value < |ids| && ids[r.value] == id
    ensures r.Some? ==> forall i :: from <= i < r.value ==> ids[i] != id
    decreases |ids| - from
  {
    if from == |ids| then None
    else if ids[from] == id then Some(from)
    else
      assert ids[from..] == [ids[from]] + ids[from + 1..];
      FindFrom(ids, id, from + 1)
  }

  /** A bank as seen between runs: distinct non-negative ids, non-negative balances. */
  predicate SoundBank(ids: seq<int>, balances: seq<int>) {
    && |ids| == |balances|
    && Distinct(ids)
    && (forall i :: 0 <= i < |ids| ==> ids[i] >= 0)
    && (forall i :: 0 <= i < |balances| ==> balances[i] >= 0)
  }

  /** One whole operation run by itself: the new balances and the outcome. */
  function Perform(ids: seq<int>, balances: seq<int>, op: Operation): (seq<int>, Outcome)
    requires |ids| == |balances|
  {
    match op.kind
    case Deposit => PerformDeposit(ids, balances, op.account, op.amount)
    case Withdraw => PerformWithdraw(ids, balances, op.account, op.amount)
    case Transfer => PerformTransfer(ids, balances, op.account, op.target, op.amount)
    case Balance => (balances, ReadBalance(ids, balances, op.account))
  }

  function ReadBalance(ids: seq<int>, balances: seq<int>, id: int): Outcome
    requires |ids| == |balances|
  {
    match Find(ids, id)
    case None => Read(-1)
    case Some(i) => Read(balances[i])
  }

  function PerformDeposit(ids: seq<int>, balances: seq<int>, id: int, amount: int): (seq<int>, Outcome)
    requires |ids| == |balances|
  {
    match Find(ids, id)
    case None => (balances, Accepted)
    case Some(i) => (if amount < 0 then balances else balances[i := balances[i] + amount], Accepted)
  }

  function PerformWithdraw(ids: seq<int>, balances: seq<int>, id: int, amount: int): (seq<int>, Outcome)
    requires |ids| == |balances|
  {
    match Find(ids, id)
    case None => (balances, Refused)
    case Some(i) =>
      if amount < 0 || balances[i] < amount then (balances, Refused)
      else (balances[i := balances[i] - amount], Accepted)
  }

  function PerformTransfer(ids: seq<int>, balances: seq<int>, from: int, to: int, amount: int): (seq<int>, Outcome)
    requires |ids| == |balances|
  {
    var src := Find(ids, from);
    var dst := Find(ids, to);
    if amount < 0 || from == to || src.None? || dst.None? || src == dst || balances[src.value] < amount then
      (balances, Refused)
    else
      var debited := balances[src.value := balances[src.value] - amount];
      (debited[dst.value := debited[dst.value] + amount], Accepted)
  }

  /** Money a successful operation brings into the bank. */
  function Effect(op: Operation): int {
    match op.kind
    case Deposit => if op.amount < 0 then 0 else op.amount
    case Withdraw => -op.amount
    case Transfer => 0
    case Balance => 0
  }

  /** Money the audit in `main` assumes a committed operation brought in. */
  function Declared(op: Operation): int {
    match op.kind
    case Deposit => op.amount
    case Withdraw => -op.amount
    case Transfer => 0
    case Balance => 0
  }

  function EffectUpTo(ops: seq<Operation>, n: nat): int
    requires n <= |ops|
  {
    if n == 0 then 0 else EffectUpTo(ops, n - 1) + Effect(ops[n - 1])
  }

  function DeclaredUpTo(ops: seq<Operation>, n: nat): int
    requires n <= |ops|
  {
    if n == 0 then 0 else DeclaredUpTo(ops, n - 1) + Declared(ops[n - 1])
  }

  /** The negative deposit amounts among the first `n` operations: declared, but never applied. */
  function NegativeDepositsUpTo(ops: seq<Operation>, n: nat): (r: int)
    requires n <= |ops|
    ensures r <= 0
  {
    if n == 0 then 0
    else
      var op := ops[n - 1];
      NegativeDepositsUpTo(ops, n - 1) + if op.kind == Deposit && op.amount < 0 then op.amount else 0
  }

  /** The non-negative deposit amounts among the first `n` operations. */
  function DepositCapUpTo(ops: seq<Operation>, n: nat): (r: nat)
    requires n <= |ops|
  {
    if n == 0 then 0
    else
      var op := ops[n - 1];
      DepositCapUpTo(ops, n - 1) + if op.kind == Deposit && op.amount > 0 then op.amount else 0
  }

  lemma {:induction false} DeclaredMinusEffect(ops: seq<Operation>, n: nat)
    requires n <= |ops|
    ensures DeclaredUpTo(ops, n) - EffectUpTo(ops, n) == NegativeDepositsUpTo(ops, n)
  {
    if n > 0 {
      DeclaredMinusEffect(ops, n - 1);
    }
  }

  /** A whole operation changes the total by its effect when it succeeds, and nothing otherwise;
      it never makes a balance negative. */
  lemma PerformKeepsTotal(ids: seq<int>, balances: seq<int>, op: Operation)
    requires SoundBank(ids, balances)
    ensures var (after, r) := Perform(ids, balances, op);
            && SoundBank(ids, after)
            && (!Succeeded(r) ==> after == balances)
            && (Succeeded(r) && op.account in ids ==> Sum(after) == Sum(balances) + Effect(op))
  {
    match op.kind
    case Deposit => DepositKeepsTotal(ids, balances, op.account, op.amount);
    case Withdraw => WithdrawKeepsTotal(ids, balances, op.account, op.amount);
    case Transfer => TransferKeepsTotal(ids, balances, op.account, op.target, op.amount);
    case Balance =>
  }

  lemma DepositKeepsTotal(ids: seq<int>, balances: seq<int>, id: int, amount: int)
    requires SoundBank(ids, balances)
    ensures var (after, r) := PerformDeposit(ids, balances, id, amount);
            SoundBank(ids, after) && Succeeded(r)
            && Sum(after) == Sum(balances) + if id in ids && amount >= 0 then amount else 0
  {
    hide Sum;
    var i := Find(ids, id);
    if i.Some? {
      SumUpdate(balances, i.value, balances[i.value] + amount);
    }
  }

  lemma WithdrawKeepsTotal(ids: seq<int>, balances: seq<int>, id: int, amount: int)
    requires SoundBank(ids, balances)
    ensures var (after, r) := PerformWithdraw(ids, balances, id, amount);
            SoundBank(ids, after)
            && if Succeeded(r) then Sum(after) == Sum(balances) - amount else after == balances
  {
    hide Sum;
    var i := Find(ids, id);
    if i.Some? {
      SumUpdate(balances, i.value, balances[i.value] - amount);
    }
  }

  lemma TransferKeepsTotal(ids: seq<int>, balances: seq<int>, from: int, to: int, amount: int)
    requires SoundBank(ids, balances)
    ensures var (after, r) := PerformTransfer(ids, balances, from, to, amount);
            SoundBank(ids, after) && Sum(after) == Sum(balances) && (!Succeeded(r) ==> after == balances)
  {
    hide Sum;
    var src, dst := Find(ids, from), Find(ids, to);
    if src.Some? && dst.Some? && src != dst {
      SumUpdate(balances, src.value, balances[src.value] - amount);
      var debited := balances[src.value := balances[src.value] - amount];
      SumUpdate(debited, dst.value, debited[dst.value] + amount);
    }
  }
}
