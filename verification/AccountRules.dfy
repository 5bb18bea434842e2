/** The bank operations account by account: who is paid what, and when a call is accepted. Nothing here looks an
    account up; the rules speak of the positions that hold an id. */
module AccountRules {
  import opened Common
  import opened Ledger

  /** What an operation with this outcome adds to the account `id`. */
  function Delta(op: Operation, r: Outcome, id: int): int {
    match op.kind
    case Deposit => if op.account == id && op.amount >= 0 then op.amount else 0
    case Withdraw => if r == Accepted && op.account == id then -op.amount else 0
    case Transfer =>
      if r != Accepted then 0
      else (if op.target == id then op.amount else 0) - (if op.account == id then op.amount else 0)
    case Balance => 0
  }

  /** The account exists and its balance covers the amount. */
  predicate Covered(ids: seq<int>, balances: seq<int>, id: int, amount: int)
    requires |ids| == |balances|
  {
    exists k :: 0 <= k < |ids| && ids[k] == id && 0 <= amount <= balances[k]
  }

  /** The outcome that the balances call for. */
  predicate Justified(ids: seq<int>, balances: seq<int>, op: Operation, r: Outcome)
    requires |ids| == |balances|
  {
    match op.kind
    case Deposit => r == Accepted
    case Withdraw => r == if Covered(ids, balances, op.account, op.amount) then Accepted else Refused
    case Transfer =>
      r == if op.account != op.target && op.target in ids && Covered(ids, balances, op.account, op.amount)
           then Accepted else Refused
    case Balance =>
      if op.account in ids then exists k :: 0 <= k < |ids| && ids[k] == op.account && r == Read(balances[k])
      else r == Read(-1)
  }

  /** Every account moves by its own delta. */
  predicate Moves(ids: seq<int>, before: seq<int>, after: seq<int>, op: Operation, r: Outcome) {
    && |after| == |before| == |ids|
    && forall k :: 0 <= k < |ids| ==> after[k] == before[k] + Delta(op, r, ids[k])
  }

  /** A whole operation does exactly what the rules say, and nothing else does. */
  lemma PerformFollowsRules(ids: seq<int>, balances: seq<int>, op: Operation, after: seq<int>, r: Outcome)
    requires SoundBank(ids, balances)
    ensures Perform(ids, balances, op) == (after, r) <==>
              Justified(ids, balances, op, r) && Moves(ids, balances, after, op, r)
  {
    hide Find;
    PerformObeys(ids, balances, op);
    var (a, o) := Perform(ids, balances, op);
    if Justified(ids, balances, op, r) && Moves(ids, balances, after, op, r) {
      assert r == o;
      assert after == a;
    }
  }

  lemma PerformObeys(ids: seq<int>, balances: seq<int>, op: Operation)
    requires SoundBank(ids, balances)
    ensures var (after, r) := Perform(ids, balances, op);
            Justified(ids, balances, op, r) && Moves(ids, balances, after, op, r)
  {
    hide FindFrom;
    match op.kind
    case Deposit => DepositObeys(ids, balances, op);
    case Withdraw => WithdrawObeys(ids, balances, op);
    case Transfer => TransferObeys(ids, balances, op);
    case Balance => BalanceObeys(ids, balances, op);
  }

  lemma DepositObeys(ids: seq<int>, balances: seq<int>, op: Operation)
    requires SoundBank(ids, balances) && op.kind == Deposit
    ensures var (after, r) := PerformDeposit(ids, balances, op.account, op.amount);
            Justified(ids, balances, op, r) && Moves(ids, balances, after, op, r)
  {
    hide Find;
  }

  lemma WithdrawObeys(ids: seq<int>, balances: seq<int>, op: Operation)
    requires SoundBank(ids, balances) && op.kind == Withdraw
    ensures var (after, r) := PerformWithdraw(ids, balances, op.account, op.amount);
            Justified(ids, balances, op, r) && Moves(ids, balances, after, op, r)
  {
    hide Find;
  }

  lemma TransferObeys(ids: seq<int>, balances: seq<int>, op: Operation)
    requires SoundBank(ids, balances) && op.kind == Transfer
    ensures var (after, r) := PerformTransfer(ids, balances, op.account, op.target, op.amount);
            Justified(ids, balances, op, r) && Moves(ids, balances, after, op, r)
  {
    hide Find;
  }

  lemma BalanceObeys(ids: seq<int>, balances: seq<int>, op: Operation)
    requires SoundBank(ids, balances) && op.kind == Balance
    ensures Justified(ids, balances, op, ReadBalance(ids, balances, op.account))
  {
    hide Find;
    var k := Find(ids, op.account);
    assert k.Some? ==> ids[k.value] == op.account;
  }

  // ---------- how the operations relate ----------

  /** A deposit followed by a withdrawal of the same amount is accepted and restores the balances. */
  lemma DepositThenWithdraw(ids: seq<int>, balances: seq<int>, id: int, amount: int)
    requires SoundBank(ids, balances) && id in ids && amount >= 0
    ensures var paid := PerformDeposit(ids, balances, id, amount).0;
            PerformWithdraw(ids, paid, id, amount) == (balances, Accepted)
  {
    hide Find;
    var paid := PerformDeposit(ids, balances, id, amount).0;
    assert PerformWithdraw(ids, paid, id, amount).0 == balances;
  }

  /** A covered withdrawal followed by a deposit of the same amount restores the balances. */
  lemma WithdrawThenDeposit(ids: seq<int>, balances: seq<int>, id: int, amount: int)
    requires SoundBank(ids, balances) && Covered(ids, balances, id, amount)
    ensures var (drawn, r) := PerformWithdraw(ids, balances, id, amount);
            r == Accepted && PerformDeposit(ids, drawn, id, amount) == (balances, Accepted)
  {
    hide Find;
    var drawn := PerformWithdraw(ids, balances, id, amount).0;
    assert PerformDeposit(ids, drawn, id, amount).0 == balances;
  }

  /** Between different existing accounts a transfer is a withdrawal from the source and, if that is accepted, a
      deposit to the target; in all other cases it is refused and nothing changes. */
  lemma TransferIsWithdrawAndDeposit(ids: seq<int>, balances: seq<int>, from: int, to: int, amount: int)
    requires SoundBank(ids, balances)
    ensures var (drawn, r) := PerformWithdraw(ids, balances, from, amount);
            PerformTransfer(ids, balances, from, to, amount) ==
              if from == to || to !in ids || r == Refused then (balances, Refused)
              else PerformDeposit(ids, drawn, to, amount)
  {
    hide Find;
  }

  /** An accepted transfer followed by the reverse one restores the balances. */
  lemma TransferBack(ids: seq<int>, balances: seq<int>, from: int, to: int, amount: int)
    requires SoundBank(ids, balances) && PerformTransfer(ids, balances, from, to, amount).1 == Accepted
    ensures var moved := PerformTransfer(ids, balances, from, to, amount).0;
            PerformTransfer(ids, moved, to, from, amount) == (balances, Accepted)
  {
    hide Find;
    var moved := PerformTransfer(ids, balances, from, to, amount).0;
    assert PerformTransfer(ids, moved, to, from, amount).0 == balances;
  }

  /** An accepted transfer of a positive amount changes exactly two balances. */
  lemma TransferChangesTwo(ids: seq<int>, balances: seq<int>, from: int, to: int, amount: int)
    requires SoundBank(ids, balances) && amount > 0
    requires PerformTransfer(ids, balances, from, to, amount).1 == Accepted
    ensures var moved := PerformTransfer(ids, balances, from, to, amount).0;
            |moved| == |balances| && |set k | 0 <= k < |balances| && moved[k] != balances[k]| == 2
  {
    hide Find;
    var moved := PerformTransfer(ids, balances, from, to, amount).0;
    var src, dst := Find(ids, from).value, Find(ids, to).value;
    assert (set k | 0 <= k < |balances| && moved[k] != balances[k]) == {src, dst};
  }

  /** A deposit raises what the next query of that account reads by its amount, and no other query. */
  lemma DepositRaisesRead(ids: seq<int>, balances: seq<int>, id: int, amount: int, other: int)
    requires SoundBank(ids, balances) && id in ids && amount >= 0
    ensures var paid := PerformDeposit(ids, balances, id, amount).0;
            && |paid| == |ids|
            && ReadBalance(ids, balances, id).Read?
            && ReadBalance(ids, paid, id) == Read(ReadBalance(ids, balances, id).balance + amount)
            && (other != id ==> ReadBalance(ids, paid, other) == ReadBalance(ids, balances, other))
  {
    hide Find;
  }

  /** What querying every account in turn answers. */
  function ReadAll(ids: seq<int>, balances: seq<int>, n: nat): seq<Outcome>
    requires |ids| == |balances| && n <= |ids|
  {
    if n == 0 then [] else ReadAll(ids, balances, n - 1) + [ReadBalance(ids, balances, ids[n - 1])]
  }

  function SumOfReads(rs: seq<Outcome>): int {
    if rs == [] then 0
    else
      var last := rs[|rs| - 1];
      SumOfReads(rs[..|rs| - 1]) + if last.Read? then last.balance else 0
  }

  /** Reading all accounts in turn adds up to the total balance. */
  lemma {:induction false} ReadsAddUp(ids: seq<int>, balances: seq<int>, n: nat)
    requires SoundBank(ids, balances) && n <= |ids|
    ensures SumOfReads(ReadAll(ids, balances, n)) == Sum(balances[..n])
  {
    hide Find;
    if n > 0 {
      ReadsAddUp(ids, balances, n - 1);
      assert balances[..n][..n - 1] == balances[..n - 1];
      assert ReadBalance(ids, balances, ids[n - 1]) == Read(balances[n - 1]);
    }
  }
}
