/** The bank as the program keeps it: a fixed array of accounts, filled from the front. */
module BankStore {
  import opened Common
  import opened Ledger

  datatype Account = Account(id: int, balance: int)

  const EMPTY_ACCOUNT: Account := Account(-1, 0)

  function IdsOf(s: seq<Account>): (r: seq<int>)
    ensures |r| == |s| && forall k :: 0 <= k < |s| ==> r[k] == s[k].id
  {
    seq(|s|, k requires 0 <= k < |s| => s[k].id)
  }

  function BalancesOf(s: seq<Account>): (r: seq<int>)
    ensures |r| == |s| && forall k :: 0 <= k < |s| ==> r[k] == s[k].balance
  {
    seq(|s|, k requires 0 <= k < |s| => s[k].balance)
  }

  class Bank {
    const accounts: array<Account>
    var numAccounts: nat

    ghost predicate Valid()
      reads this, accounts
    {
      && accounts.Length == MAX_ACCOUNTS && numAccounts <= MAX_ACCOUNTS
      && SoundBank(Ids(), Balances())
    }

    ghost function Ids(): seq<int>
      requires numAccounts <= accounts.Length
      reads this, accounts
    {
      IdsOf(accounts[..numAccounts])
    }

    ghost function Balances(): seq<int>
      requires numAccounts <= accounts.Length
      reads this, accounts
    {
      BalancesOf(accounts[..numAccounts])
    }

    constructor ()
      ensures Valid() && fresh(accounts)
      ensures Ids() == [] && Balances() == []
    {
      accounts := new Account[MAX_ACCOUNTS](_ => EMPTY_ACCOUNT);
      numAccounts := 0;
    }

    /** Refuses negative arguments, a full bank and a known id; otherwise appends. */
    method AddAccount(id: int, initial: int) returns (ok: bool)
      requires Valid()
      modifies this`numAccounts, accounts
      ensures Valid()
      ensures ok <==> id >= 0 && initial >= 0 && |old(Ids())| < MAX_ACCOUNTS && id !in old(Ids())
      ensures Ids() == old(Ids()) + if ok then [id] else []
      ensures Balances() == old(Balances()) + if ok then [initial] else []
    {
      if id < 0 || initial < 0 || numAccounts >= MAX_ACCOUNTS {
        return false;
      }
      for i := 0 to numAccounts
        invariant forall k :: 0 <= k < i ==> accounts[k].id != id
      {
        if accounts[i].id == id {
          assert Ids()[i] == id;
          return false;
        }
      }
      assert id !in Ids();
      ghost var ids, balances := Ids(), Balances();
      accounts[numAccounts] := Account(id, initial);
      numAccounts := numAccounts + 1;
      ok := true;
      assert Ids() == ids + [id];
      assert Balances() == balances + [initial];
    }

    /** The direct slot first, then the scan: always the account the plain scan finds. */
    method GetAccount(id: int) returns (r: Option<nat>)
      requires Valid()
      ensures r == Find(Ids(), id)
    {
      if id < 0 {
        return None;
      }
      ghost var ids := Ids();
      if 0 < id <= numAccounts && accounts[id - 1].id == id {
        assert ids[id - 1] == id;
        return Some(id - 1);
      }
      for i := 0 to numAccounts
        invariant forall k :: 0 <= k < i ==> ids[k] != id
      {
        if accounts[i].id == id {
          assert ids[i] == id;
          return Some(i);
        }
      }
      return None;
    }

    method GetBalance(id: int) returns (balance: int)
      requires Valid()
      ensures Read(balance) == Perform(Ids(), Balances(), Operation(Balance, id, 0, -1)).1
      ensures forall k :: 0 <= k < |Ids()| && Ids()[k] == id ==> balance == Balances()[k]
      ensures id !in Ids() ==> balance == -1
      ensures balance < 0 <==> id !in Ids()
    {
      hide Find;
      var acc := GetAccount(id);
      if acc.None? {
        return -1;
      }
      return accounts[acc.value].balance;
    }

    method Deposit(id: int, amount: int)
      requires Valid()
      modifies accounts
      ensures Valid() && Ids() == old(Ids())
      ensures Balances() == PerformDeposit(old(Ids()), old(Balances()), id, amount).0
      ensures forall k :: 0 <= k < |Ids()| ==>
                Balances()[k] == old(Balances())[k] + if Ids()[k] == id && amount >= 0 then amount else 0
    {
      hide Find;
      if amount < 0 {
        return;
      }
      var acc := GetAccount(id);
      if acc.None? {
        return;
      }
      SetBalance(acc.value, accounts[acc.value].balance + amount);
    }

    method Withdraw(id: int, amount: int) returns (ok: bool)
      requires Valid()
      modifies accounts
      ensures Valid() && Ids() == old(Ids())
      ensures (Balances(), if ok then Accepted else Refused) == PerformWithdraw(old(Ids()), old(Balances()), id, amount)
      ensures ok <==> exists k :: 0 <= k < |Ids()| && Ids()[k] == id && 0 <= amount <= old(Balances())[k]
      ensures forall k :: 0 <= k < |Ids()| ==>
                Balances()[k] == old(Balances())[k] - if ok && Ids()[k] == id then amount else 0
    {
      hide Find;
      if amount < 0 {
        return false;
      }
      var acc := GetAccount(id);
      if acc.None? || accounts[acc.value].balance < amount {
        return false;
      }
      SetBalance(acc.value, accounts[acc.value].balance - amount);
      return true;
    }

    method Transfer(from: int, to: int, amount: int) returns (ok: bool)
      requires Valid()
      modifies accounts
      ensures Valid() && Ids() == old(Ids())
      ensures (Balances(), if ok then Accepted else Refused) ==
              PerformTransfer(old(Ids()), old(Balances()), from, to, amount)
      ensures ok <==>
                && from != to && to in Ids()
                && exists k :: 0 <= k < |Ids()| && Ids()[k] == from && 0 <= amount <= old(Balances())[k]
      ensures forall k :: 0 <= k < |Ids()| ==>
                Balances()[k] == old(Balances())[k] + (if ok && Ids()[k] == to then amount else 0)
                                                    - (if ok && Ids()[k] == from then amount else 0)
    {
      hide Find;
      if amount < 0 || from == to {
        return false;
      }
      var src := GetAccount(from);
      var dst := GetAccount(to);
      if src.None? || dst.None? || src == dst || accounts[src.value].balance < amount {
        return false;
      }
      SetBalance(src.value, accounts[src.value].balance - amount);
      SetBalance(dst.value, accounts[dst.value].balance + amount);
      return true;
    }

    /** One balance write. */
    method SetBalance(i: nat, value: int)
      requires Valid() && i < numAccounts && value >= 0
      modifies accounts
      ensures Valid() && Ids() == old(Ids())
      ensures Balances() == old(Balances())[i := value]
    {
      accounts[i] := accounts[i].(balance := value);
      assert Ids() == old(Ids());
      assert Balances() == old(Balances())[i := value];
    }

    /** `compute_total_balance`. */
    method TotalBalance() returns (total: int)
      requires Valid()
      ensures total == Sum(Balances())
    {
      ghost var balances := Balances();
      total := 0;
      for i := 0 to numAccounts
        invariant total == Sum(balances[..i])
      {
        total := total + accounts[i].balance;
        assert balances[..i + 1][..i] == balances[..i];
      }
      assert balances[..numAccounts] == balances;
    }
  }

  // ---------- the fast path ----------

  /** `get_account` on a table of ids: the direct slot if it holds the id, else the scan. */
  function FastFind(ids: seq<int>, id: int): Option<nat> {
    if 0 < id <= |ids| && ids[id - 1] == id then Some(id - 1) else Find(ids, id)
  }

  /** The fast path agrees with the scan on every id exactly when no account sitting in its own direct slot
      repeats an earlier id. `add_account` keeps all ids distinct, which is more than enough. */
  lemma FastFindAgrees(ids: seq<int>)
    ensures (forall id: int :: FastFind(ids, id) == Find(ids, id))
            <==> (forall i, j :: 0 <= i < j < |ids| && ids[i] == ids[j] ==> ids[j] != j + 1)
    ensures Distinct(ids) ==> forall id: int :: FastFind(ids, id) == Find(ids, id)
  {
    if forall id: int :: FastFind(ids, id) == Find(ids, id) {
      forall i, j | 0 <= i < j < |ids| && ids[i] == ids[j] ensures ids[j] != j + 1 {
        assert FastFind(ids, ids[j]) == Find(ids, ids[j]);
      }
    }
  }
}
