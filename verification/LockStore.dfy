/** The account locks as the program keeps them, and the ordered acquisition of a transfer. */
module LockStore {
  import opened Common
  import opened Engine

  /** How far an acquisition gets before it would wait. */
  datatype Grant = Invalid | WaitsAt(index: nat) | Granted

  class AccountLocks {
    const locks: array<RwLock>

    constructor (n: nat)
      ensures fresh(locks) && locks.Length == n && forall i :: 0 <= i < n ==> locks[i] == UNLOCKED
    {
      locks := new RwLock[n](_ => UNLOCKED);
    }

    /** `lock_account`; false where it would wait. */
    method WriteLock(me: nat, i: nat) returns (ok: bool)
      requires i < locks.Length
      modifies locks
      ensures ok <==> WriteFree(old(locks[i]))
      ensures locks[..] == if ok then old(locks[..])[i := Acquire(me, old(locks[i]), false)] else old(locks[..])
    {
      ok := locks[i].writer.None? && locks[i].readers == {};
      if ok {
        locks[i] := locks[i].(writer := Some(me));
      }
    }

    /** `unlock_account`. */
    method Unlock(me: nat, i: nat)
      requires i < locks.Length
      modifies locks
      ensures locks[..] == old(locks[..])[i := Release(me, old(locks[i]), false)]
    {
      locks[i] := locks[i].(writer := None);
    }

    /** `lock_accounts_in_order`. Whatever the argument order, the smaller id is taken first: a call that waits
        holds nothing, or exactly the smaller id while it waits at the larger. */
    method LockInOrder(me: nat, ids: seq<int>, a: nat, b: nat) returns (r: Grant)
      requires a < locks.Length && b < locks.Length && |ids| == locks.Length
      requires a != b ==> ids[a] != ids[b]
      modifies locks
      ensures r.Invalid? <==> a == b
      ensures a != b ==>
        exists low: nat, high: nat :: ({low, high} == {a, b} && low < |ids| && high < |ids| && ids[low] < ids[high]) &&
          match r
          case Invalid => false
          case Granted =>
            WriteFree(old(locks[low])) && WriteFree(old(locks[high]))
            && locks[..] == old(locks[..])[low := Acquire(me, old(locks[low]), false)][high := Acquire(me, old(locks[high]), false)]
          case WaitsAt(i) =>
            || (i == low && !WriteFree(old(locks[low])) && locks[..] == old(locks[..]))
            || (i == high && WriteFree(old(locks[low])) && !WriteFree(old(locks[high]))
                && locks[..] == old(locks[..])[low := Acquire(me, old(locks[low]), false)])
    {
      if a == b {
        return Invalid;
      }
      var low, high := if ids[a] < ids[b] then a else b, if ids[a] < ids[b] then b else a;
      assert {low, high} == {a, b} && ids[low] < ids[high];
      var ok := WriteLock(me, low);
      if !ok {
        return WaitsAt(low);
      }
      ok := WriteLock(me, high);
      if !ok {
        return WaitsAt(high);
      }
      return Granted;
    }

    /** `unlock_accounts`. */
    method UnlockBoth(me: nat, a: nat, b: nat)
      requires a < locks.Length && b < locks.Length && a != b
      modifies locks
      ensures locks[..] == old(locks[..])[a := Release(me, old(locks[a]), false)][b := Release(me, old(locks[b]), false)]
    {
      Unlock(me, a);
      Unlock(me, b);
    }
  }
}
