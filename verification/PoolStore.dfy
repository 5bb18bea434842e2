/** The buffer pool as the program keeps it: a fixed array of slots, two semaphores and counters.
    Each mutex-protected section is one method, equal to its function in `Pool`. */
module PoolStore {
  import opened Common
  import opened Pool

  const BUFFER_POOL_SIZE: nat := 5

  /** A whole `load_account` with nobody else at the pool; the flag is false where it would wait. */
  function LoadAlone(p: PoolState, account: int, data: Option<nat>): (PoolState, bool) {
    var (scanned, hit) := ScanSection(p, account);
    if hit then (scanned, true)
    else if p.emptySem == 0 then (p, false)
    else
      var (claimed, claim) := ClaimSection(p.(emptySem := p.emptySem - 1), account, data);
      if claim == Inserted then (claimed.(fullSem := claimed.fullSem + 1), true)
      else (claimed.(emptySem := claimed.emptySem + 1), true)
  }

  /** A whole `unload_account` with nobody else at the pool; the flag is false where it would wait. */
  function UnloadAlone(p: PoolState, account: int): (PoolState, bool) {
    var (released, freed) := ReleaseSection(p, account);
    if !freed then (released, true)
    else if released.fullSem == 0 then (released, false)
    else (released.(fullSem := released.fullSem - 1, emptySem := released.emptySem + 1), true)
  }

  class BufferPool {
    const slots: array<Slot>
    var emptySem: nat
    var fullSem: nat
    var loadCount: int
    var unloadCount: int
    var currentUsage: int
    var peakUsage: int

    ghost function State(): PoolState
      reads this, slots
    {
      PoolState(slots[..], emptySem, fullSem, loadCount, unloadCount, currentUsage, peakUsage)
    }

    constructor ()
      ensures State() == EmptyPool(BUFFER_POOL_SIZE) && fresh(slots)
    {
      slots := new Slot[BUFFER_POOL_SIZE](_ => FREE_SLOT);
      emptySem, fullSem := BUFFER_POOL_SIZE, 0;
      loadCount, unloadCount, currentUsage, peakUsage := 0, 0, 0, 0;
      new;
      InitSlots();
    }

    /** `init_buffer_slots`. */
    method InitSlots()
      modifies slots
      ensures slots[..] == seq(slots.Length, i => FREE_SLOT)
    {
      for i := 0 to slots.Length
        invariant forall k :: 0 <= k < i ==> slots[k] == FREE_SLOT
      {
        slots[i] := FREE_SLOT;
      }
    }

    /** The search loop: the first used slot of the account, or the capacity. */
    method FindSlot(account: int) returns (k: nat)
      ensures k == SlotOf(slots[..], account)
    {
      k := 0;
      while k < slots.Length
        invariant k <= slots.Length
        invariant forall j :: 0 <= j < k ==> !Occupies(slots[j], account)
      {
        if slots[k].inUse && slots[k].account == account {
          return;
        }
        k := k + 1;
      }
    }

    method FindFree() returns (k: nat)
      ensures k == FreeSlot(slots[..])
    {
      k := 0;
      while k < slots.Length
        invariant k <= slots.Length
        invariant forall j :: 0 <= j < k ==> slots[j].inUse
      {
        if !slots[k].inUse {
          return;
        }
        k := k + 1;
      }
    }

    method FirstScan(account: int) returns (hit: bool)
      modifies slots
      ensures (State(), hit) == ScanSection(old(State()), account)
    {
      var k := FindSlot(account);
      hit := k < slots.Length;
      if hit {
        slots[k] := slots[k].(pins := slots[k].pins + 1);
      }
    }

    method ClaimSlot(account: int, data: Option<nat>) returns (claim: Claim)
      modifies slots, this`loadCount, this`currentUsage, this`peakUsage
      ensures (State(), claim) == ClaimSection(old(State()), account, data)
    {
      var k := FindSlot(account);
      if k < slots.Length {
        slots[k] := slots[k].(pins := slots[k].pins + 1);
        return Duplicate;
      }
      var f := FindFree();
      if f == slots.Length {
        return NotInserted;
      }
      slots[f] := Slot(account, data, true, 1);
      loadCount := loadCount + 1;
      currentUsage := currentUsage + 1;
      if currentUsage > peakUsage {
        peakUsage := currentUsage;
      }
      return Inserted;
    }

    method ReleaseSlot(account: int) returns (freed: bool)
      modifies slots, this`unloadCount, this`currentUsage
      ensures (State(), freed) == ReleaseSection(old(State()), account)
    {
      var k := FindSlot(account);
      if k == slots.Length {
        return false;
      }
      slots[k] := slots[k].(pins := slots[k].pins - 1);
      if slots[k].pins <= 0 {
        slots[k] := FREE_SLOT;
        unloadCount := unloadCount + 1;
        currentUsage := currentUsage - 1;
        assert slots[..] == old(slots[..])[k := FREE_SLOT];
        return true;
      }
      return false;
    }

    method IsLoaded(account: int) returns (loaded: bool)
      ensures loaded <==> Resident(slots[..], account)
    {
      var k := FindSlot(account);
      loaded := k < slots.Length;
    }

    /** `load_account`, alone; false where it would block on `empty_slots`. */
    method LoadAccount(account: int, data: Option<nat>) returns (done: bool)
      modifies this, slots
      ensures (State(), done) == LoadAlone(old(State()), account, data)
    {
      var hit := FirstScan(account);
      if hit {
        return true;
      }
      if emptySem == 0 {
        return false;
      }
      emptySem := emptySem - 1;
      var claim := ClaimSlot(account, data);
      if claim == Inserted {
        fullSem := fullSem + 1;
      } else {
        emptySem := emptySem + 1;
      }
      return true;
    }

    /** `unload_account`, alone; false where it would block on `full_slots`. */
    method UnloadAccount(account: int) returns (done: bool)
      modifies this, slots
      ensures (State(), done) == UnloadAlone(old(State()), account)
    {
      var freed := ReleaseSlot(account);
      if !freed {
        return true;
      }
      if fullSem == 0 {
        return false;
      }
      fullSem := fullSem - 1;
      emptySem := emptySem + 1;
      return true;
    }
  }
}
