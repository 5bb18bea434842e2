/** The mutex-protected sections of the buffer pool, as functions on the slots. */
module Pool {
  import opened Common

  /** `data` is the bank array position the slot points at. */
  datatype Slot = Slot(account: int, data: Option<nat>, inUse: bool, pins: int)

  const FREE_SLOT: Slot := Slot(-1, None, false, 0)

  /** Slots, the two counting semaphores, and the usage statistics. */
  datatype PoolState = PoolState(
    slots: seq<Slot>, emptySem: nat, fullSem: nat,
    loads: int, unloads: int, usage: int, peak: int)

  predicate Occupies(s: Slot, account: int) {
    s.inUse && s.account == account
  }

  predicate Resident(slots: seq<Slot>, account: int) {
    exists k :: 0 <= k < |slots| && Occupies(slots[k], account)
  }

  /** The first slot occupied by `account`, or the number of slots. */
  function SlotOf(slots: seq<Slot>, account: int): (k: nat)
    ensures k <= |slots|
    ensures k < |slots| ==> Occupies(slots[k], account)
    ensures forall i :: 0 <= i < k ==> !Occupies(slots[i], account)
    ensures k < |slots| <==> Resident(slots, account)
  {
    SlotFrom(slots, account, 0)
  }

  function SlotFrom(slots: seq<Slot>, account: int, from: nat): (k: nat)
    requires from <= |slots|
    ensures from <= k <= |slots|
    ensures k < |slots| ==> Occupies(slots[k], account)
    ensures forall i :: from <= i < k ==> !Occupies(slots[i], account)
    decreases |slots| - from
  {
    if from == |slots| || Occupies(slots[from], account) then from
    else SlotFrom(slots, account, from + 1)
  }

  /** The first free slot, or the number of slots. */
  function FreeSlot(slots: seq<Slot>): (k: nat)
    ensures k <= |slots|
    ensures k < |slots| ==> !slots[k].inUse
    ensures forall i :: 0 <= i < k ==> slots[i].inUse
  {
    FreeSlotFrom(slots, 0)
  }

  function FreeSlotFrom(slots: seq<Slot>, from: nat): (k: nat)
    requires from <= |slots|
    ensures from <= k <= |slots|
    ensures k < |slots| ==> !slots[k].inUse
    ensures forall i :: from <= i < k ==> slots[i].inUse
    decreases |slots| - from
  {
    if from == |slots| || !slots[from].inUse then from else FreeSlotFrom(slots, from + 1)
  }

  function Max(a: int, b: int): int {
    if a > b then a else b
  }

  function EmptyPool(capacity: nat): PoolState {
    PoolState(seq(capacity, i => FREE_SLOT), capacity, 0, 0, 0, 0, 0)
  }

  /** Pins a resident account once more; used by both scans of `load_account`. */
  function Pin(p: PoolState, k: nat): PoolState
    requires k < |p.slots|
  {
    p.(slots := p.slots[k := p.slots[k].(pins := p.slots[k].pins + 1)])
  }

  /** First section of `load_account`: pin on a hit; the flag tells a hit from a miss. */
  function ScanSection(p: PoolState, account: int): (PoolState, bool) {
    var k := SlotOf(p.slots, account);
    if k < |p.slots| then (Pin(p, k), true) else (p, false)
  }

  /** How the second section of `load_account` ended. */
  datatype Claim = Duplicate | Inserted | NotInserted

  /** Second section of `load_account`, entered with a permit: pin a duplicate, else take the first free slot. */
  function ClaimSection(p: PoolState, account: int, data: Option<nat>): (PoolState, Claim) {
    var k := SlotOf(p.slots, account);
    if k < |p.slots| then (Pin(p, k), Duplicate)
    else
      var f := FreeSlot(p.slots);
      if f < |p.slots| then (Insert(p, f, account, data), Inserted) else (p, NotInserted)
  }

  function Insert(p: PoolState, f: nat, account: int, data: Option<nat>): PoolState
    requires f < |p.slots|
  {
    p.(slots := p.slots[f := Slot(account, data, true, 1)],
       loads := p.loads + 1,
       usage := p.usage + 1,
       peak := Max(p.peak, p.usage + 1))
  }

  /** The section of `unload_account`: unpin; the flag tells whether the slot was freed. */
  function ReleaseSection(p: PoolState, account: int): (PoolState, bool) {
    var k := SlotOf(p.slots, account);
    if k == |p.slots| then (p, false)
    else if p.slots[k].pins - 1 <= 0 then
      (p.(slots := p.slots[k := FREE_SLOT], unloads := p.unloads + 1, usage := p.usage - 1), true)
    else
      (p.(slots := p.slots[k := p.slots[k].(pins := p.slots[k].pins - 1)]), false)
  }
}
