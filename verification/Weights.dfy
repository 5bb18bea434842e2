/** Quantities summed over all threads, or over all slots. */
module Weights {
  import opened Ledger
  import opened Pool
  import opened Engine

  datatype Measure =
    | Permits        // loaders that took a permit and have not given it back
    | Posters        // inserters that have not posted full_slots
    | Freers         // unloaders that freed a slot and have not posted empty_slots
    | Debtors        // unloaders that freed a slot and have not waited on full_slots
    | PinsOn(account: int)
    | Holdings       // pins held, over all accounts
    | CreditDue(index: nat)
    | InTransit      // debited, not yet credited
    | ExternalFlow   // money brought in by the operations that have taken effect
    | Remaining      // steps left

  /** The accounts a thread has pinned; the account of a finished insertion counts before it is appended. */
  function Held(t: Thread): seq<int> {
    if t.pc.PostFull? || t.pc.ReturnPermit? then t.loaded + [LoadTarget(t)] else t.loaded
  }

  /** The operation at hand has taken effect: it has passed its linearization point. */
  predicate TakenEffect(t: Thread) {
    || t.pc.UnlockFirst? || t.pc.UnlockSecond? || t.pc.Leave?
    || (t.pc.Credit? && CurrentOp(t).kind == Transfer)
  }

  /** What is in transit: the amount of a transfer between its debit and its credit. */
  function Transit(t: Thread): int {
    if t.pc.Credit? && CurrentOp(t).kind == Transfer then CurrentOp(t).amount else 0
  }

  function Flow(t: Thread): int {
    (if t.op <= |t.tx.ops| then EffectUpTo(t.tx.ops, t.op) else 0)
    + if TakenEffect(t) && Succeeded(t.pending) then Effect(CurrentOp(t)) else 0
  }

  function UsedBy(op: Operation): set<int> {
    if op.kind == Transfer then {op.account, op.target} else {op.account}
  }

  /** The accounts named by the first `n` operations. */
  function UsedUpTo(ops: seq<Operation>, n: nat): set<int>
    requires n <= |ops|
  {
    if n == 0 then {} else UsedUpTo(ops, n - 1) + UsedBy(ops[n - 1])
  }

  function Used(tx: Tx): set<int> {
    UsedUpTo(tx.ops, |tx.ops|)
  }

  /** Ranks inside one operation, highest first; an append (three more unload steps) costs at least four. */
  function OpRank(pc: Pc): nat {
    match pc
    case LoadCheck(second) => if second then 20 else 28
    case Scan(second) => if second then 19 else 27
    case AwaitPermit(second) => if second then 18 else 26
    case Claiming(second) => if second then 17 else 25
    case PostFull(second) => if second then 16 else 24
    case ReturnPermit(second) => if second then 16 else 24
    case GiveBack(second) => if second then 16 else 24
    case Enter => 12
    case LockFirst => 11
    case LockSecond => 10
    case Check => 9
    case ReadCell => 9
    case Debit => 8
    case Credit => 7
    case UnlockFirst => 6
    case UnlockSecond => 5
    case Leave => 4
    case _ => 0
  }

  const STEPS_PER_OP: nat := 26

  function StepsLeft(t: Thread): int {
    var ahead := |t.tx.ops| - t.op;
    match t.pc
    case AwaitTick => STEPS_PER_OP * ahead + 5
    case RecordStart => STEPS_PER_OP * ahead + 4
    case Dispatch => STEPS_PER_OP * ahead + 3 + 3 * |t.loaded|
    case RecordEnd => 2 + 3 * |t.loaded|
    case Unload => 1 + 3 * |t.loaded|
    case AwaitFull => 3 + 3 * |t.loaded|
    case PostEmpty => 2 + 3 * |t.loaded|
    case Finished => 0
    case _ => STEPS_PER_OP * (ahead - 1) + OpRank(t.pc) + 3 * |t.loaded|
  }

  function Weight(m: Measure, t: Thread): int {
    match m
    case Permits => if t.pc.Claiming? || t.pc.ReturnPermit? || t.pc.GiveBack? then 1 else 0
    case Posters => if t.pc.PostFull? then 1 else 0
    case Freers => if t.pc.AwaitFull? || t.pc.PostEmpty? then 1 else 0
    case Debtors => if t.pc.AwaitFull? then 1 else 0
    case PinsOn(a) => if a in Held(t) then 1 else 0
    case Holdings => |Held(t)|
    case CreditDue(i) => if t.dst == i then Transit(t) else 0
    case InTransit => Transit(t)
    case ExternalFlow => Flow(t)
    case Remaining => StepsLeft(t)
  }

  function Total(m: Measure, ts: seq<Thread>): int {
    if ts == [] then 0 else Total(m, ts[..|ts| - 1]) + Weight(m, ts[|ts| - 1])
  }

  lemma {:induction false} TotalUpdate(m: Measure, ts: seq<Thread>, k: nat, t: Thread)
    requires k < |ts|
    ensures Total(m, ts[k := t]) == Total(m, ts) - Weight(m, ts[k]) + Weight(m, t)
  {
    var n := |ts| - 1;
    if k == n {
      assert ts[k := t][..n] == ts[..n];
    } else {
      assert ts[k := t][..n] == ts[..n][k := t];
      TotalUpdate(m, ts[..n], k, t);
    }
  }

  /** With no negative weight, the total bounds each weight, and any two together. */
  lemma {:induction false} TotalCovers(m: Measure, ts: seq<Thread>)
    requires forall k :: 0 <= k < |ts| ==> Weight(m, ts[k]) >= 0
    ensures Total(m, ts) >= 0
    ensures forall k :: 0 <= k < |ts| ==> Weight(m, ts[k]) <= Total(m, ts)
    ensures forall j, k :: 0 <= j < k < |ts| ==> Weight(m, ts[j]) + Weight(m, ts[k]) <= Total(m, ts)
  {
    if ts == [] {
    } else {
      var n := |ts| - 1;
      TotalCovers(m, ts[..n]);
      assert forall k :: 0 <= k < n ==> ts[k] == ts[..n][k];
    }
  }

  lemma {:induction false} TotalZero(m: Measure, ts: seq<Thread>)
    requires forall k :: 0 <= k < |ts| ==> Weight(m, ts[k]) == 0
    ensures Total(m, ts) == 0
  {
    if ts == [] {
    } else {
      TotalZero(m, ts[..|ts| - 1]);
    }
  }

  lemma TotalOfOne(m: Measure, t: Thread)
    ensures Total(m, [t]) == Weight(m, t)
  {
    assert [t][..0] == [];
  }

  /** A positive total has a positive weight behind it. */
  lemma {:induction false} TotalWitness(m: Measure, ts: seq<Thread>) returns (k: nat)
    requires Total(m, ts) > 0
    ensures k < |ts| && Weight(m, ts[k]) > 0
  {
    var n := |ts| - 1;
    if Weight(m, ts[n]) > 0 {
      k := n;
    } else {
      k := TotalWitness(m, ts[..n]);
    }
  }

  // ---------- slots ----------

  function InUse(slots: seq<Slot>): nat {
    if slots == [] then 0
    else InUse(slots[..|slots| - 1]) + if slots[|slots| - 1].inUse then 1 else 0
  }

  lemma {:induction false} InUseUpdate(slots: seq<Slot>, k: nat, s: Slot)
    requires k < |slots|
    ensures InUse(slots[k := s]) ==
            InUse(slots) - (if slots[k].inUse then 1 else 0) + (if s.inUse then 1 else 0)
  {
    var n := |slots| - 1;
    if k == n {
      assert slots[k := s][..n] == slots[..n];
    } else {
      assert slots[k := s][..n] == slots[..n][k := s];
      InUseUpdate(slots[..n], k, s);
    }
  }

  /** All slots in use exactly when the count is the capacity; none exactly when it is zero. */
  lemma {:induction false} InUseExtremes(slots: seq<Slot>)
    ensures InUse(slots) <= |slots|
    ensures InUse(slots) == |slots| <==> forall k :: 0 <= k < |slots| ==> slots[k].inUse
    ensures InUse(slots) == 0 <==> forall k :: 0 <= k < |slots| ==> !slots[k].inUse
  {
    if slots == [] {
    } else {
      var n := |slots| - 1;
      InUseExtremes(slots[..n]);
      assert forall k :: 0 <= k < n ==> slots[k] == slots[..n][k];
    }
  }

  function PinSum(slots: seq<Slot>): int {
    if slots == [] then 0 else PinSum(slots[..|slots| - 1]) + slots[|slots| - 1].pins
  }

  lemma {:induction false} PinSumUpdate(slots: seq<Slot>, k: nat, s: Slot)
    requires k < |slots|
    ensures PinSum(slots[k := s]) == PinSum(slots) - slots[k].pins + s.pins
  {
    var n := |slots| - 1;
    if k == n {
      assert slots[k := s][..n] == slots[..n];
    } else {
      assert slots[k := s][..n] == slots[..n][k := s];
      PinSumUpdate(slots[..n], k, s);
    }
  }

  /** Used slots carry at least one pin each, so pins bound the use. */
  lemma {:induction false} UseWithinPins(slots: seq<Slot>)
    requires forall k :: 0 <= k < |slots| ==> if slots[k].inUse then slots[k].pins >= 1 else slots[k].pins == 0
    ensures InUse(slots) <= PinSum(slots)
  {
    if slots == [] {
    } else {
      var n := |slots| - 1;
      assert forall k :: 0 <= k < n ==> slots[..n][k] == slots[k];
      UseWithinPins(slots[..n]);
    }
  }

  /** Where no slot carries two pins, use bounds the pins. */
  lemma {:induction false} SinglePinsWithinUse(slots: seq<Slot>)
    requires forall k :: 0 <= k < |slots| ==> slots[k].pins <= if slots[k].inUse then 1 else 0
    ensures PinSum(slots) <= InUse(slots)
  {
    if slots != [] {
      var n := |slots| - 1;
      assert forall k :: 0 <= k < n ==> slots[..n][k] == slots[k];
      SinglePinsWithinUse(slots[..n]);
    }
  }
}
