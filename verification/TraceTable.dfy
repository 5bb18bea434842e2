/** The transaction array the parser fills in place. */
module TraceTable {
  import opened Common
  import opened Ledger
  import opened Engine
  import opened Trace
  import opened Grammar

  const UNUSED_TX: Tx := Tx(-1, 0, [])

  class TransactionTable {
    const txs: array<Tx>
    var count: nat

    /** Entries that no id has taken yet are as `init_transactions` leaves them. */
    ghost predicate Valid()
      reads this, txs
    {
      && txs.Length == MAX_TRANSACTIONS && count <= MAX_TRANSACTIONS
      && forall k :: count <= k < MAX_TRANSACTIONS ==> txs[k] == UNUSED_TX
    }

    ghost function Contents(): seq<Tx>
      requires Valid()
      reads this, txs
    {
      txs[..count]
    }

    constructor ()
      ensures Valid() && fresh(txs) && Contents() == []
    {
      txs := new Tx[MAX_TRANSACTIONS](_ => UNUSED_TX);
      count := 0;
    }

    /** `find_or_create_transaction`: the position of the id; a new id is appended unless the array is full. */
    method FindOrCreate(id: int, tick: int) returns (k: Option<nat>)
      requires Valid()
      modifies this`count, txs
      ensures Valid()
      ensures var before := old(Contents());
              var at := TxOf(before, id);
              if at < |before| then k == Some(at) && Contents() == before
              else if |before| == MAX_TRANSACTIONS then k.None? && Contents() == before
              else k == Some(|before|) && Contents() == before + [Tx(id, tick, [])]
    {
      for i := 0 to count
        invariant forall j :: 0 <= j < i ==> txs[j].id != id
      {
        if txs[i].id == id {
          return Some(i);
        }
      }
      assert TxOf(Contents(), id) == count;
      if count >= MAX_TRANSACTIONS {
        return None;
      }
      txs[count] := Tx(id, tick, []);
      count := count + 1;
      return Some(count - 1);
    }

    /** `add_operation_to_transaction`. */
    method AddOperation(k: nat, op: Operation) returns (ok: bool)
      requires Valid() && k < count
      modifies txs
      ensures Valid()
      ensures ok <==> |old(Contents())[k].ops| < MAX_OPS_PER_TX
      ensures Contents() == if ok then old(Contents())[k := old(Contents()[k]).(ops := old(Contents()[k]).ops + [op])]
                            else old(Contents())
    {
      if |txs[k].ops| >= MAX_OPS_PER_TX {
        return false;
      }
      txs[k] := txs[k].(ops := txs[k].ops + [op]);
      return true;
    }

    /** One operation line: find its transaction, check the tick, append. */
    method EnterLine(e: Entry) returns (ok: bool)
      requires Valid()
      modifies this`count, txs
      ensures Valid()
      ensures ok <==> AddEntry(old(Contents()), e).Some?
      ensures Contents() == if ok then AddEntry(old(Contents()), e).value else old(Contents())
    {
      ghost var before := Contents();
      var k := FindOrCreate(e.id, e.tick);
      if k.None? {
        return false;
      }
      if txs[k.value].startTick != e.tick {
        return false;
      }
      ok := AddOperation(k.value, e.op);
      if TxOf(before, e.id) == |before| {
        ghost var fresh' := Tx(e.id, e.tick, []);
        assert fresh'.ops + [e.op] == [e.op];
        assert Contents() == (before + [fresh'])[|before| := Tx(e.id, e.tick, [e.op])];
        assert Contents() == before + [Tx(e.id, e.tick, [e.op])];
      }
    }

    /** `parse_trace_file` over the lines of the file: the number of transactions, or -1. */
    method ParseLines(lines: seq<string>) returns (n: int)
      requires txs.Length == MAX_TRANSACTIONS
      modifies this`count, txs
      ensures Valid()
      ensures n == -1 <==> ParseTrace(lines).None?
      ensures n != -1 ==> n == count && Contents() == ParseTrace(lines).value
      ensures n == -1 ==> forall txs' :: !Describes(lines, txs')
      ensures n != -1 ==> Describes(lines, Contents())
    {
      hide Describes;
      forall txs' ensures ParseTrace(lines) == Some(txs') <==> Describes(lines, txs') {
        TraceIsRead(lines, txs');
      }
      for i := 0 to txs.Length
        invariant forall k :: 0 <= k < i ==> txs[k] == UNUSED_TX
      {
        txs[i] := UNUSED_TX;
      }
      count := 0;
      for i := 0 to |lines|
        invariant Valid()
        invariant ParseTrace(lines[..i]) == Some(Contents())
      {
        assert lines[..i + 1][..i] == lines[..i];
        var line := ReadLine(lines[i]);
        match line {
          case Skipped =>
          case Malformed =>
            RejectedStays(lines, i + 1);
            return -1;
          case Parsed(e) =>
            var ok := EnterLine(e);
            if !ok {
              RejectedStays(lines, i + 1);
              return -1;
            }
        }
      }
      assert lines[..|lines|] == lines;
      return count;
    }
  }

  /** A rejected line rejects the whole trace. */
  lemma {:induction false} RejectedStays(lines: seq<string>, n: nat)
    requires n <= |lines| && ParseTrace(lines[..n]).None?
    ensures ParseTrace(lines).None?
    decreases |lines| - n
  {
    if n == |lines| {
      assert lines[..n] == lines;
    } else {
      assert lines[..n + 1][..n] == lines[..n];
      RejectedStays(lines, n + 1);
    }
  }
}
