/** Parsing a transaction trace: one line at a time, grouped by transaction id. */
module Trace {
  import opened Common
  import opened Ledger
  import opened Engine
  import opened Scanning

  /** One operation line. */
  datatype Entry = Entry(id: int, tick: int, op: Operation)

  datatype Line = Skipped | Malformed | Parsed(entry: Entry)

  /** `trim_newline`: trailing spaces of every kind go. */
  function TrimNewline(s: string): string {
    if s != "" && IsSpace(s[|s| - 1]) then TrimNewline(s[..|s| - 1]) else s
  }

  /** Blank lines and comments. */
  predicate ShouldSkip(s: string) {
    var t := SkipSpaces(s);
    t == "" || t[0] == '\n' || t[0] == '#'
  }

  function OpTypeOf(word: string): Option<OpType> {
    if word == "DEPOSIT" then Some(Deposit)
    else if word == "WITHDRAW" then Some(Withdraw)
    else if word == "TRANSFER" then Some(Transfer)
    else if word == "BALANCE" then Some(Balance)
    else None
  }

  /** The label must be T followed by an integer. */
  function LabelId(tag: string): Option<int> {
    if tag == "" || tag[0] != 'T' then None
    else
      match ScanInt(tag[1..])
      case Match(id, _) => Some(id)
      case NoMatch => None
  }

  /** The numbers after the operation word. */
  function ParseArguments(kind: OpType, rest: string): Option<Operation> {
    match ScanInt(rest)
    case NoMatch => None
    case Match(account, rest1) =>
      if kind == Balance then Some(Operation(Balance, account, 0, -1))
      else
        match ScanInt(rest1)
        case NoMatch => None
        case Match(second, rest2) =>
          if kind != Transfer then Some(Operation(kind, account, second, -1))
          else
            match ScanInt(rest2)
            case NoMatch => None
            case Match(amount, _) => Some(Operation(Transfer, account, amount, second))
  }

  function ParseEntry(s: string): Option<Entry> {
    match ScanWord(s)
    case NoMatch => None
    case Match(tag, rest) => ParseAfterLabel(tag, rest)
  }

  function ParseAfterLabel(tag: string, rest: string): Option<Entry> {
    match ScanInt(rest)
    case NoMatch => None
    case Match(tick, rest1) =>
      match ScanWord(rest1)
      case NoMatch => None
      case Match(word, rest2) =>
        var id := LabelId(tag);
        var kind := OpTypeOf(word);
        if id.None? || tick < 0 || kind.None? then None
        else
          match ParseArguments(kind.value, rest2)
          case None => None
          case Some(op) => Some(Entry(id.value, tick, op))
  }

  function ReadLine(raw: string): Line {
    var s := TrimNewline(raw);
    if ShouldSkip(s) then Skipped
    else
      match ParseEntry(s)
      case None => Malformed
      case Some(e) => Parsed(e)
  }

  /** The position of the transaction with this id, or the number of transactions. */
  function TxOf(txs: seq<Tx>, id: int): (k: nat)
    ensures k <= |txs|
    ensures k < |txs| ==> txs[k].id == id
    ensures forall j :: 0 <= j < k ==> txs[j].id != id
  {
    TxFrom(txs, id, 0)
  }

  function TxFrom(txs: seq<Tx>, id: int, from: nat): (k: nat)
    requires from <= |txs|
    ensures from <= k <= |txs|
    ensures k < |txs| ==> txs[k].id == id
    ensures forall j :: from <= j < k ==> txs[j].id != id
    decreases |txs| - from
  {
    if from == |txs| || txs[from].id == id then from else TxFrom(txs, id, from + 1)
  }

  /** Appends an operation to its transaction, creating it on first sight; None on any limit or tick mismatch. */
  function AddEntry(txs: seq<Tx>, e: Entry): Option<seq<Tx>> {
    var k := TxOf(txs, e.id);
    if k == |txs| then
      if |txs| >= MAX_TRANSACTIONS then None else Some(txs + [Tx(e.id, e.tick, [e.op])])
    else if txs[k].startTick != e.tick || |txs[k].ops| >= MAX_OPS_PER_TX then None
    else Some(txs[k := txs[k].(ops := txs[k].ops + [e.op])])
  }

  /** The transactions after reading the lines in order; None as soon as a line is rejected. */
  function ParseTrace(lines: seq<string>): Option<seq<Tx>> {
    if lines == [] then Some([])
    else
      var n := |lines| - 1;
      match ParseTrace(lines[..n])
      case None => None
      case Some(txs) =>
        match ReadLine(lines[n])
        case Skipped => Some(txs)
        case Malformed => None
        case Parsed(e) => AddEntry(txs, e)
  }
}
