/** Rendering a transaction table as trace lines and parsing it back. */
module RoundTrip {
  import opened Common
  import opened Ledger
  import opened Engine
  import opened Scanning
  import opened Trace
  import opened Grouping
  import opened Grammar

  const INT_MIN: int := -0x8000_0000

  predicate IsInt(n: int) {
    INT_MIN <= n <= INT_MAX
  }

  /** Operations as the parser stores them: no target but for transfers, no amount for balance queries. */
  predicate NormalForm(op: Operation) {
    && IsInt(op.account) && IsInt(op.amount) && IsInt(op.target)
    && (op.kind != Transfer ==> op.target == -1)
    && (op.kind == Balance ==> op.amount == 0)
  }

  predicate Renderable(txs: seq<Tx>) {
    && |txs| <= MAX_TRANSACTIONS
    && (forall j, k :: 0 <= j < k < |txs| ==> txs[j].id != txs[k].id)
    && (forall k :: 0 <= k < |txs| ==>
          && IsInt(txs[k].id) && 0 <= txs[k].startTick <= INT_MAX
          && 1 <= |txs[k].ops| <= MAX_OPS_PER_TX
          && forall j :: 0 <= j < |txs[k].ops| ==> NormalForm(txs[k].ops[j]))
  }

  function Number(n: int): string {
    " " + PrintInt(n)
  }

  function RenderArguments(op: Operation): string {
    match op.kind
    case Deposit => Number(op.account) + Number(op.amount)
    case Withdraw => Number(op.account) + Number(op.amount)
    case Transfer => Number(op.account) + (Number(op.target) + Number(op.amount))
    case Balance => Number(op.account)
  }

  /** One trace line: T, the id, the tick, the operation word, its numbers. */
  function RenderLine(e: Entry): string {
    ("T" + PrintInt(e.id)) + (Number(e.tick) + (" " + Word(e.op.kind) + RenderArguments(e.op)))
  }

  /** The first `n` operations of a transaction, one line each. */
  function EntriesOf(t: Tx, n: nat): seq<Entry>
    requires n <= |t.ops|
  {
    if n == 0 then [] else EntriesOf(t, n - 1) + [Entry(t.id, t.startTick, t.ops[n - 1])]
  }

  function AllEntries(txs: seq<Tx>): seq<Entry> {
    if txs == [] then []
    else
      var t := txs[|txs| - 1];
      AllEntries(txs[..|txs| - 1]) + EntriesOf(t, |t.ops|)
  }

  function RenderEntries(es: seq<Entry>): seq<string> {
    if es == [] then [] else RenderEntries(es[..|es| - 1]) + [RenderLine(es[|es| - 1])]
  }

  /** The whole table in array order. */
  function Render(txs: seq<Tx>): seq<string> {
    RenderEntries(AllEntries(txs))
  }

  // ---------- one line ----------

  predicate GoodEntry(e: Entry) {
    IsInt(e.id) && 0 <= e.tick <= INT_MAX && NormalForm(e.op)
  }

  lemma ArgumentsRoundTrip(op: Operation)
    requires NormalForm(op)
    ensures ParseArguments(op.kind, RenderArguments(op)) == Some(op)
    ensures Delimited(RenderArguments(op))
  {
    hide PrintInt, ScanInt;
    ScanNumber(op.account, RenderArguments(op)[|Number(op.account)|..]);
    assert RenderArguments(op) == Number(op.account) + RenderArguments(op)[|Number(op.account)|..];
    if op.kind == Balance {
      assert RenderArguments(op)[|Number(op.account)|..] == "";
    } else if op.kind == Transfer {
      assert RenderArguments(op)[|Number(op.account)|..] == Number(op.target) + Number(op.amount);
      ScanNumber(op.target, Number(op.amount));
      LastNumber(op.amount);
    } else {
      assert RenderArguments(op)[|Number(op.account)|..] == Number(op.amount);
      LastNumber(op.amount);
    }
  }

  lemma ScanNumber(n: int, rest: string)
    ensures Delimited(rest) ==> ScanInt(Number(n) + rest) == Match(n, rest)
    ensures Delimited(Number(n)) && Delimited(Number(n) + rest)
  {
    hide PrintInt, ScanInt;
    if Delimited(rest) {
      ScanPrintedInt(n, rest);
    }
    assert (Number(n) + rest)[0] == ' ';
  }

  lemma LastNumber(n: int)
    ensures ScanInt(Number(n)) == Match(n, "")
  {
    hide PrintInt, ScanInt;
    ScanNumber(n, "");
    assert Number(n) + "" == Number(n);
  }

  lemma LabelRoundTrip(id: int)
    requires IsInt(id)
    ensures var tag := "T" + PrintInt(id);
            LabelId(tag) == Some(id) && 0 < |tag| <= 31 && forall j :: 0 <= j < |tag| ==> !IsSpace(tag[j])
  {
    hide PrintInt, ScanInt;
    var tag := "T" + PrintInt(id);
    IntWidth(id);
    ScanPrintedInt(id, "");
    assert tag[1..] == PrintInt(id) && PrintInt(id) + "" == PrintInt(id);
    forall j | 0 <= j < |tag| ensures !IsSpace(tag[j]) {
      if j > 0 {
        assert tag[j] == PrintInt(id)[j - 1];
      }
    }
  }

  lemma WordRoundTrip(kind: OpType)
    ensures var w := Word(kind); OpTypeOf(w) == Some(kind) && 0 < |w| <= 31 && forall j :: 0 <= j < |w| ==> !IsSpace(w[j])
  {
  }

  lemma LineRoundTrip(e: Entry)
    requires GoodEntry(e)
    ensures ParseEntry(RenderLine(e)) == Some(e)
  {
    hide PrintInt, ScanInt, ScanWord, LabelId, OpTypeOf, Word, RenderArguments, ParseArguments, Number, IsSpace;
    var tag := "T" + PrintInt(e.id);
    var tail := " " + Word(e.op.kind) + RenderArguments(e.op);
    LabelRoundTrip(e.id);
    WordRoundTrip(e.op.kind);
    ArgumentsRoundTrip(e.op);
    ScanPrintedWord(Word(e.op.kind), RenderArguments(e.op));
    assert Delimited(tail) by { SpaceDelimits(Word(e.op.kind) + RenderArguments(e.op)); assert tail == " " + (Word(e.op.kind) + RenderArguments(e.op)); }
    ScanNumber(e.tick, tail);
    ScanPrintedWord(tag, Number(e.tick) + tail);
  }

  lemma SpaceDelimits(s: string)
    ensures Delimited(" " + s)
  {
  }

  lemma ArgumentsShape(op: Operation)
    requires NormalForm(op)
    ensures 1 <= |RenderArguments(op)| <= 36
    ensures !IsSpace(RenderArguments(op)[|RenderArguments(op)| - 1])
  {
    hide PrintInt;
    NumberShape(op.account);
    NumberShape(op.amount);
    NumberShape(op.target);
  }

  lemma NumberShape(n: int)
    requires IsInt(n)
    ensures 1 < |Number(n)| <= 12 && !IsSpace(Number(n)[|Number(n)| - 1])
  {
    IntWidth(n);
    assert Number(n)[|Number(n)| - 1] == PrintInt(n)[|PrintInt(n)| - 1];
  }

  /** A rendered line starts with T, ends in a digit, and fits the line buffer. */
  lemma LineShape(e: Entry)
    requires GoodEntry(e)
    ensures var s := RenderLine(e); 0 < |s| < 255 && s[0] == 'T' && !IsSpace(s[|s| - 1])
  {
    hide PrintInt, RenderArguments, Number, IsSpace;
    ArgumentsShape(e.op);
    NumberShape(e.tick);
    IntWidth(e.id);
    var a := RenderArguments(e.op);
    assert RenderLine(e)[|RenderLine(e)| - 1] == a[|a| - 1];
  }

  lemma ReadRendered(e: Entry)
    requires GoodEntry(e)
    ensures ReadLine(RenderLine(e)) == Parsed(e)
  {
    hide RenderLine, ParseEntry;
    LineShape(e);
    LineRoundTrip(e);
  }

  // ---------- the table ----------

  lemma {:induction false} EntriesRoundTrip(es: seq<Entry>)
    requires forall k :: 0 <= k < |es| ==> GoodEntry(es[k])
    ensures Entries(RenderEntries(es)) == es && AllWellFormed(RenderEntries(es))
  {
    hide ReadLine, RenderLine, GoodEntry;
    if es != [] {
      var n := |es| - 1;
      EntriesRoundTrip(es[..n]);
      ReadRendered(es[n]);
      var lines := RenderEntries(es);
      assert lines[..|lines| - 1] == RenderEntries(es[..n]);
      WellFormedStep(lines);
    }
  }

  /** Appending a transaction's own lines to the lines of others appends its group. */
  lemma {:induction false} OneGroup(es: seq<Entry>, t: Tx, n: nat)
    requires Acceptable(es) && t.id !in FirstIds(es) && |FirstIds(es)| < MAX_TRANSACTIONS
    requires 1 <= n <= |t.ops| <= MAX_OPS_PER_TX
    ensures var fs := es + EntriesOf(t, n);
            && Acceptable(fs) && FirstIds(fs) == FirstIds(es) + [t.id]
            && FirstTick(fs, t.id) == t.startTick && OpsOf(fs, t.id) == t.ops[..n]
            && Grouped(fs) == Grouped(es) + [Tx(t.id, t.startTick, t.ops[..n])]
  {
    hide FirstIds, OpsOf, FirstTick, Acceptable, Grouped;
    var e := Entry(t.id, t.startTick, t.ops[n - 1]);
    if n == 1 {
      assert EntriesOf(t, 1) == [e];
      AppendParts(es, e);
      UnseenHasNoOps(es, t.id);
      NewEntry(es, e);
      assert t.ops[..1] == [t.ops[0]];
    } else {
      OneGroup(es, t, n - 1);
      var fs := es + EntriesOf(t, n - 1);
      assert es + EntriesOf(t, n) == fs + [e];
      assert t.ops[..n] == t.ops[..n - 1] + [t.ops[n - 1]];
      AppendParts(fs, e);
      SeenEntry(fs, e, |FirstIds(es)|);
      assert Grouped(fs)[|FirstIds(es)|] == Tx(t.id, t.startTick, t.ops[..n - 1]) by { GroupCount(es); }
      GroupCount(es);
    }
  }

  lemma GroupCount(es: seq<Entry>)
    ensures |Grouped(es)| == |FirstIds(es)|
  {
  }

  function IdsOf(txs: seq<Tx>): (r: seq<int>)
    ensures |r| == |txs| && forall k :: 0 <= k < |txs| ==> r[k] == txs[k].id
  {
    seq(|txs|, k requires 0 <= k < |txs| => txs[k].id)
  }

  lemma LastIdNew(txs: seq<Tx>)
    requires Renderable(txs) && txs != []
    ensures var n := |txs| - 1;
            && Renderable(txs[..n]) && txs[n].id !in IdsOf(txs[..n])
            && IdsOf(txs) == IdsOf(txs[..n]) + [txs[n].id]
            && 1 <= |txs[n].ops| <= MAX_OPS_PER_TX && n < MAX_TRANSACTIONS
  {
    hide NormalForm;
  }

  lemma {:induction false} GroupsRoundTrip(txs: seq<Tx>)
    requires Renderable(txs)
    ensures Acceptable(AllEntries(txs)) && Grouped(AllEntries(txs)) == txs
    ensures FirstIds(AllEntries(txs)) == IdsOf(txs)
  {
    hide OpsOf, FirstTick, Acceptable, Grouped, FirstIds, Renderable, IdsOf, EntriesOf;
    if txs == [] {
      NothingAcceptable();
      NoIds();
      assert IdsOf([]) == [];
    } else {
      var n := |txs| - 1;
      var t := txs[n];
      LastIdNew(txs);
      GroupsRoundTrip(txs[..n]);
      OneGroup(AllEntries(txs[..n]), t, |t.ops|);
      assert t.ops[..|t.ops|] == t.ops;
      assert txs == txs[..n] + [t];
    }
  }

  lemma NoIds()
    ensures FirstIds([]) == []
  {
  }

  lemma {:induction false} OwnEntriesGood(t: Tx, n: nat)
    requires n <= |t.ops| && IsInt(t.id) && 0 <= t.startTick <= INT_MAX
    requires forall j :: 0 <= j < |t.ops| ==> NormalForm(t.ops[j])
    ensures forall k :: 0 <= k < |EntriesOf(t, n)| ==> GoodEntry(EntriesOf(t, n)[k])
  {
    hide NormalForm;
    if n > 0 {
      OwnEntriesGood(t, n - 1);
    }
  }

  lemma {:induction false} AllEntriesGood(txs: seq<Tx>)
    requires Renderable(txs)
    ensures forall k :: 0 <= k < |AllEntries(txs)| ==> GoodEntry(AllEntries(txs)[k])
  {
    hide NormalForm, GoodEntry;
    if txs != [] {
      var n := |txs| - 1;
      AllEntriesGood(txs[..n]);
      OwnEntriesGood(txs[n], |txs[n].ops|);
    }
  }

  /** Parsing the rendered lines gives back exactly the table, whatever the line ends, and with comments and blank
      lines anywhere between. */
  lemma TraceRoundTrip(txs: seq<Tx>)
    requires Renderable(txs)
    ensures ParseTrace(Render(txs)) == Some(txs)
    ensures forall lines :: Decorates(lines, Render(txs)) ==> ParseTrace(lines) == Some(txs)
    ensures forall k :: 0 <= k < |Render(txs)| ==> |Render(txs)[k]| < 255
  {
    hide Acceptable, Grouped, Renderable, ParseTrace, RenderLine, Decorates;
    AllEntriesGood(txs);
    EntriesRoundTrip(AllEntries(txs));
    GroupsRoundTrip(txs);
    ParserGroups(Render(txs));
    LinesFit(AllEntries(txs));
    forall lines | Decorates(lines, Render(txs)) ensures ParseTrace(lines) == Some(txs) {
      DecorationIgnored(lines, Render(txs));
    }
  }

  lemma {:induction false} LinesFit(es: seq<Entry>)
    requires forall k :: 0 <= k < |es| ==> GoodEntry(es[k])
    ensures forall k :: 0 <= k < |RenderEntries(es)| ==> |RenderEntries(es)[k]| < 255
  {
    hide GoodEntry, RenderLine;
    if es != [] {
      LinesFit(es[..|es| - 1]);
      LineShape(es[|es| - 1]);
    }
  }
}
