/** What the trace parser computes, said without its table. */
module Grouping {
  import opened Common
  import opened Ledger
  import opened Engine
  import opened Trace

  /** The entries of the lines that are not skipped, in order. */
  function Entries(lines: seq<string>): seq<Entry> {
    if lines == [] then []
    else
      var n := |lines| - 1;
      Entries(lines[..n]) + match ReadLine(lines[n]) { case Parsed(e) => [e] case _ => [] }
  }

  predicate AllWellFormed(lines: seq<string>) {
    forall k :: 0 <= k < |lines| ==> !ReadLine(lines[k]).Malformed?
  }

  /** The operations of one id, in line order. */
  function OpsOf(es: seq<Entry>, id: int): seq<Operation> {
    if es == [] then []
    else
      var n := |es| - 1;
      OpsOf(es[..n], id) + if es[n].id == id then [es[n].op] else []
  }

  /** The distinct ids, by first appearance. */
  function FirstIds(es: seq<Entry>): (ids: seq<int>)
    ensures Distinct(ids)
    ensures forall id :: id in ids <==> exists k :: 0 <= k < |es| && es[k].id == id
  {
    if es == [] then []
    else
      var n := |es| - 1;
      var before := FirstIds(es[..n]);
      assert forall k :: 0 <= k < n ==> es[..n][k] == es[k];
      if es[n].id in before then before else before + [es[n].id]
  }

  /** The start tick of the first line of an id. */
  function FirstTick(es: seq<Entry>, id: int): int {
    if es == [] then 0
    else if es[0].id == id then es[0].tick
    else FirstTick(es[1..], id)
  }

  /** The grouped transactions. */
  function Grouped(es: seq<Entry>): seq<Tx> {
    var ids := FirstIds(es);
    seq(|ids|, k requires 0 <= k < |ids| => Tx(ids[k], FirstTick(es, ids[k]), OpsOf(es, ids[k])))
  }

  /** Every line of an id carries the tick of its first line, and no limit is exceeded. */
  ghost predicate Acceptable(es: seq<Entry>) {
    && (forall k :: 0 <= k < |es| ==> es[k].tick == FirstTick(es, es[k].id))
    && |FirstIds(es)| <= MAX_TRANSACTIONS
    && (forall id: int :: |OpsOf(es, id)| <= MAX_OPS_PER_TX)
  }

  lemma {:induction false} FirstTickAppend(es: seq<Entry>, e: Entry, id: int)
    ensures FirstTick(es + [e], id) ==
            if id in FirstIds(es) then FirstTick(es, id) else if e.id == id then e.tick else 0
  {
    if es == [] {
      assert es + [e] == [e] && [e][1..] == [];
    } else {
      assert (es + [e])[0] == es[0] && (es + [e])[1..] == es[1..] + [e];
      FirstTickAppend(es[1..], e, id);
      assert forall k :: 0 <= k < |es| - 1 ==> es[1..][k] == es[k + 1];
      if id in FirstIds(es) && es[0].id != id {
        var k :| 0 <= k < |es| && es[k].id == id;
        assert es[1..][k - 1].id == id;
      }
    }
  }

  lemma AppendParts(es: seq<Entry>, e: Entry)
    ensures forall id: int :: OpsOf(es + [e], id) == OpsOf(es, id) + if e.id == id then [e.op] else []
    ensures FirstIds(es + [e]) == if e.id in FirstIds(es) then FirstIds(es) else FirstIds(es) + [e.id]
    ensures forall id: int :: FirstTick(es + [e], id) ==
              if id in FirstIds(es) then FirstTick(es, id) else if e.id == id then e.tick else 0
  {
    assert (es + [e])[..|es|] == es;
    forall id: int ensures FirstTick(es + [e], id) ==
              if id in FirstIds(es) then FirstTick(es, id) else if e.id == id then e.tick else 0
    {
      FirstTickAppend(es, e, id);
    }
  }

  lemma {:induction false} UnseenHasNoOps(es: seq<Entry>, id: int)
    ensures id !in FirstIds(es) ==> OpsOf(es, id) == []
  {
    if es != [] {
      UnseenHasNoOps(es[..|es| - 1], id);
    }
  }

  /** One more entry is accepted exactly when the table takes it, and the groups grow alike. */
  lemma AddMatchesGroups(es: seq<Entry>, e: Entry)
    requires Acceptable(es)
    ensures AddEntry(Grouped(es), e) == if Acceptable(es + [e]) then Some(Grouped(es + [e])) else None
  {
    hide FirstIds, OpsOf, FirstTick, TxFrom;
    var ids := FirstIds(es);
    var txs := Grouped(es);
    AppendParts(es, e);
    UnseenHasNoOps(es, e.id);
    var k := TxOf(txs, e.id);
    if e.id in ids {
      var j :| 0 <= j < |ids| && ids[j] == e.id;
      assert txs[j].id == e.id;
      assert k == j;
      SeenEntry(es, e, k);
    } else {
      assert k == |txs|;
      NewEntry(es, e);
    }
  }

  lemma SeenEntry(es: seq<Entry>, e: Entry, k: nat)
    requires Acceptable(es) && k < |FirstIds(es)| && FirstIds(es)[k] == e.id
    ensures Acceptable(es + [e]) <==> FirstTick(es, e.id) == e.tick && |OpsOf(es, e.id)| < MAX_OPS_PER_TX
    ensures Grouped(es + [e]) == Grouped(es)[k := Grouped(es)[k].(ops := OpsOf(es, e.id) + [e.op])]
  {
    hide FirstIds, OpsOf, FirstTick;
    AppendParts(es, e);
    var more := es + [e];
    assert more[|es|] == e;
    assert forall j :: 0 <= j < |es| ==> more[j] == es[j];
    assert forall j :: 0 <= j < |es| ==> es[j].id in FirstIds(es);
    if FirstTick(es, e.id) == e.tick && |OpsOf(es, e.id)| < MAX_OPS_PER_TX {
      forall id: int ensures |OpsOf(more, id)| <= MAX_OPS_PER_TX {
        assert |OpsOf(es, id)| <= MAX_OPS_PER_TX;
      }
    } else {
      assert more[|es|].tick != FirstTick(more, e.id) || |OpsOf(more, e.id)| > MAX_OPS_PER_TX;
    }
    var ids := FirstIds(es);
    var grown := Tx(e.id, FirstTick(es, e.id), OpsOf(es, e.id) + [e.op]);
    forall j | 0 <= j < |ids| ensures Grouped(more)[j] == if j == k then grown else Grouped(es)[j] {
      assert ids[j] in ids && (j != k ==> ids[j] != ids[k]);
    }
    assert Grouped(more) == Grouped(es)[k := Grouped(es)[k].(ops := OpsOf(es, e.id) + [e.op])];
  }

  lemma NewEntry(es: seq<Entry>, e: Entry)
    requires Acceptable(es) && e.id !in FirstIds(es) && OpsOf(es, e.id) == []
    ensures Acceptable(es + [e]) <==> |FirstIds(es)| < MAX_TRANSACTIONS
    ensures Grouped(es + [e]) == Grouped(es) + [Tx(e.id, e.tick, [e.op])]
  {
    hide FirstIds, OpsOf, FirstTick;
    AppendParts(es, e);
    var more := es + [e];
    assert more[|es|] == e;
    assert forall j :: 0 <= j < |es| ==> more[j] == es[j];
    assert forall j :: 0 <= j < |es| ==> es[j].id in FirstIds(es);
    forall id: int ensures |OpsOf(more, id)| <= MAX_OPS_PER_TX {
      assert |OpsOf(es, id)| <= MAX_OPS_PER_TX;
    }
    var ids := FirstIds(es);
    forall j | 0 <= j < |ids| ensures Grouped(more)[j] == Grouped(es)[j] {
      assert ids[j] in ids;
    }
    assert OpsOf(more, e.id) == [e.op];
    assert Grouped(more) == Grouped(es) + [Tx(e.id, e.tick, [e.op])];
  }

  lemma DropLast(es: seq<Entry>, e: Entry)
    requires Acceptable(es + [e])
    ensures Acceptable(es)
  {
    hide FirstIds, OpsOf, FirstTick;
    AppendParts(es, e);
    var more := es + [e];
    forall k | 0 <= k < |es| ensures es[k].tick == FirstTick(es, es[k].id) {
      assert more[k] == es[k];
      assert es[k].id in FirstIds(es);
    }
    forall id: int ensures |OpsOf(es, id)| <= MAX_OPS_PER_TX {
      assert |OpsOf(more, id)| <= MAX_OPS_PER_TX;
    }
  }

  /** The parser accepts exactly the traces whose lines are well formed and whose entries are acceptable,
      and returns exactly the groups. */
  lemma {:induction false} ParserGroups(lines: seq<string>)
    ensures ParseTrace(lines) ==
            if AllWellFormed(lines) && Acceptable(Entries(lines)) then Some(Grouped(Entries(lines))) else None
  {
    hide Acceptable, Grouped, ReadLine, AddEntry;
    if lines == [] {
      NothingAcceptable();
    } else {
      var n := |lines| - 1;
      var before := Entries(lines[..n]);
      ParserGroups(lines[..n]);
      WellFormedStep(lines);
      match ReadLine(lines[n]) {
        case Parsed(e) =>
          if Acceptable(before) {
            AddMatchesGroups(before, e);
          } else if Acceptable(before + [e]) {
            DropLast(before, e);
          }
        case _ =>
          assert Entries(lines) == before;
      }
    }
  }

  lemma NothingAcceptable()
    ensures Acceptable([]) && Grouped([]) == []
  {
  }

  lemma WellFormedStep(lines: seq<string>)
    requires lines != []
    ensures AllWellFormed(lines) <==>
              AllWellFormed(lines[..|lines| - 1]) && !ReadLine(lines[|lines| - 1]).Malformed?
  {
    hide ReadLine;
    var n := |lines| - 1;
    assert forall k :: 0 <= k < n ==> lines[..n][k] == lines[k];
  }

  function OpCount(txs: seq<Tx>): nat {
    if txs == [] then 0 else OpCount(txs[..|txs| - 1]) + |txs[|txs| - 1].ops|
  }

  lemma {:induction false} OpCountUpdate(txs: seq<Tx>, k: nat, t: Tx)
    requires k < |txs|
    ensures OpCount(txs[k := t]) == OpCount(txs) - |txs[k].ops| + |t.ops|
  {
    var n := |txs| - 1;
    if k == n {
      assert txs[k := t][..n] == txs[..n];
    } else {
      assert txs[k := t][..n] == txs[..n][k := t];
      OpCountUpdate(txs[..n], k, t);
    }
  }

  /** Accepted traces lose no operation: the counts add up to the operation lines. */
  lemma {:induction false} NothingLost(lines: seq<string>)
    requires ParseTrace(lines).Some?
    ensures OpCount(ParseTrace(lines).value) == |Entries(lines)|
  {
    if lines != [] {
      var n := |lines| - 1;
      NothingLost(lines[..n]);
      match ReadLine(lines[n]) {
        case Parsed(e) =>
          var txs := ParseTrace(lines[..n]).value;
          var k := TxOf(txs, e.id);
          if k < |txs| {
            OpCountUpdate(txs, k, txs[k].(ops := txs[k].ops + [e.op]));
          } else {
            assert (txs + [Tx(e.id, e.tick, [e.op])])[..|txs|] == txs;
          }
        case _ =>
      }
    }
  }

  /** The entries of one id, in line order. */
  function Own(es: seq<Entry>, id: int): seq<Entry> {
    if es == [] then []
    else
      var n := |es| - 1;
      Own(es[..n], id) + if es[n].id == id then [es[n]] else []
  }

  /** The same lines for every id, in the same order; only the interleaving differs. */
  ghost predicate Reinterleaved(es: seq<Entry>, fs: seq<Entry>) {
    forall id: int :: Own(es, id) == Own(fs, id)
  }

  /** What the parser keeps of an id depends on that id's own entries only. */
  lemma OwnDecides(es: seq<Entry>, id: int)
    ensures forall e :: e in Own(es, id) <==> e in es && e.id == id
    ensures id in FirstIds(es) <==> Own(es, id) != []
    ensures |OpsOf(es, id)| == |Own(es, id)|
    ensures forall k :: 0 <= k < |Own(es, id)| ==> OpsOf(es, id)[k] == Own(es, id)[k].op
    ensures FirstTick(es, id) == if Own(es, id) == [] then 0 else Own(es, id)[0].tick
  {
    hide FirstTick, FirstIds, OpsOf, Own;
    OwnMembers(es, id);
    OwnOps(es, id);
    OwnTick(es, id);
  }

  lemma {:induction false} OwnMembers(es: seq<Entry>, id: int)
    ensures forall e :: e in Own(es, id) <==> e in es && e.id == id
  {
    if es != [] {
      var n := |es| - 1;
      OwnMembers(es[..n], id);
      assert es == es[..n] + [es[n]];
    }
  }

  lemma {:induction false} OwnOps(es: seq<Entry>, id: int)
    ensures |OpsOf(es, id)| == |Own(es, id)|
    ensures forall k :: 0 <= k < |Own(es, id)| ==> OpsOf(es, id)[k] == Own(es, id)[k].op
  {
    if es != [] {
      OwnOps(es[..|es| - 1], id);
    }
  }

  lemma {:induction false} OwnTick(es: seq<Entry>, id: int)
    ensures id in FirstIds(es) <==> Own(es, id) != []
    ensures FirstTick(es, id) == if Own(es, id) == [] then 0 else Own(es, id)[0].tick
  {
    hide FirstTick, FirstIds, OpsOf;
    if es == [] {
      NoTick(id);
    } else {
      var n := |es| - 1;
      OwnTick(es[..n], id);
      assert es == es[..n] + [es[n]];
      AppendParts(es[..n], es[n]);
    }
  }

  lemma NoTick(id: int)
    ensures FirstTick([], id) == 0 && id !in FirstIds([])
  {
  }

  lemma SameGroups(es: seq<Entry>, fs: seq<Entry>)
    requires Reinterleaved(es, fs)
    ensures forall id: int :: OpsOf(es, id) == OpsOf(fs, id) && FirstTick(es, id) == FirstTick(fs, id)
    ensures Elements(FirstIds(es)) == Elements(FirstIds(fs)) && |FirstIds(es)| == |FirstIds(fs)|
  {
    hide OpsOf, FirstTick, FirstIds, Own;
    forall id: int ensures OpsOf(es, id) == OpsOf(fs, id) && FirstTick(es, id) == FirstTick(fs, id)
      ensures id in FirstIds(es) <==> id in FirstIds(fs)
    {
      OwnDecides(es, id);
      OwnDecides(fs, id);
      assert Own(es, id) == Own(fs, id);
    }
    DistinctCount(FirstIds(es));
    DistinctCount(FirstIds(fs));
  }

  lemma SameAcceptance(es: seq<Entry>, fs: seq<Entry>)
    requires Reinterleaved(es, fs) && Acceptable(es)
    ensures Acceptable(fs)
  {
    hide OpsOf, FirstTick, FirstIds, Own;
    SameGroups(es, fs);
    forall k | 0 <= k < |fs| ensures fs[k].tick == FirstTick(fs, fs[k].id) {
      OwnDecides(es, fs[k].id);
      OwnDecides(fs, fs[k].id);
      assert fs[k] in Own(fs, fs[k].id) && Own(es, fs[k].id) == Own(fs, fs[k].id);
      var j :| 0 <= j < |es| && es[j] == fs[k];
    }
    forall id: int ensures |OpsOf(fs, id)| <= MAX_OPS_PER_TX {
      assert |OpsOf(es, id)| <= MAX_OPS_PER_TX;
    }
  }

  lemma GroupedAt(es: seq<Entry>, t: Tx)
    ensures t in Grouped(es) <==> t.id in FirstIds(es) && t == Tx(t.id, FirstTick(es, t.id), OpsOf(es, t.id))
  {
    hide FirstIds, OpsOf, FirstTick;
    var ids := FirstIds(es);
    if t.id in ids {
      var k :| 0 <= k < |ids| && ids[k] == t.id;
      assert Grouped(es)[k] == Tx(t.id, FirstTick(es, t.id), OpsOf(es, t.id));
    }
  }

  lemma GroupsDistinct(es: seq<Entry>)
    ensures Distinct(Grouped(es))
  {
    hide FirstIds, OpsOf, FirstTick;
    var ids := FirstIds(es);
    forall j, k | 0 <= j < k < |ids| ensures Grouped(es)[j] != Grouped(es)[k] {
      assert ids[j] != ids[k];
    }
  }

  /** Interleaving the lines differently, each id's own lines in the same order, changes neither acceptance
      nor any transaction; it only permutes the array. */
  lemma InterleavingPermutes(lines: seq<string>, lines': seq<string>)
    requires AllWellFormed(lines) && AllWellFormed(lines') && Reinterleaved(Entries(lines), Entries(lines'))
    ensures ParseTrace(lines).Some? <==> ParseTrace(lines').Some?
    ensures ParseTrace(lines).Some? ==>
              var txs, txs' := ParseTrace(lines).value, ParseTrace(lines').value;
              Distinct(txs) && Distinct(txs') && Elements(txs) == Elements(txs') && |txs| == |txs'|
  {
    hide Acceptable, Grouped, AllWellFormed, ParseTrace, Reinterleaved;
    var es, fs := Entries(lines), Entries(lines');
    ParserGroups(lines);
    ParserGroups(lines');
    assert Reinterleaved(fs, es) by { Symmetric(es, fs); }
    if Acceptable(es) {
      SameAcceptance(es, fs);
    }
    if Acceptable(fs) {
      SameAcceptance(fs, es);
    }
    SameGroups(es, fs);
    forall t: Tx ensures t in Grouped(es) <==> t in Grouped(fs) {
      GroupedAt(es, t);
      GroupedAt(fs, t);
      assert t.id in Elements(FirstIds(es)) <==> t.id in Elements(FirstIds(fs));
    }
    GroupsDistinct(es);
    GroupsDistinct(fs);
    DistinctCount(Grouped(es));
    DistinctCount(Grouped(fs));
  }

  lemma Symmetric(es: seq<Entry>, fs: seq<Entry>)
    requires Reinterleaved(es, fs)
    ensures Reinterleaved(fs, es)
  {
  }
}
