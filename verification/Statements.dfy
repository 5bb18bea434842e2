/** What every account and every caller sees in a concurrent run, as a statement of account: initial balance, what
    came in, what went out. */
module Statements {
  import opened Common
  import opened Ledger
  import opened AccountRules
  import opened Engine
  import opened Money
  import opened Linearizability

  /** What the events have added to the account. */
  function Net(h: seq<Event>, id: int): int {
    if h == [] then 0
    else
      var e := h[|h| - 1];
      Net(h[..|h| - 1], id) + Delta(e.op, e.outcome, id)
  }

  /** All balances after the events, read off the statements. */
  function Standing(ids: seq<int>, balances: seq<int>, h: seq<Event>): (s: seq<int>)
    requires |ids| == |balances|
    ensures |s| == |ids| && forall k :: 0 <= k < |ids| ==> s[k] == balances[k] + Net(h, ids[k])
  {
    seq(|ids|, k requires 0 <= k < |ids| => balances[k] + Net(h, ids[k]))
  }

  lemma {:induction false} ReplayIsStanding(ids: seq<int>, balances: seq<int>, h: seq<Event>)
    requires SoundBank(ids, balances) && Faithful(ids, balances, h)
    ensures Replay(ids, balances, h) == Standing(ids, balances, h)
    ensures SoundBank(ids, Replay(ids, balances, h))
  {
    hide Perform;
    if h != [] {
      var n := |h| - 1;
      ReplayIsStanding(ids, balances, h[..n]);
      PerformObeys(ids, Replay(ids, balances, h[..n]), h[n].op);
      PerformKeepsTotal(ids, Replay(ids, balances, h[..n]), h[n].op);
    }
  }

  lemma {:induction false} FaithfulPrefix(ids: seq<int>, balances: seq<int>, h: seq<Event>, n: nat)
    requires |ids| == |balances| && Faithful(ids, balances, h) && n <= |h|
    ensures Faithful(ids, balances, h[..n])
  {
    hide Perform, Replay;
    if n == |h| {
      assert h[..n] == h;
    } else {
      assert h[..|h| - 1][..n] == h[..n];
      FaithfulPrefix(ids, balances, h[..|h| - 1], n);
    }
  }

  lemma OutcomeJustified(ids: seq<int>, balances: seq<int>, h: seq<Event>, n: nat)
    requires SoundBank(ids, balances) && Faithful(ids, balances, h) && n < |h|
    ensures Justified(ids, Standing(ids, balances, h[..n]), h[n].op, h[n].outcome)
  {
    hide Perform, Replay, Justified;
    FaithfulPrefix(ids, balances, h, n + 1);
    var g := h[..n + 1];
    assert g[..n] == h[..n] && g[n] == h[n];
    ReplayIsStanding(ids, balances, h[..n]);
    PerformObeys(ids, Replay(ids, balances, h[..n]), h[n].op);
  }

  /** In every reachable state each balance, half-done transfers completed, is its initial value plus what its
      statement says; and each outcome in the history is the one that the statements before it call for. */
  lemma StatementsBalance(i: Input, acts: seq<Action>)
    requires ValidInput(i) && Legal(Start(i), acts)
    ensures var s, h := Exec(Start(i), acts), History(Start(i), acts);
            && Virtual(s.shared.balances, s.threads) == Standing(i.ids, i.balances, h)
            && forall n :: 0 <= n < |h| ==> Justified(i.ids, Standing(i.ids, i.balances, h[..n]), h[n].op, h[n].outcome)
  {
    hide Replay, Faithful, Justified, Exec, Legal, History, Virtual, Standing;
    Linearizable(i, acts);
    var h := History(Start(i), acts);
    ReplayIsStanding(i.ids, i.balances, h);
    forall n | 0 <= n < |h| ensures Justified(i.ids, Standing(i.ids, i.balances, h[..n]), h[n].op, h[n].outcome) {
      OutcomeJustified(i.ids, i.balances, h, n);
    }
  }

  /** The same, operation by operation, for an existing account: what a query answers, when a withdrawal or transfer
      is refused, and that a deposit never is. */
  lemma EventOutcomes(i: Input, acts: seq<Action>, n: nat, k: nat)
    requires ValidInput(i) && Legal(Start(i), acts) && n < |History(Start(i), acts)| && k < |i.ids|
    requires History(Start(i), acts)[n].op.account == i.ids[k]
    ensures var h := History(Start(i), acts);
            var e := h[n];
            var standing := i.balances[k] + Net(h[..n], i.ids[k]);
            && standing >= 0
            && (e.op.kind == Balance ==> e.outcome == Read(standing))
            && (e.op.kind == Deposit ==> e.outcome == Accepted)
            && (e.op.kind == Withdraw ==>
                  e.outcome == if e.op.amount < 0 || standing < e.op.amount then Refused else Accepted)
            && (e.op.kind == Transfer ==>
                  e.outcome ==
                    if e.op.amount < 0 || standing < e.op.amount || e.op.target == e.op.account || e.op.target !in i.ids
                    then Refused else Accepted)
  {
    hide Replay, Faithful, Exec, Legal, History, Perform;
    Linearizable(i, acts);
    var h := History(Start(i), acts);
    FaithfulPrefix(i.ids, i.balances, h, n);
    ReplayIsStanding(i.ids, i.balances, h[..n]);
    OutcomeJustified(i.ids, i.balances, h, n);
    JustifiedAt(i.ids, Standing(i.ids, i.balances, h[..n]), h[n].op, h[n].outcome, k);
  }

  lemma JustifiedAt(ids: seq<int>, balances: seq<int>, op: Operation, r: Outcome, k: nat)
    requires |ids| == |balances| && Distinct(ids) && k < |ids| && ids[k] == op.account && Justified(ids, balances, op, r)
    ensures op.kind == Balance ==> r == Read(balances[k])
    ensures op.kind == Deposit ==> r == Accepted
    ensures Covered(ids, balances, op.account, op.amount) <==> 0 <= op.amount <= balances[k]
    ensures op.kind == Withdraw ==> r == if 0 <= op.amount <= balances[k] then Accepted else Refused
    ensures op.kind == Transfer ==>
              r == if 0 <= op.amount <= balances[k] && op.target != op.account && op.target in ids then Accepted else Refused
  {
  }

  /** Once all transactions have ended, every balance is its initial value plus its whole statement. */
  lemma FinalStatement(i: Input, acts: seq<Action>, k: nat)
    requires ValidInput(i) && Legal(Start(i), acts) && AllFinished(Exec(Start(i), acts)) && k < |i.ids|
    ensures var s := Exec(Start(i), acts);
            |s.shared.balances| == |i.ids| && s.shared.balances[k] == i.balances[k] + Net(History(Start(i), acts), i.ids[k])
  {
    hide Replay, Faithful, Exec, Legal, History;
    FinalBalancesSequential(i, acts);
    ReplayIsStanding(i.ids, i.balances, History(Start(i), acts));
  }
}
