/** The concurrent engine as a step system: any number of transaction threads, the timer, and `main`. */
module Engine {
  import opened Common
  import opened Ledger
  import opened Pool

  const MAX_LOADED_ACCOUNTS_PER_TX: nat := 2 * MAX_OPS_PER_TX

  /** A transaction as the parser hands it over. */
  datatype Tx = Tx(id: int, startTick: int, ops: seq<Operation>)

  datatype Status = Running | Committed | Aborted

  /** The next shared access of a thread. `second` marks the target load of a transfer. */
  datatype Pc =
    | AwaitTick            // wait_until_tick
    | RecordStart          // read the clock
    | Dispatch             // head of the operation loop
    | LoadCheck(second: bool)    // already loaded? room? account known?
    | Scan(second: bool)         // load_account: first section
    | AwaitPermit(second: bool)  // load_account: sem_wait(empty_slots)
    | Claiming(second: bool)     // load_account: second section
    | PostFull(second: bool)     // load_account: inserted, sem_post(full_slots)
    | ReturnPermit(second: bool) // load_account: duplicate, sem_post(empty_slots)
    | GiveBack(second: bool)     // load_account: nothing inserted, sem_post(empty_slots)
    | Enter                // bank call: argument checks
    | LockFirst            // only lock, or the lock of the smaller id
    | LockSecond           // transfer: the lock of the larger id
    | Check                // compare the balance with the amount
    | Debit                // balance -= amount
    | Credit               // balance += amount
    | ReadCell             // read the balance
    | UnlockFirst          // unlock the account
    | UnlockSecond         // transfer: unlock the target
    | Leave                // bank call returns
    | RecordEnd            // read the clock, settle the status
    | Unload               // unload_account: the section, for the last held account
    | AwaitFull            // unload_account: sem_wait(full_slots)
    | PostEmpty            // unload_account: sem_post(empty_slots)
    | Finished

  /** `src` and `dst` are the account pointers of the current bank call;
      `loaded` is the part of the loaded list not yet unloaded. */
  datatype Thread = Thread(
    tx: Tx, pc: Pc, op: nat, loaded: seq<int>,
    src: nat, dst: nat, pending: Outcome, results: seq<Outcome>,
    status: Status, actualStart: int, actualEnd: int, waitTicks: int)

  /** A reader-writer lock: the readers, or one writer. */
  datatype RwLock = RwLock(readers: set<nat>, writer: Option<nat>)

  const UNLOCKED: RwLock := RwLock({}, None)

  datatype Shared = Shared(
    clock: int, ids: seq<int>, pool: PoolState, balances: seq<int>, locks: seq<RwLock>)

  datatype State = State(shared: Shared, threads: seq<Thread>, running: bool, initialTotal: int)

  datatype Action = Step(thread: nat) | Tick | Stop

  // ---------- one thread ----------

  function CurrentOp(t: Thread): Operation {
    if t.op < |t.tx.ops| then t.tx.ops[t.op] else BLANK
  }

  predicate InLoad(pc: Pc) {
    pc.LoadCheck? || pc.Scan? || pc.AwaitPermit? || pc.Claiming? || pc.PostFull? || pc.ReturnPermit? || pc.GiveBack?
  }

  predicate InPool(pc: Pc) {
    InLoad(pc) && !pc.LoadCheck?
  }

  /** Between the argument checks and the return: the pointers are set. */
  predicate InBank(pc: Pc) {
    InLocking(pc) || InMoney(pc)
  }

  predicate InLocking(pc: Pc) {
    pc.LockFirst? || pc.LockSecond? || pc.UnlockFirst? || pc.UnlockSecond?
  }

  predicate InMoney(pc: Pc) {
    pc.Check? || pc.Debit? || pc.Credit? || pc.ReadCell?
  }

  predicate InSchedule(pc: Pc) {
    pc.AwaitTick? || pc.RecordStart? || pc.Dispatch? || pc.RecordEnd?
  }

  predicate InUnload(pc: Pc) {
    pc.Unload? || pc.AwaitFull? || pc.PostEmpty?
  }

  /** The account the current load is about. */
  function LoadTarget(t: Thread): int {
    if InLoad(t.pc) && t.pc.second then CurrentOp(t).target else CurrentOp(t).account
  }

  /** The account whose lock is taken first: the smaller id. */
  function FirstLock(ids: seq<int>, t: Thread): nat
    requires t.src < |ids| && t.dst < |ids|
  {
    if CurrentOp(t).kind == Transfer && !(ids[t.src] < ids[t.dst]) then t.dst else t.src
  }

  function SecondLock(ids: seq<int>, t: Thread): nat
    requires t.src < |ids| && t.dst < |ids|
  {
    if ids[t.src] < ids[t.dst] then t.dst else t.src
  }

  /** Array accesses of the thread stay inside the accounts array. */
  predicate PointersInRange(t: Thread, m: Shared) {
    && |m.balances| == |m.ids| == |m.locks|
    && (InBank(t.pc) ==> t.src < |m.ids| && t.dst < |m.ids|)
  }

  predicate WriteFree(l: RwLock) {
    l.writer.None? && l.readers == {}
  }

  /** The thread can take its next step: no semaphore, lock or clock makes it wait. */
  predicate Ready(t: Thread, m: Shared) {
    && PointersInRange(t, m)
    && match t.pc
       case AwaitTick => t.tx.startTick <= m.clock
       case AwaitPermit(_) => m.pool.emptySem > 0
       case AwaitFull => m.pool.fullSem > 0
       case LockFirst =>
         var l := m.locks[FirstLock(m.ids, t)];
         if CurrentOp(t).kind == Balance then l.writer.None? else WriteFree(l)
       case LockSecond => WriteFree(m.locks[SecondLock(m.ids, t)])
       case Finished => false
       case _ => true
  }

  /** Aborting: note the status, then record the end and unload. */
  function Abort(t: Thread): Thread {
    t.(status := Aborted, pc := RecordEnd)
  }

  /** A load has succeeded: go on to the second load of a transfer, or to the bank call. */
  function AfterLoad(t: Thread): Thread
    requires InLoad(t.pc)
  {
    t.(pc := if !t.pc.second && CurrentOp(t).kind == Transfer then LoadCheck(true) else Enter)
  }

  /** `load_account` returned: append the account to the loaded list. */
  function Append(t: Thread): Thread
    requires InLoad(t.pc)
  {
    AfterLoad(t).(loaded := t.loaded + [LoadTarget(t)])
  }

  function StepSchedule(t: Thread, m: Shared): (Thread, Shared)
    requires InSchedule(t.pc)
  {
    match t.pc
    case AwaitTick => (t.(pc := RecordStart), m)
    case RecordStart =>
      (t.(actualStart := m.clock, waitTicks := m.clock - t.tx.startTick, status := Running, pc := Dispatch), m)
    case Dispatch => (t.(pc := if t.op < |t.tx.ops| then LoadCheck(false) else RecordEnd), m)
    case RecordEnd =>
      (t.(actualEnd := m.clock, status := if t.status.Running? then Committed else t.status, pc := Unload), m)
  }

  function StepLoad(t: Thread, m: Shared): (Thread, Shared)
    requires InLoad(t.pc)
    requires t.pc.AwaitPermit? ==> m.pool.emptySem > 0
  {
    var a := LoadTarget(t);
    match t.pc
    case LoadCheck(second) =>
      if a in t.loaded then (AfterLoad(t), m)
      else if |t.loaded| >= MAX_LOADED_ACCOUNTS_PER_TX || a < 0 || Find(m.ids, a).None? then (Abort(t), m)
      else (t.(pc := Scan(second)), m)
    case Scan(second) =>
      var (p, hit) := ScanSection(m.pool, a);
      (if hit then Append(t) else t.(pc := AwaitPermit(second)), m.(pool := p))
    case AwaitPermit(second) =>
      (t.(pc := Claiming(second)), m.(pool := m.pool.(emptySem := m.pool.emptySem - 1)))
    case Claiming(second) =>
      var (p, claim) := ClaimSection(m.pool, a, Find(m.ids, a));
      var next := match claim
        case Duplicate => ReturnPermit(second)
        case Inserted => PostFull(second)
        case NotInserted => GiveBack(second);
      (t.(pc := next), m.(pool := p))
    case PostFull(_) => (Append(t), m.(pool := m.pool.(fullSem := m.pool.fullSem + 1)))
    case ReturnPermit(_) => (Append(t), m.(pool := m.pool.(emptySem := m.pool.emptySem + 1)))
    case GiveBack(_) => (Append(t), m.(pool := m.pool.(emptySem := m.pool.emptySem + 1)))
  }

  function StepUnload(t: Thread, m: Shared): (Thread, Shared)
    requires InUnload(t.pc)
    requires t.pc.AwaitFull? ==> m.pool.fullSem > 0
  {
    match t.pc
    case Unload =>
      if t.loaded == [] then (t.(pc := Finished), m)
      else
        var last := |t.loaded| - 1;
        var (p, freed) := ReleaseSection(m.pool, t.loaded[last]);
        (t.(loaded := t.loaded[..last], pc := if freed then AwaitFull else Unload), m.(pool := p))
    case AwaitFull => (t.(pc := PostEmpty), m.(pool := m.pool.(fullSem := m.pool.fullSem - 1)))
    case PostEmpty => (t.(pc := Unload), m.(pool := m.pool.(emptySem := m.pool.emptySem + 1)))
  }

  /** The checks a bank call makes before it locks anything. */
  function EnterCall(t: Thread, ids: seq<int>): Thread {
    var op := CurrentOp(t);
    var src := Find(ids, op.account);
    var dst := Find(ids, op.target);
    match op.kind
    case Deposit =>
      if op.amount < 0 || src.None? then t.(pending := Accepted, pc := Leave)
      else t.(src := src.value, dst := src.value, pc := LockFirst)
    case Withdraw =>
      if op.amount < 0 || src.None? then t.(pending := Refused, pc := Leave)
      else t.(src := src.value, dst := src.value, pc := LockFirst)
    case Transfer =>
      if op.amount < 0 || op.account == op.target || src.None? || dst.None? || src == dst then
        t.(pending := Refused, pc := Leave)
      else t.(src := src.value, dst := dst.value, pc := LockFirst)
    case Balance =>
      if src.None? then t.(pending := Read(-1), pc := Leave)
      else t.(src := src.value, dst := src.value, pc := LockFirst)
  }

  function Acquire(me: nat, l: RwLock, read: bool): RwLock {
    if read then l.(readers := l.readers + {me}) else l.(writer := Some(me))
  }

  function Release(me: nat, l: RwLock, read: bool): RwLock {
    if read then l.(readers := l.readers - {me}) else l.(writer := None)
  }

  function StepLock(me: nat, t: Thread, m: Shared): (Thread, Shared)
    requires InLocking(t.pc)
    requires PointersInRange(t, m)
  {
    var op := CurrentOp(t);
    var read := op.kind == Balance;
    match t.pc
    case LockFirst =>
      var i := FirstLock(m.ids, t);
      var next := match op.kind
        case Deposit => Credit
        case Withdraw => Check
        case Transfer => LockSecond
        case Balance => ReadCell;
      (t.(pc := next), m.(locks := m.locks[i := Acquire(me, m.locks[i], read)]))
    case LockSecond =>
      var i := SecondLock(m.ids, t);
      (t.(pc := Check), m.(locks := m.locks[i := Acquire(me, m.locks[i], false)]))
    case UnlockFirst =>
      (t.(pc := if op.kind == Transfer then UnlockSecond else Leave),
       m.(locks := m.locks[t.src := Release(me, m.locks[t.src], read)]))
    case UnlockSecond =>
      (t.(pc := Leave), m.(locks := m.locks[t.dst := Release(me, m.locks[t.dst], false)]))
  }

  function StepMoney(t: Thread, m: Shared): (Thread, Shared)
    requires InMoney(t.pc)
    requires PointersInRange(t, m)
  {
    var op := CurrentOp(t);
    match t.pc
    case Check =>
      (if m.balances[t.src] < op.amount then t.(pending := Refused, pc := UnlockFirst) else t.(pc := Debit), m)
    case Debit =>
      (t.(pending := Accepted, pc := if op.kind == Transfer then Credit else UnlockFirst),
       m.(balances := m.balances[t.src := m.balances[t.src] - op.amount]))
    case Credit =>
      var i := if op.kind == Transfer then t.dst else t.src;
      (t.(pending := Accepted, pc := UnlockFirst),
       m.(balances := m.balances[i := m.balances[i] + op.amount]))
    case ReadCell => (t.(pending := Read(m.balances[t.src]), pc := UnlockFirst), m)
  }

  /** The bank call returned: keep its outcome, go on or abort. */
  function LeaveCall(t: Thread): Thread {
    var kept := t.(results := t.results + [t.pending]);
    if Succeeded(t.pending) then kept.(op := t.op + 1, pc := Dispatch) else Abort(kept)
  }

  /** Entering or leaving a bank call: local work only. */
  function StepCall(t: Thread, ids: seq<int>): Thread
    requires t.pc.Enter? || t.pc.Leave?
  {
    if t.pc.Enter? then EnterCall(t, ids) else LeaveCall(t)
  }

  /** The step of thread number `me`. */
  function ThreadStep(me: nat, t: Thread, m: Shared): (Thread, Shared)
    requires Ready(t, m)
  {
    if InSchedule(t.pc) then StepSchedule(t, m)
    else if InLoad(t.pc) then StepLoad(t, m)
    else if InUnload(t.pc) then StepUnload(t, m)
    else if InLocking(t.pc) then StepLock(me, t, m)
    else if InMoney(t.pc) then StepMoney(t, m)
    else (StepCall(t, m.ids), m)
  }

  // ---------- the whole system ----------

  predicate AllFinished(s: State) {
    forall t :: 0 <= t < |s.threads| ==> s.threads[t].pc.Finished?
  }

  /** Threads step when ready; the timer ticks while running; `main` stops it after all joins. */
  predicate Enabled(s: State, a: Action) {
    match a
    case Step(t) => t < |s.threads| && Ready(s.threads[t], s.shared)
    case Tick => s.running
    case Stop => s.running && AllFinished(s)
  }

  function Apply(s: State, a: Action): State
    requires Enabled(s, a)
  {
    match a
    case Step(t) =>
      var (th, m) := ThreadStep(t, s.threads[t], s.shared);
      s.(shared := m, threads := s.threads[t := th])
    case Tick => s.(shared := s.shared.(clock := s.shared.clock + 1))
    case Stop => s.(running := false)
  }

  /** The schedule `acts` can be taken from `s`. */
  ghost predicate Legal(s: State, acts: seq<Action>)
    decreases |acts|, 0
  {
    acts == [] ||
    var n := |acts| - 1;
    Legal(s, acts[..n]) && Enabled(Exec(s, acts[..n]), acts[n])
  }

  /** The state after the schedule. */
  ghost function Exec(s: State, acts: seq<Action>): State
    requires Legal(s, acts)
    decreases |acts|, 1
  {
    if acts == [] then s
    else
      var n := |acts| - 1;
      Apply(Exec(s, acts[..n]), acts[n])
  }

  function FreshThread(tx: Tx): Thread {
    Thread(tx, AwaitTick, 0, [], 0, 0, Accepted, [], Running, -1, -1, 0)
  }

  /** What `main` has set up when the first thread starts. */
  datatype Input = Input(capacity: nat, ids: seq<int>, balances: seq<int>, txs: seq<Tx>)

  predicate ValidInput(i: Input) {
    && SoundBank(i.ids, i.balances)
    && forall t :: 0 <= t < |i.txs| ==> |i.txs[t].ops| <= MAX_OPS_PER_TX
  }

  function Start(i: Input): State {
    State(
      Shared(0, i.ids, EmptyPool(i.capacity), i.balances, seq(|i.ids|, k => UNLOCKED)),
      seq(|i.txs|, t requires 0 <= t < |i.txs| => FreshThread(i.txs[t])),
      true,
      Sum(i.balances))
  }
}
