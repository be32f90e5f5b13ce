/**
  The rebate service as a transition system: one database shared by the ingester and the
  faucet goroutine, the L2 chain, and the control state of both goroutines. Each action is
  one atomic step of the code (a committed transaction, a call to the chain, an update of
  in-memory state) or of the environment; Crash forgets everything but database and chain.
 */
module Protocol {
  import opened Data
  import opened Ingest
  import opened Policy

  datatype Config = Config(
    l1: L1, startFrom: nat, rangeSync: nat, confirmations: nat, dripHeight: nat,
    policies: seq<Policy>, account: Address, defaultDrip: int, maxUSD: real,
    genesis: nat)  // L2 nonce of the faucet account before the first drip

  datatype Receipt = Receipt(tx: Tx, success: bool)

  /** The L2 chain: the faucet's next nonce, all transactions ever handed to it, all mined ones. */
  datatype Chain = Chain(nonce: nat, sent: set<Tx>, mined: seq<Receipt>)

  datatype Sync = SyncDown | SyncIdle(height: nat) | Syncing(height: nat, target: nat)

  datatype Phase =
    | Idle
    // at the head of the loop; `from` counts the drips committed before this batch
    | Sending(todo: seq<Deposit>, recset: set<Address>, tokens: set<Address>, from: nat)
    | Committed(tx: Tx, rest: Phase)   // NewDrip done, nonce not yet bumped
    | Bumped(tx: Tx, rest: Phase)      // nonce bumped, not yet broadcast
    | Checking(rows: seq<PendingDrip>)

  /** n0 is the chain nonce read by Initial, base the number of drips stored at that time. */
  datatype Faucet = Off | On(n0: nat, base: nat, nonce: nat, phase: Phase)

  /** History: the decision behind each drip, in order of commit. */
  datatype Decided = Decided(pid: nat, item: Deposit, tokens: set<Address>, drips: map<nat, Drip>, probe: Probe)

  /** History: starts of the ingester before its first committed chunk, and where that chunk began. */
  datatype Boot = Boot(starts: nat, first: Option<nat>)

  datatype Sys = Sys(t: Tables, chain: Chain, sync: Sync, faucet: Faucet, log: seq<Decided>, boot: Boot)

  function Init(c: Config): Sys {
    Sys(Tables(None, [], map[]), Chain(c.genesis, {}, []), SyncDown, Off, [], Boot(0, None))
  }

  datatype Action =
    // ingester
    | Prefight
    | SyncStart(head: nat)
    | SyncChunk(ctimes: seq<int>)
    | SyncStop
    // faucet, sending
    | Initial
    | BeginSend(batch: seq<Deposit>, tokens: set<Address>)
    | IgnoreItem(probe: Probe)
    | CommitDrip(probe: Probe)
    | BumpNonce
    | Broadcast(accepted: bool, ok: bool)
    | EndSend
    // faucet, checking
    | BeginCheck(pending: seq<PendingDrip>)
    | MarkDone
    | Rebroadcast(accepted: bool)
    | EndCheck
    // environment
    | Mine(tx: Tx, success: bool)
    | Crash

  // ----- Parts of the guards -----

  predicate DistinctIds(batch: seq<Deposit>) {
    forall i, j :: 0 <= i < j < |batch| ==> batch[i].id != batch[j].id
  }

  /** Delivered rows of SELECT * FROM deposits WHERE status = 0 LIMIT 100, in any order. */
  predicate IsBatch(t: Tables, batch: seq<Deposit>) {
    && |batch| <= 100
    && DistinctIds(batch)
    && forall i :: 0 <= i < |batch| ==>
         batch[i].id < |t.deposits| && t.deposits[batch[i].id] == batch[i] && batch[i].status == Unprocessed
  }

  /** A row of the join of Processing deposits with their drips. */
  predicate IsPendingRow(t: Tables, row: PendingDrip) {
    && row.id < |t.deposits| && t.deposits[row.id].status == Processing
    && row.id in t.drips && row == PendingDrip(row.id, t.drips[row.id].txid, t.drips[row.id].rawtx)
  }

  /** Delivered rows of that join, LIMIT 20, in any order. */
  predicate IsPending(t: Tables, rows: seq<PendingDrip>) {
    && |rows| <= 20
    && (forall i, j :: 0 <= i < j < |rows| ==> rows[i].id != rows[j].id)
    && forall i :: 0 <= i < |rows| ==> IsPendingRow(t, rows[i])
  }

  predicate HasReceipt(chain: Chain, hash: TxHash) {
    exists i :: 0 <= i < |chain.mined| && HashOf(chain.mined[i].tx) == hash
  }

  predicate Up(s: Sys) { s.faucet.On? }
  predicate InPhase(s: Sys) { s.faucet.On? && s.faucet.phase.Sending? && s.faucet.phase.todo != [] }

  function Chunk(c: Config, s: Sys): seq<NewDeposit>
    requires s.sync.Syncing?
  {
    var end := ChunkEnd(s.sync.height, c.rangeSync, s.sync.target);
    if s.sync.height <= end
    then ChunkDeposits(c.l1, c.dripHeight, s.sync.height, end - s.sync.height + 1)
    else []
  }

  function DecideHead(c: Config, s: Sys, probe: Probe): Decision
    requires InPhase(s)
  {
    var ph := s.faucet.phase;
    Decide(c.policies, ph.todo[0], ph.recset, ph.tokens, s.t.drips, probe)
  }

  /** The transaction signed for an item, if nothing fails. */
  function SignedTx(c: Config, nonce: nat, item: Deposit, probe: Probe): Option<Tx> {
    match Select(c.policies, item.ctime, item.row.l1token)
    case None => None
    case Some(p) => MakeTx(nonce, item.row.to, DripAmount(c.defaultDrip, c.maxUSD, p.rebateType, probe), probe)
  }

  function HeadTx(c: Config, s: Sys, probe: Probe): Option<Tx>
    requires InPhase(s)
  {
    SignedTx(c, s.faucet.nonce, s.faucet.phase.todo[0], probe)
  }

  // ----- The step relation -----

  /** When an action can happen. Heads near 2^64 are excluded, so chunk ends do not wrap. */
  predicate Enabled(c: Config, s: Sys, a: Action) {
    match a
    case Prefight => s.sync.SyncDown?
    case SyncStart(head) => s.sync.SyncIdle? && head + c.rangeSync < UINT64
    case SyncChunk(ctimes) => s.sync.Syncing? && s.sync.height < s.sync.target && |ctimes| == |Chunk(c, s)|
    case SyncStop => s.sync.Syncing?
    case Initial => s.faucet.Off? && HasDefault(c.policies)
    case BeginSend(batch, tokens) => Up(s) && s.faucet.phase.Idle? && IsBatch(s.t, batch)
    case IgnoreItem(probe) => InPhase(s) && DecideHead(c, s, probe).NoNeed?
    case CommitDrip(probe) =>
      InPhase(s) && DecideHead(c, s, probe).Go? && HeadTx(c, s, probe).Some? && s.faucet.phase.todo[0].id !in s.t.drips
    case BumpNonce => Up(s) && s.faucet.phase.Committed?
    case Broadcast(_, _) => Up(s) && s.faucet.phase.Bumped?
    case EndSend => Up(s) && s.faucet.phase.Sending?
    case BeginCheck(rows) => Up(s) && s.faucet.phase.Idle? && IsPending(s.t, rows)
    case MarkDone =>
      Up(s) && s.faucet.phase.Checking? && s.faucet.phase.rows != [] && HasReceipt(s.chain, s.faucet.phase.rows[0].txid)
    case Rebroadcast(_) => Up(s) && s.faucet.phase.Checking? && s.faucet.phase.rows != []
    case EndCheck => Up(s) && s.faucet.phase.Checking?
    case Mine(tx, _) => tx in s.chain.sent && tx.nonce == s.chain.nonce
    case Crash => true
  }

  function Goto(s: Sys, phase: Phase): Sys
    requires Up(s)
  {
    s.(faucet := s.faucet.(phase := phase))
  }

  function Send(chain: Chain, tx: Tx, accepted: bool): Chain {
    if accepted then chain.(sent := chain.sent + {tx}) else chain
  }

  function Next(c: Config, s: Sys, a: Action): Sys
    requires Enabled(c, s, a)
  {
    match a
    case Prefight => AfterPrefight(c, s)
    case SyncStart(head) => s.(sync := Syncing(s.sync.height, Target(head, c.confirmations)))
    case SyncChunk(ctimes) => AfterChunk(c, s, ctimes)
    case SyncStop => s.(sync := SyncIdle(s.sync.height))
    case Initial => s.(faucet := On(s.chain.nonce, |s.log|, s.chain.nonce, Idle))
    case BeginSend(batch, tokens) => Goto(s, Sending(batch, {}, tokens, |s.log|))
    case IgnoreItem(_) =>
      var ph := s.faucet.phase;
      Goto(s, ph.(todo := ph.todo[1..]))
        .(t := s.t.(deposits := SetStatus(s.t.deposits, ph.todo[0].id, Ignore)))
    case CommitDrip(probe) => AfterCommit(c, s, probe)
    case BumpNonce =>
      s.(faucet := s.faucet.(nonce := s.faucet.nonce + 1, phase := Bumped(s.faucet.phase.tx, s.faucet.phase.rest)))
    case Broadcast(accepted, ok) =>
      Goto(s, if ok then s.faucet.phase.rest else Idle).(chain := Send(s.chain, s.faucet.phase.tx, accepted))
    case EndSend => Goto(s, Idle)
    case BeginCheck(rows) => Goto(s, Checking(rows))
    case MarkDone =>
      Goto(s, Checking(s.faucet.phase.rows[1..]))
        .(t := s.t.(deposits := SetStatus(s.t.deposits, s.faucet.phase.rows[0].id, Done)))
    case Rebroadcast(accepted) =>
      Goto(s, Checking(s.faucet.phase.rows[1..]))
        .(chain := Send(s.chain, s.faucet.phase.rows[0].rawtx.tx, accepted))
    case EndCheck => Goto(s, Idle)
    case Mine(tx, success) =>
      s.(chain := s.chain.(nonce := s.chain.nonce + 1, mined := s.chain.mined + [Receipt(tx, success)]))
    case Crash => s.(sync := SyncDown, faucet := Off)
  }

  /** InitHeight: a fresh database starts at startFrom, a resumed one after the stored number. */
  function AfterPrefight(c: Config, s: Sys): Sys {
    var boot := if s.boot.first.None? then s.boot.(starts := s.boot.starts + 1) else s.boot;
    match s.t.height
    case None => s.(t := s.t.(height := Some(c.startFrom)), sync := SyncIdle(c.startFrom), boot := boot)
    case Some(number) => s.(sync := SyncIdle(number + 1), boot := boot)
  }

  /** SaveSyncedData commits a chunk's deposits and its last height together. */
  function AfterChunk(c: Config, s: Sys, ctimes: seq<int>): Sys
    requires Enabled(c, s, SyncChunk(ctimes))
  {
    var end := ChunkEnd(s.sync.height, c.rangeSync, s.sync.target);
    s.(t := s.t.(deposits := Inserted(s.t.deposits, Chunk(c, s), ctimes), height := Some(end)),
       sync := Syncing(end + 1, s.sync.target),
       boot := if s.boot.first.None? then s.boot.(first := Some(s.sync.height)) else s.boot)
  }

  /** NewDrip commits the signed drip together with the status Processing. */
  function AfterCommit(c: Config, s: Sys, probe: Probe): Sys
    requires Enabled(c, s, CommitDrip(probe))
  {
    var ph := s.faucet.phase;
    var item, tx := ph.todo[0], HeadTx(c, s, probe).value;
    var rest := Sending(ph.todo[1..], ph.recset + {item.row.to}, ph.tokens, ph.from);
    Goto(s, Committed(tx, rest))
      .(t := s.t.(drips := s.t.drips[item.id := MakeDrip(item.id, c.account, tx)],
                  deposits := SetStatus(s.t.deposits, item.id, Processing)),
        log := s.log + [Decided(item.id, item, ph.tokens, s.t.drips, probe)])
  }

  // ----- Runs -----

  ghost predicate LegalFrom(c: Config, s: Sys, run: seq<Action>)
    decreases |run|, 0
  {
    run == [] || (LegalFrom(c, s, run[..|run| - 1]) && Enabled(c, After(c, s, run[..|run| - 1]), run[|run| - 1]))
  }

  /** The state after a legal run. */
  ghost function After(c: Config, s: Sys, run: seq<Action>): Sys
    requires LegalFrom(c, s, run)
    decreases |run|, 1
  {
    if run == [] then s else Next(c, After(c, s, run[..|run| - 1]), run[|run| - 1])
  }

  ghost predicate Legal(c: Config, run: seq<Action>) { LegalFrom(c, Init(c), run) }

  ghost predicate EndsIn(c: Config, run: seq<Action>, s: Sys) { Legal(c, run) && After(c, Init(c), run) == s }

  ghost predicate Reachable(c: Config, s: Sys) { exists run :: EndsIn(c, run, s) }

  lemma ReachNext(c: Config, s: Sys, a: Action)
    requires Reachable(c, s) && Enabled(c, s, a)
    ensures Reachable(c, Next(c, s, a))
  {
    var run :| EndsIn(c, run, s);
    assert (run + [a])[..|run|] == run;
    assert EndsIn(c, run + [a], Next(c, s, a));
  }
}
