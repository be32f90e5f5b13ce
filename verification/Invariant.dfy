/**
  The inductive invariant of the whole system: what every step keeps, so what holds in
  every reachable state, whatever fails, is interleaved or crashes.
 */
module Invariant {
  import opened Data
  import opened Ingest
  import opened Policy
  import opened Protocol
  import opened Rebate
  import Ether

  // ----- The parts -----

  ghost predicate DripOk(c: Config, d: Deposit, drip: Drip) {
    && drip.pid == d.id && drip.from == c.account && drip.to == d.row.to
    && drip.txid == HashOf(drip.rawtx.tx) && drip.rawtx.tx.to == drip.to
    && drip.amount == Ether.ToEther(drip.rawtx.tx.value)
  }

  /** A deposit is Processing or Done exactly when it has a drip row. */
  ghost predicate TablesOk(c: Config, t: Tables) {
    && (forall i :: 0 <= i < |t.deposits| ==> t.deposits[i].id == i)
    && (forall i :: 0 <= i < |t.deposits| ==> (t.deposits[i].status in {Processing, Done} <==> i in t.drips))
    && (forall i :: 0 <= i < |t.deposits| && !Eligible(c.dripHeight, t.deposits[i].row) ==> t.deposits[i].status == Ignore)
    && (forall p :: p in t.drips ==> p < |t.deposits| && DripOk(c, t.deposits[p], t.drips[p]))
  }

  /** The transaction of the k-th drip ever committed. */
  function TxOf(s: Sys, k: nat): Tx
    requires k < |s.log| && s.log[k].pid in s.t.drips
  {
    s.t.drips[s.log[k].pid].rawtx.tx
  }

  /** Each drip row was committed once, and its decision holds against the drips committed before it. */
  ghost predicate LogOk(c: Config, s: Sys) {
    && (forall k :: 0 <= k < |s.log| ==> s.log[k].pid in s.t.drips)
    && (forall j, k :: 0 <= j < k < |s.log| ==> s.log[j].pid != s.log[k].pid)
    && (forall p :: p in s.t.drips ==> exists k :: 0 <= k < |s.log| && s.log[k].pid == p)
  }

  /** The transaction carries the gas price and the gas limit that were answered. */
  ghost predicate GasAnswered(tx: Tx, probe: Probe) {
    probe.gasPrice == Some(tx.gasPrice) && probe.gas == Some(tx.gas)
  }

  ghost predicate DecisionOk(c: Config, s: Sys, k: nat)
    requires k < |s.log|
  {
    var d := s.log[k];
    var p := Select(c.policies, d.item.ctime, d.item.row.l1token);
    && d.pid < |s.t.deposits| && d.item == s.t.deposits[d.pid].(status := Unprocessed)
    && p.Some? && Passes(p.value, d.item, d.tokens, d.drips, d.probe)
    && (d.pid in s.t.drips ==>
          DripAmount(c.defaultDrip, c.maxUSD, p.value.rebateType, d.probe) == Wei(s.t.drips[d.pid].rawtx.tx.value)
          && GasAnswered(s.t.drips[d.pid].rawtx.tx, d.probe))
    && (forall j :: 0 <= j < k ==> s.log[j].pid in d.drips)
    && (forall q :: q in d.drips ==> q in s.t.drips && s.t.drips[q] == d.drips[q])
  }

  ghost predicate DecisionsOk(c: Config, s: Sys) {
    forall k :: 0 <= k < |s.log| ==> DecisionOk(c, s, k)
  }

  /** Within one life of the process, nonces are consecutive from the one Initial read. */
  ghost predicate NonceOk(s: Sys) {
    s.faucet.On? ==>
      && s.faucet.base <= |s.log|
      && (forall k :: s.faucet.base <= k < |s.log| && s.log[k].pid in s.t.drips ==>
            TxOf(s, k).nonce == s.faucet.n0 + (k - s.faucet.base))
      && s.faucet.nonce == s.faucet.n0 + (|s.log| - s.faucet.base) - (if s.faucet.phase.Committed? then 1 else 0)
  }

  /** Some drip row stores this transaction. */
  ghost predicate Stored(t: Tables, tx: Tx) {
    exists p :: p in t.drips && t.drips[p].rawtx.tx == tx
  }

  ghost predicate ChainOk(c: Config, s: Sys) {
    && (forall tx :: tx in s.chain.sent ==> Stored(s.t, tx))
    && (forall i :: 0 <= i < |s.chain.mined| ==>
          s.chain.mined[i].tx in s.chain.sent && s.chain.mined[i].tx.nonce == c.genesis + i)
    && s.chain.nonce == c.genesis + |s.chain.mined|
  }

  ghost predicate DoneOk(s: Sys) {
    forall i :: 0 <= i < |s.t.deposits| && s.t.deposits[i].status == Done && i in s.t.drips ==>
      HasReceipt(s.chain, s.t.drips[i].txid)
  }

  /** recset names exactly the recipients of the drips committed since `from`, each of them once. */
  ghost predicate RecsetOk(log: seq<Decided>, from: nat, recset: set<Address>) {
    && from <= |log|
    && (forall k :: from <= k < |log| ==> log[k].item.row.to in recset)
    && (forall a :: a in recset ==> exists k :: from <= k < |log| && log[k].item.row.to == a)
    && (forall j, k :: from <= j < k < |log| ==> log[j].item.row.to != log[k].item.row.to)
  }

  ghost predicate SendingOk(s: Sys, ph: Phase) {
    ph.Sending? && IsBatch(s.t, ph.todo) && RecsetOk(s.log, ph.from, ph.recset)
  }

  ghost predicate LastTx(s: Sys, tx: Tx) {
    |s.log| > 0 && s.log[|s.log| - 1].pid in s.t.drips && TxOf(s, |s.log| - 1) == tx
  }

  /** The work still to do refers to current rows, and recset is what this batch has committed. */
  ghost predicate PhaseOk(s: Sys) {
    s.faucet.On? ==>
      match s.faucet.phase
      case Idle => true
      case Sending(_, _, _, _) => SendingOk(s, s.faucet.phase)
      case Committed(tx, rest) => SendingOk(s, rest) && LastTx(s, tx) && s.faucet.base < |s.log|
      case Bumped(tx, rest) => SendingOk(s, rest) && LastTx(s, tx)
      case Checking(rows) => IsPending(s.t, rows)
  }

  /** In-memory height against stored height, and the table against one pass over the chain. */
  ghost predicate HeightOk(c: Config, s: Sys) {
    && (s.sync.Syncing? ==> s.sync.target + c.rangeSync < UINT64)
    && match (s.t.height, s.boot.first)
       case (None, None) => s.sync.SyncDown? && s.t.deposits == [] && s.boot.starts == 0
       case (None, Some(_)) => false
       case (Some(number), None) =>
         && number == c.startFrom && s.t.deposits == [] && s.boot.starts >= 1
         && (!s.sync.SyncDown? ==> s.sync.height == FirstBlock(c, s.boot))
       case (Some(number), Some(lo)) =>
         && s.boot.starts >= 1 && lo == FirstBlock(c, s.boot) <= number
         && (!s.sync.SyncDown? ==> s.sync.height == number + 1)
         && multiset(RowsOf(s.t.deposits)) == Pass(c.l1, c.dripHeight, lo, number + 1 - lo)
  }

  /** startFrom, or the block after it when the ingester was restarted before its first commit. */
  function FirstBlock(c: Config, boot: Boot): nat {
    if boot.starts <= 1 then c.startFrom else c.startFrom + 1
  }

  ghost predicate Inv(c: Config, s: Sys) {
    && TablesOk(c, s.t) && LogOk(c, s) && DecisionsOk(c, s) && NonceOk(s)
    && ChainOk(c, s) && DoneOk(s) && PhaseOk(s) && HeightOk(c, s)
  }

  // ----- Every step keeps each part -----

  lemma ChunkKeepsTables(c: Config, s: Sys, ctimes: seq<int>)
    requires Inv(c, s) && Enabled(c, s, SyncChunk(ctimes))
    ensures TablesOk(c, AfterChunk(c, s, ctimes).t)
  {
    var n := AfterChunk(c, s, ctimes).t;
    var end := ChunkEnd(s.sync.height, c.rangeSync, s.sync.target);
    ChunkStatus(c.l1, c.dripHeight, s.sync.height, end - s.sync.height + 1);
    forall i | |s.t.deposits| <= i < |n.deposits|
      ensures n.deposits[i].status == if Eligible(c.dripHeight, n.deposits[i].row) then Unprocessed else Ignore
    {
      assert Chunk(c, s)[i - |s.t.deposits|] in Chunk(c, s);
    }
  }

  /** The item at the head of a batch is a current, still unprocessed row without a drip. */
  lemma HeadItem(c: Config, s: Sys)
    requires Inv(c, s) && InPhase(s)
    ensures var d := s.faucet.phase.todo[0];
            && d.id < |s.t.deposits| && s.t.deposits[d.id] == d && d.status == Unprocessed
            && d.id !in s.t.drips && Eligible(c.dripHeight, d.row)
  {}

  lemma HeadTxFields(c: Config, s: Sys, probe: Probe)
    requires InPhase(s) && HeadTx(c, s, probe).Some?
    ensures var tx := HeadTx(c, s, probe).value;
            tx.nonce == s.faucet.nonce && tx.to == s.faucet.phase.todo[0].row.to
    ensures var item := s.faucet.phase.todo[0];
            var p := Select(c.policies, item.ctime, item.row.l1token);
            p.Some? && DripAmount(c.defaultDrip, c.maxUSD, p.value.rebateType, probe) == Wei(HeadTx(c, s, probe).value.value)
    ensures GasAnswered(HeadTx(c, s, probe).value, probe)
  {
    hide Ether.ToEther, Select, DripAmount;
    var item := s.faucet.phase.todo[0];
    var p := Select(c.policies, item.ctime, item.row.l1token);
    if p.Some? {
      MakeTxMeaning(s.faucet.nonce, item.row.to, DripAmount(c.defaultDrip, c.maxUSD, p.value.rebateType, probe), probe);
    }
  }

  lemma CommitKeepsTables(c: Config, s: Sys, probe: Probe)
    requires Inv(c, s) && Enabled(c, s, CommitDrip(probe))
    ensures TablesOk(c, AfterCommit(c, s, probe).t)
  {
    hide Ether.ToEther, HeadTx, DecideHead, Eligible, LogOk, DecisionsOk, NonceOk, ChainOk, DoneOk, PhaseOk, HeightOk;
    HeadItem(c, s);
    HeadTxFields(c, s, probe);
  }

  lemma StatusKeepsTables(c: Config, t: Tables, id: nat, status: Status)
    requires TablesOk(c, t) && id < |t.deposits|
    requires (t.deposits[id].status, status) in {(Unprocessed, Ignore), (Processing, Done)}
    ensures TablesOk(c, t.(deposits := SetStatus(t.deposits, id, status)))
  {
    hide Ether.ToEther, Eligible;
  }

  lemma FirstRowPending(c: Config, s: Sys)
    requires Inv(c, s) && Up(s) && s.faucet.phase.Checking? && s.faucet.phase.rows != []
    ensures IsPendingRow(s.t, s.faucet.phase.rows[0])
  {
    hide TablesOk, LogOk, DecisionsOk, NonceOk, ChainOk, DoneOk, HeightOk;
  }

  lemma NextTables(c: Config, s: Sys, a: Action)
    requires Inv(c, s) && Enabled(c, s, a)
    ensures TablesOk(c, Next(c, s, a).t)
  {
    hide DecideHead, HeadTx, Chunk, ChunkEnd, HasReceipt, HasDefault, IsBatch, IsPending, DripOk, Eligible, AfterChunk,
      AfterCommit, SetStatus, LogOk, DecisionsOk, NonceOk, ChainOk, DoneOk, PhaseOk, HeightOk;
    match a
    case SyncChunk(ctimes) => ChunkKeepsTables(c, s, ctimes);
    case CommitDrip(probe) => CommitKeepsTables(c, s, probe);
    case IgnoreItem(_) => HeadItem(c, s); StatusKeepsTables(c, s.t, s.faucet.phase.todo[0].id, Ignore);
    case MarkDone => FirstRowPending(c, s); StatusKeepsTables(c, s.t, s.faucet.phase.rows[0].id, Done);
    case _ =>
  }

  /** What a step may do to the rows other goroutines have already seen. */
  ghost predicate TablesGrow(s: Sys, n: Sys) {
    && |s.t.deposits| <= |n.t.deposits|
    && (forall i :: 0 <= i < |s.t.deposits| ==>
          n.t.deposits[i] == s.t.deposits[i].(status := n.t.deposits[i].status))
    && (forall p :: p in s.t.drips ==> p in n.t.drips && n.t.drips[p] == s.t.drips[p])
    && s.log <= n.log && s.chain.sent <= n.chain.sent && s.chain.mined <= n.chain.mined
  }

  lemma NextGrows(c: Config, s: Sys, a: Action)
    requires Enabled(c, s, a)
    ensures TablesGrow(s, Next(c, s, a))
  {
    hide DecideHead, HeadTx, ChunkEnd, Chunk, HasReceipt, IsBatch, IsPending, HasDefault, MakeDrip;
  }

  lemma CommitKeepsLog(c: Config, s: Sys, probe: Probe)
    requires Inv(c, s) && Enabled(c, s, CommitDrip(probe))
    ensures LogOk(c, AfterCommit(c, s, probe))
  {
    hide Ether.ToEther, Decide, HeadTx, Inv, Eligible;
    var n := AfterCommit(c, s, probe);
    assert LogOk(c, s) by { InvParts(c, s); }
    var item := s.faucet.phase.todo[0].id;
    forall p | p in n.t.drips ensures exists k :: 0 <= k < |n.log| && n.log[k].pid == p {
      if p == item {
        assert n.log[|s.log|].pid == p;
      } else {
        var k :| 0 <= k < |s.log| && s.log[k].pid == p;
        assert n.log[k].pid == p;
      }
    }
  }

  lemma InvParts(c: Config, s: Sys)
    requires Inv(c, s)
    ensures TablesOk(c, s.t) && LogOk(c, s) && DecisionsOk(c, s) && NonceOk(s)
    ensures ChainOk(c, s) && DoneOk(s) && PhaseOk(s) && HeightOk(c, s)
  {}

  /** Where in the history a drip was committed. */
  lemma Logged(c: Config, s: Sys, p: nat) returns (k: nat)
    requires Inv(c, s) && p in s.t.drips
    ensures k < |s.log| && s.log[k].pid == p
  {
    hide TablesOk, DecisionsOk, NonceOk, ChainOk, DoneOk, PhaseOk, HeightOk;
    k :| 0 <= k < |s.log| && s.log[k].pid == p;
  }

  lemma NextLog(c: Config, s: Sys, a: Action)
    requires Inv(c, s) && Enabled(c, s, a)
    ensures LogOk(c, Next(c, s, a))
  {
    hide Ether.ToEther, AfterCommit, Decide, ChunkEnd, Chunk, HasReceipt, TablesOk, DecisionsOk, PhaseOk, HeightOk,
      NonceOk;
    if a.CommitDrip? {
      CommitKeepsLog(c, s, a.probe);
    }
  }

  lemma DecisionKept(c: Config, s: Sys, n: Sys, k: nat)
    requires k < |s.log| && DecisionOk(c, s, k) && TablesGrow(s, n) && s.log[k].pid in s.t.drips
    ensures DecisionOk(c, n, k)
  {
    hide Ether.ToEther, Select, Passes, DripAmount;
    assert n.log[k] == s.log[k];
  }

  lemma CommitDecided(c: Config, s: Sys, probe: Probe)
    requires Inv(c, s) && Enabled(c, s, CommitDrip(probe))
    ensures DecisionOk(c, AfterCommit(c, s, probe), |s.log|)
  {
    hide Ether.ToEther, Inv, Select, Passes, DripAmount, Decide, HeadTx, Eligible, TablesOk, DecisionsOk, NonceOk,
      ChainOk, DoneOk, PhaseOk, HeightOk;
    InvParts(c, s);
    HeadItem(c, s);
    HeadTxFields(c, s, probe);
    var ph := s.faucet.phase;
    DecideGo(c.policies, ph.todo[0], ph.recset, ph.tokens, s.t.drips, probe);
  }

  lemma NextDecisions(c: Config, s: Sys, a: Action)
    requires Inv(c, s) && Enabled(c, s, a)
    ensures DecisionsOk(c, Next(c, s, a))
  {
    hide *;
    InvParts(c, s);
    NextGrows(c, s, a);
    DecisionsFollow(c, s, a);
  }

  lemma DecisionsFollow(c: Config, s: Sys, a: Action)
    requires Inv(c, s) && DecisionsOk(c, s) && LogOk(c, s) && Enabled(c, s, a) && TablesGrow(s, Next(c, s, a))
    ensures DecisionsOk(c, Next(c, s, a))
  {
    hide Inv, DecisionOk, TablesGrow, Chunk, ChunkEnd, DecideHead, HeadTx, HasReceipt, IsBatch, IsPending, MakeDrip;
    var n := Next(c, s, a);
    forall k | 0 <= k < |n.log| ensures DecisionOk(c, n, k) {
      if k < |s.log| {
        DecisionKept(c, s, n, k);
      } else {
        CommitDecided(c, s, a.probe);
      }
    }
  }

  lemma ItemNotLogged(c: Config, s: Sys)
    requires Inv(c, s) && InPhase(s)
    ensures forall k :: 0 <= k < |s.log| ==> s.log[k].pid in s.t.drips && s.log[k].pid != s.faucet.phase.todo[0].id
  {
    hide DecisionsOk, NonceOk, ChainOk, DoneOk, HeightOk, DripOk, Eligible;
    HeadItem(c, s);
  }

  /** A commit appends one decision and one drip, which carries the local nonce. */
  lemma CommitAppends(c: Config, s: Sys, probe: Probe)
    requires Enabled(c, s, CommitDrip(probe))
    ensures var n, item := AfterCommit(c, s, probe), s.faucet.phase.todo[0].id;
            && |n.log| == |s.log| + 1 && s.log <= n.log && n.log[|s.log|].pid == item
            && item in n.t.drips && n.t.drips[item].rawtx.tx.nonce == s.faucet.nonce
            && (forall p :: p in s.t.drips && p != item ==> p in n.t.drips && n.t.drips[p] == s.t.drips[p])
            && n.faucet.On? && n.faucet.phase.Committed?
            && (n.faucet.n0, n.faucet.base, n.faucet.nonce) == (s.faucet.n0, s.faucet.base, s.faucet.nonce)
  {
    hide Ether.ToEther, DecideHead, HeadTx, SetStatus;
    HeadTxFields(c, s, probe);
  }

  lemma CommitKeepsNonce(c: Config, s: Sys, probe: Probe)
    requires Inv(c, s) && Enabled(c, s, CommitDrip(probe))
    ensures NonceOk(AfterCommit(c, s, probe))
  {
    hide Inv, AfterCommit, DecideHead, HeadTx, TablesOk, LogOk, DecisionsOk, ChainOk, DoneOk, PhaseOk, HeightOk;
    InvParts(c, s);
    CommitAppends(c, s, probe);
    ItemNotLogged(c, s);
    var n := AfterCommit(c, s, probe);
    forall k | s.faucet.base <= k < |s.log| ensures TxOf(s, k).nonce == s.faucet.n0 + (k - s.faucet.base) {}
    forall k | n.faucet.base <= k < |n.log| && n.log[k].pid in n.t.drips
      ensures TxOf(n, k).nonce == n.faucet.n0 + (k - n.faucet.base)
    {
      if k < |s.log| { assert TxOf(n, k) == TxOf(s, k); }
    }
  }

  lemma RestSending(c: Config, s: Sys)
    requires Inv(c, s) && Up(s)
    ensures s.faucet.phase.Bumped? ==> s.faucet.phase.rest.Sending?
  {
    hide TablesOk, LogOk, DecisionsOk, ChainOk, DoneOk, HeightOk, NonceOk, IsBatch, RecsetOk;
  }

  lemma NextNonce(c: Config, s: Sys, a: Action)
    requires Inv(c, s) && Enabled(c, s, a)
    ensures NonceOk(Next(c, s, a))
  {
    hide Ether.ToEther, DecideHead, HeadTx, Chunk, ChunkEnd, HasReceipt, HasDefault, IsBatch, IsPending, AfterCommit,
      TablesOk, LogOk, DecisionsOk, ChainOk, DoneOk, PhaseOk, HeightOk;
    if a.CommitDrip? {
      CommitKeepsNonce(c, s, a.probe);
    } else if Up(s) {
      RestSending(c, s);
    }
  }

  /** What the faucet hands to the chain is a stored transaction. */
  lemma SentIsStored(c: Config, s: Sys, a: Action)
    requires Inv(c, s) && Enabled(c, s, a)
    ensures a.Rebroadcast? ==> Stored(s.t, s.faucet.phase.rows[0].rawtx.tx)
    ensures a.Broadcast? ==> Stored(s.t, s.faucet.phase.tx)
  {
    hide Ether.ToEther, DecideHead, HeadTx, Chunk, HasReceipt, DecisionsOk, TablesOk, LogOk, ChainOk, DoneOk, HeightOk,
      SendingOk;
    if a.Rebroadcast? {
      var row := s.faucet.phase.rows[0];
      assert s.t.drips[row.id].rawtx.tx == row.rawtx.tx;
    } else if a.Broadcast? {
      assert s.t.drips[s.log[|s.log| - 1].pid].rawtx.tx == s.faucet.phase.tx;
    }
  }

  lemma StoredKept(s: Sys, n: Sys)
    requires TablesGrow(s, n)
    ensures forall tx :: Stored(s.t, tx) ==> Stored(n.t, tx)
  {
    forall tx | Stored(s.t, tx) ensures Stored(n.t, tx) {
      var p :| p in s.t.drips && s.t.drips[p].rawtx.tx == tx;
      assert n.t.drips[p].rawtx.tx == tx;
    }
  }

  lemma NextChain(c: Config, s: Sys, a: Action)
    requires Inv(c, s) && Enabled(c, s, a)
    ensures ChainOk(c, Next(c, s, a))
  {
    hide Ether.ToEther, DecideHead, HeadTx, Chunk, ChunkEnd, HasReceipt, DecisionsOk, TablesOk, LogOk, NonceOk, DoneOk,
      PhaseOk, HeightOk,
      Stored, TablesGrow, IsBatch, IsPending;
    NextGrows(c, s, a);
    StoredKept(s, Next(c, s, a));
    SentIsStored(c, s, a);
  }

  lemma ReceiptKept(s: Sys, n: Sys, hash: TxHash)
    requires s.chain.mined <= n.chain.mined && HasReceipt(s.chain, hash)
    ensures HasReceipt(n.chain, hash)
  {
    var i :| 0 <= i < |s.chain.mined| && HashOf(s.chain.mined[i].tx) == hash;
    assert n.chain.mined[i] == s.chain.mined[i];
  }

  /** A deposit that is Done was Done before, or is the row that MarkDone handled. */
  lemma NewlyDone(c: Config, s: Sys, a: Action, i: nat)
    requires Inv(c, s) && Enabled(c, s, a)
    requires i < |Next(c, s, a).t.deposits| && Next(c, s, a).t.deposits[i].status == Done && i in Next(c, s, a).t.drips
    ensures (i < |s.t.deposits| && s.t.deposits[i].status == Done) || (a.MarkDone? && i == s.faucet.phase.rows[0].id)
  {
    hide Inv, DecideHead, HeadTx, ChunkEnd, Chunk, HasReceipt, HasDefault, IsBatch, IsPending, MakeDrip;
    if a.SyncChunk? { NewRowsUnpaid(c, s, a.ctimes); }
  }

  lemma NextDone(c: Config, s: Sys, a: Action)
    requires Inv(c, s) && Enabled(c, s, a)
    ensures DoneOk(Next(c, s, a))
  {
    hide Inv, Next, Enabled, HasReceipt, TablesOk, LogOk, DecisionsOk, NonceOk, ChainOk, PhaseOk, HeightOk;
    InvParts(c, s);
    var n := Next(c, s, a);
    NextGrows(c, s, a);
    DripsPaid(c, s);
    if a.MarkDone? { MarkedHasReceipt(c, s); }
    forall i | 0 <= i < |n.t.deposits| && n.t.deposits[i].status == Done && i in n.t.drips
      ensures HasReceipt(n.chain, n.t.drips[i].txid)
    {
      NewlyDone(c, s, a, i);
      ReceiptKept(s, n, s.t.drips[i].txid);
    }
  }

  lemma MarkedHasReceipt(c: Config, s: Sys)
    requires Inv(c, s) && Enabled(c, s, MarkDone)
    ensures var id := s.faucet.phase.rows[0].id; id in s.t.drips && HasReceipt(s.chain, s.t.drips[id].txid)
  {
    hide Inv, HasReceipt;
    FirstRowPending(c, s);
  }

  lemma DripsPaid(c: Config, s: Sys)
    requires Inv(c, s)
    ensures forall i :: 0 <= i < |s.t.deposits| ==> (s.t.deposits[i].status in {Processing, Done} <==> i in s.t.drips)
  {}

  lemma NewRowsUnpaid(c: Config, s: Sys, ctimes: seq<int>)
    requires Inv(c, s) && Enabled(c, s, SyncChunk(ctimes))
    ensures forall i :: |s.t.deposits| <= i < |AfterChunk(c, s, ctimes).t.deposits| ==> i !in s.t.drips
  {}

  lemma RecsetGrows(log: seq<Decided>, from: nat, recset: set<Address>, d: Decided)
    requires RecsetOk(log, from, recset) && d.item.row.to !in recset
    ensures RecsetOk(log + [d], from, recset + {d.item.row.to})
  {
    var n := log + [d];
    forall a | a in recset + {d.item.row.to} ensures exists k :: from <= k < |n| && n[k].item.row.to == a {
      if a in recset {
        var k :| from <= k < |log| && log[k].item.row.to == a;
        assert n[k].item.row.to == a;
      } else {
        assert n[|log|].item.row.to == a;
      }
    }
  }

  lemma CommitKeepsPhase(c: Config, s: Sys, probe: Probe)
    requires Inv(c, s) && Enabled(c, s, CommitDrip(probe))
    ensures PhaseOk(AfterCommit(c, s, probe))
  {
    hide Ether.ToEther, Decide, Select, HeadTx, Passes, Eligible, RecsetOk, IsBatch, HeightOk, ChainOk, DoneOk,
      DecisionsOk;
    HeadItem(c, s);
    var n := AfterCommit(c, s, probe);
    var ph := s.faucet.phase;
    DecideGo(c.policies, ph.todo[0], ph.recset, ph.tokens, s.t.drips, probe);
    RecsetGrows(s.log, ph.from, ph.recset, n.log[|s.log|]);
    BatchRest(s.t, n.t, ph.todo);
    assert n.log[|n.log| - 1].pid in n.t.drips;
  }

  /** Dropping the head of a batch and changing only its row leaves a batch. */
  lemma BatchRest(t: Tables, n: Tables, todo: seq<Deposit>)
    requires IsBatch(t, todo) && todo != []
    requires |t.deposits| <= |n.deposits|
    requires forall i :: 0 <= i < |t.deposits| && i != todo[0].id ==> n.deposits[i] == t.deposits[i]
    ensures IsBatch(n, todo[1..])
  {}

  lemma PendingRest(c: Config, s: Sys, n: Sys)
    requires Inv(c, s) && Up(s) && s.faucet.phase.Checking? && s.faucet.phase.rows != []
    requires n.t.drips == s.t.drips && |n.t.deposits| == |s.t.deposits|
    requires forall i :: 0 <= i < |s.t.deposits| && i != s.faucet.phase.rows[0].id ==> n.t.deposits[i] == s.t.deposits[i]
    ensures IsPending(n.t, s.faucet.phase.rows[1..])
  {
    var rows := s.faucet.phase.rows;
    forall i | 0 <= i < |rows[1..]| ensures IsPendingRow(n.t, rows[1..][i]) {
      assert IsPendingRow(s.t, rows[i + 1]);
    }
  }

  lemma BatchGrows(t: Tables, n: Tables, todo: seq<Deposit>)
    requires IsBatch(t, todo) && t.deposits <= n.deposits
    ensures IsBatch(n, todo)
  {}

  lemma PendingGrows(t: Tables, n: Tables, rows: seq<PendingDrip>)
    requires IsPending(t, rows) && t.deposits <= n.deposits && n.drips == t.drips
    ensures IsPending(n, rows)
  {
    forall i | 0 <= i < |rows| ensures IsPendingRow(n, rows[i]) {
      assert IsPendingRow(t, rows[i]);
    }
  }

  /** Insertions by the ingester leave the faucet's work in progress valid. */
  lemma ChunkKeepsPhase(c: Config, s: Sys, ctimes: seq<int>)
    requires Inv(c, s) && Enabled(c, s, SyncChunk(ctimes))
    ensures PhaseOk(AfterChunk(c, s, ctimes))
  {
    hide Inv, ChunkEnd, Chunk, IsBatch, IsPending, RecsetOk, TablesOk, LogOk, DecisionsOk, NonceOk, ChainOk, DoneOk,
      HeightOk;
    InvParts(c, s);
    var n := AfterChunk(c, s, ctimes);
    if Up(s) {
      var ph := s.faucet.phase;
      if ph.Sending? { BatchGrows(s.t, n.t, ph.todo); }
      if ph.Committed? || ph.Bumped? { BatchGrows(s.t, n.t, ph.rest.todo); }
      if ph.Checking? { PendingGrows(s.t, n.t, ph.rows); }
    }
  }

  lemma RecsetStarts(log: seq<Decided>)
    ensures RecsetOk(log, |log|, {})
  {}

  lemma NextPhase(c: Config, s: Sys, a: Action)
    requires Inv(c, s) && Enabled(c, s, a)
    ensures PhaseOk(Next(c, s, a))
  {
    hide Ether.ToEther, Decide, Select, MakeTx, DripAmount, ChunkEnd, Chunk, Passes, HasReceipt, Pass, DecisionsOk,
      HeadTx,
      AfterCommit, AfterChunk, RecsetOk, TablesOk, LogOk, ChainOk, HeightOk, DoneOk;
    var n := Next(c, s, a);
    match a
    case CommitDrip(probe) => CommitKeepsPhase(c, s, probe);
    case SyncChunk(ctimes) => ChunkKeepsPhase(c, s, ctimes);
    case IgnoreItem(_) => BatchRest(s.t, n.t, s.faucet.phase.todo);
    case BeginSend(_, _) => RecsetStarts(s.log);
    case MarkDone => PendingRest(c, s, n);
    case Rebroadcast(_) => PendingRest(c, s, n);
    case _ =>
  }

  lemma ChunkKeepsHeight(c: Config, s: Sys, ctimes: seq<int>)
    requires Inv(c, s) && Enabled(c, s, SyncChunk(ctimes))
    ensures HeightOk(c, AfterChunk(c, s, ctimes))
  {
    hide Pass, Inv, Chunk, ChunkDeposits, ChunkEnd, RowsOf, Inserted, AfterChunk, TablesOk, LogOk, DecisionsOk,
      NonceOk, ChainOk, DoneOk, PhaseOk;
    InvParts(c, s);
    var h, target := s.sync.height, s.sync.target;
    ChunkEndNoWrap(h, c.rangeSync, target);
    ChunkIsAppended(c, s, ctimes);
    ChunkFields(c, s, ctimes);
    if s.boot.first.Some? {
      var lo := s.boot.first.value;
      PassSplit(c.l1, c.dripHeight, lo, h - lo, ChunkEnd(h, c.rangeSync, target) - h + 1);
    } else {
      NoRows(s.t.deposits);
    }
  }

  lemma ChunkFields(c: Config, s: Sys, ctimes: seq<int>)
    requires Enabled(c, s, SyncChunk(ctimes))
    ensures var n, end := AfterChunk(c, s, ctimes), ChunkEnd(s.sync.height, c.rangeSync, s.sync.target);
            && n.t.height == Some(end) && n.sync == Syncing(end + 1, s.sync.target)
            && n.boot == if s.boot.first.None? then s.boot.(first := Some(s.sync.height)) else s.boot
  {
    hide Chunk, ChunkEnd, Inserted;
  }

  lemma ChunkIsAppended(c: Config, s: Sys, ctimes: seq<int>)
    requires s.sync.Syncing? && s.sync.height <= ChunkEnd(s.sync.height, c.rangeSync, s.sync.target)
    requires Enabled(c, s, SyncChunk(ctimes))
    ensures var h := s.sync.height;
            multiset(RowsOf(AfterChunk(c, s, ctimes).t.deposits))
            == multiset(RowsOf(s.t.deposits))
               + Pass(c.l1, c.dripHeight, h, ChunkEnd(h, c.rangeSync, s.sync.target) - h + 1)
  {
    hide Pass, ChunkDeposits, ChunkEnd, RowsOf, NewRows, Inserted;
    var h := s.sync.height;
    ChunkIsPass(c.l1, c.dripHeight, h, ChunkEnd(h, c.rangeSync, s.sync.target) - h + 1);
    InsertedRows(s.t.deposits, Chunk(c, s), ctimes);
  }

  lemma InsertedRows(deposits: seq<Deposit>, items: seq<NewDeposit>, ctimes: seq<int>)
    requires |ctimes| == |items|
    ensures RowsOf(Inserted(deposits, items, ctimes)) == RowsOf(deposits) + NewRows(items)
  {}

  lemma NoRows(deposits: seq<Deposit>)
    ensures RowsOf(deposits) == [] <==> deposits == []
  {}

  lemma StatusKeepsRows(deposits: seq<Deposit>, id: nat, status: Status)
    ensures RowsOf(SetStatus(deposits, id, status)) == RowsOf(deposits)
  {}

  lemma NextHeight(c: Config, s: Sys, a: Action)
    requires Inv(c, s) && Enabled(c, s, a)
    ensures HeightOk(c, Next(c, s, a))
  {
    hide Ether.ToEther, Decide, Select, MakeTx, DripAmount, ChunkEnd, Chunk, Passes, HasReceipt, Pass, HeadTx,
      SetStatus,
      AfterChunk, TablesOk, LogOk, DecisionsOk, NonceOk, ChainOk, DoneOk, PhaseOk;
    match a
    case SyncChunk(ctimes) => ChunkKeepsHeight(c, s, ctimes);
    case IgnoreItem(_) => StatusOnly(c, s, s.faucet.phase.todo[0].id, Ignore);
    case CommitDrip(_) => StatusOnly(c, s, s.faucet.phase.todo[0].id, Processing);
    case MarkDone => StatusOnly(c, s, s.faucet.phase.rows[0].id, Done);
    case _ =>
  }

  lemma StatusOnly(c: Config, s: Sys, id: nat, status: Status)
    ensures var n := SetStatus(s.t.deposits, id, status);
            RowsOf(n) == RowsOf(s.t.deposits) && (n == [] <==> s.t.deposits == [])
  {
    StatusKeepsRows(s.t.deposits, id, status);
  }

  /** Every step of every goroutine, of the chain, and every crash keeps the invariant. */
  lemma NextInv(c: Config, s: Sys, a: Action)
    requires Inv(c, s) && Enabled(c, s, a)
    ensures Inv(c, Next(c, s, a))
  {
    hide *;
    NextTables(c, s, a);
    NextLog(c, s, a);
    NextDecisions(c, s, a);
    NextNonce(c, s, a);
    NextChain(c, s, a);
    NextDone(c, s, a);
    NextPhase(c, s, a);
    NextHeight(c, s, a);
    InvWhole(c, Next(c, s, a));
  }

  lemma InvWhole(c: Config, s: Sys)
    requires TablesOk(c, s.t) && LogOk(c, s) && DecisionsOk(c, s) && NonceOk(s)
    requires ChainOk(c, s) && DoneOk(s) && PhaseOk(s) && HeightOk(c, s)
    ensures Inv(c, s)
  {}

  lemma {:induction false} RunFromInv(c: Config, s: Sys, run: seq<Action>)
    requires Inv(c, s) && LegalFrom(c, s, run)
    ensures Inv(c, After(c, s, run))
    decreases |run|
  {
    hide Ether.ToEther, Inv, Enabled, Next;
    if run != [] {
      var before := run[..|run| - 1];
      RunFromInv(c, s, before);
      NextInv(c, After(c, s, before), run[|run| - 1]);
    }
  }

  lemma {:induction false} RunGrows(c: Config, s: Sys, run: seq<Action>)
    requires LegalFrom(c, s, run)
    ensures TablesGrow(s, After(c, s, run))
    decreases |run|
  {
    hide Enabled, Next;
    if run != [] {
      var before := run[..|run| - 1];
      RunGrows(c, s, before);
      NextGrows(c, After(c, s, before), run[|run| - 1]);
    }
  }

  lemma HashStored(c: Config, s: Sys, p: nat)
    requires Inv(c, s) && p in s.t.drips
    ensures p < |s.t.deposits| && DripOk(c, s.t.deposits[p], s.t.drips[p])
    ensures s.t.drips[p].txid == HashOf(s.t.drips[p].rawtx.tx)
  {
    hide LogOk, DecisionsOk, NonceOk, ChainOk, DoneOk, PhaseOk, HeightOk;
  }

  lemma InitInv(c: Config)
    ensures Inv(c, Init(c))
  {}

  /** The invariant holds in every reachable state. */
  lemma ReachableInv(c: Config, s: Sys)
    requires Reachable(c, s)
    ensures Inv(c, s)
  {
    hide Ether.ToEther, Inv, Enabled, Next;
    var run :| EndsIn(c, run, s);
    InitInv(c);
    RunFromInv(c, Init(c), run);
  }
}
