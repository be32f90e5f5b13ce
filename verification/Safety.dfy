/**
  Safety over whole runs: theorems about every reachable state, drawn from the invariant.
 */
module Safety {
  import opened Data
  import opened Ingest
  import opened Policy
  import opened Protocol
  import opened Invariant
  import opened Rebate
  import opened Rounding
  import Ether

  // ----- Exactly-once ingestion -----

  predicate HasChunk(run: seq<Action>) { exists i :: 0 <= i < |run| && run[i].SyncChunk? }

  /** How often the ingester was started before the first committed chunk of this run. */
  function StartsBeforeChunk(run: seq<Action>): nat {
    if run == [] then 0 else
      var before := run[..|run| - 1];
      StartsBeforeChunk(before) + if run[|run| - 1].Prefight? && !HasChunk(before) then 1 else 0
  }

  lemma {:induction false} BootHistory(c: Config, run: seq<Action>)
    requires Legal(c, run)
    ensures var boot := After(c, Init(c), run).boot;
            boot.starts == StartsBeforeChunk(run) && (boot.first.Some? <==> HasChunk(run))
  {
    hide Ether.ToEther, Enabled, Decide, DecideHead, HeadTx, Chunk, ChunkEnd;
    if run != [] {
      var before, a := run[..|run| - 1], run[|run| - 1];
      BootHistory(c, before);
      assert HasChunk(run) <==> HasChunk(before) || a.SyncChunk? by {
        if HasChunk(before) { var i :| 0 <= i < |before| && before[i].SyncChunk?; assert run[i].SyncChunk?; }
        if a.SyncChunk? { assert run[|run| - 1].SyncChunk?; }
      }
      BootStep(c, After(c, Init(c), before), a);
    }
  }

  lemma BootStep(c: Config, s: Sys, a: Action)
    requires Enabled(c, s, a)
    ensures var b, n := s.boot, Next(c, s, a).boot;
            && n.starts == b.starts + (if a.Prefight? && b.first.None? then 1 else 0)
            && (n.first.Some? <==> b.first.Some? || a.SyncChunk?)
  {
    hide Ether.ToEther, Decide, DecideHead, HeadTx, Chunk, ChunkEnd;
  }

  /**
    Whatever chunks fail and wherever the service crashes and restarts, the deposits table is,
    as a multiset of rows, one pass over the blocks from `lo` to the stored height; `lo` is
    startFrom, or one more exactly when a restart came before the first committed chunk.
   */
  lemma ExactlyOnce(c: Config, run: seq<Action>)
    requires Legal(c, run)
    ensures var s := After(c, Init(c), run);
            var lo := if StartsBeforeChunk(run) <= 1 then c.startFrom else c.startFrom + 1;
            if HasChunk(run)
            then s.t.height.Some? && lo <= s.t.height.value
              && multiset(RowsOf(s.t.deposits)) == Pass(c.l1, c.dripHeight, lo, s.t.height.value + 1 - lo)
            else s.t.deposits == []
  {
    hide Ether.ToEther, Pass, Enabled, Next, TablesOk, LogOk, DecisionsOk, NonceOk, ChainOk, DoneOk, PhaseOk;
    BootHistory(c, run);
    assert EndsIn(c, run, After(c, Init(c), run));
    ReachableInv(c, After(c, Init(c), run));
  }

  /** Every stored deposit records a bridge event of a block that has been read. */
  lemma EveryDepositTraced(c: Config, s: Sys, i: nat)
    requires Reachable(c, s) && i < |s.t.deposits|
    ensures s.t.height.Some?
    ensures exists b: nat :: c.startFrom <= b <= s.t.height.value && Traced(c.l1, b, s.t.deposits[i].row)
  {
    hide Inv, Pass, Traced, TablesOk, LogOk, DecisionsOk, NonceOk, ChainOk, DoneOk, PhaseOk;
    ReachableInv(c, s);
    InvParts(c, s);
    var row, lo, number := s.t.deposits[i].row, s.boot.first.value, s.t.height.value;
    assert RowsOf(s.t.deposits)[i] in multiset(RowsOf(s.t.deposits));
    PassTraced(c.l1, c.dripHeight, lo, number + 1 - lo, row);
  }

  /** If events are reported under their own block, every stored deposit is from a block that has been read. */
  lemma HeightsInRange(c: Config, s: Sys, i: nat)
    requires Reachable(c, s) && i < |s.t.deposits| && ByBlock(c.l1)
    ensures s.t.height.Some? && c.startFrom <= s.t.deposits[i].row.height <= s.t.height.value
  {
    hide Reachable, Traced, ByBlock;
    EveryDepositTraced(c, s, i);
    var row := s.t.deposits[i].row;
    var b: nat :| c.startFrom <= b <= s.t.height.value && Traced(c.l1, b, row);
    TracedHeight(c.l1, b, row);
  }

  /** Every payment ever sent goes to the recipient of a bridge event that has been read. */
  lemma EveryPaymentTraced(c: Config, s: Sys, tx: Tx)
    requires Reachable(c, s) && tx in s.chain.sent
    ensures s.t.height.Some?
    ensures exists p, b: nat :: p in s.t.drips && p < |s.t.deposits| && s.t.drips[p].rawtx == Encoded(tx)
              && tx.to == s.t.deposits[p].row.to
              && c.startFrom <= b <= s.t.height.value && Traced(c.l1, b, s.t.deposits[p].row)
  {
    hide Reachable, Traced;
    WriteAhead(c, s, tx);
    var p :| p in s.t.drips && s.t.drips[p].rawtx == Encoded(tx) && s.t.drips[p].txid == HashOf(tx)
      && p < |s.t.deposits| && s.t.deposits[p].status in {Processing, Done} && tx.to == s.t.deposits[p].row.to;
    EveryDepositTraced(c, s, p);
  }

  /**
    In-memory and stored height: one apart between chunks, once something is committed; before
    that the stored one is startFrom and the in-memory one is the first block to be read.
   */
  lemma HeightAgreement(c: Config, s: Sys)
    requires Reachable(c, s) && !s.sync.SyncDown?
    ensures s.t.height.Some?
    ensures s.boot.first.Some? ==> s.sync.height == s.t.height.value + 1
    ensures s.boot.first.None? ==> s.t.height.value == c.startFrom
    ensures s.boot.first.None? ==> s.sync.height == if s.boot.starts <= 1 then c.startFrom else c.startFrom + 1
  {
    ReachableInv(c, s);
  }

  /** The stored height only grows, only by committed chunks, and strictly at each of them. */
  lemma HeightGrows(c: Config, s: Sys, a: Action)
    requires Reachable(c, s) && Enabled(c, s, a) && s.t.height.Some?
    ensures var n := Next(c, s, a).t.height;
            && n.Some? && s.t.height.value <= n.value
            && (n.value > s.t.height.value ==> a.SyncChunk?)
            && (a.SyncChunk? && c.rangeSync >= 1 ==> n.value > s.t.height.value)
  {
    hide Inv, Ether.ToEther, DecideHead, HeadTx, ChunkEnd, Chunk, HasReceipt, IsBatch, IsPending, MakeDrip,
      TablesOk, LogOk, DecisionsOk, NonceOk, ChainOk, DoneOk, PhaseOk;
    ReachableInv(c, s);
    InvParts(c, s);
    if a.SyncChunk? {
      ChunkEndNoWrap(s.sync.height, c.rangeSync, s.sync.target);
    }
  }

  // ----- Statuses and drips -----

  /** Unprocessed -> Processing, Unprocessed -> Ignore, Processing -> Done, or no change. */
  ghost predicate Progress(old': Status, new': Status) {
    old' == new' || (old', new') in {(Unprocessed, Processing), (Unprocessed, Ignore), (Processing, Done)}
  }

  lemma StatusStep(c: Config, s: Sys, a: Action, i: nat)
    requires Inv(c, s) && Enabled(c, s, a) && i < |s.t.deposits|
    ensures i < |Next(c, s, a).t.deposits|
    ensures Progress(s.t.deposits[i].status, Next(c, s, a).t.deposits[i].status)
    ensures Next(c, s, a).t.deposits[i] == s.t.deposits[i].(status := Next(c, s, a).t.deposits[i].status)
  {
    hide Ether.ToEther, Decide, DecideHead, HeadTx, Chunk, ChunkEnd, HeightOk, LogOk, DecisionsOk, NonceOk, ChainOk,
      DoneOk, HasReceipt;
    if a.IgnoreItem? || a.CommitDrip? { HeadItem(c, s); }
  }

  /** The status after a status, over any number of steps. */
  ghost predicate Later(old': Status, new': Status) {
    old' == new' || old' == Unprocessed || (old', new') == (Processing, Done)
  }

  /** Over any continuation a deposit's data never change and its status only moves forward. */
  lemma {:induction false} StatusForward(c: Config, s: Sys, run: seq<Action>, i: nat)
    requires Inv(c, s) && LegalFrom(c, s, run) && i < |s.t.deposits|
    ensures i < |After(c, s, run).t.deposits|
    ensures var d, e := s.t.deposits[i], After(c, s, run).t.deposits[i];
            Later(d.status, e.status) && e == d.(status := e.status)
    decreases |run|
  {
    hide Ether.ToEther, Inv, Enabled, Next;
    if run != [] {
      var before := run[..|run| - 1];
      StatusForward(c, s, before, i);
      RunFromInv(c, s, before);
      StatusStep(c, After(c, s, before), run[|run| - 1], i);
    }
  }

  /** A deposit is Processing or Done exactly when there is a drip row for it. */
  lemma StatusIffDrip(c: Config, s: Sys, i: nat)
    requires Reachable(c, s) && i < |s.t.deposits|
    ensures s.t.deposits[i].status in {Processing, Done} <==> i in s.t.drips
  {
    ReachableInv(c, s);
  }

  /** The pending join has exactly one row for every Processing deposit and no other row. */
  lemma JoinComplete(c: Config, s: Sys, i: nat)
    requires Reachable(c, s)
    ensures (i < |s.t.deposits| && s.t.deposits[i].status == Processing)
            <==> exists row: PendingDrip :: row.id == i && IsPendingRow(s.t, row)
    ensures forall r: PendingDrip, q: PendingDrip :: IsPendingRow(s.t, r) && IsPendingRow(s.t, q) && r.id == q.id ==> r == q
  {
    ReachableInv(c, s);
    if i < |s.t.deposits| && s.t.deposits[i].status == Processing {
      assert IsPendingRow(s.t, PendingDrip(i, s.t.drips[i].txid, s.t.drips[i].rawtx));
    }
  }

  /** Write-ahead: whatever was ever handed to the chain is stored, under its hash, with its deposit not Unprocessed. */
  lemma WriteAhead(c: Config, s: Sys, tx: Tx)
    requires Reachable(c, s) && tx in s.chain.sent
    ensures exists p :: p in s.t.drips && s.t.drips[p].rawtx == Encoded(tx) && s.t.drips[p].txid == HashOf(tx)
              && p < |s.t.deposits| && s.t.deposits[p].status in {Processing, Done}
              && tx.to == s.t.deposits[p].row.to
  {
    ReachableInv(c, s);
    var p :| p in s.t.drips && s.t.drips[p].rawtx.tx == tx;
    assert DripOk(c, s.t.deposits[p], s.t.drips[p]);
  }

  /** A Done deposit's transaction has been mined. */
  lemma DoneMined(c: Config, s: Sys, i: nat)
    requires Reachable(c, s) && i < |s.t.deposits| && s.t.deposits[i].status == Done
    ensures i in s.t.drips && exists k :: 0 <= k < |s.chain.mined| && s.chain.mined[k].tx == s.t.drips[i].rawtx.tx
  {
    ReachableInv(c, s);
    var k :| 0 <= k < |s.chain.mined| && HashOf(s.chain.mined[k].tx) == s.t.drips[i].txid;
    assert DripOk(c, s.t.deposits[i], s.t.drips[i]);
    assert s.chain.mined[k].tx == s.t.drips[i].rawtx.tx;
  }

  // ----- Conservation of payments -----

  /** What the mined, successful transfers have moved. */
  function Paid(mined: seq<Receipt>): nat {
    if mined == [] then 0 else
      var r := mined[|mined| - 1];
      Paid(mined[..|mined| - 1]) + if r.success then r.tx.value else 0
  }

  ghost function Total(txs: set<Tx>): nat {
    if txs == {} then 0 else var tx :| tx in txs; tx.value + Total(txs - {tx})
  }

  lemma {:induction false} TotalRemove(txs: set<Tx>, tx: Tx)
    requires tx in txs
    ensures Total(txs) == tx.value + Total(txs - {tx})
  {
    var x :| x in txs && Total(txs) == x.value + Total(txs - {x});
    if x != tx {
      TotalRemove(txs - {x}, tx);
      TotalRemove(txs - {tx}, x);
      assert txs - {x} - {tx} == txs - {tx} - {x};
    }
  }

  lemma {:induction false} PaidAtMost(mined: seq<Receipt>, txs: set<Tx>)
    requires forall i :: 0 <= i < |mined| ==> mined[i].tx in txs
    requires forall i, j :: 0 <= i < j < |mined| ==> mined[i].tx != mined[j].tx
    ensures Paid(mined) <= Total(txs)
  {
    if mined != [] {
      var r := mined[|mined| - 1];
      PaidAtMost(mined[..|mined| - 1], txs - {r.tx});
      TotalRemove(txs, r.tx);
    }
  }

  function StoredTxs(t: Tables): set<Tx> { set p | p in t.drips :: t.drips[p].rawtx.tx }

  /**
    No transaction is mined twice, and the faucet account pays at most the sum of the values
    of the stored transactions, over every interleaving, failure and crash.
   */
  lemma Conservation(c: Config, s: Sys)
    requires Reachable(c, s)
    ensures forall i, j :: 0 <= i < j < |s.chain.mined| ==> s.chain.mined[i].tx != s.chain.mined[j].tx
    ensures Paid(s.chain.mined) <= Total(StoredTxs(s.t))
  {
    hide Ether.ToEther, TablesOk, LogOk, DecisionsOk, NonceOk, DoneOk, PhaseOk, HeightOk;
    ReachableInv(c, s);
    forall i | 0 <= i < |s.chain.mined| ensures s.chain.mined[i].tx in StoredTxs(s.t) {
      assert Stored(s.t, s.chain.mined[i].tx);
    }
    PaidAtMost(s.chain.mined, StoredTxs(s.t));
  }

  // ----- Who gets a drip -----

  /** A recipient whose first drip was checked for is none of those that got a drip before. */
  lemma FirstWasChecked(c: Config, s: Sys, early: nat, late: nat)
    requires TablesOk(c, s.t) && LogOk(c, s) && DecisionsOk(c, s) && early < late < |s.log|
    requires forall i :: 0 <= i < |c.policies| ==> c.policies[i].checkIfFirst
    ensures s.t.drips[s.log[early].pid].to != s.t.drips[s.log[late].pid].to
  {
    hide Select, Eligible, DripAmount;
    var d := s.log[late];
    assert DecisionOk(c, s, late);
    SelectedIn(c.policies, d.item.ctime, d.item.row.l1token);
    assert s.log[early].pid in d.drips;
    assert DripOk(c, s.t.deposits[d.pid], s.t.drips[d.pid]);
  }

  lemma RecipientsDiffer(c: Config, s: Sys, p: nat, q: nat)
    requires Inv(c, s)
    requires forall i :: 0 <= i < |c.policies| ==> c.policies[i].checkIfFirst
    requires p in s.t.drips && q in s.t.drips && p != q
    ensures s.t.drips[p].to != s.t.drips[q].to
  {
    hide Inv, TablesOk, LogOk, DecisionsOk, ChainOk, DoneOk, PhaseOk, HeightOk, NonceOk;
    InvParts(c, s);
    var j := Logged(c, s, p);
    var k := Logged(c, s, q);
    FirstWasChecked(c, s, if j < k then j else k, if j < k then k else j);
  }

  /** Under policies that all check for a first drip, no recipient ever gets a second drip row. */
  lemma OneDripPerRecipient(c: Config, s: Sys, p: nat, q: nat)
    requires Reachable(c, s)
    requires forall i :: 0 <= i < |c.policies| ==> c.policies[i].checkIfFirst
    requires p in s.t.drips && q in s.t.drips && p != q
    ensures s.t.drips[p].to != s.t.drips[q].to
  {
    hide Inv;
    ReachableInv(c, s);
    RecipientsDiffer(c, s, p, q);
  }

  /** Between iterations, recset names exactly the recipients of this batch, and none of them twice. */
  lemma BatchRecipients(c: Config, s: Sys)
    requires Reachable(c, s) && s.faucet.On? && s.faucet.phase.Sending?
    ensures var from := s.faucet.phase.from;
            && from <= |s.log|
            && s.faucet.phase.recset == (set k | from <= k < |s.log| :: s.log[k].item.row.to)
            && forall j, k :: from <= j < k < |s.log| ==> s.log[j].item.row.to != s.log[k].item.row.to
  {
    hide Ether.ToEther, TablesOk, LogOk, DecisionsOk, ChainOk, DoneOk, HeightOk, NonceOk;
    ReachableInv(c, s);
  }

  /**
    Every drip row belongs to a deposit at or above DripHeight and not of Metis itself, whose
    token was supported and which passed every check of the last matching policy when decided;
    the stored transaction pays what that policy prescribes.
   */
  lemma EveryDripEligible(c: Config, s: Sys, p: nat)
    requires Reachable(c, s) && p in s.t.drips
    ensures p < |s.t.deposits| && Eligible(c.dripHeight, s.t.deposits[p].row)
    ensures exists k, i :: DripJustified(c, s, p, k, i)
  {
    hide Ether.ToEther, ChainOk, DoneOk, PhaseOk, HeightOk, NonceOk, Passes, Select, DripAmount;
    ReachableInv(c, s);
    var k :| 0 <= k < |s.log| && s.log[k].pid == p;
    var d := s.log[k];
    assert DecisionOk(c, s, k);
    SelectFrom(c.policies, d.item.ctime, d.item.row.l1token);
    var i :| LastMatch(c.policies, d.item.ctime, d.item.row.l1token, i)
      && Select(c.policies, d.item.ctime, d.item.row.l1token).value == c.policies[i];
    assert DripJustified(c, s, p, k, i);
  }

  /** Decision k is that for drip p, made under policy i. */
  ghost predicate DripJustified(c: Config, s: Sys, p: nat, k: int, i: int)
    requires p in s.t.drips
  {
    && 0 <= k < |s.log| && s.log[k].pid == p < |s.t.deposits|
    && s.log[k].item == s.t.deposits[p].(status := Unprocessed)
    && LastMatch(c.policies, s.log[k].item.ctime, s.log[k].item.row.l1token, i)
    && Passes(c.policies[i], s.log[k].item, s.log[k].tokens, s.log[k].drips, s.log[k].probe)
    && DripAmount(c.defaultDrip, c.maxUSD, c.policies[i].rebateType, s.log[k].probe) == Wei(s.t.drips[p].rawtx.tx.value)
    && GasAnswered(s.t.drips[p].rawtx.tx, s.log[k].probe)
  }

  /** Worth at most the cap, and the lesser of gas and cap, at the positive prices it was computed with. */
  ghost predicate RebateBounded(value: nat, probe: Probe, maxUSD: real) {
    && probe.gasSpent.Some? && probe.metisPrice.Success?
    && var price := probe.metisPrice.token;
       price.inEther > 0.0 && price.inUSD > 0.0 ==>
         && value as real * price.inUSD
            <= 1_000_000_000_000_000_000.0 * (maxUSD + Scale(maxUSD, -52)) + price.inUSD / 2.0
         && var lesser := Lesser(Ether.ToEther(probe.gasSpent.value) / price.inEther, maxUSD / price.inUSD);
            Gap(value as real, 1_000_000_000_000_000_000.0 * lesser)
            <= 1_000_000_000_000_000_000.0 * Scale(lesser, -51) + 0.5
  }

  lemma RebateAmount(defaultDrip: int, maxUSD: real, probe: Probe, value: nat)
    requires maxUSD >= 0.0 && DripAmount(defaultDrip, maxUSD, GAS_FEE_REBATE_TYPE, probe) == Wei(value)
    ensures RebateBounded(value, probe, maxUSD)
  {
    hide Ether.ToEther, GasFeeEther, ToWeiChecked, Scale, Lesser;
    var gas, price := Ether.ToEther(probe.gasSpent.value), probe.metisPrice.token;
    Ether.ToEtherError(probe.gasSpent.value);
    if price.inEther > 0.0 && price.inUSD > 0.0 {
      CapSurvivesRounding(gas, price, maxUSD);
      RebateIsLesser(gas, price, maxUSD);
    }
  }

  lemma DefaultAmount(defaultDrip: int, maxUSD: real, rebateType: int, probe: Probe, value: nat)
    requires DripAmount(defaultDrip, maxUSD, rebateType, probe) == Wei(value)
    ensures rebateType in {DEFAULT_REBATE_TYPE, GAS_FEE_REBATE_TYPE}
    ensures rebateType == DEFAULT_REBATE_TYPE ==> value == defaultDrip
  {
    hide Ether.ToEther, GasFeeEther, ToWeiChecked;
  }

  /**
    Every drip row is justified by a decision under its last matching policy; a default transfer has
    the configured amount, a stored gas-fee
    transfer is the lesser of gas and cap up to rounding, and never worth more than the cap.
   */
  lemma EveryRebateCapped(c: Config, s: Sys, p: nat)
    requires Reachable(c, s) && p in s.t.drips && c.maxUSD >= 0.0
    ensures exists k, i :: DripJustified(c, s, p, k, i)
              && (c.policies[i].rebateType == DEFAULT_REBATE_TYPE ==> s.t.drips[p].rawtx.tx.value == c.defaultDrip)
              && (c.policies[i].rebateType in {DEFAULT_REBATE_TYPE, GAS_FEE_REBATE_TYPE})
              && (c.policies[i].rebateType == GAS_FEE_REBATE_TYPE ==>
                    RebateBounded(s.t.drips[p].rawtx.tx.value, s.log[k].probe, c.maxUSD))
  {
    hide Reachable, Passes, DripAmount, RebateBounded;
    EveryDripEligible(c, s, p);
    var k, i :| DripJustified(c, s, p, k, i);
    DefaultAmount(c.defaultDrip, c.maxUSD, c.policies[i].rebateType, s.log[k].probe, s.t.drips[p].rawtx.tx.value);
    if c.policies[i].rebateType == GAS_FEE_REBATE_TYPE {
      RebateAmount(c.defaultDrip, c.maxUSD, s.log[k].probe, s.t.drips[p].rawtx.tx.value);
    }
  }

  // ----- Who gets none -----

  /** Step k of this run decided, for one of the reasons of NoDrip, that deposit i gets no drip. */
  ghost predicate IgnoredAt(c: Config, run: seq<Action>, i: nat, k: nat) {
    && k < |run| && run[k].IgnoreItem? && Legal(c, run[..k])
    && var s := After(c, Init(c), run[..k]);
       && InPhase(s) && i < |s.t.deposits|
       && var ph := s.faucet.phase;
          && ph.todo[0] == s.t.deposits[i] && ph.todo[0].id == i
          && NoDrip(c.policies, ph.todo[0], ph.recset, ph.tokens, s.t.drips, run[k].probe)
  }

  lemma IgnoreDecides(c: Config, s: Sys, a: Action, i: nat)
    requires Inv(c, s) && Enabled(c, s, a) && i < |Next(c, s, a).t.deposits|
    requires Next(c, s, a).t.deposits[i].status == Ignore && Eligible(c.dripHeight, Next(c, s, a).t.deposits[i].row)
    ensures i < |s.t.deposits| && s.t.deposits[i].row == Next(c, s, a).t.deposits[i].row
    ensures s.t.deposits[i].status == Ignore ||
            (a.IgnoreItem? && InPhase(s) && s.faucet.phase.todo[0] == s.t.deposits[i] && s.faucet.phase.todo[0].id == i
             && DecideHead(c, s, a.probe).NoNeed?)
  {
    hide Inv, DecideHead, HeadTx, ChunkEnd, Chunk, HasReceipt, IsBatch, IsPending, MakeDrip, Eligible;
    if a.IgnoreItem? { HeadItem(c, s); }
    if a.SyncChunk? { NewRowsOpen(c, s, a.ctimes); }
  }

  lemma NewRowsOpen(c: Config, s: Sys, ctimes: seq<int>)
    requires Inv(c, s) && Enabled(c, s, SyncChunk(ctimes))
    ensures var n := AfterChunk(c, s, ctimes).t;
            forall i :: |s.t.deposits| <= i < |n.deposits| && Eligible(c.dripHeight, n.deposits[i].row) ==>
              n.deposits[i].status == Unprocessed
  {
    hide Inv, Eligible, ChunkDeposits, ChunkEnd;
    var n, end := AfterChunk(c, s, ctimes).t, ChunkEnd(s.sync.height, c.rangeSync, s.sync.target);
    if s.sync.height <= end {
      ChunkStatus(c.l1, c.dripHeight, s.sync.height, end - s.sync.height + 1);
    }
    forall i | |s.t.deposits| <= i < |n.deposits| && Eligible(c.dripHeight, n.deposits[i].row)
      ensures n.deposits[i].status == Unprocessed
    {
      assert Chunk(c, s)[i - |s.t.deposits|] in Chunk(c, s);
    }
  }

  /** An eligible deposit is only ever ignored by such a decision, taken while it was unprocessed. */
  lemma {:induction false} IgnoredForAReason(c: Config, run: seq<Action>, i: nat)
    requires Legal(c, run) && i < |After(c, Init(c), run).t.deposits|
    requires var d := After(c, Init(c), run).t.deposits[i]; d.status == Ignore && Eligible(c.dripHeight, d.row)
    ensures exists k :: IgnoredAt(c, run, i, k)
  {
    hide Inv, Enabled, Next, Eligible, NoDrip, Decide;
    var before, n := run[..|run| - 1], |run| - 1;
    var s := After(c, Init(c), before);
    InitInv(c);
    RunFromInv(c, Init(c), before);
    IgnoreDecides(c, s, run[n], i);
    if s.t.deposits[i].status == Ignore {
      IgnoredForAReason(c, before, i);
      var k: nat :| IgnoredAt(c, before, i, k);
      assert before[..k] == run[..k];
      assert IgnoredAt(c, run, i, k);
    } else {
      var ph := s.faucet.phase;
      DecideNoNeed(c.policies, ph.todo[0], ph.recset, ph.tokens, s.t.drips, run[n].probe);
      assert IgnoredAt(c, run, i, n);
    }
  }
}
