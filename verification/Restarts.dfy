/**
  Concrete histories, each of them a run of the protocol, that end badly: a restart before every stored
  drip is mined, a restart before the first chunk, and a transfer that fails.
 */
module Restarts {
  import opened Data
  import opened Ingest
  import opened Policy
  import opened Protocol
  import opened Invariant
  import opened Nonces
  import opened Safety
  import Ether
  import PriceCache

  const FIRST: Address := "0xa"
  const TOKENS: set<Address> := {ETHER_L2_ADDRESS}
  const PROBE: Probe :=
    Probe(PriceCache.NoTokenInfo, None, true, Some(0), Some(0), Some(0), None, PriceCache.NoTokenInfo, Some(1), Some(1))

  /** A catch-all policy, with or without the checks for new users. */
  function CatchAll(checks: bool): Policy { Policy(true, {}, checks, checks, 0, 0, 0.0, DEFAULT_REBATE_TYPE) }

  predicate Plain(c: Config, checks: bool) { c.policies == [CatchAll(checks)] && c.defaultDrip == 5 }

  /** Two ether deposits in block 0, the second to this recipient. */
  function TwoDeposits(second: Address, checks: bool): Config {
    Config(
      L1(_ => [],
         block => if block == 0 then [EthEvent(0, "0x0", FIRST, FIRST, 10), EthEvent(0, "0x1", second, second, 10)] else []),
      0, 5, 0, 0, [CatchAll(checks)], "0xf", 5, 1.0, 0)
  }

  /** The i-th of these deposits as it is stored. */
  predicate IsNth(d: Deposit, i: nat, to: Address) {
    d.id == i && d.row.l2token == ETHER_L2_ADDRESS && d.row.to == to && d.status == Unprocessed
  }

  lemma ChunkOfTwo(c: Config, second: Address, checks: bool)
    requires c == TwoDeposits(second, checks) && PriceCache.ToLower(second) == second
    ensures var items := ChunkDeposits(c.l1, 0, 0, 2);
            && |items| == 2
            && items[0].row.l2token == items[1].row.l2token == ETHER_L2_ADDRESS
            && items[0].row.to == FIRST && items[1].row.to == second
            && items[0].status == items[1].status == Unprocessed
  {
    assert PriceCache.ToLower(FIRST) == FIRST;
    assert Collect(c.l1.eth, 0, 1) == c.l1.eth(0);
    assert Collect(c.l1.eth, 0, 2) == c.l1.eth(0);
    assert Collect(c.l1.erc20, 0, 1) == [];
    assert Collect(c.l1.erc20, 0, 2) == [];
  }

  /** Both deposits have been ingested and the faucet has not been started. */
  lemma Ingested(c: Config, second: Address, checks: bool) returns (s: Sys)
    requires c == TwoDeposits(second, checks) && PriceCache.ToLower(second) == second
    ensures Reachable(c, s) && s.faucet.Off? && s.chain == Chain(0, {}, []) && s.t.drips == map[] && s.log == []
    ensures |s.t.deposits| == 2 && IsNth(s.t.deposits[0], 0, FIRST) && IsNth(s.t.deposits[1], 1, second)
  {
    hide ChunkDeposits;
    s := Init(c);
    assert EndsIn(c, [], s);
    ReachNext(c, s, Prefight);
    s := Next(c, s, Prefight);
    ReachNext(c, s, SyncStart(1));
    s := Next(c, s, SyncStart(1));
    assert ChunkEnd(0, 5, 1) == 1;
    ChunkOfTwo(c, second, checks);
    ReachNext(c, s, SyncChunk([0, 0]));
    s := Next(c, s, SyncChunk([0, 0]));
  }

  /** The transfer that the catch-all policy pays for a deposit. */
  function Transfer(nonce: nat, to: Address): Tx { Tx(nonce, to, 5, 1, 1) }

  lemma DecidesGo(c: Config, checks: bool, item: Deposit, drips: map<nat, Drip>, nonce: nat)
    requires Plain(c, checks) && item.row.l2token == ETHER_L2_ADDRESS
    requires checks ==> forall p :: p in drips ==> drips[p].to != item.row.to
    ensures Decide(c.policies, item, {}, TOKENS, drips, PROBE).Go?
    ensures SignedTx(c, nonce, item, PROBE) == Some(Transfer(nonce, item.row.to))
  {
    HasGotDripMeaning(drips, item.row.to);
    assert Select(c.policies, item.ctime, item.row.l1token) == Some(c.policies[0]);
  }

  /** A batch with just this deposit, up to the commit of its drip. */
  lemma CommitOne(c: Config, checks: bool, s: Sys, item: Deposit) returns (n: Sys)
    requires Plain(c, checks) && Reachable(c, s) && s.faucet.On? && s.faucet.phase.Idle?
    requires item.id < |s.t.deposits| && s.t.deposits[item.id] == item && item.status == Unprocessed
    requires item.row.l2token == ETHER_L2_ADDRESS && item.id !in s.t.drips
    requires checks ==> forall p :: p in s.t.drips ==> s.t.drips[p].to != item.row.to
    ensures Reachable(c, n) && n.chain == s.chain
    ensures n.faucet.On? && n.faucet.phase.Committed? && n.faucet.phase.tx == Transfer(s.faucet.nonce, item.row.to)
    ensures n.t.deposits == SetStatus(s.t.deposits, item.id, Processing)
    ensures n.t.drips == s.t.drips[item.id := MakeDrip(item.id, c.account, Transfer(s.faucet.nonce, item.row.to))]
  {
    hide Decide, SignedTx, Ether.ToEther;
    DecidesGo(c, checks, item, s.t.drips, s.faucet.nonce);
    ReachNext(c, s, BeginSend([item], TOKENS));
    n := Next(c, s, BeginSend([item], TOKENS));
    ReachNext(c, n, CommitDrip(PROBE));
    n := Next(c, n, CommitDrip(PROBE));
  }

  lemma Restart(c: Config, s: Sys) returns (n: Sys)
    requires Reachable(c, s) && HasDefault(c.policies)
    ensures Reachable(c, n) && n.t == s.t && n.chain == s.chain
    ensures n.faucet == On(s.chain.nonce, |s.log|, s.chain.nonce, Idle)
  {
    ReachNext(c, s, Crash);
    n := Next(c, s, Crash);
    ReachNext(c, n, Initial);
    n := Next(c, n, Initial);
  }

  /** What has been committed is broadcast and mined, as a successful transfer or a reverted one. */
  lemma Deliver(c: Config, s: Sys, success: bool) returns (n: Sys)
    requires Reachable(c, s) && s.faucet.On? && s.faucet.phase.Committed? && s.faucet.phase.tx.nonce == s.chain.nonce
    ensures Reachable(c, n) && n.t == s.t && n.faucet.On? && n.faucet.phase.Idle?
    ensures n.chain == Chain(s.chain.nonce + 1, s.chain.sent + {s.faucet.phase.tx},
                             s.chain.mined + [Receipt(s.faucet.phase.tx, success)])
  {
    ReachNext(c, s, BumpNonce);
    n := Next(c, s, BumpNonce);
    ReachNext(c, n, Broadcast(true, false));
    n := Next(c, n, Broadcast(true, false));
    ReachNext(c, n, Mine(s.faucet.phase.tx, success));
    n := Next(c, n, Mine(s.faucet.phase.tx, success));
  }

  /**
    The service stops between committing a drip and broadcasting it, restarts and serves the other
    deposit: the new drip carries the same nonce and is the only one that is ever mined.
   */
  lemma CommittedTwice(second: Address, checks: bool) returns (c: Config, s: Sys)
    requires PriceCache.ToLower(second) == second && (checks ==> second != FIRST)
    ensures c == TwoDeposits(second, checks) && Reachable(c, s)
    ensures |s.t.deposits| == 2 && s.t.deposits[0].status == s.t.deposits[1].status == Processing
    ensures s.t.drips.Keys == {0, 1} && s.t.drips[0].rawtx.tx == Transfer(0, FIRST)
    ensures s.t.drips[1].rawtx.tx == Transfer(0, second)
    ensures s.t.drips[0].txid == HashOf(Transfer(0, FIRST)) && s.t.drips[1].txid == HashOf(Transfer(0, second))
    ensures s.chain.mined == [Receipt(Transfer(0, second), true)] && s.chain.nonce == 1
    ensures s.faucet.On? && s.faucet.phase.Idle?
  {
    hide Reachable, Ether.ToEther;
    c := TwoDeposits(second, checks);
    assert HasDefault(c.policies) by { assert c.policies[0].matchAll; }
    s := Ingested(c, second, checks);
    s := Restart(c, s);
    s := CommitOne(c, checks, s, s.t.deposits[0]);
    s := Restart(c, s);
    s := CommitOne(c, checks, s, s.t.deposits[1]);
    s := Deliver(c, s, true);
  }

  /** Even if every policy checks for new users, the first deposit can be lost: Processing, and never to be paid. */
  lemma UncleanRestartLoses()
    ensures exists c, s :: Reachable(c, s) && Lost(s, 0)
              && forall i :: 0 <= i < |c.policies| ==> c.policies[i].checkIfFirst && c.policies[i].checkIfNoGas
  {
    assert PriceCache.ToLower("0xb") == "0xb";
    var c, s := CommittedTwice("0xb", true);
  }

  /**
    Without a check for first drips and with the same recipient the two drips are one transaction:
    both become Done, one transfer is mined.
   */
  lemma UncleanRestartSharesPayment()
    ensures exists c, s :: Reachable(c, s)
              && |s.t.deposits| == 2 && s.t.deposits[0].status == s.t.deposits[1].status == Done && |s.chain.mined| == 1
  {
    assert PriceCache.ToLower(FIRST) == FIRST;
    var c, s := CommittedTwice(FIRST, false);
    var tx := Transfer(0, FIRST);
    assert HasReceipt(s.chain, HashOf(tx)) by { assert HashOf(s.chain.mined[0].tx) == HashOf(tx); }
    var rows := [PendingDrip(0, HashOf(tx), Encoded(tx)), PendingDrip(1, HashOf(tx), Encoded(tx))];
    ReachNext(c, s, BeginCheck(rows));
    s := Next(c, s, BeginCheck(rows));
    ReachNext(c, s, MarkDone);
    s := Next(c, s, MarkDone);
    ReachNext(c, s, MarkDone);
    s := Next(c, s, MarkDone);
  }

  /** After an unclean restart the next one reads an unused nonce although a stored drip is unmined. */
  lemma UnminedButFresh()
    ensures exists c, s :: Reachable(c, s) && Enabled(c, s, Initial) && !AllMined(s) && FreshStart(s)
  {
    assert PriceCache.ToLower("0xb") == "0xb";
    var c, s := CommittedTwice("0xb", true);
    assert HasDefault(c.policies) by { assert c.policies[0].matchAll; }
    ReachNext(c, s, Crash);
    s := Next(c, s, Crash);
    assert !HasReceipt(s.chain, s.t.drips[0].txid);
  }

  /** A restart before the first chunk: both deposits of block startFrom are missing, and the chunk after it is stored. */
  lemma FirstBlockSkipped()
    ensures exists c, s :: Reachable(c, s) && |c.l1.eth(c.startFrom)| == 2
              && s.t.height.Some? && s.t.height.value > c.startFrom && s.t.deposits == []
  {
    var c := TwoDeposits("0xb", true);
    var s := Init(c);
    assert EndsIn(c, [], s);
    ReachNext(c, s, Prefight);
    s := Next(c, s, Prefight);
    ReachNext(c, s, Crash);
    s := Next(c, s, Crash);
    ReachNext(c, s, Prefight);
    s := Next(c, s, Prefight);
    ReachNext(c, s, SyncStart(2));
    s := Next(c, s, SyncStart(2));
    NoEventsLater(c);
    ReachNext(c, s, SyncChunk([]));
    s := Next(c, s, SyncChunk([]));
  }

  lemma NoEventsLater(c: Config)
    requires c == TwoDeposits("0xb", true)
    ensures ChunkDeposits(c.l1, 0, 1, 2) == [] && ChunkEnd(1, 5, 2) == 2
  {
    assert Collect(c.l1.eth, 1, 1) == [] && Collect(c.l1.eth, 1, 2) == [];
    assert Collect(c.l1.erc20, 1, 1) == [] && Collect(c.l1.erc20, 1, 2) == [];
  }

  // ----- Done is not paid -----

  lemma FailedPaysNothing(tx: Tx)
    ensures Paid([Receipt(tx, false)]) == 0
  {}

  /** One round over the only pending drip, whose transaction is mined. */
  lemma CheckOnly(c: Config, s: Sys, tx: Tx) returns (n: Sys)
    requires Reachable(c, s) && s.faucet.On? && s.faucet.phase.Idle? && s.t.deposits != []
    requires s.t.deposits[0].status == Processing && 0 in s.t.drips
    requires s.t.drips[0].txid == HashOf(tx) && HasReceipt(s.chain, HashOf(tx))
    ensures Reachable(c, n) && n.chain == s.chain && n.t.deposits == SetStatus(s.t.deposits, 0, Done)
  {
    hide Reachable, HasReceipt;
    var rows := [PendingDrip(0, HashOf(tx), s.t.drips[0].rawtx)];
    ReachNext(c, s, BeginCheck(rows));
    n := Next(c, s, BeginCheck(rows));
    ReachNext(c, n, MarkDone);
    n := Next(c, n, MarkDone);
  }

  /** With all restarts clean: the only transfer for a Done deposit was mined as a failure, so nothing was paid. */
  lemma DoneWithoutPayment()
    ensures exists c, s :: Reachable(c, s)
              && |s.t.deposits| == 2 && s.t.deposits[0].status == Done && |s.chain.mined| == 1 && Paid(s.chain.mined) == 0
  {
    hide Reachable, Ether.ToEther, Paid;
    assert PriceCache.ToLower("0xb") == "0xb";
    var c := TwoDeposits("0xb", true);
    assert HasDefault(c.policies) by { assert c.policies[0].matchAll; }
    var s := Ingested(c, "0xb", true);
    s := Restart(c, s);
    s := CommitOne(c, true, s, s.t.deposits[0]);
    s := Deliver(c, s, false);
    var tx := Transfer(0, FIRST);
    assert HasReceipt(s.chain, HashOf(tx)) by { assert HashOf(s.chain.mined[0].tx) == HashOf(tx); }
    s := CheckOnly(c, s, tx);
    FailedPaysNothing(tx);
    assert s.chain.mined == [Receipt(tx, false)];
  }
}
