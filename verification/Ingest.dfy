/**
  What the deposit ingester computes (internal/services/datasync.go): the target
  height, the chunks of one round, and the rows formatted from the bridge's events.
 */
module Ingest {
  import opened Data
  import opened Ether
  import PriceCache

  const UINT64: int := 0x1_0000_0000_0000_0000
  const ETHER_L2_ADDRESS: string := "0x420000000000000000000000000000000000000a"
  const METIS_L2_ADDRESS: string := "0xdeaddeaddeaddeaddeaddeaddeaddeaddead0000"

  datatype Erc20Event = Erc20Event(block: nat, txid: string, l1token: Address, l2token: Address,
                                   from: Address, to: Address, amount: nat)
  datatype EthEvent = EthEvent(block: nat, txid: string, from: Address, to: Address, amount: nat)

  /** The confirmed L1 chain: the bridge's deposit events of each block. */
  datatype L1 = L1(erc20: nat -> seq<Erc20Event>, eth: nat -> seq<EthEvent>)

  // ----- Target height and chunks -----

  /** tryToSync: the head minus the confirmation depth, or the head itself when it is not deeper. */
  function Target(head: nat, confirmations: nat): nat {
    if head > confirmations then head - confirmations else head
  }

  /**
    A head deeper than the confirmation depth leaves exactly that many blocks out, any other none:
    so the depth is kept exactly when the head is deeper than it (or it is zero).
   */
  lemma ConfirmedIff(head: nat, confirmations: nat)
    ensures head > confirmations ==> Target(head, confirmations) + confirmations == head
    ensures head <= confirmations ==> Target(head, confirmations) == head
    ensures Target(head, confirmations) + confirmations <= head <==> head > confirmations || confirmations == 0
  {}

  /** End of the chunk that starts at height, with the wrap-around of uint64 addition. */
  function ChunkEnd(height: nat, rangeSync: nat, target: nat): nat {
    var end := (height + rangeSync) % UINT64;
    if end > target then target else end
  }

  /** Without wrap-around the chunk goes forward; with it, it ends before it starts. */
  lemma ChunkEndIff(height: nat, rangeSync: nat, target: nat)
    requires height < target < UINT64 && rangeSync < UINT64
    ensures height + rangeSync < UINT64 ==>
              height <= ChunkEnd(height, rangeSync, target) <= target
              && ChunkEnd(height, rangeSync, target) <= height + rangeSync
    ensures ChunkEnd(height, rangeSync, target) >= height <==> height + rangeSync < UINT64
  {
    if height + rangeSync >= UINT64 {
      assert (height + rangeSync) % UINT64 == height + rangeSync - UINT64;
    }
  }

  /** With the largest range, a chunk from block 10 on towards block 100 ends at block 9. */
  lemma ChunkWrapExample()
    ensures ChunkEnd(10, UINT64 - 1, 100) == 9
  {
    assert (10 + (UINT64 - 1)) % UINT64 == 9;
  }

  /** The chunks of one error-free round from height up to target. */
  function Plan(height: nat, rangeSync: nat, target: nat): seq<(nat, nat)>
    requires target + rangeSync < UINT64
    decreases target - height
  {
    if height >= target then [] else
      var end := ChunkEnd(height, rangeSync, target);
      [(height, end)] + Plan(end + 1, rangeSync, target)
  }

  /** Where the round leaves the in-memory height. */
  function PlanEnd(height: nat, rangeSync: nat, target: nat): nat
    requires target + rangeSync < UINT64
  {
    var plan := Plan(height, rangeSync, target);
    if plan == [] then height else plan[|plan| - 1].1 + 1
  }

  /** Whether the chunks are consecutive, non-empty block intervals from lo to hi - 1. */
  ghost predicate Tiles(plan: seq<(nat, nat)>, lo: nat, hi: nat) {
    if plan == [] then lo == hi
    else plan[0].0 == lo && lo <= plan[0].1 && Tiles(plan[1..], plan[0].1 + 1, hi)
  }

  lemma {:induction false} PlanTiles(height: nat, rangeSync: nat, target: nat)
    requires target + rangeSync < UINT64
    ensures Tiles(Plan(height, rangeSync, target), height, PlanEnd(height, rangeSync, target))
    ensures forall i :: 0 <= i < |Plan(height, rangeSync, target)| ==>
              Plan(height, rangeSync, target)[i].1 <= target
    decreases target - height
  {
    if height < target {
      var end := ChunkEnd(height, rangeSync, target);
      var rest := Plan(end + 1, rangeSync, target);
      PlanTiles(end + 1, rangeSync, target);
      assert Plan(height, rangeSync, target)[1..] == rest;
    }
  }

  lemma DivideStep(x: nat, m: nat)
    requires m > 0
    ensures (x + m) / m == x / m + 1 && (x + m) % m == x % m
  {
    var c, r := x / m, x % m;
    assert x + m == (c + 1) * m + r;
    RemainderUnique(x + m, m, c + 1, r);
  }

  lemma ChunkEndNoWrap(height: nat, rangeSync: nat, target: nat)
    requires height < target && target + rangeSync < UINT64
    ensures ChunkEnd(height, rangeSync, target) == if height + rangeSync > target then target else height + rangeSync
  {}

  /**
    A round makes exactly ceil((target - height) / (rangeSync + 1)) chunks and stops one past
    the target, or on it when the chunks divide the distance evenly.
   */
  lemma {:induction false} PlanCount(height: nat, rangeSync: nat, target: nat)
    requires height < target && target + rangeSync < UINT64
    ensures |Plan(height, rangeSync, target)| == (target - height + rangeSync) / (rangeSync + 1)
    ensures PlanEnd(height, rangeSync, target)
            == if (target - height) % (rangeSync + 1) == 0 then target else target + 1
    decreases target - height
  {
    hide ChunkEnd;
    var m, d := rangeSync + 1, target - height;
    ChunkEndNoWrap(height, rangeSync, target);
    var next := ChunkEnd(height, rangeSync, target) + 1;
    var rest := Plan(next, rangeSync, target);
    if d <= rangeSync {
      RemainderUnique(d - 1, m, 0, d - 1);
      RemainderUnique(d, m, 0, d);
      DivideStep(d - 1, m);
    } else if d == m {
      RemainderUnique(rangeSync, m, 0, rangeSync);
      RemainderUnique(m, m, 1, 0);
      DivideStep(rangeSync, m);
    } else {
      PlanCount(next, rangeSync, target);
      DivideStep(d - m, m);
      DivideStep(d - m + rangeSync, m);
    }
  }

  // ----- Formatting events -----

  function FormatErc20(dripHeight: nat, event: Erc20Event): NewDeposit {
    var l2token := PriceCache.ToLower(event.l2token);
    var status := if l2token == METIS_L2_ADDRESS then Ignore else Unprocessed;
    NewDeposit(
      Row(event.block, event.txid, PriceCache.ToLower(event.l1token), l2token,
          PriceCache.ToLower(event.from), PriceCache.ToLower(event.to), event.amount),
      if dripHeight > event.block then Ignore else status)
  }

  function FormatEth(dripHeight: nat, event: EthEvent): NewDeposit {
    NewDeposit(
      Row(event.block, event.txid, PriceCache.ETHER_L1_ADDRESS, ETHER_L2_ADDRESS,
          PriceCache.ToLower(event.from), PriceCache.ToLower(event.to), event.amount),
      if dripHeight > event.block then Ignore else Unprocessed)
  }

  /** May a deposit with this row ever get a drip? */
  predicate Eligible(dripHeight: nat, row: Row) {
    dripHeight <= row.height && row.l2token != METIS_L2_ADDRESS
  }

  /** Both formatters agree on one rule: ignored from the start exactly when not eligible. */
  lemma FormatStatus(dripHeight: nat, erc20: Erc20Event, eth: EthEvent)
    ensures var d := FormatErc20(dripHeight, erc20);
            d.status == if Eligible(dripHeight, d.row) then Unprocessed else Ignore
    ensures var d := FormatEth(dripHeight, eth);
            d.status == if Eligible(dripHeight, d.row) then Unprocessed else Ignore
  {
    assert ETHER_L2_ADDRESS[2] != METIS_L2_ADDRESS[2];
  }

  /** The events of n blocks from lo on, in block order: what the log filter returns. */
  function Collect<E>(events: nat -> seq<E>, lo: nat, n: nat): seq<E> {
    if n == 0 then [] else Collect(events, lo, n - 1) + events(lo + n - 1)
  }

  function Erc20Deposits(dripHeight: nat, events: seq<Erc20Event>): (r: seq<NewDeposit>)
    ensures |r| == |events| && forall i :: 0 <= i < |r| ==> r[i] == FormatErc20(dripHeight, events[i])
  {
    seq(|events|, i requires 0 <= i < |events| => FormatErc20(dripHeight, events[i]))
  }

  function EthDeposits(dripHeight: nat, events: seq<EthEvent>): (r: seq<NewDeposit>)
    ensures |r| == |events| && forall i :: 0 <= i < |r| ==> r[i] == FormatEth(dripHeight, events[i])
  {
    seq(|events|, i requires 0 <= i < |events| => FormatEth(dripHeight, events[i]))
  }

  /** syncWithRange: all ERC20 deposits of the range, then all ether deposits. */
  function ChunkDeposits(l1: L1, dripHeight: nat, lo: nat, n: nat): seq<NewDeposit> {
    Erc20Deposits(dripHeight, Collect(l1.erc20, lo, n)) + EthDeposits(dripHeight, Collect(l1.eth, lo, n))
  }

  /** Rows are stored in this order: the ERC20 events by block, then the ether events by block. */
  lemma {:induction false} CollectedAt<E>(events: nat -> seq<E>, lo: nat, n: nat, block: nat, k: nat)
    requires lo <= block < lo + n && k < |events(block)|
    ensures var before := |Collect(events, lo, block - lo)|;
            before + k < |Collect(events, lo, n)| && Collect(events, lo, n)[before + k] == events(block)[k]
  {
    if block < lo + n - 1 {
      CollectedAt(events, lo, n - 1, block, k);
    }
  }

  lemma StoredOrder(l1: L1, dripHeight: nat, lo: nat, n: nat, block: nat, k: nat)
    requires lo <= block < lo + n
    ensures k < |l1.erc20(block)| ==>
              var at := |Collect(l1.erc20, lo, block - lo)| + k;
              at < |ChunkDeposits(l1, dripHeight, lo, n)|
              && RecordsErc20(ChunkDeposits(l1, dripHeight, lo, n)[at].row, l1.erc20(block)[k])
    ensures k < |l1.eth(block)| ==>
              var at := |Collect(l1.erc20, lo, n)| + |Collect(l1.eth, lo, block - lo)| + k;
              at < |ChunkDeposits(l1, dripHeight, lo, n)|
              && RecordsEth(ChunkDeposits(l1, dripHeight, lo, n)[at].row, l1.eth(block)[k])
  {
    hide PriceCache.ToLower;
    if k < |l1.erc20(block)| { CollectedAt(l1.erc20, lo, n, block, k); }
    if k < |l1.eth(block)| { CollectedAt(l1.eth, lo, n, block, k); }
  }

  lemma ChunkStatus(l1: L1, dripHeight: nat, lo: nat, n: nat)
    ensures forall d :: d in ChunkDeposits(l1, dripHeight, lo, n) ==>
              d.status == if Eligible(dripHeight, d.row) then Unprocessed else Ignore
  {
    var es, hs := Collect(l1.erc20, lo, n), Collect(l1.eth, lo, n);
    forall i | 0 <= i < |es| ensures var d := FormatErc20(dripHeight, es[i]);
        d.status == if Eligible(dripHeight, d.row) then Unprocessed else Ignore {
      FormatStatus(dripHeight, es[i], EthEvent(0, "", "", "", 0));
    }
    forall i | 0 <= i < |hs| ensures var d := FormatEth(dripHeight, hs[i]);
        d.status == if Eligible(dripHeight, d.row) then Unprocessed else Ignore {
      FormatStatus(dripHeight, Erc20Event(0, "", "", "", "", "", 0), hs[i]);
    }
  }

  // ----- The reference: one pass over the chain, block by block -----

  /** The rows of all deposit events in one block. */
  function BlockRows(l1: L1, dripHeight: nat, block: nat): multiset<Row> {
    multiset(NewRows(Erc20Deposits(dripHeight, l1.erc20(block))))
    + multiset(NewRows(EthDeposits(dripHeight, l1.eth(block))))
  }

  /** The rows of all deposit events in n blocks from lo on. */
  function Pass(l1: L1, dripHeight: nat, lo: nat, n: nat): multiset<Row> {
    if n == 0 then multiset{} else Pass(l1, dripHeight, lo, n - 1) + BlockRows(l1, dripHeight, lo + n - 1)
  }

  lemma {:induction false} ChunkIsPass(l1: L1, dripHeight: nat, lo: nat, n: nat)
    ensures multiset(NewRows(ChunkDeposits(l1, dripHeight, lo, n))) == Pass(l1, dripHeight, lo, n)
  {
    hide ChunkDeposits, NewRows, Erc20Deposits, EthDeposits;
    if n == 0 {
      EmptyChunk(l1, dripHeight, lo);
    } else {
      ChunkIsPass(l1, dripHeight, lo, n - 1);
      ChunkSnoc(l1, dripHeight, lo, n);
    }
  }

  lemma EmptyChunk(l1: L1, dripHeight: nat, lo: nat)
    ensures NewRows(ChunkDeposits(l1, dripHeight, lo, 0)) == []
  {}

  /** One more block adds its rows: its ERC20 rows in the middle, its ether rows at the end. */
  lemma ChunkSnoc(l1: L1, dripHeight: nat, lo: nat, n: nat)
    requires n > 0
    ensures multiset(NewRows(ChunkDeposits(l1, dripHeight, lo, n)))
            == multiset(NewRows(ChunkDeposits(l1, dripHeight, lo, n - 1))) + BlockRows(l1, dripHeight, lo + n - 1)
  {
    hide NewRows, Erc20Deposits, EthDeposits;
    var a, b := Collect(l1.erc20, lo, n - 1), Collect(l1.eth, lo, n - 1);
    var da, db := l1.erc20(lo + n - 1), l1.eth(lo + n - 1);
    FormatConcat(dripHeight, a, da, b, db);
    ShuffleRows(Erc20Deposits(dripHeight, a), Erc20Deposits(dripHeight, da),
                EthDeposits(dripHeight, b), EthDeposits(dripHeight, db));
  }

  lemma ShuffleRows(a: seq<NewDeposit>, da: seq<NewDeposit>, b: seq<NewDeposit>, db: seq<NewDeposit>)
    ensures multiset(NewRows((a + da) + (b + db)))
            == multiset(NewRows(a + b)) + (multiset(NewRows(da)) + multiset(NewRows(db)))
  {
    hide NewRows;
    RowsConcat(a + da, b + db);
    RowsConcat(a, da);
    RowsConcat(b, db);
    RowsConcat(a, b);
    Shuffle(NewRows(a), NewRows(da), NewRows(b), NewRows(db));
  }

  lemma Shuffle<T>(a: seq<T>, da: seq<T>, b: seq<T>, db: seq<T>)
    ensures multiset((a + da) + (b + db)) == multiset(a + b) + (multiset(da) + multiset(db))
  {}

  lemma RowsConcat(x: seq<NewDeposit>, y: seq<NewDeposit>)
    ensures NewRows(x + y) == NewRows(x) + NewRows(y)
  {}

  lemma FormatConcat(dripHeight: nat, a: seq<Erc20Event>, da: seq<Erc20Event>, b: seq<EthEvent>, db: seq<EthEvent>)
    ensures Erc20Deposits(dripHeight, a + da) == Erc20Deposits(dripHeight, a) + Erc20Deposits(dripHeight, da)
    ensures EthDeposits(dripHeight, b + db) == EthDeposits(dripHeight, b) + EthDeposits(dripHeight, db)
  {
    hide FormatErc20, FormatEth;
  }

  lemma {:induction false} PassSplit(l1: L1, dripHeight: nat, lo: nat, m: nat, n: nat)
    ensures Pass(l1, dripHeight, lo, m + n) == Pass(l1, dripHeight, lo, m) + Pass(l1, dripHeight, lo + m, n)
    decreases n
  {
    hide BlockRows;
    if n > 0 {
      PassSplit(l1, dripHeight, lo, m, n - 1);
      assert lo + (m + n) - 1 == (lo + m) + n - 1;
    }
  }

  // ----- Every row comes from an event -----

  /** The row records this event: same block, transaction and amount, addresses in lower case. */
  predicate RecordsErc20(row: Row, event: Erc20Event) {
    && row.height == event.block && row.txid == event.txid && row.amount == event.amount
    && row.to == PriceCache.ToLower(event.to) && row.from == PriceCache.ToLower(event.from)
    && row.l1token == PriceCache.ToLower(event.l1token) && row.l2token == PriceCache.ToLower(event.l2token)
  }

  predicate RecordsEth(row: Row, event: EthEvent) {
    && row.height == event.block && row.txid == event.txid && row.amount == event.amount
    && row.to == PriceCache.ToLower(event.to) && row.from == PriceCache.ToLower(event.from)
    && row.l1token == PriceCache.ETHER_L1_ADDRESS && row.l2token == ETHER_L2_ADDRESS
  }

  /** Some deposit event of this block is what the row records. */
  ghost predicate Traced(l1: L1, block: nat, row: Row) {
    || (exists k :: 0 <= k < |l1.erc20(block)| && RecordsErc20(row, l1.erc20(block)[k]))
    || (exists k :: 0 <= k < |l1.eth(block)| && RecordsEth(row, l1.eth(block)[k]))
  }

  /** The log filter reports each event under its own block. */
  ghost predicate ByBlock(l1: L1) {
    && (forall b: nat, k :: 0 <= k < |l1.erc20(b)| ==> l1.erc20(b)[k].block == b)
    && (forall b: nat, k :: 0 <= k < |l1.eth(b)| ==> l1.eth(b)[k].block == b)
  }

  lemma TracedHeight(l1: L1, block: nat, row: Row)
    requires ByBlock(l1) && Traced(l1, block, row)
    ensures row.height == block
  {}

  lemma BlockTraced(l1: L1, dripHeight: nat, block: nat, row: Row)
    requires row in BlockRows(l1, dripHeight, block)
    ensures Traced(l1, block, row)
  {
    var xs, hs := NewRows(Erc20Deposits(dripHeight, l1.erc20(block))), NewRows(EthDeposits(dripHeight, l1.eth(block)));
    if row in xs {
      var k :| 0 <= k < |xs| && xs[k] == row;
      assert RecordsErc20(row, l1.erc20(block)[k]);
    } else {
      assert row in hs;
      var k :| 0 <= k < |hs| && hs[k] == row;
      assert RecordsEth(row, l1.eth(block)[k]);
    }
  }

  lemma {:induction false} PassTraced(l1: L1, dripHeight: nat, lo: nat, n: nat, row: Row)
    requires row in Pass(l1, dripHeight, lo, n)
    ensures exists b: nat :: lo <= b < lo + n && Traced(l1, b, row)
  {
    hide BlockRows, Traced;
    if row in Pass(l1, dripHeight, lo, n - 1) {
      PassTraced(l1, dripHeight, lo, n - 1, row);
    } else {
      BlockTraced(l1, dripHeight, lo + n - 1, row);
    }
  }
}
