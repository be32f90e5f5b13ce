/**
  A concrete history that blocks the check query for good: twenty lost deposits, a mined one, and
  one whose broadcast was refused, under a policy with both checks for new users.
 */
module Backlog {
  import opened Data
  import opened Ingest
  import opened Policy
  import opened Protocol
  import opened Invariant
  import opened Nonces
  import opened Liveness
  import opened Payments
  import opened Restarts
  import opened Blocking
  import Ether
  import PriceCache

  /** Recipients of different lengths. */
  function Recipient(k: nat): (r: Address)
    ensures |r| == k + 1 && PriceCache.ToLower(r) == r
  {
    seq(k + 1, _ => 'a')
  }

  function Event(k: nat): EthEvent { EthEvent(0, "0x0", Recipient(k), Recipient(k), 10) }

  /** n ether deposits in block 0, each to its own recipient. */
  function ManyDeposits(n: nat): Config {
    Config(L1(_ => [], block => if block == 0 then seq(n, k requires 0 <= k < n => Event(k)) else []),
           0, 5, 0, 0, [CatchAll(true)], "0xf", 5, 1.0, 0)
  }

  lemma CollectMany(c: Config, n: nat)
    requires c == ManyDeposits(n)
    ensures Collect(c.l1.erc20, 0, 2) == []
    ensures var events := Collect(c.l1.eth, 0, 2); |events| == n && forall k :: 0 <= k < n ==> events[k] == Event(k)
  {
    hide Event;
    assert Collect(c.l1.eth, 0, 1) == c.l1.eth(0);
    assert Collect(c.l1.eth, 0, 2) == c.l1.eth(0);
    assert Collect(c.l1.erc20, 0, 1) == [];
  }

  predicate StoresEvent(d: NewDeposit, k: nat) {
    d.row.l2token == ETHER_L2_ADDRESS && d.row.to == Recipient(k) && d.status == Unprocessed
  }

  lemma FormatsTo(k: nat)
    ensures StoresEvent(FormatEth(0, Event(k)), k)
  {
    hide Recipient, PriceCache.ToLower;
  }

  lemma ChunkOfMany(c: Config, n: nat)
    requires c == ManyDeposits(n)
    ensures var items := ChunkDeposits(c.l1, 0, 0, 2); |items| == n && forall k :: 0 <= k < n ==> StoresEvent(items[k], k)
  {
    hide ManyDeposits, Event, FormatEth, FormatErc20, Collect, Recipient, StoresEvent;
    CollectMany(c, n);
    forall k: nat | k < n ensures StoresEvent(FormatEth(0, Event(k)), k) { FormatsTo(k); }
  }

  /** The first j deposits have a drip with nonce 0 that was never sent. */
  ghost predicate Piled(c: Config, s: Sys, n: nat, j: nat) {
    && Reachable(c, s) && |s.t.deposits| == n && j <= n && s.chain == Chain(0, {}, [])
    && (forall i :: 0 <= i < n ==> s.t.deposits[i].id == i && s.t.deposits[i].row.to == Recipient(i)
                                   && s.t.deposits[i].row.l2token == ETHER_L2_ADDRESS
                                   && s.t.deposits[i].status == if i < j then Processing else Unprocessed)
    && (forall p :: p in s.t.drips <==> 0 <= p < j)
    && (forall p :: p in s.t.drips ==> s.t.drips[p] == MakeDrip(p, c.account, Transfer(0, Recipient(p))))
  }

  lemma NonePiled(c: Config, n: nat) returns (s: Sys)
    requires c == ManyDeposits(n)
    ensures Piled(c, s, n, 0)
  {
    hide ChunkDeposits, Recipient;
    s := Init(c);
    assert EndsIn(c, [], s);
    ReachNext(c, s, Prefight);
    s := Next(c, s, Prefight);
    ReachNext(c, s, SyncStart(1));
    s := Next(c, s, SyncStart(1));
    assert ChunkEnd(0, 5, 1) == 1;
    ChunkOfMany(c, n);
    var ctimes := seq(n, _ => 0);
    ReachNext(c, s, SyncChunk(ctimes));
    s := Next(c, s, SyncChunk(ctimes));
  }

  /** A start, the commit of one more drip, and a stop before it is sent. */
  lemma PileOne(c: Config, s: Sys, n: nat, j: nat) returns (m: Sys)
    requires c == ManyDeposits(n) && Piled(c, s, n, j) && j < n
    ensures Piled(c, m, n, j + 1)
  {
    hide Reachable, Ether.ToEther, Recipient;
    CatchAllDefault(c, n);
    m := Restart(c, s);
    forall p | p in m.t.drips ensures m.t.drips[p].to != m.t.deposits[j].row.to { Differ(p, j); }
    m := CommitOne(c, true, m, m.t.deposits[j]);
  }

  lemma Differ(p: nat, j: nat)
    requires p != j
    ensures Recipient(p) != Recipient(j)
  {
    assert |Recipient(p)| != |Recipient(j)|;
  }

  lemma CatchAllDefault(c: Config, n: nat)
    requires c == ManyDeposits(n)
    ensures HasDefault(c.policies) && Plain(c, true) && AllCheckFirst(c)
  {
    assert c.policies[0].matchAll;
  }

  lemma {:induction false} PileUp(c: Config, n: nat, j: nat) returns (s: Sys)
    requires c == ManyDeposits(n) && j <= n
    ensures Piled(c, s, n, j)
  {
    hide Piled, ManyDeposits;
    if j == 0 {
      s := NonePiled(c, n);
    } else {
      s := PileUp(c, n, j - 1);
      s := PileOne(c, s, n, j - 1);
    }
  }

  /** Twenty lost deposits below number 20, which is mined, and number 21 committed but refused by the node. */
  ghost predicate Jammed(c: Config, s: Sys) {
    && Reachable(c, s) && s.faucet.On? && s.faucet.phase.Idle? && |s.t.deposits| == 22
    && (forall i :: 0 <= i < 22 ==> s.t.deposits[i].status == Processing && i in s.t.drips)
    && (forall p: nat :: p in s.t.drips ==>
          s.t.drips[p] == MakeDrip(p, c.account, Transfer(if p == 21 then 1 else 0, Recipient(p))))
    && s.chain == Chain(1, {Transfer(0, Recipient(20))}, [Receipt(Transfer(0, Recipient(20)), true)])
  }

  /** The same before number 21 was committed. */
  ghost predicate HalfJammed(c: Config, s: Sys) {
    && Reachable(c, s) && |s.t.deposits| == 22
    && (forall i :: 0 <= i < 22 ==> s.t.deposits[i].id == i && s.t.deposits[i].row.to == Recipient(i)
                                    && s.t.deposits[i].row.l2token == ETHER_L2_ADDRESS
                                    && s.t.deposits[i].status == if i < 21 then Processing else Unprocessed)
    && (forall p :: p in s.t.drips <==> 0 <= p < 21)
    && (forall p :: p in s.t.drips ==> s.t.drips[p] == MakeDrip(p, c.account, Transfer(0, Recipient(p))))
    && s.chain == Chain(1, {Transfer(0, Recipient(20))}, [Receipt(Transfer(0, Recipient(20)), true)])
  }

  lemma HalfJam(c: Config) returns (s: Sys)
    requires c == ManyDeposits(22)
    ensures HalfJammed(c, s)
  {
    hide Reachable, Ether.ToEther, Recipient;
    CatchAllDefault(c, 22);
    s := PileUp(c, 22, 20);
    s := Restart(c, s);
    forall p | p in s.t.drips ensures s.t.drips[p].to != s.t.deposits[20].row.to { Differ(p, 20); }
    s := CommitOne(c, true, s, s.t.deposits[20]);
    s := Deliver(c, s, true);
  }

  lemma Jam(c: Config) returns (s: Sys)
    requires c == ManyDeposits(22)
    ensures Jammed(c, s)
  {
    hide Reachable, Ether.ToEther, Recipient, ManyDeposits;
    CatchAllDefault(c, 22);
    s := HalfJam(c);
    s := Restart(c, s);
    forall p | p in s.t.drips ensures s.t.drips[p].to != s.t.deposits[21].row.to { Differ(p, 21); }
    s := CommitOne(c, true, s, s.t.deposits[21]);
    s := Refuse(c, s);
  }

  /** The node refuses the broadcast of what has been committed. */
  lemma Refuse(c: Config, s: Sys) returns (n: Sys)
    requires Reachable(c, s) && s.faucet.On? && s.faucet.phase.Committed?
    ensures Reachable(c, n) && n.t == s.t && n.chain == s.chain && n.faucet.On? && n.faucet.phase.Idle?
  {
    ReachNext(c, s, BumpNonce);
    n := Next(c, s, BumpNonce);
    ReachNext(c, n, Broadcast(false, false));
    n := Next(c, n, Broadcast(false, false));
  }

  lemma JammedLost(c: Config, s: Sys, p: nat)
    requires Jammed(c, s) && p < 20
    ensures Lost(s, p)
  {
    hide Reachable, Ether.ToEther, Recipient;
    Differ(p, 20);
  }

  function Firsts(k: nat): (r: set<nat>)
    ensures |r| == k && forall i: nat :: i in r <==> i < k
  {
    if k == 0 then {} else Firsts(k - 1) + {k - 1}
  }

  lemma FirstsLost(s: Sys, k: nat, p: nat)
    requires k <= p && forall i: nat :: i < k ==> Lost(s, i)
    ensures |LostIds(s, p)| >= k
  {
    hide Lost;
    SubsetSize(Firsts(k), LostIds(s, p));
  }

  lemma JammedUnsent(c: Config, s: Sys)
    requires Jammed(c, s)
    ensures IsProcessing(s.t, 21) && NotChecked(s, 21) && Unsent(s, 21) && !Lost(s, 21) && !MinedAs(s, 21, false)
  {
    hide Reachable, Ether.ToEther, Recipient;
  }

  lemma JammedBlocked(c: Config, s: Sys)
    requires Jammed(c, s)
    ensures Blocked(s, 21) && Unsent(s, 21) && !Lost(s, 21) && !MinedAs(s, 21, false)
  {
    hide Jammed, Lost, LostIds, Unsent, MinedAs, NotChecked;
    forall i: nat | i < 20 ensures Lost(s, i) { JammedLost(c, s, i); }
    FirstsLost(s, 20, 21);
    JammedUnsent(c, s);
  }

  /**
    Deposit 21 is neither lost nor failed, and it could be paid if the query returned it; but in every
    future in which check queries return rows by id, it stays Processing, unsent and unpaid.
   */
  lemma BlockedHistory()
    ensures exists c, s :: Reachable(c, s) && AllCheckFirst(c) && Blocked(s, 21) && Unsent(s, 21)
              && !Lost(s, 21) && !MinedAs(s, 21, false)
              && (exists n :: Leads(c, s, n) && MinedAs(n, 21, true))
              && forall run | LegalFrom(c, s, run) && WindowRun(c, s, run) ::
                   Blocked(After(c, s, run), 21) && Unsent(After(c, s, run), 21) && !MinedAs(After(c, s, run), 21, true)
  {
    hide Inv, Reachable, ManyDeposits, AllCheckFirst, Blocked, Unsent, Lost, MinedAs, Leads, WindowRun;
    var c := ManyDeposits(22);
    var s := Jam(c);
    CatchAllDefault(c, 22);
    JammedBlocked(c, s);
    JammedReachable(c, s);
    ReachableInv(c, s);
    PayableIff(c, s, 21);
    forall run | LegalFrom(c, s, run) && WindowRun(c, s, run)
      ensures Blocked(After(c, s, run), 21) && Unsent(After(c, s, run), 21) && !MinedAs(After(c, s, run), 21, true)
    {
      BlockedForever(c, s, run, 21);
      BlockedUnpaid(c, s, run, 21);
    }
  }

  lemma JammedReachable(c: Config, s: Sys)
    requires Jammed(c, s)
    ensures Reachable(c, s) && 21 < |s.t.deposits| && s.t.deposits[21].status == Processing
  {}
}
