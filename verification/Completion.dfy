/**
  Completion: once the faucet is settled, every pending drip becomes Done after at most two complete
  check rounds each, whatever the ingester, the chain and the sending of new drips do in between.
 */
module Completion {
  import opened Data
  import opened Ingest
  import opened Policy
  import opened Protocol
  import opened Invariant
  import opened Nonces
  import opened Safety
  import opened Liveness
  import Ether

  /** What completion starts from: no unmined drip was left behind by a restart, and drips follow deposit ids. */
  ghost predicate Settled(c: Config, s: Sys) {
    Inv(c, s) && Contiguous(c, s) && LogOrdered(s) && s.faucet.On? && s.faucet.phase.Idle?
  }

  /** Clean restarts and id-ordered queries lead to a settled state, whatever else failed on the way. */
  lemma SettledAfter(c: Config, run: seq<Action>)
    requires Legal(c, run) && CleanRestarts(c, Init(c), run) && OrderedRun(c, Init(c), run)
    requires var s := After(c, Init(c), run); s.faucet.On? && s.faucet.phase.Idle?
    ensures Settled(c, After(c, Init(c), run))
  {
    hide Inv, Enabled, Next, Contiguous, LogOrdered;
    CleanRunContiguous(c, run);
    OrderedRunOrdered(c, run);
    InitInv(c);
    RunFromInv(c, Init(c), run);
  }

  /** If the lowest pending drip is not mined yet, it is its turn. */
  lemma LowestIsNext(c: Config, s: Sys, p: nat)
    requires Settled(c, s) && Lowest(s.t, p) && !Confirmed(s, p)
    ensures p in s.t.drips && s.t.drips[p].rawtx.tx.nonce == s.chain.nonce
    ensures forall q :: q in s.t.drips && s.t.drips[q].rawtx.tx.nonce == s.chain.nonce ==> q == p
  {
    hide Ether.ToEther, DecisionsOk, NonceOk, PhaseOk, HeightOk, Passes;
    var k :| 0 <= k < |s.log| && s.log[k].pid == p;
    MinedPrefix(c, s);
    assert DripOk(c, s.t.deposits[p], s.t.drips[p]);
    if |s.chain.mined| > k {
      MinedIsKth(c, s, k);
      assert false;
    }
    if k > 0 { EarlierMined(c, s, p, k); }
    forall q | q in s.t.drips && s.t.drips[q].rawtx.tx.nonce == s.chain.nonce ensures q == p {
      var j :| 0 <= j < |s.log| && s.log[j].pid == q;
      assert TxOf(s, j).nonce == c.genesis + j;
    }
  }

  lemma EarlierMined(c: Config, s: Sys, p: nat, k: nat)
    requires Settled(c, s) && Lowest(s.t, p) && 0 < k < |s.log| && s.log[k].pid == p
    ensures |s.chain.mined| >= k
  {
    hide Ether.ToEther, DecisionsOk, NonceOk, PhaseOk, HeightOk, Passes;
    var q := s.log[k - 1].pid;
    assert q < p && s.t.deposits[q].status == Done;
    var i :| 0 <= i < |s.chain.mined| && HashOf(s.chain.mined[i].tx) == s.t.drips[q].txid;
    assert DripOk(c, s.t.deposits[q], s.t.drips[q]);
    assert s.chain.mined[i].tx == TxOf(s, k - 1);
    assert s.chain.mined[i].tx.nonce == c.genesis + i;
  }

  // ----- Check rounds -----

  /** The process has not been restarted, and its nonce is the same. */
  ghost predicate SameLife(s: Sys, n: Sys) {
    && s.faucet.On? && n.faucet.On?
    && n.faucet.n0 == s.faucet.n0 && n.faucet.base == s.faucet.base && n.faucet.nonce == s.faucet.nonce
  }

  /** Only Processing deposits with a mined transaction became Done, and only stored transactions were sent. */
  ghost predicate Checked(s: Sys, n: Sys) {
    && SameLife(s, n) && n.log == s.log
    && n.t.drips == s.t.drips && s.chain.mined <= n.chain.mined && s.chain.sent <= n.chain.sent
    && |s.t.deposits| <= |n.t.deposits|
    && (forall i :: 0 <= i < |s.t.deposits| ==>
          n.t.deposits[i] == s.t.deposits[i]
          || (s.t.deposits[i].status == Processing && n.t.deposits[i] == s.t.deposits[i].(status := Done)
              && Confirmed(n, i)))
    && (forall tx :: tx in n.chain.sent ==> tx in s.chain.sent || Stored(s.t, tx))
  }

  /** Drip i became Done, or was not mined when the round began and has been handed to the chain. */
  ghost predicate Handled(s: Sys, n: Sys, i: nat)
    requires i in s.t.drips && i < |n.t.deposits|
  {
    n.t.deposits[i].status == Done || (!Confirmed(s, i) && s.t.drips[i].rawtx.tx in n.chain.sent)
  }

  /** A round in which no call failed: every row of the window was handled. Ingester and chain may have gone on meanwhile. */
  ghost predicate CompleteRound(s: Sys, n: Sys) {
    && Checked(s, n) && n.faucet.phase.Idle?
    && forall i: nat :: InWindow(s.t, i) && i in s.t.drips ==> Handled(s, n, i)
  }

  /** One undisturbed round: each row of the window becomes Done if mined and is rebroadcast otherwise. */
  function CheckRound(s: Sys): Sys {
    var ds := s.t.deposits;
    s.(t := s.t.(deposits := seq(|ds|, i requires 0 <= i < |ds| =>
                   if InWindow(s.t, i) && Confirmed(s, i) then ds[i].(status := Done) else ds[i])),
       chain := s.chain.(sent := s.chain.sent +
                   set i | 0 <= i < |ds| && InWindow(s.t, i) && i in s.t.drips && !Confirmed(s, i) :: s.t.drips[i].rawtx.tx))
  }

  // ----- What happens between two rounds -----

  /** The chain has been given a transaction that it can mine next. */
  ghost predicate CanMine(s: Sys) { exists tx :: tx in s.chain.sent && tx.nonce == s.chain.nonce }

  predicate Mines(run: seq<Action>) { exists i :: 0 <= i < |run| && run[i].Mine? }

  /**
    Any number of steps of the ingester, the chain and the faucet itself, including batches of new
    drips, failed rounds and clean restarts; at least one transaction is mined if one can be.
   */
  ghost predicate IsGap(c: Config, s: Sys, run: seq<Action>) {
    && LegalFrom(c, s, run) && CleanRestarts(c, s, run) && OrderedRun(c, s, run)
    && (CanMine(s) ==> Mines(run))
    && After(c, s, run).faucet.On? && After(c, s, run).faucet.phase.Idle?
  }

  ghost predicate Gap(c: Config, s: Sys, n: Sys) { exists run :: IsGap(c, s, run) && After(c, s, run) == n }

  /** A complete check round, and what follows it until the next one. */
  ghost predicate Round(c: Config, s: Sys, n: Sys) { exists r :: Inv(c, r) && CompleteRound(s, r) && Gap(c, r, n) }

  lemma GapRun(c: Config, s: Sys, n: Sys) returns (run: seq<Action>)
    requires Gap(c, s, n)
    ensures IsGap(c, s, run) && LegalFrom(c, s, run) && After(c, s, run) == n
  {
    run :| IsGap(c, s, run) && After(c, s, run) == n;
  }

  lemma CheckSettled(c: Config, s: Sys, r: Sys)
    requires Settled(c, s) && Inv(c, r) && CompleteRound(s, r)
    ensures Settled(c, r)
  {
    hide Inv, InWindow, Confirmed;
    LogInTable(c, s);
    CheckKeepsOrder(s, r);
  }

  lemma CheckKeepsOrder(s: Sys, r: Sys)
    requires LogOrdered(s) && Checked(s, r)
    requires forall k :: 0 <= k < |s.log| ==> s.log[k].pid < |s.t.deposits|
    ensures LogOrdered(r)
  {
    hide Confirmed;
  }

  lemma GapSettled(c: Config, r: Sys, run: seq<Action>)
    requires Settled(c, r) && IsGap(c, r, run)
    ensures Settled(c, After(c, r, run))
  {
    hide Inv, Enabled, Next, Contiguous, LogOrdered;
    RunFromInv(c, r, run);
    RunContiguous(c, r, run);
    RunOrdered(c, r, run);
  }

  lemma {:induction false} RunMines(c: Config, s: Sys, run: seq<Action>)
    requires LegalFrom(c, s, run) && Mines(run)
    ensures |After(c, s, run).chain.mined| > |s.chain.mined|
    decreases |run|
  {
    hide Enabled, Next;
    var before, a := run[..|run| - 1], run[|run| - 1];
    RunGrows(c, s, before);
    if a.Mine? {
      MineAdds(c, After(c, s, before), a);
    } else {
      var i :| 0 <= i < |run| && run[i].Mine?;
      assert before[i].Mine?;
      RunMines(c, s, before);
      NextGrows(c, After(c, s, before), a);
    }
  }

  lemma MineAdds(c: Config, s: Sys, a: Action)
    requires Enabled(c, s, a) && a.Mine?
    ensures |Next(c, s, a).chain.mined| == |s.chain.mined| + 1
  {}

  /** Whatever the chain mines next is the drip whose turn it is. */
  lemma TurnIsMined(c: Config, r: Sys, n: Sys, p: nat)
    requires Settled(c, r) && Settled(c, n) && TablesGrow(r, n) && |n.chain.mined| > |r.chain.mined|
    requires p in r.t.drips && r.t.drips[p].rawtx.tx.nonce == r.chain.nonce
    ensures Confirmed(n, p)
  {
    hide Inv;
    ChainNonceIs(c, r);
    var k := Logged(c, r, p);
    assert TxOf(r, k).nonce == c.genesis + k;
    MinedIsKth(c, n, k);
    HashStored(c, n, p);
    assert HashOf(n.chain.mined[k].tx) == n.t.drips[p].txid;
  }

  // ----- The deposits pending at the start -----

  /** Below m everything is decided. */
  ghost predicate NoneOpen(t: Tables, m: nat) {
    m <= |t.deposits| && forall i :: 0 <= i < m ==> t.deposits[i].status != Unprocessed
  }

  function Pending(t: Tables, m: nat): nat
    requires m <= |t.deposits|
  {
    Count(t.deposits[..m], Processing)
  }

  /** Statuses below m as they were, or Processing become Done. */
  ghost predicate OnlyDone(t: Tables, n: Tables, m: nat)
    requires m <= |t.deposits| && m <= |n.deposits|
  {
    forall i :: 0 <= i < m ==>
      n.deposits[i].status == t.deposits[i].status || (t.deposits[i].status == Processing && n.deposits[i].status == Done)
  }

  lemma OnlyDoneFewer(t: Tables, n: Tables, m: nat)
    requires m <= |t.deposits| && m <= |n.deposits| && OnlyDone(t, n, m)
    ensures Pending(n, m) <= Pending(t, m)
    ensures (exists p :: 0 <= p < m && t.deposits[p].status == Processing && n.deposits[p].status == Done) ==>
              Pending(n, m) < Pending(t, m)
  {
    CountIsSize(t.deposits[..m], Processing);
    CountIsSize(n.deposits[..m], Processing);
    var before, after := IdsWith(t.deposits[..m], Processing), IdsWith(n.deposits[..m], Processing);
    SubsetSize(after, before);
    if p :| 0 <= p < m && t.deposits[p].status == Processing && n.deposits[p].status == Done {
      assert p in before && p !in after;
    }
  }

  lemma GapStatuses(c: Config, r: Sys, run: seq<Action>, m: nat)
    requires Settled(c, r) && IsGap(c, r, run) && NoneOpen(r.t, m)
    ensures var n := After(c, r, run); NoneOpen(n.t, m) && OnlyDone(r.t, n.t, m)
  {
    hide Inv, CleanRestarts, OrderedRun, Contiguous, LogOrdered;
    var n := After(c, r, run);
    forall i: nat | i < m
      ensures i < |n.t.deposits| && Later(r.t.deposits[i].status, n.t.deposits[i].status)
    {
      StatusForward(c, r, run, i);
    }
    RunGrows(c, r, run);
  }

  lemma RoundStatuses(c: Config, s: Sys, n: Sys, m: nat)
    requires Settled(c, s) && Round(c, s, n) && NoneOpen(s.t, m)
    ensures Settled(c, n) && NoneOpen(n.t, m) && OnlyDone(s.t, n.t, m)
  {
    hide Settled, Inv, IsGap, Confirmed, Handled;
    var r :| Inv(c, r) && CompleteRound(s, r) && Gap(c, r, n);
    var run := GapRun(c, r, n);
    CheckSettled(c, s, r);
    GapSettled(c, r, run);
    GapStatuses(c, r, run, m);
  }

  // ----- Bounded completion -----

  /** Twice the pending drips below m, less one if the lowest is already mined. */
  ghost function Distance(s: Sys, m: nat): nat
    requires m <= |s.t.deposits|
  {
    var n := Pending(s.t, m);
    if n > 0 && exists p :: Lowest(s.t, p) && Confirmed(s, p) then 2 * n - 1 else 2 * n
  }

  lemma UniqueLowest(s: Sys, p: nat)
    requires Lowest(s.t, p) && !Confirmed(s, p)
    ensures !exists q :: Lowest(s.t, q) && Confirmed(s, q)
  {
    forall q: nat | Lowest(s.t, q) ensures q == p {
      assert !(q < p) && !(p < q);
    }
  }

  lemma ConfirmedKept(s: Sys, n: Sys, p: nat)
    requires Confirmed(s, p) && p in n.t.drips && n.t.drips[p] == s.t.drips[p] && s.chain.mined <= n.chain.mined
    ensures Confirmed(n, p)
  {
    hide HasReceipt;
    ReceiptKept(s, n, s.t.drips[p].txid);
  }

  /** The lowest pending drip, once handed to the chain, is mined before the next round. */
  lemma LowestGetsMined(c: Config, r: Sys, run: seq<Action>, p: nat)
    requires Settled(c, r) && IsGap(c, r, run) && Lowest(r.t, p) && p in r.t.drips
    requires r.t.drips[p].rawtx.tx in r.chain.sent || Confirmed(r, p)
    ensures Confirmed(After(c, r, run), p)
  {
    hide Settled, Lowest, Confirmed, CleanRestarts, OrderedRun;
    var n := After(c, r, run);
    RunGrows(c, r, run);
    if Confirmed(r, p) {
      ConfirmedKept(r, n, p);
    } else {
      LowestIsNext(c, r, p);
      assert CanMine(r);
      RunMines(c, r, run);
      GapSettled(c, r, run);
      TurnIsMined(c, r, n, p);
    }
  }

  /** While drips are pending, each round brings completion closer. */
  lemma RoundProgress(c: Config, s: Sys, n: Sys, m: nat)
    requires Settled(c, s) && Round(c, s, n) && NoneOpen(s.t, m) && Pending(s.t, m) > 0
    ensures Settled(c, n) && m <= |n.t.deposits|
    ensures Distance(n, m) < Distance(s, m)
  {
    hide Settled, Inv, IsGap, Confirmed, InWindow, Lowest, Pending, Handled;
    var r :| Inv(c, r) && CompleteRound(s, r) && Gap(c, r, n);
    var run := GapRun(c, r, n);
    var p := LowestPending(c, s, m);
    RoundStatuses(c, s, n, m);
    OnlyDoneFewer(s.t, n.t, m);
    CheckSettled(c, s, r);
    if Confirmed(s, p) || r.t.deposits[p].status == Done {
      DoneStays(c, s, r, run, p);
    } else {
      UniqueLowest(s, p);
      StillLowest(c, s, r, n, run, p);
    }
  }

  lemma LowestPending(c: Config, s: Sys, m: nat) returns (p: nat)
    requires Settled(c, s) && m <= |s.t.deposits| && Pending(s.t, m) > 0
    ensures p < m && Lowest(s.t, p) && InWindow(s.t, p) && p in s.t.drips && s.t.deposits[p].status == Processing
  {
    hide InWindow, Contiguous, LogOrdered;
    p := LowestExists(s.t, m);
    LowestInWindow(s.t, p);
    DripsPaid(c, s);
  }

  lemma DoneStays(c: Config, s: Sys, r: Sys, run: seq<Action>, p: nat)
    requires Settled(c, r) && CompleteRound(s, r) && IsGap(c, r, run) && p in s.t.drips
    requires InWindow(s.t, p) && (Confirmed(s, p) || (p < |r.t.deposits| && r.t.deposits[p].status == Done))
    ensures p < |After(c, r, run).t.deposits| && After(c, r, run).t.deposits[p].status == Done
  {
    hide Inv, Confirmed, Count, Contiguous, LogOrdered, CleanRestarts, OrderedRun;
    assert Handled(s, r, p);
    StatusForward(c, r, run, p);
  }

  lemma StillLowest(c: Config, s: Sys, r: Sys, n: Sys, run: seq<Action>, p: nat)
    requires Settled(c, s) && Settled(c, r) && CompleteRound(s, r) && IsGap(c, r, run) && n == After(c, r, run)
    requires Lowest(s.t, p) && InWindow(s.t, p) && p in s.t.drips
    requires p < |n.t.deposits| && OnlyDone(s.t, n.t, p)
    requires r.t.deposits[p].status != Done
    ensures n.t.deposits[p].status == Done || (Lowest(n.t, p) && Confirmed(n, p))
  {
    hide Settled, IsGap, Confirmed, Count;
    assert Handled(s, r, p);
    assert Lowest(r.t, p);
    LowestGetsMined(c, r, run, p);
    KeptProcessing(c, r, run, p);
  }

  lemma KeptProcessing(c: Config, r: Sys, run: seq<Action>, p: nat)
    requires Settled(c, r) && IsGap(c, r, run) && p < |r.t.deposits| && r.t.deposits[p].status == Processing
    ensures p < |After(c, r, run).t.deposits| && After(c, r, run).t.deposits[p].status in {Processing, Done}
  {
    hide Inv, Contiguous, LogOrdered, CleanRestarts, OrderedRun;
    StatusForward(c, r, run, p);
  }

  lemma {:induction false} RoundsApproach(c: Config, states: seq<Sys>, k: nat, m: nat)
    requires k < |states| && Settled(c, states[0]) && NoneOpen(states[0].t, m)
    requires forall i :: 0 <= i < |states| - 1 ==> Round(c, states[i], states[i + 1])
    ensures Settled(c, states[k]) && NoneOpen(states[k].t, m) && OnlyDone(states[0].t, states[k].t, m)
    ensures Pending(states[k].t, m) == 0 || Distance(states[k], m) + k <= 2 * Pending(states[0].t, m)
  {
    hide Round, Settled, Distance, Pending;
    if k == 0 {
      DistanceBounds(states[0], m);
    } else {
      RoundsApproach(c, states, k - 1, m);
      var s, n := states[k - 1], states[k];
      assert Round(c, s, n);
      RoundStatuses(c, s, n, m);
      OnlyDoneFewer(s.t, n.t, m);
      if Pending(s.t, m) > 0 { RoundProgress(c, s, n, m); }
    }
  }

  lemma DistanceBounds(s: Sys, m: nat)
    requires m <= |s.t.deposits|
    ensures Distance(s, m) <= 2 * Pending(s.t, m)
    ensures Pending(s.t, m) > 0 ==> Distance(s, m) > 0
  {}

  /** All that has been committed lies below every undecided deposit. */
  lemma Frontier(c: Config, s: Sys) returns (m: nat)
    requires Settled(c, s)
    ensures NoneOpen(s.t, m) && Pending(s.t, m) == Count(s.t.deposits, Processing)
    ensures forall i :: 0 <= i < |s.t.deposits| && s.t.deposits[i].status == Processing ==> i < m
  {
    hide Inv, Contiguous, Count;
    LogInTable(c, s);
    m := if s.log == [] then 0 else s.log[|s.log| - 1].pid + 1;
    forall i | 0 <= i < |s.t.deposits| && s.t.deposits[i].status == Processing ensures i < m {
      DripsPaid(c, s);
      var k := Logged(c, s, i);
    }
    CountIsSize(s.t.deposits[..m], Processing);
    CountIsSize(s.t.deposits, Processing);
    assert IdsWith(s.t.deposits[..m], Processing) == IdsWith(s.t.deposits, Processing);
  }

  /**
    Repair and bounded completion: N pending drips are all Done after 2 * N complete check rounds,
    whichever broadcasts were lost before, as long as the chain mines something between two rounds
    when it can. Meanwhile deposits may be ingested, and new drips decided, sent and mined.
   */
  lemma BoundedCompletion(c: Config, states: seq<Sys>)
    requires states != [] && Settled(c, states[0])
    requires forall i :: 0 <= i < |states| - 1 ==> Round(c, states[i], states[i + 1])
    requires |states| - 1 >= 2 * Count(states[0].t.deposits, Processing)
    ensures var n := states[2 * Count(states[0].t.deposits, Processing)];
            forall i :: 0 <= i < |states[0].t.deposits| && states[0].t.deposits[i].status == Processing ==>
              i < |n.t.deposits| && n.t.deposits[i].status == Done
  {
    hide Round, Settled, Distance, Count;
    var m := Frontier(c, states[0]);
    var k := 2 * Count(states[0].t.deposits, Processing);
    RoundsApproach(c, states, k, m);
    DistanceBounds(states[k], m);
    NoneBefore(states[k].t.deposits[..m]);
  }
}
