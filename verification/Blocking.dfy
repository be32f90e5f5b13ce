/**
  What id order does to the check query: it returns the first 20 pending rows, so 20 rows that can
  never be settled hide all later ones for good. Which pending deposits can then still be paid.
 */
module Blocking {
  import opened Data
  import opened Ingest
  import opened Policy
  import opened Protocol
  import opened Invariant
  import opened Nonces
  import opened Safety
  import opened Liveness
  import opened Payments

  ghost predicate AllCheckFirst(c: Config) { forall i :: 0 <= i < |c.policies| ==> c.policies[i].checkIfFirst }

  ghost predicate IsProcessing(t: Tables, p: nat) { p < |t.deposits| && t.deposits[p].status == Processing }

  /** Deposit p is not among the rows now being checked. */
  ghost predicate NotChecked(s: Sys, p: nat) {
    s.faucet.On? && s.faucet.phase.Checking? ==>
      forall k :: 0 <= k < |s.faucet.phase.rows| ==> s.faucet.phase.rows[k].id != p
  }

  /** A step whose check, if it begins one, works on what an id-ordered query can deliver. */
  ghost predicate WindowAction(s: Sys, a: Action) { a.BeginCheck? ==> AllInWindow(s.t, a.pending) }

  lemma NextNotChecked(c: Config, s: Sys, a: Action, p: nat)
    requires Inv(c, s) && Enabled(c, s, a) && NotChecked(s, p)
    requires a.BeginCheck? ==> forall k :: 0 <= k < |a.pending| ==> a.pending[k].id != p
    ensures NotChecked(Next(c, s, a), p)
  {
    hide Inv, DecideHead, HeadTx, Chunk, ChunkEnd, HasReceipt, IsBatch, IsPending, MakeDrip, SetStatus, HasDefault;
    if Up(s) { RestSending(c, s); }
  }

  /** Behind 20 pending deposits, p is not in the window. */
  lemma CrowdedOut(t: Tables, p: nat, ids: set<nat>)
    requires p < |t.deposits| && |ids| >= 20 && forall q :: q in ids ==> q < p && IsProcessing(t, q)
    ensures !InWindow(t, p)
  {
    CountIsSize(t.deposits[..p], Processing);
    assert ids <= IdsWith(t.deposits[..p], Processing);
    SubsetSize(ids, IdsWith(t.deposits[..p], Processing));
  }

  lemma OutsideRows(t: Tables, p: nat, a: Action)
    requires !InWindow(t, p) && a.BeginCheck? && AllInWindow(t, a.pending)
    ensures forall k :: 0 <= k < |a.pending| ==> a.pending[k].id != p
  {
    hide InWindow;
  }

  /** A pending deposit that is not being checked stays pending. */
  lemma StaysPending(c: Config, s: Sys, a: Action, p: nat)
    requires Inv(c, s) && Enabled(c, s, a) && IsProcessing(s.t, p) && NotChecked(s, p)
    ensures IsProcessing(Next(c, s, a).t, p)
  {
    hide Inv, Enabled, Next;
    var n := Next(c, s, a);
    StatusStep(c, s, a, p);
    NextGrows(c, s, a);
    DripsPaid(c, s);
    if n.t.deposits[p].status == Done {
      NewlyDone(c, s, a, p);
      MarksChecked(c, s, a);
    }
  }

  lemma MarksChecked(c: Config, s: Sys, a: Action)
    requires Enabled(c, s, a) && a.MarkDone?
    ensures s.faucet.On? && s.faucet.phase.Checking? && s.faucet.phase.rows != []
  {}

  // ----- Behind 20 lost deposits -----

  ghost function LostIds(s: Sys, p: nat): set<nat> { set q: nat | q < p && Lost(s, q) }

  ghost predicate Blocked(s: Sys, p: nat) { IsProcessing(s.t, p) && NotChecked(s, p) && |LostIds(s, p)| >= 20 }

  lemma NextBlocked(c: Config, s: Sys, a: Action, p: nat)
    requires Inv(c, s) && Enabled(c, s, a) && Blocked(s, p) && WindowAction(s, a)
    ensures Blocked(Next(c, s, a), p)
  {
    hide Inv, Enabled, Next, NotChecked, Lost, AllInWindow, InWindow;
    var n := Next(c, s, a);
    StaysPending(c, s, a, p);
    forall q | q in LostIds(s, p) ensures q in LostIds(n, p) && IsProcessing(s.t, q) {
      NextLost(c, s, a, q);
      LostIsPending(s, q);
    }
    SubsetSize(LostIds(s, p), LostIds(n, p));
    CrowdedOut(s.t, p, LostIds(s, p));
    if a.BeginCheck? { OutsideRows(s.t, p, a); }
    NextNotChecked(c, s, a, p);
  }

  lemma LostIsPending(s: Sys, q: nat)
    requires Lost(s, q)
    ensures IsProcessing(s.t, q)
  {}

  /** Behind 20 lost deposits a pending one stays Processing for ever, mined or not, whatever else happens. */
  lemma {:induction false} BlockedForever(c: Config, s: Sys, run: seq<Action>, p: nat)
    requires Inv(c, s) && LegalFrom(c, s, run) && WindowRun(c, s, run) && Blocked(s, p)
    ensures Blocked(After(c, s, run), p)
    decreases |run|
  {
    hide Inv, Enabled, Next, Blocked, AllInWindow;
    if run != [] {
      var before := run[..|run| - 1];
      BlockedForever(c, s, before, p);
      RunFromInv(c, s, before);
      NextBlocked(c, After(c, s, before), run[|run| - 1], p);
    }
  }

  // ----- Transfers that were never sent -----

  /** The chain has not been given drip p, and is not just about to be. */
  ghost predicate Unsent(s: Sys, p: nat) {
    && p in s.t.drips && s.t.drips[p].rawtx.tx !in s.chain.sent
    && (s.faucet.On? && (s.faucet.phase.Committed? || s.faucet.phase.Bumped?) ==>
          |s.log| > 0 && s.log[|s.log| - 1].pid != p)
  }

  lemma TxsDiffer(c: Config, s: Sys, p: nat, q: nat)
    requires Inv(c, s) && AllCheckFirst(c) && p in s.t.drips && q in s.t.drips && p != q
    ensures s.t.drips[p].rawtx.tx != s.t.drips[q].rawtx.tx
  {
    hide Inv;
    RecipientsDiffer(c, s, p, q);
    HashStored(c, s, p);
    HashStored(c, s, q);
  }

  lemma BroadcastsLast(c: Config, s: Sys)
    requires Inv(c, s) && s.faucet.On? && s.faucet.phase.Bumped?
    ensures |s.log| > 0 && s.log[|s.log| - 1].pid in s.t.drips
    ensures s.t.drips[s.log[|s.log| - 1].pid].rawtx.tx == s.faucet.phase.tx
  {
    hide TablesOk, LogOk, DecisionsOk, NonceOk, ChainOk, DoneOk, HeightOk, SendingOk;
  }

  lemma NextUnsent(c: Config, s: Sys, a: Action, p: nat)
    requires Inv(c, s) && Enabled(c, s, a) && AllCheckFirst(c) && Unsent(s, p) && NotChecked(s, p)
    ensures Unsent(Next(c, s, a), p)
  {
    hide Inv, DecideHead, HeadTx, Chunk, ChunkEnd, HasReceipt, IsBatch, IsPending, SetStatus, AfterCommit, TablesGrow;
    NextGrows(c, s, a);
    Grown(s, Next(c, s, a), p);
    if a.Rebroadcast? {
      FirstRowPending(c, s);
      TxsDiffer(c, s, p, s.faucet.phase.rows[0].id);
    } else if a.Broadcast? {
      BroadcastsLast(c, s);
      TxsDiffer(c, s, p, s.log[|s.log| - 1].pid);
    } else if a.CommitDrip? {
      CommitAppends(c, s, a.probe);
      CommitKeepsChain(c, s, a.probe);
    }
  }

  lemma Grown(s: Sys, n: Sys, p: nat)
    requires TablesGrow(s, n) && p in s.t.drips
    ensures p in n.t.drips && n.t.drips[p] == s.t.drips[p]
  {}

  lemma CommitKeepsChain(c: Config, s: Sys, probe: Probe)
    requires Enabled(c, s, CommitDrip(probe))
    ensures AfterCommit(c, s, probe).chain == s.chain
  {
    hide DecideHead, HeadTx, MakeDrip;
  }

  lemma UnsentUnmined(c: Config, s: Sys, p: nat, success: bool)
    requires Inv(c, s) && Unsent(s, p)
    ensures !Confirmed(s, p) && !MinedAs(s, p, success)
  {
    hide LogOk, TablesOk, DecisionsOk, NonceOk, DoneOk, PhaseOk, HeightOk, Stored;
    HashStored(c, s, p);
  }

  /** Behind 20 lost deposits, a transfer that was never sent is never sent, so never paid, in the whole future. */
  lemma {:induction false} BlockedUnpaid(c: Config, s: Sys, run: seq<Action>, p: nat)
    requires Inv(c, s) && LegalFrom(c, s, run) && WindowRun(c, s, run) && Blocked(s, p)
    requires AllCheckFirst(c) && Unsent(s, p)
    ensures Unsent(After(c, s, run), p) && !MinedAs(After(c, s, run), p, true)
    decreases |run|
  {
    hide Inv, Enabled, Next, Unsent, AllCheckFirst, AllInWindow, NotChecked;
    if run != [] {
      var before := run[..|run| - 1];
      BlockedUnpaid(c, s, before, p);
      BlockedForever(c, s, before, p);
      RunFromInv(c, s, before);
      NextUnsent(c, After(c, s, before), run[|run| - 1], p);
    }
    RunFromInv(c, s, run);
    UnsentUnmined(c, After(c, s, run), p, true);
  }

  // ----- Counting what cannot be cleared -----

  ghost predicate Open(s: Sys, q: nat) { IsProcessing(s.t, q) && !Confirmed(s, q) }

  /** The pending deposits below p that are not mined. */
  ghost function OpenIds(s: Sys, p: nat): set<nat> { set q: nat | q < p && Open(s, q) }

  function NonceOf(s: Sys, q: nat): int { if q in s.t.drips then s.t.drips[q].rawtx.tx.nonce else -1 }

  predicate Below(m: int, limit: Option<int>) { limit.None? || m < limit.value }

  /** The nonce of q is still to come on the chain, and below the limit. */
  ghost predicate InTime(s: Sys, q: nat, limit: Option<int>) {
    s.chain.nonce <= NonceOf(s, q) && Below(NonceOf(s, q), limit)
  }

  /** The nonces, still to come and below the limit, that drips below p can use up. */
  ghost function OpenNonces(s: Sys, p: nat, limit: Option<int>): set<int> {
    set q | q in OpenIds(s, p) && InTime(s, q, limit) :: NonceOf(s, q)
  }

  /**
    Of the unmined deposits below p, all but one for each such nonce will be left over: a nonce is
    used up only once. With the nonce of p as the limit, these stay before p until it is p's turn.
   */
  ghost function Leftover(s: Sys, p: nat, limit: Option<int>): int {
    |OpenIds(s, p)| - |OpenNonces(s, p, limit)|
  }

  lemma OpenSame(c: Config, s: Sys, a: Action, p: nat)
    requires Inv(c, s) && Enabled(c, s, a) && !a.Mine? && !a.CommitDrip? && p <= |s.t.deposits|
    ensures OpenIds(Next(c, s, a), p) == OpenIds(s, p)
    ensures Next(c, s, a).t.drips == s.t.drips && Next(c, s, a).chain.nonce == s.chain.nonce
  {
    hide Inv, DecideHead, HeadTx, Chunk, ChunkEnd, HasReceipt, IsBatch, IsPending;
    if a.MarkDone? { MarkedHasReceipt(c, s); }
    if a.IgnoreItem? { HeadItem(c, s); }
    var n := Next(c, s, a);
    assert n.chain.mined == s.chain.mined && n.t.drips == s.t.drips;
    forall q: nat | q < p ensures Open(n, q) <==> Open(s, q) {
      if a.MarkDone? && q == s.faucet.phase.rows[0].id { assert Confirmed(s, q); }
      SameConfirmed(s, n, q);
    }
  }

  lemma SameConfirmed(s: Sys, n: Sys, q: nat)
    requires n.chain.mined == s.chain.mined && n.t.drips == s.t.drips
    ensures Confirmed(n, q) <==> Confirmed(s, q)
  {}

  lemma OpenCommit(c: Config, s: Sys, probe: Probe, p: nat) returns (item: nat)
    requires Inv(c, s) && Enabled(c, s, CommitDrip(probe)) && p <= |s.t.deposits|
    ensures var n := Next(c, s, CommitDrip(probe));
            && item !in OpenIds(s, p) && item in n.t.drips && n.chain == s.chain
            && (OpenIds(n, p) == OpenIds(s, p) || OpenIds(n, p) == OpenIds(s, p) + {item})
            && (forall q :: q != item ==> NonceOf(n, q) == NonceOf(s, q))
  {
    hide Inv, DecideHead, HeadTx, HasReceipt, MakeDrip;
    HeadItem(c, s);
    var n := Next(c, s, CommitDrip(probe));
    item := s.faucet.phase.todo[0].id;
    assert forall q: nat :: q != item && q < p ==> (Open(n, q) <==> Open(s, q));
    assert OpenIds(n, p) - {item} == OpenIds(s, p);
    if item in OpenIds(n, p) { assert OpenIds(n, p) == OpenIds(s, p) + {item}; }
  }

  lemma ConfirmedByMining(s: Sys, n: Sys, tx: Tx, success: bool, q: nat)
    requires n.t == s.t && n.chain.mined == s.chain.mined + [Receipt(tx, success)]
    requires q in s.t.drips && s.t.drips[q].txid == HashOf(s.t.drips[q].rawtx.tx)
    ensures Confirmed(n, q) <==> Confirmed(s, q) || s.t.drips[q].rawtx.tx == tx
  {
    if s.t.drips[q].rawtx.tx == tx {
      assert HashOf(n.chain.mined[|s.chain.mined|].tx) == s.t.drips[q].txid;
    }
    if Confirmed(s, q) {
      var i :| 0 <= i < |s.chain.mined| && HashOf(s.chain.mined[i].tx) == s.t.drips[q].txid;
      assert HashOf(n.chain.mined[i].tx) == s.t.drips[q].txid;
    }
    if Confirmed(n, q) {
      var i :| 0 <= i < |n.chain.mined| && HashOf(n.chain.mined[i].tx) == s.t.drips[q].txid;
      if i < |s.chain.mined| { assert HashOf(s.chain.mined[i].tx) == s.t.drips[q].txid; }
    }
  }

  /** Mining removes exactly the deposits whose transaction it was. */
  lemma OpenMined(c: Config, s: Sys, n: Sys, tx: Tx, success: bool, p: nat)
    requires Inv(c, s) && n.t == s.t && n.chain.mined == s.chain.mined + [Receipt(tx, success)]
    ensures forall q :: q in OpenIds(n, p) <==> q in OpenIds(s, p) && s.t.drips[q].rawtx.tx != tx
    ensures forall q :: q in OpenIds(s, p) ==> q in s.t.drips
  {
    hide Inv, Confirmed;
    DripsPaid(c, s);
    forall q: nat | q in s.t.drips
      ensures Confirmed(n, q) <==> Confirmed(s, q) || s.t.drips[q].rawtx.tx == tx
    {
      HashStored(c, s, q);
      ConfirmedByMining(s, n, tx, success, q);
    }
  }

  lemma AtMostOne(a: set<nat>, b: set<nat>, x: nat)
    requires b <= a && a - b <= {x}
    ensures |b| >= |a| - (if x in a then 1 else 0)
  {
    forall y | y in a && y != x ensures y in b {
      assert y in b || y in a - b;
    }
    SubsetSize(a - {x}, b);
  }

  lemma MineStep(c: Config, s: Sys, tx: Tx, success: bool)
    requires Enabled(c, s, Mine(tx, success))
    ensures var n := Next(c, s, Mine(tx, success));
            && n.t == s.t && n.chain.mined == s.chain.mined + [Receipt(tx, success)]
            && n.chain.nonce == s.chain.nonce + 1 && tx.nonce == s.chain.nonce
  {}

  lemma NextLeftoverMine(c: Config, s: Sys, tx: Tx, success: bool, p: nat, limit: Option<int>)
    requires Inv(c, s) && Enabled(c, s, Mine(tx, success)) && AllCheckFirst(c) && Below(tx.nonce, limit)
    ensures Leftover(Next(c, s, Mine(tx, success)), p, limit) >= Leftover(s, p, limit)
  {
    hide Inv, Enabled, Next, Open, AllCheckFirst;
    MineStep(c, s, tx, success);
    var n := Next(c, s, Mine(tx, success));
    OpenMined(c, s, n, tx, success, p);
    var before, after := OpenIds(s, p), OpenIds(n, p);
    var ns, ms := OpenNonces(s, p, limit), OpenNonces(n, p, limit);
    NoncesMined(s, n, tx, p, limit);
    if before <= after {
      SubsetSize(before, after);
      SubsetSize(ms, ns);
    } else {
      var x := Removed(before, after);
      forall y | y in before && y !in after ensures y == x {
        if y != x { TxsDiffer(c, s, x, y); }
      }
      AtMostOne(before, after, x);
      UsesNonce(s, x, tx, p, limit);
      SubsetSize(ms, ns - {tx.nonce});
    }
  }

  lemma Removed(a: set<nat>, b: set<nat>) returns (x: nat)
    requires !(a <= b)
    ensures x in a && x !in b
  {
    x :| x in a && x !in b;
  }

  lemma UsesNonce(s: Sys, x: nat, tx: Tx, p: nat, limit: Option<int>)
    requires x in OpenIds(s, p) && x in s.t.drips && s.t.drips[x].rawtx.tx == tx
    requires tx.nonce == s.chain.nonce && Below(tx.nonce, limit)
    ensures tx.nonce in OpenNonces(s, p, limit)
  {
    assert InTime(s, x, limit) && NonceOf(s, x) == tx.nonce;
  }

  lemma NoncesMined(s: Sys, n: Sys, tx: Tx, p: nat, limit: Option<int>)
    requires n.t == s.t && n.chain.nonce == s.chain.nonce + 1 && tx.nonce == s.chain.nonce
    requires OpenIds(n, p) <= OpenIds(s, p)
    ensures OpenNonces(n, p, limit) <= OpenNonces(s, p, limit) - {tx.nonce}
  {
    hide Open;
    forall j | j in OpenNonces(n, p, limit) ensures j in OpenNonces(s, p, limit) && j != tx.nonce {
      var q :| q in OpenIds(n, p) && InTime(n, q, limit) && NonceOf(n, q) == j;
      assert InTime(s, q, limit) && NonceOf(s, q) == j;
    }
  }

  lemma NextLeftoverCommit(c: Config, s: Sys, probe: Probe, p: nat, limit: Option<int>)
    requires Inv(c, s) && Enabled(c, s, CommitDrip(probe)) && p <= |s.t.deposits|
    ensures Leftover(Next(c, s, CommitDrip(probe)), p, limit) >= Leftover(s, p, limit)
  {
    hide Inv, Enabled, Next, Open, InTime;
    var item := OpenCommit(c, s, probe, p);
    var n := Next(c, s, CommitDrip(probe));
    var before, after := OpenIds(s, p), OpenIds(n, p);
    var ns, ms := OpenNonces(s, p, limit), OpenNonces(n, p, limit);
    NoncesCommitted(s, n, p, item, limit);
    if after == before {
      SubsetSize(ms, ns);
    } else {
      SubsetSize(ms, ns + {NonceOf(n, item)});
    }
  }

  lemma NoncesCommitted(s: Sys, n: Sys, p: nat, item: nat, limit: Option<int>)
    requires n.chain.nonce == s.chain.nonce && OpenIds(n, p) <= OpenIds(s, p) + {item}
    requires forall q :: q != item ==> NonceOf(n, q) == NonceOf(s, q)
    ensures OpenNonces(n, p, limit) <= OpenNonces(s, p, limit) + {NonceOf(n, item)}
    ensures item !in OpenIds(n, p) ==> OpenNonces(n, p, limit) <= OpenNonces(s, p, limit)
  {
    hide Open, NonceOf;
    forall j | j in OpenNonces(n, p, limit)
      ensures j in OpenNonces(s, p, limit) || (item in OpenIds(n, p) && j == NonceOf(n, item))
    {
      var q :| q in OpenIds(n, p) && InTime(n, q, limit) && NonceOf(n, q) == j;
      if q != item { assert InTime(s, q, limit) && NonceOf(s, q) == j; }
    }
  }

  /** What is left over never becomes less. */
  lemma NextLeftover(c: Config, s: Sys, a: Action, p: nat, limit: Option<int>)
    requires Inv(c, s) && Enabled(c, s, a) && AllCheckFirst(c) && p <= |s.t.deposits|
    requires a.Mine? ==> Below(a.tx.nonce, limit)
    ensures Leftover(Next(c, s, a), p, limit) >= Leftover(s, p, limit)
  {
    hide Inv, Enabled, Next, Open, AllCheckFirst;
    if a.Mine? {
      NextLeftoverMine(c, s, a.tx, a.success, p, limit);
    } else if a.CommitDrip? {
      NextLeftoverCommit(c, s, a.probe, p, limit);
    } else {
      OpenSame(c, s, a, p);
      var n := Next(c, s, a);
      assert OpenNonces(n, p, limit) == OpenNonces(s, p, limit);
    }
  }

  lemma ManyOpen(s: Sys, p: nat, limit: Option<int>)
    requires p < |s.t.deposits| && Leftover(s, p, limit) >= 20
    ensures !InWindow(s.t, p)
  {
    hide InWindow, Confirmed;
    CrowdedOut(s.t, p, OpenIds(s, p));
  }

  // ----- When too much is left over -----

  /** Deposit p is pending behind 20 others that are left over, whatever the chain mines. */
  ghost predicate Buried(s: Sys, p: nat) { IsProcessing(s.t, p) && NotChecked(s, p) && Leftover(s, p, None) >= 20 }

  lemma NextBuried(c: Config, s: Sys, a: Action, p: nat)
    requires Inv(c, s) && Enabled(c, s, a) && AllCheckFirst(c) && Buried(s, p) && WindowAction(s, a)
    ensures Buried(Next(c, s, a), p)
  {
    hide Inv, Enabled, Next, NotChecked, Leftover, AllInWindow, InWindow, AllCheckFirst;
    StaysPending(c, s, a, p);
    NextLeftover(c, s, a, p, None);
    ManyOpen(s, p, None);
    if a.BeginCheck? { OutsideRows(s.t, p, a); }
    NextNotChecked(c, s, a, p);
  }

  lemma {:induction false} BuriedForever(c: Config, s: Sys, run: seq<Action>, p: nat)
    requires Inv(c, s) && LegalFrom(c, s, run) && WindowRun(c, s, run) && AllCheckFirst(c) && Buried(s, p)
    ensures Buried(After(c, s, run), p)
    decreases |run|
  {
    hide Inv, Enabled, Next, Buried, AllInWindow, AllCheckFirst;
    if run != [] {
      var before := run[..|run| - 1];
      BuriedForever(c, s, before, p);
      RunFromInv(c, s, before);
      NextBuried(c, After(c, s, before), run[|run| - 1], p);
    }
  }

  /** Deposit p has not been sent, and is lost or will be: too much is left over before its turn. */
  ghost predicate Hopeless(s: Sys, p: nat) {
    || Lost(s, p)
    || (IsProcessing(s.t, p) && NotChecked(s, p) && Unsent(s, p) && s.chain.nonce <= NonceOf(s, p)
        && Leftover(s, p, Some(NonceOf(s, p))) >= 20)
  }

  lemma NextHopeless(c: Config, s: Sys, a: Action, p: nat)
    requires Inv(c, s) && Enabled(c, s, a) && AllCheckFirst(c) && Hopeless(s, p) && WindowAction(s, a)
    ensures Hopeless(Next(c, s, a), p)
  {
    hide Inv, Enabled, Next, NotChecked, Leftover, AllInWindow, InWindow, AllCheckFirst, Unsent, Lost, TablesGrow;
    var n := Next(c, s, a);
    if Lost(s, p) {
      NextLost(c, s, a, p);
    } else {
      StaysPending(c, s, a, p);
      ManyOpen(s, p, Some(NonceOf(s, p)));
      if a.BeginCheck? { OutsideRows(s.t, p, a); }
      NextNotChecked(c, s, a, p);
      NextUnsent(c, s, a, p);
      UnsentStored(s, p);
      NextGrows(c, s, a);
      Grown(s, n, p);
      ChainAdvances(c, s, a);
      NextInv(c, s, a);
      if n.chain.nonce > NonceOf(s, p) {
        PassedIsLost(c, n, p);
      } else {
        NextLeftover(c, s, a, p, Some(NonceOf(s, p)));
      }
    }
  }

  lemma UnsentStored(s: Sys, p: nat)
    requires Unsent(s, p)
    ensures p in s.t.drips
  {}

  lemma ChainAdvances(c: Config, s: Sys, a: Action)
    requires Enabled(c, s, a)
    ensures Next(c, s, a).chain.nonce == s.chain.nonce + if a.Mine? then 1 else 0
    ensures a.Mine? ==> a.tx.nonce == s.chain.nonce
  {
    hide DecideHead, HeadTx, Chunk, ChunkEnd, HasReceipt, IsBatch, IsPending;
  }

  lemma PassedIsLost(c: Config, s: Sys, p: nat)
    requires Inv(c, s) && Unsent(s, p) && IsProcessing(s.t, p) && NonceOf(s, p) < s.chain.nonce
    ensures Lost(s, p)
  {
    hide Inv, HasReceipt;
    UnsentUnmined(c, s, p, true);
  }

  lemma {:induction false} HopelessForever(c: Config, s: Sys, run: seq<Action>, p: nat)
    requires Inv(c, s) && LegalFrom(c, s, run) && WindowRun(c, s, run) && AllCheckFirst(c) && Hopeless(s, p)
    ensures Hopeless(After(c, s, run), p)
    decreases |run|
  {
    hide Inv, Enabled, Next, Hopeless, AllInWindow, AllCheckFirst;
    if run != [] {
      var before := run[..|run| - 1];
      HopelessForever(c, s, before, p);
      RunFromInv(c, s, before);
      NextHopeless(c, After(c, s, before), run[|run| - 1], p);
    }
  }

  lemma HopelessUnpaid(c: Config, s: Sys, p: nat)
    requires Inv(c, s) && Hopeless(s, p)
    ensures IsProcessing(s.t, p) && !MinedAs(s, p, true)
  {
    hide Inv, Leftover, NotChecked, MinedAs, HasReceipt, Unsent;
    if Lost(s, p) {
      ReceiptOutcome(c, s, p);
    } else {
      UnsentUnmined(c, s, p, true);
    }
  }
}
