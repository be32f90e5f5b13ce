/**
  Nonces over one life of the process and across restarts: contiguous as long as every restart
  finds all stored drips mined, and exactly what goes wrong when one does not.
 */
module Nonces {
  import opened Data
  import opened Ingest
  import opened Policy
  import opened Protocol
  import Ether
  import opened Invariant

  /**
    Within one life of the process the committed drips carry n0, n0 + 1, ... without gap or repeat,
    and outside the window between commit and increment they are exactly [n0, nonce).
   */
  lemma NoncesOfOneLife(c: Config, s: Sys)
    requires Reachable(c, s) && s.faucet.On?
    ensures s.faucet.base <= |s.log|
    ensures forall k :: s.faucet.base <= k < |s.log| ==>
              s.log[k].pid in s.t.drips && TxOf(s, k).nonce == s.faucet.n0 + (k - s.faucet.base)
    ensures !s.faucet.phase.Committed? ==> s.faucet.nonce == s.faucet.n0 + (|s.log| - s.faucet.base)
    ensures s.faucet.phase.Committed? ==> s.faucet.nonce + 1 == s.faucet.n0 + (|s.log| - s.faucet.base)
  {
    ReachableInv(c, s);
  }

  // ----- Across restarts -----

  ghost predicate AllMined(s: Sys) {
    forall p :: p in s.t.drips ==> HasReceipt(s.chain, s.t.drips[p].txid)
  }

  /** Over the whole history, the k-th committed drip has the k-th nonce of the account. */
  ghost predicate Contiguous(c: Config, s: Sys) {
    && (forall k :: 0 <= k < |s.log| && s.log[k].pid in s.t.drips ==> TxOf(s, k).nonce == c.genesis + k)
    && (s.faucet.On? ==> s.faucet.n0 == c.genesis + s.faucet.base)
  }

  lemma MinedStored(c: Config, s: Sys, i: nat)
    requires Inv(c, s) && i < |s.chain.mined|
    ensures Stored(s.t, s.chain.mined[i].tx) && s.chain.mined[i].tx.nonce == c.genesis + i
  {
    hide Stored, TablesOk, LogOk, DecisionsOk, NonceOk, DoneOk, PhaseOk, HeightOk;
  }

  /** Every stored transaction belongs to one of the committed drips. */
  lemma StoredLogged(c: Config, s: Sys, tx: Tx) returns (k: nat)
    requires Inv(c, s) && Stored(s.t, tx)
    ensures k < |s.log| && s.log[k].pid in s.t.drips && TxOf(s, k) == tx
  {
    hide Inv;
    var p :| p in s.t.drips && s.t.drips[p].rawtx.tx == tx;
    k := Logged(c, s, p);
  }

  /** A mined transaction is that of the drip whose turn it was. */
  lemma MinedIsKth(c: Config, s: Sys, i: nat)
    requires Inv(c, s) && Contiguous(c, s) && i < |s.chain.mined|
    ensures i < |s.log| && s.log[i].pid in s.t.drips && s.chain.mined[i].tx == TxOf(s, i)
  {
    hide Inv, Stored;
    MinedStored(c, s, i);
    var k := StoredLogged(c, s, s.chain.mined[i].tx);
    assert TxOf(s, k).nonce == c.genesis + k;
  }

  /** With contiguous nonces, the chain has mined some first part of the drips, and all of them iff the counts agree. */
  lemma MinedPrefix(c: Config, s: Sys)
    requires Inv(c, s) && Contiguous(c, s)
    ensures |s.chain.mined| <= |s.log|
    ensures AllMined(s) <==> |s.chain.mined| == |s.log|
  {
    hide Ether.ToEther, DecisionsOk, NonceOk, DoneOk, PhaseOk, HeightOk, Passes;
    if |s.chain.mined| > 0 { MinedIsKth(c, s, |s.chain.mined| - 1); }
    if |s.chain.mined| == |s.log| {
      forall p | p in s.t.drips ensures HasReceipt(s.chain, s.t.drips[p].txid) {
        var k :| 0 <= k < |s.log| && s.log[k].pid == p;
        MinedIsKth(c, s, k);
        assert DripOk(c, s.t.deposits[p], s.t.drips[p]);
        assert HashOf(s.chain.mined[k].tx) == s.t.drips[p].txid;
      }
    }
    if AllMined(s) && |s.log| > 0 {
      var p := s.log[|s.log| - 1].pid;
      var i :| 0 <= i < |s.chain.mined| && HashOf(s.chain.mined[i].tx) == s.t.drips[p].txid;
      assert DripOk(c, s.t.deposits[p], s.t.drips[p]);
      assert s.chain.mined[i].tx == TxOf(s, |s.log| - 1);
      assert s.chain.mined[i].tx.nonce == c.genesis + i;
    }
  }

  /** Every mined transaction has a nonce below the one the chain expects next. */
  lemma MinedBelow(c: Config, s: Sys, p: nat)
    requires Inv(c, s) && p in s.t.drips && HasReceipt(s.chain, s.t.drips[p].txid)
    ensures s.t.drips[p].rawtx.tx.nonce < s.chain.nonce
  {
    hide TablesOk, LogOk, DecisionsOk, NonceOk, DoneOk, PhaseOk, HeightOk;
    HashStored(c, s, p);
    var i :| 0 <= i < |s.chain.mined| && HashOf(s.chain.mined[i].tx) == s.t.drips[p].txid;
    assert s.chain.mined[i].tx == s.t.drips[p].rawtx.tx;
  }

  /** No stored drip has the chain's next nonce or a later one: a restart now cannot reuse any. */
  ghost predicate FreshStart(s: Sys) {
    forall p :: p in s.t.drips ==> s.t.drips[p].rawtx.tx.nonce < s.chain.nonce
  }

  lemma DoneReceipt(c: Config, s: Sys, p: nat)
    requires Inv(c, s) && p < |s.t.deposits| && s.t.deposits[p].status == Done && p in s.t.drips
    ensures HasReceipt(s.chain, s.t.drips[p].txid)
  {
    hide TablesOk, LogOk, DecisionsOk, NonceOk, ChainOk, PhaseOk, HeightOk, HasReceipt;
  }

  /**
    After any history, clean or not: the nonces of this life differ from all earlier ones exactly
    when no earlier drip has a nonce in the interval that this life has used up.
   */
  lemma LifeDistinctIff(c: Config, s: Sys)
    requires Reachable(c, s) && s.faucet.On?
    ensures s.faucet.base <= |s.log| && forall k :: 0 <= k < |s.log| ==> s.log[k].pid in s.t.drips
    ensures (forall j, k :: 0 <= j < s.faucet.base <= k < |s.log| ==> TxOf(s, j).nonce != TxOf(s, k).nonce)
            <==> forall j :: 0 <= j < s.faucet.base ==>
                   !(s.faucet.n0 <= TxOf(s, j).nonce < s.faucet.n0 + (|s.log| - s.faucet.base))
  {
    hide Inv, TxOf, TablesOk, DecisionsOk, NonceOk, ChainOk, DoneOk, PhaseOk, HeightOk;
    ReachableInv(c, s);
    InvParts(c, s);
    NoncesOfOneLife(c, s);
    var base, n0 := s.faucet.base, s.faucet.n0;
    forall j | 0 <= j < base && n0 <= TxOf(s, j).nonce < n0 + (|s.log| - base)
      ensures exists k :: base <= k < |s.log| && TxOf(s, j).nonce == TxOf(s, k).nonce
    {
      var k := base + (TxOf(s, j).nonce - n0);
      assert TxOf(s, k).nonce == n0 + (k - base);
    }
  }

  /** Whether the process neither stops nor starts in this run. */
  predicate OneLife(run: seq<Action>) { forall i :: 0 <= i < |run| ==> !run[i].Crash? && !run[i].Initial? }

  lemma {:induction false} LifeKept(c: Config, s: Sys, run: seq<Action>)
    requires LegalFrom(c, s, run) && s.faucet.On? && OneLife(run)
    ensures var n := After(c, s, run);
            n.faucet.On? && n.faucet.n0 == s.faucet.n0 && n.faucet.base == s.faucet.base
    decreases |run|
  {
    hide Enabled, Next;
    if run != [] {
      var before, a := run[..|run| - 1], run[|run| - 1];
      assert OneLife(before);
      LifeKept(c, s, before);
      assert !a.Crash? && !a.Initial?;
      LifeStep(c, After(c, s, before), a);
    }
  }

  lemma LifeStep(c: Config, s: Sys, a: Action)
    requires Enabled(c, s, a) && s.faucet.On? && !a.Crash? && !a.Initial?
    ensures var n := Next(c, s, a).faucet; n.On? && n.n0 == s.faucet.n0 && n.base == s.faucet.base
  {
    hide DecideHead, HeadTx, Chunk, ChunkEnd, HasReceipt, IsBatch, IsPending;
  }

  /**
    After any history, clean or not: if no stored drip has the nonce that Initial reads or a later
    one, every drip of the new life has a higher nonce than all earlier drips.
   */
  lemma CleanRestartDistinct(c: Config, s: Sys, run: seq<Action>, p: nat, q: nat)
    requires Reachable(c, s) && Enabled(c, s, Initial) && FreshStart(s)
    requires LegalFrom(c, Next(c, s, Initial), run) && OneLife(run)
    requires var n := After(c, Next(c, s, Initial), run);
             p in s.t.drips && q in n.t.drips && q !in s.t.drips
    ensures var n := After(c, Next(c, s, Initial), run);
            p in n.t.drips && n.t.drips[p].rawtx.tx.nonce < s.chain.nonce <= n.t.drips[q].rawtx.tx.nonce
  {
    hide Inv, Enabled, TxOf, LogOk;
    ReachableInv(c, s);
    var m := Next(c, s, Initial);
    var n := After(c, m, run);
    StartStep(c, s);
    NextInv(c, s, Initial);
    RunFromInv(c, m, run);
    RunGrows(c, m, run);
    LifeKept(c, m, run);
    var k := Logged(c, n, q);
    if k < |s.log| { LoggedStored(c, s, k); assert false; }
    LifeNonce(c, n, k);
    assert n.t.drips[p] == s.t.drips[p];
  }

  lemma StartStep(c: Config, s: Sys)
    requires Enabled(c, s, Initial)
    ensures var n := Next(c, s, Initial);
            && n.faucet == On(s.chain.nonce, |s.log|, s.chain.nonce, Idle)
            && n.t == s.t && n.chain == s.chain && n.log == s.log
  {}

  lemma LoggedStored(c: Config, s: Sys, k: nat)
    requires Inv(c, s) && k < |s.log|
    ensures s.log[k].pid in s.t.drips
  {
    hide TablesOk, DecisionsOk, NonceOk, ChainOk, DoneOk, PhaseOk, HeightOk;
  }

  lemma LifeNonce(c: Config, s: Sys, k: nat)
    requires Inv(c, s) && s.faucet.On? && s.faucet.base <= k < |s.log|
    ensures s.log[k].pid in s.t.drips && s.t.drips[s.log[k].pid].rawtx.tx.nonce == s.faucet.n0 + (k - s.faucet.base)
  {
    hide TablesOk, DecisionsOk, ChainOk, DoneOk, PhaseOk, HeightOk;
    assert TxOf(s, k).nonce == s.faucet.n0 + (k - s.faucet.base);
  }

  /**
    After a contiguous history: the nonce read at a restart is unused, and the sequence goes on
    without a gap, exactly when every stored drip is mined.
   */
  lemma RestartContinuesIff(c: Config, s: Sys)
    requires Inv(c, s) && Contiguous(c, s) && Enabled(c, s, Initial)
    ensures AllMined(s) <==> forall p :: p in s.t.drips ==> s.t.drips[p].rawtx.tx.nonce != Next(c, s, Initial).faucet.nonce
    ensures AllMined(s) <==> Contiguous(c, Next(c, s, Initial))
  {
    hide Inv, HasReceipt, AllMined, TablesOk, DecisionsOk, NonceOk, DoneOk, PhaseOk, HeightOk;
    InvParts(c, s);
    MinedPrefix(c, s);
    var m := |s.chain.mined|;
    if m < |s.log| {
      assert TxOf(s, m).nonce == s.chain.nonce;
    } else {
      forall p | p in s.t.drips ensures s.t.drips[p].rawtx.tx.nonce != s.chain.nonce {
        assert Stored(s.t, s.t.drips[p].rawtx.tx);
        var k := StoredLogged(c, s, s.t.drips[p].rawtx.tx);
        assert TxOf(s, k).nonce == c.genesis + k;
      }
    }
  }

  /** Every restart in this run happens when all stored drips are mined. */
  ghost predicate CleanRestarts(c: Config, s: Sys, run: seq<Action>)
    requires LegalFrom(c, s, run)
  {
    run == [] ||
      (CleanRestarts(c, s, run[..|run| - 1])
       && (run[|run| - 1].Initial? ==> AllMined(After(c, s, run[..|run| - 1]))))
  }

  lemma NextContiguous(c: Config, s: Sys, a: Action)
    requires Inv(c, s) && Contiguous(c, s) && Enabled(c, s, a) && (a.Initial? ==> AllMined(s))
    ensures Contiguous(c, Next(c, s, a))
  {
    hide Ether.ToEther, Decide, DecideHead, HeadTx, Chunk, ChunkEnd, HasReceipt, DecisionsOk, DoneOk, PhaseOk,
      HeightOk, TablesOk, ChainOk, AllMined;
    if a.Initial? {
      RestartContinuesIff(c, s);
    } else {
      NextGrows(c, s, a);
      if a.CommitDrip? { HeadTxFields(c, s, a.probe); }
    }
  }

  lemma {:induction false} RunContiguous(c: Config, s: Sys, run: seq<Action>)
    requires Inv(c, s) && Contiguous(c, s) && LegalFrom(c, s, run) && CleanRestarts(c, s, run)
    ensures Contiguous(c, After(c, s, run))
    decreases |run|
  {
    hide Ether.ToEther, Inv, Enabled, Next, AllMined, Contiguous;
    if run != [] {
      var before := run[..|run| - 1];
      RunContiguous(c, s, before);
      RunFromInv(c, s, before);
      NextContiguous(c, After(c, s, before), run[|run| - 1]);
    }
  }

  /** Whatever else fails, clean restarts keep all nonces of the whole history contiguous. */
  lemma CleanRunContiguous(c: Config, run: seq<Action>)
    requires Legal(c, run) && CleanRestarts(c, Init(c), run)
    ensures Contiguous(c, After(c, Init(c), run))
  {
    hide Inv, Enabled, Next, AllMined;
    InitInv(c);
    RunContiguous(c, Init(c), run);
  }

  /** Contiguous nonces make all stored transactions distinct, so each Done deposit was mined separately. */
  lemma DoneMinedSeparately(c: Config, s: Sys, p: nat, q: nat)
    requires Inv(c, s) && Contiguous(c, s)
    requires p in s.t.drips && q in s.t.drips && p != q
    ensures s.t.drips[p].rawtx.tx.nonce != s.t.drips[q].rawtx.tx.nonce
    ensures s.t.drips[p].txid != s.t.drips[q].txid
  {
    hide Ether.ToEther, DecisionsOk, NonceOk, DoneOk, PhaseOk, HeightOk, Passes, ChainOk;
    var j :| 0 <= j < |s.log| && s.log[j].pid == p;
    var k :| 0 <= k < |s.log| && s.log[k].pid == q;
    assert TxOf(s, j).nonce == c.genesis + j && TxOf(s, k).nonce == c.genesis + k;
    assert DripOk(c, s.t.deposits[p], s.t.drips[p]) && DripOk(c, s.t.deposits[q], s.t.drips[q]);
  }

  // ----- What an unclean restart costs -----

  /** The deposit's transaction can no longer be mined: its nonce has gone to another one. */
  ghost predicate Lost(s: Sys, p: nat) {
    && p < |s.t.deposits| && p in s.t.drips && s.t.deposits[p].status == Processing
    && !HasReceipt(s.chain, s.t.drips[p].txid)
    && s.t.drips[p].rawtx.tx.nonce < s.chain.nonce
  }

  lemma LostTx(c: Config, s: Sys, p: nat)
    requires Inv(c, s) && Lost(s, p)
    ensures s.t.drips[p].txid == HashOf(s.t.drips[p].rawtx.tx)
  {
    hide Ether.ToEther, LogOk, DecisionsOk, NonceOk, ChainOk, DoneOk, PhaseOk, HeightOk;
    assert DripOk(c, s.t.deposits[p], s.t.drips[p]);
  }

  /** A receipt is only ever added by mining the transaction whose turn it is. */
  lemma NewReceipt(c: Config, s: Sys, a: Action, hash: TxHash)
    requires Enabled(c, s, a) && HasReceipt(Next(c, s, a).chain, hash) && !HasReceipt(s.chain, hash)
    ensures a.Mine? && hash == HashOf(a.tx) && a.tx.nonce == s.chain.nonce
  {
    hide DecideHead, HeadTx, Chunk, ChunkEnd, IsBatch, IsPending;
    var n := Next(c, s, a);
    var i :| 0 <= i < |n.chain.mined| && HashOf(n.chain.mined[i].tx) == hash;
  }

  lemma NextLost(c: Config, s: Sys, a: Action, p: nat)
    requires Inv(c, s) && Enabled(c, s, a) && Lost(s, p)
    ensures Lost(Next(c, s, a), p)
  {
    hide Inv, Ether.ToEther, DecideHead, HeadTx, Chunk, ChunkEnd, IsBatch, IsPending, HasReceipt, MakeDrip,
      TablesOk, LogOk, DecisionsOk, NonceOk, ChainOk, DoneOk, PhaseOk, HeightOk;
    LostTx(c, s, p);
    NextGrows(c, s, a);
    if a.IgnoreItem? || a.CommitDrip? { HeadItem(c, s); }
    if a.MarkDone? { FirstRowPending(c, s); }
    var n := Next(c, s, a);
    assert n.t.deposits[p].status == Processing;
    if HasReceipt(n.chain, n.t.drips[p].txid) { NewReceipt(c, s, a, s.t.drips[p].txid); }
  }

  /** A lost drip stays Processing forever, whatever the service, the chain or any restart does. */
  lemma {:induction false} LostForever(c: Config, s: Sys, run: seq<Action>, p: nat)
    requires Inv(c, s) && LegalFrom(c, s, run) && Lost(s, p)
    ensures Lost(After(c, s, run), p)
    decreases |run|
  {
    hide Ether.ToEther, Inv, Enabled, Next, Lost;
    if run != [] {
      var before := run[..|run| - 1];
      LostForever(c, s, before, p);
      RunFromInv(c, s, before);
      NextLost(c, After(c, s, before), run[|run| - 1], p);
    }
  }

  /** No drip has a nonce below the account's first one. */
  ghost predicate NonceFloor(c: Config, s: Sys) {
    && (forall p :: p in s.t.drips ==> s.t.drips[p].rawtx.tx.nonce >= c.genesis)
    && (s.faucet.On? ==> s.faucet.nonce >= c.genesis)
  }

  lemma NextFloor(c: Config, s: Sys, a: Action)
    requires Inv(c, s) && Enabled(c, s, a) && NonceFloor(c, s)
    ensures NonceFloor(c, Next(c, s, a))
  {
    hide Inv, DecideHead, HeadTx, Chunk, ChunkEnd, HasReceipt, IsBatch, IsPending, SetStatus;
    ChainNonceIs(c, s);
    if a.CommitDrip? { HeadTxFields(c, s, a.probe); }
  }

  lemma {:induction false} RunFloor(c: Config, run: seq<Action>)
    requires Legal(c, run)
    ensures NonceFloor(c, After(c, Init(c), run))
  {
    hide Inv, Enabled, Next, NonceFloor;
    if run == [] {
      InitFloor(c);
    } else {
      var before := run[..|run| - 1];
      RunFloor(c, before);
      InitInv(c);
      RunFromInv(c, Init(c), before);
      NextFloor(c, After(c, Init(c), before), run[|run| - 1]);
    }
  }

  lemma InitFloor(c: Config)
    ensures NonceFloor(c, Init(c))
  {}

  lemma ReachableFloor(c: Config, s: Sys)
    requires Reachable(c, s)
    ensures NonceFloor(c, s)
  {
    hide NonceFloor, Enabled, Next;
    var run :| EndsIn(c, run, s);
    RunFloor(c, run);
  }

  /** A different transaction with the nonce of drip p has been mined. */
  ghost predicate Overtaken(s: Sys, p: nat)
    requires p in s.t.drips
  {
    exists i :: 0 <= i < |s.chain.mined|
      && s.chain.mined[i].tx.nonce == s.t.drips[p].rawtx.tx.nonce && s.chain.mined[i].tx != s.t.drips[p].rawtx.tx
  }

  /** After any history, a pending deposit is lost exactly when another transaction took its nonce. */
  lemma LostIff(c: Config, s: Sys, p: nat)
    requires Reachable(c, s) && p < |s.t.deposits| && s.t.deposits[p].status == Processing
    ensures p in s.t.drips
    ensures Lost(s, p) <==> Overtaken(s, p)
  {
    hide Inv, NonceFloor, TablesOk, LogOk, DecisionsOk, NonceOk, DoneOk, PhaseOk, HeightOk, Stored;
    ReachableInv(c, s);
    DripsPaid(c, s);
    HashStored(c, s, p);
    InvParts(c, s);
    var tx := s.t.drips[p].rawtx.tx;
    if Lost(s, p) {
      assert tx.nonce >= c.genesis by { ReachableFloor(c, s); FloorOf(c, s, p); }
      var i := tx.nonce - c.genesis;
      assert s.chain.mined[i].tx.nonce == tx.nonce;
      assert HashOf(s.chain.mined[i].tx) != s.t.drips[p].txid;
    }
    if Overtaken(s, p) {
      var i :| 0 <= i < |s.chain.mined| && s.chain.mined[i].tx.nonce == tx.nonce && s.chain.mined[i].tx != tx;
      forall j | 0 <= j < |s.chain.mined| ensures HashOf(s.chain.mined[j].tx) != s.t.drips[p].txid {
        assert s.chain.mined[j].tx.nonce == c.genesis + j;
      }
    }
  }

  /**
    After any history: a restart cannot reuse a nonce exactly when every stored drip has been mined, or
    overtaken by a different transaction with its nonce.
   */
  lemma FreshStartIff(c: Config, s: Sys)
    requires Reachable(c, s)
    ensures FreshStart(s) <==> forall p :: p in s.t.drips ==> HasReceipt(s.chain, s.t.drips[p].txid) || Overtaken(s, p)
    ensures AllMined(s) ==> FreshStart(s)
  {
    hide Inv, HasReceipt, Overtaken;
    ReachableInv(c, s);
    DripsPaid(c, s);
    forall p | p in s.t.drips
      ensures s.t.drips[p].rawtx.tx.nonce < s.chain.nonce <==> HasReceipt(s.chain, s.t.drips[p].txid) || Overtaken(s, p)
    {
      HashStored(c, s, p);
      if HasReceipt(s.chain, s.t.drips[p].txid) {
        MinedBelow(c, s, p);
      } else if s.t.deposits[p].status == Done {
        DoneReceipt(c, s, p);
      } else {
        LostIff(c, s, p);
      }
    }
  }

  lemma FloorOf(c: Config, s: Sys, p: nat)
    requires NonceFloor(c, s) && p in s.t.drips
    ensures s.t.drips[p].rawtx.tx.nonce >= c.genesis
  {}

  lemma BelowIsMined(c: Config, s: Sys, p: nat)
    requires Inv(c, s) && Contiguous(c, s) && p in s.t.drips && s.t.drips[p].rawtx.tx.nonce < s.chain.nonce
    ensures HasReceipt(s.chain, s.t.drips[p].txid)
  {
    hide Inv;
    HashStored(c, s, p);
    ChainNonceIs(c, s);
    var k := Logged(c, s, p);
    assert TxOf(s, k).nonce == c.genesis + k;
    MinedIsKth(c, s, k);
    assert HashOf(s.chain.mined[k].tx) == s.t.drips[p].txid;
  }

  /** With contiguous nonces, hence after clean restarts, no deposit is ever lost. */
  lemma CleanNeverLoses(c: Config, s: Sys, p: nat)
    requires Inv(c, s) && Contiguous(c, s)
    ensures !Lost(s, p)
  {
    hide Inv, HasReceipt, Contiguous;
    if p in s.t.drips && s.t.drips[p].rawtx.tx.nonce < s.chain.nonce {
      BelowIsMined(c, s, p);
    }
  }

  lemma ChainNonceIs(c: Config, s: Sys)
    requires Inv(c, s)
    ensures s.chain.nonce == c.genesis + |s.chain.mined|
  {
    hide TablesOk, LogOk, DecisionsOk, NonceOk, DoneOk, PhaseOk, HeightOk;
  }

  /** Of two stored transactions with one nonce, mining the one loses the other. */
  lemma SharedNonceLoses(c: Config, s: Sys, p: nat, q: nat)
    requires Inv(c, s) && p in s.t.drips && q in s.t.drips
    requires s.t.drips[p].txid != s.t.drips[q].txid
    requires s.t.drips[p].rawtx.tx.nonce == s.t.drips[q].rawtx.tx.nonce
    requires HasReceipt(s.chain, s.t.drips[q].txid)
    ensures Lost(s, p)
  {
    hide Ether.ToEther, LogOk, DecisionsOk, NonceOk, PhaseOk, HeightOk;
    assert DripOk(c, s.t.deposits[p], s.t.drips[p]) && DripOk(c, s.t.deposits[q], s.t.drips[q]);
    var j :| 0 <= j < |s.chain.mined| && HashOf(s.chain.mined[j].tx) == s.t.drips[q].txid;
    assert s.chain.mined[j].tx.nonce == c.genesis + j;
  }
}
