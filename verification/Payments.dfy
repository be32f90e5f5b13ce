/**
  Which deposits are paid: when two of them share one transfer, what Done says about payment,
  how much is paid in all, and which pending deposits can still be paid.
 */
module Payments {
  import opened Data
  import opened Ingest
  import opened Policy
  import opened Protocol
  import opened Invariant
  import opened Nonces
  import opened Safety

  // ----- A transfer of its own -----

  /** Two drips agree in everything that is signed. */
  ghost predicate SameTransfer(s: Sys, p: nat, q: nat)
    requires p in s.t.drips && q in s.t.drips
  {
    var a, b := s.t.drips[p].rawtx.tx, s.t.drips[q].rawtx.tx;
    a.nonce == b.nonce && a.to == b.to && a.value == b.value && a.gasPrice == b.gasPrice && a.gas == b.gas
  }

  /** One mined transaction is that of both drips. */
  ghost predicate ShareMined(s: Sys, p: nat, q: nat)
    requires p in s.t.drips && q in s.t.drips
  {
    exists k :: 0 <= k < |s.chain.mined| && s.chain.mined[k].tx == s.t.drips[p].rawtx.tx == s.t.drips[q].rawtx.tx
  }

  /** Two Done deposits share their mined transfer exactly when their drips were signed with the same contents. */
  lemma DoneShareIff(c: Config, s: Sys, p: nat, q: nat)
    requires Reachable(c, s) && p < |s.t.deposits| && q < |s.t.deposits|
    requires s.t.deposits[p].status == s.t.deposits[q].status == Done
    ensures p in s.t.drips && q in s.t.drips
    ensures ShareMined(s, p, q) <==> SameTransfer(s, p, q)
    ensures s.t.drips[p].txid == s.t.drips[q].txid <==> SameTransfer(s, p, q)
  {
    hide Reachable, Inv;
    DoneMined(c, s, p);
    DoneMined(c, s, q);
    ReachableInv(c, s);
    HashStored(c, s, p);
    HashStored(c, s, q);
    if SameTransfer(s, p, q) {
      var k :| 0 <= k < |s.chain.mined| && s.chain.mined[k].tx == s.t.drips[p].rawtx.tx;
      assert s.chain.mined[k].tx == s.t.drips[q].rawtx.tx;
    }
  }

  /**
    Different drips never agree in contents after clean restarts, nor, whatever the restarts, when
    every policy checks for a first drip.
   */
  lemma NeverShared(c: Config, s: Sys, p: nat, q: nat)
    requires Reachable(c, s) && p in s.t.drips && q in s.t.drips && p != q
    requires Contiguous(c, s) || forall i :: 0 <= i < |c.policies| ==> c.policies[i].checkIfFirst
    ensures !SameTransfer(s, p, q)
  {
    hide Reachable, Inv;
    ReachableInv(c, s);
    if Contiguous(c, s) {
      DoneMinedSeparately(c, s, p, q);
    } else {
      OneDripPerRecipient(c, s, p, q);
      HashStored(c, s, p);
      HashStored(c, s, q);
    }
  }

  // ----- Done and paid -----

  /** The transaction of drip p was mined with this outcome. */
  ghost predicate MinedAs(s: Sys, p: nat, success: bool) {
    p in s.t.drips
    && exists k :: 0 <= k < |s.chain.mined| && s.chain.mined[k] == Receipt(s.t.drips[p].rawtx.tx, success)
  }

  lemma OneOutcome(c: Config, s: Sys, p: nat)
    requires Inv(c, s)
    ensures !(MinedAs(s, p, true) && MinedAs(s, p, false))
  {
    hide TablesOk, LogOk, DecisionsOk, NonceOk, DoneOk, PhaseOk, HeightOk, Stored;
    if MinedAs(s, p, true) {
      var tx := s.t.drips[p].rawtx.tx;
      var j :| 0 <= j < |s.chain.mined| && s.chain.mined[j] == Receipt(tx, true);
      forall k | 0 <= k < |s.chain.mined| ensures s.chain.mined[k] != Receipt(tx, false) {
        assert s.chain.mined[j].tx.nonce == c.genesis + j && s.chain.mined[k].tx.nonce == c.genesis + k;
      }
    }
  }

  lemma ReceiptOutcome(c: Config, s: Sys, p: nat)
    requires Inv(c, s) && p in s.t.drips
    ensures HasReceipt(s.chain, s.t.drips[p].txid) <==> MinedAs(s, p, true) || MinedAs(s, p, false)
  {
    hide Inv;
    HashStored(c, s, p);
    if HasReceipt(s.chain, s.t.drips[p].txid) {
      var k :| 0 <= k < |s.chain.mined| && HashOf(s.chain.mined[k].tx) == s.t.drips[p].txid;
      assert s.chain.mined[k] == Receipt(s.t.drips[p].rawtx.tx, s.chain.mined[k].success);
    }
  }

  /** A Done deposit has been paid exactly when its receipt is not one of a failure. */
  lemma DonePaidIff(c: Config, s: Sys, p: nat)
    requires Reachable(c, s) && p < |s.t.deposits| && s.t.deposits[p].status == Done
    ensures MinedAs(s, p, true) <==> !MinedAs(s, p, false)
  {
    hide Inv, MinedAs, HasReceipt;
    ReachableInv(c, s);
    DripsPaid(c, s);
    DoneReceipt(c, s, p);
    ReceiptOutcome(c, s, p);
    OneOutcome(c, s, p);
  }

  /** An outcome is final: a failed transfer is never paid later, in any continuation, and a paid one stays paid. */
  lemma OutcomeFinal(c: Config, s: Sys, run: seq<Action>, p: nat, success: bool)
    requires Inv(c, s) && LegalFrom(c, s, run) && MinedAs(s, p, success)
    ensures MinedAs(After(c, s, run), p, success) && !MinedAs(After(c, s, run), p, !success)
  {
    hide Inv;
    var n := After(c, s, run);
    RunFromInv(c, s, run);
    RunGrows(c, s, run);
    var k :| 0 <= k < |s.chain.mined| && s.chain.mined[k] == Receipt(s.t.drips[p].rawtx.tx, success);
    assert n.chain.mined[k] == s.chain.mined[k];
    OneOutcome(c, n, p);
  }

  // ----- The total paid -----

  /** What the first n drips promise. */
  ghost function Owed(s: Sys, n: nat): nat
    requires n <= |s.log| && forall k :: 0 <= k < |s.log| ==> s.log[k].pid in s.t.drips
  {
    if n == 0 then 0 else Owed(s, n - 1) + TxOf(s, n - 1).value
  }

  lemma {:induction false} PaidPrefix(s: Sys, n: nat)
    requires n <= |s.chain.mined| && n <= |s.log| && forall k :: 0 <= k < |s.log| ==> s.log[k].pid in s.t.drips
    requires forall k :: 0 <= k < n ==> s.chain.mined[k].tx == TxOf(s, k)
    ensures Paid(s.chain.mined[..n]) <= Owed(s, n)
    ensures Paid(s.chain.mined[..n]) == Owed(s, n)
            <==> forall k :: 0 <= k < n ==> s.chain.mined[k].success || TxOf(s, k).value == 0
  {
    if n > 0 {
      PaidPrefix(s, n - 1);
      assert s.chain.mined[..n][..n - 1] == s.chain.mined[..n - 1];
    }
  }

  /**
    After clean restarts the chain has mined a first part of the drips; what it has paid is at most
    what those promise, and exactly that if and only if each of them with a value succeeded.
   */
  lemma PaidExactly(c: Config, run: seq<Action>)
    requires Legal(c, run) && CleanRestarts(c, Init(c), run)
    ensures var s := After(c, Init(c), run);
            && |s.chain.mined| <= |s.log| && (forall k :: 0 <= k < |s.log| ==> s.log[k].pid in s.t.drips)
            && Paid(s.chain.mined) <= Owed(s, |s.chain.mined|)
            && (Paid(s.chain.mined) == Owed(s, |s.chain.mined|)
                <==> forall k :: 0 <= k < |s.chain.mined| ==> s.chain.mined[k].success || TxOf(s, k).value == 0)
  {
    hide Inv, Enabled, Next, Contiguous, CleanRestarts;
    var s := After(c, Init(c), run);
    InitInv(c);
    RunFromInv(c, Init(c), run);
    CleanRunContiguous(c, run);
    MinedPrefix(c, s);
    forall k | 0 <= k < |s.log| ensures s.log[k].pid in s.t.drips { LoggedStored(c, s, k); }
    forall k | 0 <= k < |s.chain.mined| ensures s.chain.mined[k].tx == TxOf(s, k) { MinedIsKth(c, s, k); }
    PaidPrefix(s, |s.chain.mined|);
    assert s.chain.mined[..|s.chain.mined|] == s.chain.mined;
  }

  // ----- Who can still be paid -----

  ghost predicate HasNonce(t: Tables, m: int) { exists q :: q in t.drips && t.drips[q].rawtx.tx.nonce == m }

  /** Every nonce below a stored one or below the local one is stored too. */
  ghost predicate Filled(c: Config, s: Sys) {
    && (forall p, m :: p in s.t.drips && c.genesis <= m <= s.t.drips[p].rawtx.tx.nonce ==> HasNonce(s.t, m))
    && (s.faucet.On? ==> forall m :: c.genesis <= m < s.faucet.nonce ==> HasNonce(s.t, m))
    && (s.faucet.On? || s.t.drips != map[] ==> HasDefault(c.policies))
  }

  lemma MinedFilled(c: Config, s: Sys, m: int)
    requires Inv(c, s) && c.genesis <= m < s.chain.nonce
    ensures HasNonce(s.t, m)
  {
    hide Inv;
    ChainNonceIs(c, s);
    MinedStored(c, s, m - c.genesis);
  }

  lemma NonceKept(s: Sys, n: Sys)
    requires TablesGrow(s, n)
    ensures forall m :: HasNonce(s.t, m) ==> HasNonce(n.t, m)
  {
    forall m | HasNonce(s.t, m) ensures HasNonce(n.t, m) {
      var q :| q in s.t.drips && s.t.drips[q].rawtx.tx.nonce == m;
      assert n.t.drips[q].rawtx.tx.nonce == m;
    }
  }

  /** Between commit and increment the local nonce is that of the drip just committed. */
  lemma CommittedNonce(c: Config, s: Sys)
    requires Inv(c, s) && s.faucet.On? && s.faucet.phase.Committed?
    ensures HasNonce(s.t, s.faucet.nonce)
  {
    hide Inv, TablesOk, LogOk, DecisionsOk, ChainOk, DoneOk, HeightOk, SendingOk;
    InvParts(c, s);
    var k := |s.log| - 1;
    assert TxOf(s, k).nonce == s.faucet.n0 + (k - s.faucet.base);
    assert s.t.drips[s.log[k].pid].rawtx.tx.nonce == s.faucet.nonce;
  }

  lemma NextFilled(c: Config, s: Sys, a: Action)
    requires Inv(c, s) && Enabled(c, s, a) && Filled(c, s)
    ensures Filled(c, Next(c, s, a))
  {
    hide Inv, DecideHead, HeadTx, Chunk, ChunkEnd, HasReceipt, HasDefault, HasNonce, IsBatch, IsPending, SetStatus,
      TablesGrow,
      AfterCommit;
    var n := Next(c, s, a);
    NextGrows(c, s, a);
    NonceKept(s, n);
    match a
    case Initial => forall m | c.genesis <= m < s.chain.nonce ensures HasNonce(s.t, m) { MinedFilled(c, s, m); }
    case CommitDrip(probe) => CommitFilled(c, s, probe);
    case BumpNonce => CommittedNonce(c, s);
    case _ =>
  }

  lemma CommitFilled(c: Config, s: Sys, probe: Probe)
    requires Inv(c, s) && Enabled(c, s, CommitDrip(probe)) && Filled(c, s)
    ensures Filled(c, AfterCommit(c, s, probe))
  {
    hide Inv, DecideHead, HeadTx, HasNonce, HasDefault, AfterCommit, TablesGrow;
    var n, item := AfterCommit(c, s, probe), s.faucet.phase.todo[0].id;
    CommitAppends(c, s, probe);
    CommitKeys(c, s, probe);
    NextGrows(c, s, CommitDrip(probe));
    NonceKept(s, n);
    HasItsNonce(n.t, item);
  }

  lemma CommitKeys(c: Config, s: Sys, probe: Probe)
    requires Enabled(c, s, CommitDrip(probe))
    ensures AfterCommit(c, s, probe).t.drips.Keys == s.t.drips.Keys + {s.faucet.phase.todo[0].id}
    ensures Next(c, s, CommitDrip(probe)) == AfterCommit(c, s, probe)
  {
    hide DecideHead, HeadTx, MakeDrip;
  }

  lemma HasItsNonce(t: Tables, q: nat)
    requires q in t.drips
    ensures HasNonce(t, t.drips[q].rawtx.tx.nonce)
  {}

  lemma {:induction false} RunFilled(c: Config, run: seq<Action>)
    requires Legal(c, run)
    ensures Filled(c, After(c, Init(c), run))
  {
    hide Inv, Enabled, Next, Filled;
    if run == [] {
      InitFilled(c);
    } else {
      var before := run[..|run| - 1];
      RunFilled(c, before);
      InitInv(c);
      RunFromInv(c, Init(c), before);
      NextFilled(c, After(c, Init(c), before), run[|run| - 1]);
    }
  }

  lemma InitFilled(c: Config)
    ensures Filled(c, Init(c))
  {}

  lemma ReachableFilled(c: Config, s: Sys)
    requires Reachable(c, s)
    ensures Filled(c, s)
  {
    hide Filled, Enabled, Next;
    var run :| EndsIn(c, run, s);
    RunFilled(c, run);
  }

  /** Some continuation of s ends in n. */
  ghost predicate Leads(c: Config, s: Sys, n: Sys) { exists run :: LegalFrom(c, s, run) && After(c, s, run) == n }

  lemma LeadsNext(c: Config, s: Sys, n: Sys, a: Action)
    requires Leads(c, s, n) && Enabled(c, n, a)
    ensures Leads(c, s, Next(c, n, a))
  {
    hide Enabled, Next;
    var run :| LegalFrom(c, s, run) && After(c, s, run) == n;
    assert (run + [a])[..|run|] == run;
    assert LegalFrom(c, s, run + [a]) && After(c, s, run + [a]) == Next(c, n, a);
  }

  lemma LeadsInv(c: Config, s: Sys, n: Sys)
    requires Inv(c, s) && Leads(c, s, n)
    ensures Inv(c, n)
  {
    hide Inv;
    var run :| LegalFrom(c, s, run) && After(c, s, run) == n;
    RunFromInv(c, s, run);
  }

  /** The drip whose turn it is can be sent once more and mined. */
  lemma ResendAndMine(c: Config, s: Sys, n: Sys, q: nat) returns (m: Sys)
    requires Leads(c, s, n) && n.faucet.On? && n.faucet.phase.Idle?
    requires q < |n.t.deposits| && n.t.deposits[q].status == Processing && q in n.t.drips
    requires n.t.drips[q].rawtx.tx.nonce == n.chain.nonce
    ensures Leads(c, s, m) && m.faucet.On? && m.faucet.phase.Idle? && m.t == n.t
    ensures m.chain.nonce == n.chain.nonce + 1
    ensures m.chain.mined == n.chain.mined + [Receipt(n.t.drips[q].rawtx.tx, true)]
  {
    hide Leads;
    var row := PendingDrip(q, n.t.drips[q].txid, n.t.drips[q].rawtx);
    LeadsNext(c, s, n, BeginCheck([row]));
    m := Next(c, n, BeginCheck([row]));
    LeadsNext(c, s, m, Rebroadcast(true));
    m := Next(c, m, Rebroadcast(true));
    LeadsNext(c, s, m, EndCheck);
    m := Next(c, m, EndCheck);
    LeadsNext(c, s, m, Mine(row.rawtx.tx, true));
    m := Next(c, m, Mine(row.rawtx.tx, true));
  }

  /** The drips before p and then p itself can be sent and mined, one after the other. */
  lemma {:induction false} PayUpTo(c: Config, s: Sys, n: Sys, p: nat) returns (m: Sys)
    requires Inv(c, s) && Leads(c, s, n) && n.faucet.On? && n.faucet.phase.Idle?
    requires p < |n.t.deposits| && n.t.deposits[p].status == Processing && p in n.t.drips
    requires n.t.drips[p].rawtx.tx.nonce >= n.chain.nonce >= c.genesis
    requires forall k :: c.genesis <= k <= n.t.drips[p].rawtx.tx.nonce ==> HasNonce(n.t, k)
    ensures Leads(c, s, m) && MinedAs(m, p, true)
    decreases n.t.drips[p].rawtx.tx.nonce - n.chain.nonce
  {
    hide Inv, Leads;
    if n.t.drips[p].rawtx.tx.nonce == n.chain.nonce {
      m := ResendAndMine(c, s, n, p);
      assert m.chain.mined[|n.chain.mined|] == Receipt(m.t.drips[p].rawtx.tx, true);
    } else {
      assert HasNonce(n.t, n.chain.nonce);
      var q :| q in n.t.drips && n.t.drips[q].rawtx.tx.nonce == n.chain.nonce;
      LeadsInv(c, s, n);
      StillProcessing(c, n, q);
      m := ResendAndMine(c, s, n, q);
      m := PayUpTo(c, s, m, p);
    }
  }

  lemma StillProcessing(c: Config, s: Sys, q: nat)
    requires Inv(c, s) && q in s.t.drips && s.t.drips[q].rawtx.tx.nonce >= s.chain.nonce
    ensures q < |s.t.deposits| && s.t.deposits[q].status == Processing
  {
    hide Inv, HasReceipt;
    HashStored(c, s, q);
    DripsPaid(c, s);
    if s.t.deposits[q].status == Done {
      DoneReceipt(c, s, q);
      MinedBelow(c, s, q);
      assert false;
    }
  }

  /**
    After any history, a pending deposit can still be paid in some continuation exactly when it
    is not lost and its transfer has not been mined as a failure. The check query may return rows
    in any order here; see Blocking for id order.
   */
  lemma PayableIff(c: Config, s: Sys, p: nat)
    requires Reachable(c, s) && p < |s.t.deposits| && s.t.deposits[p].status == Processing
    ensures (exists n :: Leads(c, s, n) && MinedAs(n, p, true)) <==> !Lost(s, p) && !MinedAs(s, p, false)
  {
    hide Inv, Reachable, Lost, MinedAs, Leads;
    ReachableInv(c, s);
    if Lost(s, p) {
      forall n | Leads(c, s, n) ensures !MinedAs(n, p, true) { LostUnpaid(c, s, n, p); }
    } else if MinedAs(s, p, false) {
      forall n | Leads(c, s, n) ensures !MinedAs(n, p, true) { FailedUnpaid(c, s, n, p); }
    } else {
      var n := Pay(c, s, p);
    }
  }

  lemma LostUnpaid(c: Config, s: Sys, n: Sys, p: nat)
    requires Inv(c, s) && Lost(s, p) && Leads(c, s, n)
    ensures !MinedAs(n, p, true)
  {
    hide Inv, MinedAs;
    var run :| LegalFrom(c, s, run) && After(c, s, run) == n;
    LostForever(c, s, run, p);
    RunFromInv(c, s, run);
    ReceiptOutcome(c, n, p);
  }

  lemma FailedUnpaid(c: Config, s: Sys, n: Sys, p: nat)
    requires Inv(c, s) && MinedAs(s, p, false) && Leads(c, s, n)
    ensures !MinedAs(n, p, true)
  {
    hide Inv, MinedAs;
    var run :| LegalFrom(c, s, run) && After(c, s, run) == n;
    OutcomeFinal(c, s, run, p, false);
  }

  lemma LeadsItself(c: Config, s: Sys)
    ensures Leads(c, s, s)
  {
    assert LegalFrom(c, s, []) && After(c, s, []) == s;
  }

  lemma Pay(c: Config, s: Sys, p: nat) returns (n: Sys)
    requires Reachable(c, s) && p < |s.t.deposits| && s.t.deposits[p].status == Processing
    requires !Lost(s, p) && !MinedAs(s, p, false)
    ensures Leads(c, s, n) && MinedAs(n, p, true)
  {
    hide Inv, Reachable, MinedAs, Leads, HasNonce, HasDefault, HasReceipt;
    ReachableInv(c, s);
    DripsPaid(c, s);
    LeadsItself(c, s);
    if HasReceipt(s.chain, s.t.drips[p].txid) {
      ReceiptOutcome(c, s, p);
      n := s;
    } else {
      ReachableFilled(c, s);
      ChainNonceIs(c, s);
      LeadsNext(c, s, s, Crash);
      n := Next(c, s, Crash);
      LeadsNext(c, s, n, Initial);
      n := Next(c, n, Initial);
      n := PayUpTo(c, s, n, p);
    }
  }
}
