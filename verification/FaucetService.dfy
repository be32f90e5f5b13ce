/**
  The faucet goroutine (internal/services/faucet.go): sending batches of drips and checking them.
 */
module FaucetService {
  import opened Data
  import opened Ingest
  import opened Policy
  import opened Rebate
  import opened Protocol
  import opened Invariant
  import opened Liveness
  import opened Completion
  import opened Repository
  import opened World
  import Ether
  import PriceCache

  /** How a batch, or one item of it, ended. */
  datatype Outcome = Sent | SendError | BroadcastError | Crashed

  // ----- What a batch does to the tables -----

  /** Row id was decided; every other old row is as it was. */
  ghost predicate ItemDecided(t: Tables, id: nat, n: Tables) {
    && id < |t.deposits| <= |n.deposits|
    && (exists st :: st in {Processing, Ignore} && n.deposits[id] == t.deposits[id].(status := st))
    && (forall i :: 0 <= i < |t.deposits| && i != id ==> n.deposits[i] == t.deposits[i])
  }

  /** The first n rows of the batch were decided; every other old row is as it was. */
  ghost predicate BatchProgress(t: Tables, rows: seq<Deposit>, n: nat, after: Tables)
    requires n <= |rows|
  {
    && |t.deposits| <= |after.deposits|
    && (forall i :: 0 <= i < |t.deposits| && i in BatchIds(rows[..n]) ==>
          && after.deposits[i].status in {Processing, Ignore}
          && after.deposits[i] == t.deposits[i].(status := after.deposits[i].status))
    && (forall i :: 0 <= i < |t.deposits| && i !in BatchIds(rows[..n]) ==> after.deposits[i] == t.deposits[i])
  }

  lemma ProgressStep(t: Tables, rows: seq<Deposit>, n: nat, mid: Tables, after: Tables)
    requires IsBatch(t, rows) && n < |rows| && BatchProgress(t, rows, n, mid) && ItemDecided(mid, rows[n].id, after)
    ensures BatchProgress(t, rows, n + 1, after)
  {
    assert BatchIds(rows[..n + 1]) == BatchIds(rows[..n]) + {rows[n].id};
  }

  lemma ProgressGrow(t: Tables, rows: seq<Deposit>, n: nat, mid: Tables, after: Tables)
    requires n <= |rows| && BatchProgress(t, rows, n, mid) && mid.deposits <= after.deposits
    ensures BatchProgress(t, rows, n, after)
  {}

  lemma NothingDecided(t: Tables, rows: seq<Deposit>)
    ensures BatchProgress(t, rows, 0, t)
  {}

  /** Rows of the batch that were not reached are exactly as the query saw them. */
  lemma RestUntouched(t: Tables, rows: seq<Deposit>, n: nat, after: Tables)
    requires IsBatch(t, rows) && n <= |rows| && BatchProgress(t, rows, n, after)
    ensures forall k :: n <= k < |rows| ==> rows[k].id < |after.deposits| && after.deposits[rows[k].id] == rows[k]
  {
    forall k | n <= k < |rows| ensures rows[k].id !in BatchIds(rows[..n]) {}
  }

  lemma AllDecided(t: Tables, rows: seq<Deposit>, after: Tables)
    requires IsBatch(t, rows) && |rows| == Min(100, Count(t.deposits, Unprocessed))
    requires BatchProgress(t, rows, |rows|, after)
    ensures BatchDone(t, rows, after)
  {
    assert rows[..|rows|] == rows;
  }

  // ----- Steps of the protocol, as seen from here -----

  ghost predicate AtItem(s: Sys, nonce: nat, item: Deposit, rest: seq<Deposit>, recset: set<Address>, tokens: set<Address>) {
    && InPhase(s) && s.faucet.nonce == nonce
    && s.faucet.phase.todo == [item] + rest && s.faucet.phase.recset == recset && s.faucet.phase.tokens == tokens
  }

  /** The loop head again, with these rows left. */
  ghost predicate AtRest(s: Sys, nonce: nat, rest: seq<Deposit>, recset: set<Address>, tokens: set<Address>) {
    && s.faucet.On? && s.faucet.nonce == nonce && s.faucet.phase.Sending?
    && s.faucet.phase.todo == rest && s.faucet.phase.recset == recset && s.faucet.phase.tokens == tokens
  }

  ghost predicate IsIdle(s: Sys, nonce: nat) { s.faucet.On? && s.faucet.nonce == nonce && s.faucet.phase.Idle? }

  lemma EndStep(c: Config, s: Sys)
    requires s.faucet.On? && s.faucet.phase.Sending?
    ensures Enabled(c, s, EndSend) && IsIdle(Next(c, s, EndSend), s.faucet.nonce)
    ensures Next(c, s, EndSend).t == s.t && Next(c, s, EndSend).sync == s.sync && Next(c, s, EndSend).chain == s.chain
  {}

  lemma IgnoreStep(c: Config, s: Sys, nonce: nat, item: Deposit, rest: seq<Deposit>, recset: set<Address>,
                   tokens: set<Address>, probe: Probe)
    requires Inv(c, s) && AtItem(s, nonce, item, rest, recset, tokens)
    requires Decide(c.policies, item, recset, tokens, s.t.drips, probe).NoNeed?
    ensures Enabled(c, s, IgnoreItem(probe))
    ensures var n := Next(c, s, IgnoreItem(probe));
            && n.t == s.t.(deposits := SetStatus(s.t.deposits, item.id, Ignore))
            && AtRest(n, nonce, rest, recset, tokens) && ItemDecided(s.t, item.id, n.t) && n.chain == s.chain
  {
    HeadItem(c, s);
  }

  lemma CommitStep(c: Config, s: Sys, nonce: nat, item: Deposit, rest: seq<Deposit>, recset: set<Address>,
                   tokens: set<Address>, probe: Probe, tx: Tx)
    requires Inv(c, s) && AtItem(s, nonce, item, rest, recset, tokens)
    requires Decide(c.policies, item, recset, tokens, s.t.drips, probe).Go?
    requires HeadTx(c, s, probe) == Some(tx)
    ensures item.id !in s.t.drips && Enabled(c, s, CommitDrip(probe))
    ensures var n := Next(c, s, CommitDrip(probe));
            && n.t == s.t.(deposits := SetStatus(s.t.deposits, item.id, Processing),
                           drips := s.t.drips[item.id := MakeDrip(item.id, c.account, tx)])
            && ItemDecided(s.t, item.id, n.t) && n.t.deposits[item.id].status == Processing && n.chain == s.chain
            && n.faucet.On? && n.faucet.nonce == nonce && n.faucet.phase.Committed? && n.faucet.phase.tx == tx
            && AtRest(n.(faucet := n.faucet.(phase := n.faucet.phase.rest)), nonce, rest, recset + {item.row.to}, tokens)
  {
    hide Decide, HeadTx, Select;
    HeadItem(c, s);
  }

  lemma BumpStep(c: Config, s: Sys)
    requires s.faucet.On? && s.faucet.phase.Committed?
    ensures Enabled(c, s, BumpNonce)
    ensures Next(c, s, BumpNonce) == s.(faucet := s.faucet.(nonce := s.faucet.nonce + 1,
                                          phase := Bumped(s.faucet.phase.tx, s.faucet.phase.rest)))
  {}

  lemma BroadcastStep(c: Config, s: Sys, accepted: bool, ok: bool)
    requires s.faucet.On? && s.faucet.phase.Bumped?
    ensures Enabled(c, s, Broadcast(accepted, ok))
    ensures var n := Next(c, s, Broadcast(accepted, ok));
            n.t == s.t && n.faucet == s.faucet.(phase := if ok then s.faucet.phase.rest else Idle)
            && s.chain.sent <= n.chain.sent && (accepted ==> s.faucet.phase.tx in n.chain.sent)
  {}

  lemma ItemInTable(c: Config, s: Sys, nonce: nat, item: Deposit, rest: seq<Deposit>, recset: set<Address>,
                    tokens: set<Address>)
    requires Reachable(c, s) && AtItem(s, nonce, item, rest, recset, tokens)
    ensures item.id < |s.t.deposits|
  {
    ReachableInv(c, s);
    HeadItem(c, s);
  }

  lemma BeginStep(c: Config, s: Sys, rows: seq<Deposit>, tokens: set<Address>)
    requires s.faucet.On? && s.faucet.phase.Idle? && IsBatch(s.t, rows)
    ensures Enabled(c, s, BeginSend(rows, tokens))
    ensures var n := Next(c, s, BeginSend(rows, tokens));
            n.t == s.t && n.chain == s.chain && AtRest(n, s.faucet.nonce, rows, {}, tokens)
  {}

  lemma IdsAreRanks(c: Config, s: Sys)
    requires Reachable(c, s)
    ensures forall i :: 0 <= i < |s.t.deposits| ==> s.t.deposits[i].id == i
  {
    ReachableInv(c, s);
  }

  lemma ProcessingHasDrip(c: Config, s: Sys)
    requires Reachable(c, s)
    ensures forall i :: 0 <= i < |s.t.deposits| && s.t.deposits[i].status == Processing ==> i in s.t.drips
  {
    ReachableInv(c, s);
  }

  // ----- Checking -----

  ghost predicate AtRows(s: Sys, nonce: nat, rows: seq<PendingDrip>) {
    s.faucet.On? && s.faucet.nonce == nonce && s.faucet.phase == Checking(rows)
  }

  lemma NothingChecked(s: Sys)
    requires s.faucet.On?
    ensures Checked(s, s)
  {}

  lemma CheckedGrow(s: Sys, mid: Sys, n: Sys)
    requires Checked(s, mid) && SameLife(mid, n) && n.log == mid.log
    requires n.t.drips == mid.t.drips && n.chain.sent == mid.chain.sent
    requires mid.t.deposits <= n.t.deposits && mid.chain.mined <= n.chain.mined
    ensures Checked(s, n)
  {
    hide HasReceipt;
    forall i | 0 <= i < |s.t.deposits| && Confirmed(mid, i) ensures Confirmed(n, i) {
      ReceiptKept(mid, n, mid.t.drips[i].txid);
    }
  }

  /** The first i rows were handled. */
  ghost predicate HandledRows(s: Sys, rows: seq<PendingDrip>, i: nat, n: Sys)
    requires i <= |rows|
  {
    forall j :: 0 <= j < i ==>
      rows[j].id in s.t.drips && rows[j].id < |n.t.deposits| && Handled(s, n, rows[j].id)
  }

  lemma NoneHandled(s: Sys, rows: seq<PendingDrip>, n: Sys)
    ensures HandledRows(s, rows, 0, n)
  {}

  lemma HandledGrow(s: Sys, rows: seq<PendingDrip>, i: nat, mid: Sys, n: Sys)
    requires i <= |rows| && HandledRows(s, rows, i, mid)
    requires mid.t.deposits <= n.t.deposits && n.chain.sent == mid.chain.sent
    ensures HandledRows(s, rows, i, n)
  {
    hide Confirmed;
    forall j | 0 <= j < i ensures n.t.deposits[rows[j].id] == mid.t.deposits[rows[j].id] {}
  }

  lemma HandledRow(s: Sys, rows: seq<PendingDrip>, i: nat, mid: Sys, done: bool)
    requires i < |rows| && HandledRows(s, rows, i, mid) && Checked(s, mid) && Up(mid)
    requires IsPendingRow(mid.t, rows[i]) && done == HasReceipt(mid.chain, rows[i].txid)
    ensures HandledRows(s, rows, i + 1, AfterRow(mid, rows[i], rows[i + 1..], done, true))
  {
    hide HasReceipt;
    if HasReceipt(s.chain, rows[i].txid) { ReceiptKept(s, mid, rows[i].txid); }
  }

  lemma AllHandled(s: Sys, rows: seq<PendingDrip>, n: Sys)
    requires WindowRows(s.t, |s.t.deposits|, rows) && HandledRows(s, rows, |rows|, n)
    requires Checked(s, n) && n.faucet.phase.Idle?
    ensures CompleteRound(s, n)
  {
    hide Checked, Handled, InWindow, WindowRows;
    forall i: nat | InWindow(s.t, i) && i in s.t.drips ensures i < |n.t.deposits| && Handled(s, n, i) {
      var k := RowOfWindow(s.t, rows, i);
    }
  }

  /** The state after one row was handled. */
  function AfterRow(s: Sys, row: PendingDrip, rest: seq<PendingDrip>, done: bool, accepted: bool): Sys
    requires Up(s)
  {
    var n := Goto(s, Checking(rest));
    if done then n.(t := n.t.(deposits := SetStatus(n.t.deposits, row.id, Done)))
    else n.(chain := Send(n.chain, row.rawtx.tx, accepted))
  }

  lemma RowStep(c: Config, s: Sys, nonce: nat, row: PendingDrip, rest: seq<PendingDrip>, done: bool, accepted: bool)
    requires AtRows(s, nonce, [row] + rest) && (done ==> HasReceipt(s.chain, row.txid))
    ensures var a := if done then MarkDone else Rebroadcast(accepted);
            Enabled(c, s, a) && Next(c, s, a) == AfterRow(s, row, rest, done, accepted)
  {}

  lemma RowIsPending(c: Config, s: Sys, nonce: nat, row: PendingDrip, rest: seq<PendingDrip>)
    requires Reachable(c, s) && AtRows(s, nonce, [row] + rest)
    ensures IsPendingRow(s.t, row)
  {
    ReachableInv(c, s);
    assert s.faucet.phase.rows[0] == row;
  }

  lemma CheckedRow(s: Sys, mid: Sys, row: PendingDrip, rest: seq<PendingDrip>, done: bool, accepted: bool)
    requires Checked(s, mid) && Up(mid) && IsPendingRow(mid.t, row) && (done ==> HasReceipt(mid.chain, row.txid))
    ensures Checked(s, AfterRow(mid, row, rest, done, accepted))
  {
    hide HasReceipt;
    var n := AfterRow(mid, row, rest, done, accepted);
    forall i | 0 <= i < |s.t.deposits| && Confirmed(mid, i) ensures Confirmed(n, i) {
      ReceiptKept(mid, n, mid.t.drips[i].txid);
    }
    if done { ReceiptKept(mid, n, row.txid); }
    assert Stored(s.t, row.rawtx.tx) by { assert s.t.drips[row.id].rawtx.tx == row.rawtx.tx; }
  }

  lemma RowTables(s: Sys, row: PendingDrip, rest: seq<PendingDrip>, accepted: bool)
    requires Up(s)
    ensures AfterRow(s, row, rest, true, accepted).t == s.t.(deposits := SetStatus(s.t.deposits, row.id, Done))
  {}

  lemma AfterRowAt(s: Sys, nonce: nat, row: PendingDrip, rest: seq<PendingDrip>, done: bool, accepted: bool)
    requires AtRows(s, nonce, [row] + rest)
    ensures AtRows(AfterRow(s, row, rest, done, accepted), nonce, rest)
  {}

  lemma BeginCheckStep(c: Config, s: Sys, rows: seq<PendingDrip>)
    requires s.faucet.On? && s.faucet.phase.Idle? && IsPending(s.t, rows)
    ensures Enabled(c, s, BeginCheck(rows)) && Next(c, s, BeginCheck(rows)) == Goto(s, Checking(rows))
  {}

  lemma EndCheckStep(c: Config, s: Sys)
    requires s.faucet.On? && s.faucet.phase.Checking?
    ensures Enabled(c, s, EndCheck) && Next(c, s, EndCheck) == Goto(s, Idle)
  {}

  /** The state of an undisturbed round that has handled the first i rows. */
  function PartialRound(s: Sys, rows: seq<PendingDrip>, i: nat): Sys
    requires Up(s) && i <= |rows|
  {
    var done := set k | 0 <= k < i && HasReceipt(s.chain, rows[k].txid) :: rows[k].id;
    var resent := set k | 0 <= k < i && !HasReceipt(s.chain, rows[k].txid) :: rows[k].rawtx.tx;
    var ds := s.t.deposits;
    Goto(s, Checking(rows[i..]))
      .(t := s.t.(deposits := seq(|ds|, d requires 0 <= d < |ds| => if d in done then ds[d].(status := Done) else ds[d])),
        chain := s.chain.(sent := s.chain.sent + resent))
  }

  lemma PartialStarts(s: Sys, rows: seq<PendingDrip>)
    requires Up(s)
    ensures PartialRound(s, rows, 0) == Goto(s, Checking(rows))
  {
    assert PartialRound(s, rows, 0).t.deposits == s.t.deposits;
  }

  lemma PartialStep(s: Sys, rows: seq<PendingDrip>, i: nat)
    requires Up(s) && i < |rows|
    ensures var p := PartialRound(s, rows, i);
            AfterRow(p, rows[i], rows[i + 1..], HasReceipt(s.chain, rows[i].txid), true) == PartialRound(s, rows, i + 1)
            && p.chain.mined == s.chain.mined
  {
    hide HasReceipt;
    var p, n := PartialRound(s, rows, i), PartialRound(s, rows, i + 1);
    var done := HasReceipt(s.chain, rows[i].txid);
    var q := AfterRow(p, rows[i], rows[i + 1..], done, true);
    var b := set k | 0 <= k < i && HasReceipt(s.chain, rows[k].txid) :: rows[k].id;
    var a := set k | 0 <= k < i + 1 && HasReceipt(s.chain, rows[k].txid) :: rows[k].id;
    assert a == if done then b + {rows[i].id} else b;
    assert q.t.deposits == n.t.deposits;
    var r := set k | 0 <= k < i && !HasReceipt(s.chain, rows[k].txid) :: rows[k].rawtx.tx;
    var r' := set k | 0 <= k < i + 1 && !HasReceipt(s.chain, rows[k].txid) :: rows[k].rawtx.tx;
    assert r' == if done then r else r + {rows[i].rawtx.tx};
    assert q.chain.sent == n.chain.sent;
  }

  lemma SameReceipts(s: Sys, rows: seq<PendingDrip>, i: nat, mid: Sys)
    requires Up(s) && i < |rows| && mid == PartialRound(s, rows, i)
    ensures HasReceipt(mid.chain, rows[i].txid) == HasReceipt(s.chain, rows[i].txid)
  {}

  /** Window and delivered rows name the same drips. */
  lemma RowOfWindow(t: Tables, rows: seq<PendingDrip>, i: nat) returns (k: nat)
    requires WindowRows(t, |t.deposits|, rows) && InWindow(t, i)
    ensures k < |rows| && rows[k].id == i && IsPendingRow(t, rows[k])
  {
    hide Count, InWindow;
    assert i < |t.deposits| by { InWindowBound(t, i); }
    assert HasRow(rows, i);
    k :| 0 <= k < |rows| && rows[k].id == i;
  }

  lemma InWindowBound(t: Tables, i: nat)
    requires InWindow(t, i)
    ensures i < |t.deposits|
  {}

  lemma PartialEndsDeposits(s: Sys, rows: seq<PendingDrip>)
    requires Up(s) && WindowRows(s.t, |s.t.deposits|, rows)
    ensures PartialRound(s, rows, |rows|).t == CheckRound(s).t
  {
    hide HasReceipt, Count, InWindow, WindowRows;
    var p, n := PartialRound(s, rows, |rows|), CheckRound(s);
    forall d: nat | d < |s.t.deposits| ensures p.t.deposits[d] == n.t.deposits[d] {
      forall j | 0 <= j < |rows| && rows[j].id == d
        ensures InWindow(s.t, d) && d in s.t.drips && rows[j].txid == s.t.drips[d].txid { RowInWindow(s.t, rows, j); }
      if InWindow(s.t, d) { var k := RowOfWindow(s.t, rows, d); }
    }
    assert p.t.deposits == n.t.deposits;
  }

  lemma RowInWindow(t: Tables, rows: seq<PendingDrip>, j: nat)
    requires WindowRows(t, |t.deposits|, rows) && j < |rows|
    ensures InWindow(t, rows[j].id) && rows[j].id < |t.deposits| && rows[j].id in t.drips
    ensures rows[j].txid == t.drips[rows[j].id].txid && rows[j].rawtx == t.drips[rows[j].id].rawtx
  {
    hide Count, InWindow, HasRow;
    assert IsPendingRow(t, rows[j]);
  }

  lemma PartialEndsSent(s: Sys, rows: seq<PendingDrip>)
    requires Up(s) && WindowRows(s.t, |s.t.deposits|, rows)
    ensures PartialRound(s, rows, |rows|).chain == CheckRound(s).chain
  {
    hide HasReceipt, Count, InWindow, WindowRows;
    var r := set k | 0 <= k < |rows| && !HasReceipt(s.chain, rows[k].txid) :: rows[k].rawtx.tx;
    var q :=
      set i | 0 <= i < |s.t.deposits| && InWindow(s.t, i) && i in s.t.drips && !Confirmed(s, i) :: s.t.drips[i].rawtx.tx;
    forall tx | tx in q ensures tx in r {
      var i :| 0 <= i < |s.t.deposits| && InWindow(s.t, i) && i in s.t.drips && !Confirmed(s, i)
        && tx == s.t.drips[i].rawtx.tx;
      var k := RowOfWindow(s.t, rows, i);
      RowInWindow(s.t, rows, k);
    }
    forall tx | tx in r ensures tx in q {
      var k :| 0 <= k < |rows| && !HasReceipt(s.chain, rows[k].txid) && tx == rows[k].rawtx.tx;
      RowInWindow(s.t, rows, k);
    }
    assert r == q;
  }

  lemma PartialEnds(s: Sys, rows: seq<PendingDrip>)
    requires Up(s) && s.faucet.phase.Idle? && rows == FirstPending(s.t, |s.t.deposits|)
    requires forall i :: 0 <= i < |s.t.deposits| && s.t.deposits[i].status == Processing ==> i in s.t.drips
    ensures Goto(PartialRound(s, rows, |rows|), Idle) == CheckRound(s)
  {
    FirstPendingIsWindow(s.t, |s.t.deposits|);
    PartialEndsDeposits(s, rows);
    PartialEndsSent(s, rows);
    hide WindowRows, FirstPending;
    SameButPhase(s, PartialRound(s, rows, |rows|), CheckRound(s));
  }

  lemma SameButPhase(s: Sys, p: Sys, n: Sys)
    requires Up(s) && s.faucet.phase.Idle? && Up(p)
    requires p.t == n.t && p.chain == n.chain && n == s.(t := n.t, chain := n.chain)
    requires p == s.(t := p.t, chain := p.chain, faucet := s.faucet.(phase := p.faucet.phase))
    ensures Goto(p, Idle) == n
  {}

  lemma CrashStep(c: Config, s: Sys)
    ensures Enabled(c, s, Crash) && Next(c, s, Crash) == s.(sync := SyncDown, faucet := Off)
  {}

  lemma GoHasPolicy(policy: Option<Policy>, item: Deposit, recset: set<Address>, tokens: set<Address>,
                    drips: map<nat, Drip>, probe: Probe)
    requires DecideUnder(policy, item, recset, tokens, drips, probe).Go?
    ensures policy.Some?
  {}

  lemma SignedTo(c: Config, nonce: nat, item: Deposit, probe: Probe)
    requires SignedTx(c, nonce, item, probe).Some?
    ensures SignedTx(c, nonce, item, probe).value.to == item.row.to
  {
    hide Select, DripAmount;
  }

  lemma ItemGrow(t: Tables, id: nat, mid: Tables, after: Tables)
    requires ItemDecided(t, id, mid) && mid.deposits <= after.deposits
    ensures ItemDecided(t, id, after)
  {
    assert after.deposits[id] == mid.deposits[id];
  }

  lemma ItemAfterGrow(t: Tables, mid: Tables, id: nat, after: Tables)
    requires t.deposits <= mid.deposits && id < |t.deposits| && ItemDecided(mid, id, after)
    ensures ItemDecided(t, id, after)
  {}

  // ----- What has been handed to the chain -----

  /** Nothing stored or sent gets lost. */
  ghost predicate Given(s: Sys, n: Sys) {
    && (forall p :: p in s.t.drips ==> p in n.t.drips && n.t.drips[p] == s.t.drips[p])
    && s.chain.sent <= n.chain.sent
  }

  /** The stored transaction of this deposit has been handed to the chain. */
  ghost predicate Handed(s: Sys, id: nat) { id in s.t.drips && s.t.drips[id].rawtx.tx in s.chain.sent }

  /** Of the first n rows, those that got a drip have been sent. */
  ghost predicate AllHanded(s: Sys, rows: seq<Deposit>, n: nat)
    requires n <= |rows|
  {
    forall k :: 0 <= k < n ==>
      rows[k].id < |s.t.deposits| && (s.t.deposits[rows[k].id].status == Processing ==> Handed(s, rows[k].id))
  }

  lemma NoneHanded(s: Sys, rows: seq<Deposit>)
    ensures AllHanded(s, rows, 0)
  {}

  lemma HandedStep(t: Tables, rows: seq<Deposit>, n: nat, before: Sys, after: Sys)
    requires IsBatch(t, rows) && n < |rows| && AllHanded(before, rows, n) && Given(before, after)
    requires ItemDecided(before.t, rows[n].id, after.t)
    requires after.t.deposits[rows[n].id].status == Processing ==> Handed(after, rows[n].id)
    ensures AllHanded(after, rows, n + 1)
  {}

  lemma HandedGrow(s: Sys, n: Sys, rows: seq<Deposit>, k: nat)
    requires k <= |rows| && AllHanded(s, rows, k) && Given(s, n) && s.t.deposits <= n.t.deposits
    ensures AllHanded(n, rows, k)
  {}

  lemma HandedKept(s: Sys, n: Sys, rows: seq<Deposit>, k: nat)
    requires k <= |rows| && AllHanded(s, rows, k) && n.t == s.t && n.chain == s.chain
    ensures AllHanded(n, rows, k)
  {}

  /** The amount of this decision cannot be converted. */
  ghost predicate Panics(c: Config, item: Deposit, probe: Probe) {
    var p := Select(c.policies, item.ctime, item.row.l1token);
    p.Some? && DripAmount(c.defaultDrip, c.maxUSD, p.value.rebateType, probe).Panic?
  }

  class FaucetService {
    const w: World
    var nonce: nat
    var defaultDrip: int

    constructor (w: World, defaultDrip: int)
      ensures this.w == w && this.defaultDrip == defaultDrip
    {
      this.w, this.defaultDrip := w, defaultDrip;
      nonce := 0;
    }

    ghost predicate Ready()
      reads this, w, w.db
    {
      w.Valid() && IsIdle(w.Cur(), nonce) && defaultDrip == w.c.defaultDrip
    }

    /** Requires a catch-all policy, fixes the default amount and reads the nonce of the chain. */
    method Initial() returns (ok: bool)
      requires w.Valid() && w.faucet.Off?
      requires w.c.defaultDrip == if defaultDrip < 1 then 10_000_000_000_000_000 else defaultDrip
      modifies this, w, w.db
      ensures ok ==> Ready() && HasDefault(w.c.policies) && w.faucet.n0 == nonce == w.chain.nonce
      ensures ok ==> w.db.drips == old(w.db.drips)
      ensures !HasDefault(w.c.policies) ==> !ok
      ensures w.calm && HasDefault(w.c.policies) ==> ok
      ensures w.Valid()
    {
      hide Inv;
      var policies := w.c.policies;
      var hasDefaultDripPolicy := false;
      var i := 0;
      while i < |policies| && !hasDefaultDripPolicy
        invariant 0 <= i <= |policies|
        invariant hasDefaultDripPolicy ==> HasDefault(policies)
        invariant !hasDefaultDripPolicy ==> forall j :: 0 <= j < i ==> !policies[j].matchAll
      {
        hasDefaultDripPolicy := policies[i].matchAll;
        i := i + 1;
      }
      if !hasDefaultDripPolicy { return false; }
      if defaultDrip < 1 {
        defaultDrip := 10_000_000_000_000_000;
      }
      w.Interleave(Sender);
      ok := Attempt(w.calm);
      if !ok { return; }
      nonce := w.chain.nonce;
      w.Take(Action.Initial);
    }

    /** The last matching policy, chosen by overwriting in list order. */
    method SelectPolicy(item: Deposit) returns (policy: Option<Policy>)
      ensures policy == Select(w.c.policies, item.ctime, item.row.l1token)
    {
      var policies := w.c.policies;
      policy := None;
      for i := 0 to |policies|
        invariant policy == Select(policies[..i], item.ctime, item.row.l1token)
      {
        assert policies[..i + 1][..i] == policies[..i];
        if Match(policies[i], item.ctime, item.row.l1token) {
          policy := Some(policies[i]);
        }
      }
      assert policies[..|policies|] == policies;
    }

    method ShouldTransfer(policy: Option<Policy>, item: Deposit, recset: set<Address>, tokens: set<Address>,
                          probe: Probe) returns (d: Decision)
      ensures d == DecideUnder(policy, item, recset, tokens, w.db.drips, probe)
    {
      hide IsStableL1Token, Readable, WorthUSD, HasGotDrip;
      if policy.None? { return NoNeed; }
      var pc := policy.value;
      if item.row.l2token !in tokens { return NoNeed; }
      if item.row.to in recset { return NoNeed; }
      if pc.minUSDEqual > 0.0 {
        var rate := 1.0;
        if !IsStableL1Token(item.row.l1token) {
          match probe.price {
            case NoTokenInfo => return NoNeed;
            case QueryError => return Fail;
            case Success(info) => rate := info.inUSD;
          }
        }
        var decimal := 18;
        if item.row.l1token != PriceCache.ETHER_L1_ADDRESS {
          if probe.decimals.None? { return Fail; }
          decimal := probe.decimals.value;
        }
        var amount := Readable(item.row.amount, decimal);
        if WorthUSD(rate, amount) < pc.minUSDEqual { return NoNeed; }
      }
      if pc.checkIfFirst {
        var ok, first := w.db.IsFirstDrip(item.row.to, probe.query);
        if !ok { return Fail; }
        HasGotDripMeaning(w.db.drips, item.row.to);
        if !first { return NoNeed; }
        if probe.nonce.None? { return Fail; }
        if probe.nonce.value > 0 { return NoNeed; }
      }
      if pc.checkIfNoGas {
        if probe.balance.None? { return Fail; }
        if probe.balance.value > 0 { return NoNeed; }
      }
      if probe.codeSize.None? { return Fail; }
      if probe.codeSize.value > 0 { return NoNeed; }
      return Go;
    }

    method CalMetisDrip(rebateType: int, probe: Probe) returns (r: Amount)
      ensures r == DripAmount(defaultDrip, w.c.maxUSD, rebateType, probe)
    {
      hide Round64, Ether.ToEther, Ether.ToWei;
      if rebateType == DEFAULT_REBATE_TYPE { return Wei(defaultDrip); }
      if rebateType == GAS_FEE_REBATE_TYPE {
        if probe.gasSpent.None? { return Failed; }
        var gasCost := Ether.ToEther(probe.gasSpent.value);
        if !probe.metisPrice.Success? { return Failed; }
        var tokenInfo := probe.metisPrice.token;
        var amount := Div(gasCost, tokenInfo.inEther);
        if Exceeds(Mul(amount, tokenInfo.inUSD), w.c.maxUSD) {
          amount := Div(w.c.maxUSD, tokenInfo.inUSD);
        }
        return ToWeiChecked(amount);
      }
      return Failed;
    }

    /** The answers of price feed and nodes for one item. */
    method Ask() returns (probe: Probe)
      ensures w.calm ==> Complete(probe)
    {
      probe := *;
      if w.calm && !Complete(probe) {
        probe := Probe(PriceCache.NoTokenInfo, Some(18), true, Some(0), Some(0), Some(0), Some(0),
                       PriceCache.Success(Price(1.0, 1.0)), Some(0), Some(21000));
      }
    }

    /** Decides on one item and, if it gets a drip, computes and signs the transfer. */
    method DecideOne(item: Deposit, recset: set<Address>, tokens: set<Address>)
      returns (d: Decision, tx: Option<Tx>, panicked: bool, probe: Probe)
      requires defaultDrip == w.c.defaultDrip
      ensures d == Decide(w.c.policies, item, recset, tokens, w.db.drips, probe)
      ensures d.Go? ==> tx == SignedTx(w.c, nonce, item, probe)
      ensures !d.Go? ==> tx.None?
      ensures panicked <==> d.Go? && Panics(w.c, item, probe)
      ensures tx.Some? ==> !panicked
      ensures w.calm && Sane(w.c.policies, w.c.defaultDrip, w.c.maxUSD) ==> !d.Fail? && (d.Go? ==> tx.Some?)
    {
      hide Select, DecideUnder, DripAmount, Complete, Sane;
      var policy := SelectPolicy(item);
      probe := Ask();
      tx, panicked := None, false;
      d := ShouldTransfer(policy, item, recset, tokens, probe);
      if w.calm && Sane(w.c.policies, w.c.defaultDrip, w.c.maxUSD) {
        CompleteNeverFails(w.c.policies, w.c.defaultDrip, w.c.maxUSD, item, recset, tokens, w.db.drips, probe, nonce);
      }
      if d.Go? {
        GoHasPolicy(policy, item, recset, tokens, w.db.drips, probe);
        var amount := CalMetisDrip(policy.value.rebateType, probe);
        panicked := amount.Panic?;
        tx := MakeTx(nonce, item.row.to, amount, probe);
      }
    }

    /** Ends the batch with an error before anything was committed for this item. */
    method GiveUp() returns (r: Outcome)
      requires w.Valid() && w.faucet.On? && w.faucet.phase.Sending?
      modifies w, w.db
      ensures w.Valid() && r == SendError && IsIdle(w.Cur(), old(w.faucet.nonce)) && w.db.View() == old(w.db.View())
      ensures w.chain == old(w.chain)
    {
      EndStep(w.c, w.Cur());
      w.Take(EndSend);
      r := SendError;
    }

    /** Commits the decision not to send. */
    method IgnoreOne(item: Deposit, rest: seq<Deposit>, recset: set<Address>, tokens: set<Address>, probe: Probe)
      returns (r: Outcome)
      requires w.Valid() && AtItem(w.Cur(), nonce, item, rest, recset, tokens)
      requires Decide(w.c.policies, item, recset, tokens, w.db.drips, probe).NoNeed?
      modifies w, w.db
      ensures w.Valid()
      ensures r.Sent? || r.SendError?
      ensures if r.Sent? then AtRest(w.Cur(), nonce, rest, recset, tokens) else IsIdle(w.Cur(), nonce)
      ensures if r.Sent? then ItemDecided(old(w.db.View()), item.id, w.db.View()) && w.db.deposits[item.id].status == Ignore
              else w.db.View() == old(w.db.View())
      ensures |w.db.deposits| == |old(w.db.deposits)| && w.chain == old(w.chain) && w.db.drips == old(w.db.drips)
      ensures w.calm ==> r.Sent?
    {
      hide Inv, Decide, Enabled, Next;
      var s := w.Cur();
      ReachableInv(w.c, s);
      IgnoreStep(w.c, s, nonce, item, rest, recset, tokens, probe);
      var ok := w.db.NewDrip(item, None);
      if ok {
        w.Record(s, IgnoreItem(probe));
        r := Sent;
      } else {
        r := GiveUp();
      }
    }

    /** Takes the nonce of a committed drip as used, then broadcasts its transaction. */
    method BumpAndSend(tx: Tx) returns (r: Outcome)
      requires w.Valid() && w.faucet.On? && w.faucet.phase.Committed? && w.faucet.phase.tx == tx && w.faucet.nonce == nonce
      modifies this`nonce, w, w.db
      ensures w.Valid() && nonce == old(nonce) + 1
      ensures r.Sent? || r.BroadcastError?
      ensures w.faucet == old(w.faucet).(nonce := nonce, phase := if r.Sent? then old(w.faucet.phase.rest) else Idle)
      ensures w.db.drips == old(w.db.drips) && old(w.db.deposits) <= w.db.deposits && old(w.chain.sent) <= w.chain.sent
      ensures w.calm ==> r.Sent? && tx in w.chain.sent
      ensures w.alone ==> w.db.deposits == old(w.db.deposits)
    {
      hide Enabled, Next, Reachable;
      nonce := nonce + 1;
      BumpStep(w.c, w.Cur());
      w.Take(BumpNonce);
      w.Interleave(Sender);
      var accepted := Attempt(w.calm);
      var sent := Attempt(w.calm);
      BroadcastStep(w.c, w.Cur(), accepted, sent);
      w.Take(Broadcast(accepted, sent));
      r := if sent then Sent else BroadcastError;
    }

    /** Commits the drip, then bumps the nonce, then broadcasts. */
    method CommitOne(item: Deposit, rest: seq<Deposit>, recset: set<Address>, tokens: set<Address>, probe: Probe, tx: Tx)
      returns (r: Outcome)
      requires w.Valid() && AtItem(w.Cur(), nonce, item, rest, recset, tokens)
      requires Decide(w.c.policies, item, recset, tokens, w.db.drips, probe).Go?
      requires SignedTx(w.c, nonce, item, probe) == Some(tx)
      modifies this`nonce, w, w.db
      ensures w.Valid()
      ensures r.Sent? ==> AtRest(w.Cur(), nonce, rest, recset + {item.row.to}, tokens)
      ensures r.SendError? || r.BroadcastError? ==> IsIdle(w.Cur(), nonce)
      ensures if r.SendError? then w.db.View() == old(w.db.View()) && nonce == old(nonce)
              else r != Crashed && nonce == old(nonce) + 1 && ItemDecided(old(w.db.View()), item.id, w.db.View())
                   && w.db.deposits[item.id].status == Processing
      ensures !r.SendError? ==> item.id in w.db.drips && w.db.drips[item.id].rawtx == Encoded(tx)
      ensures Given(old(w.Cur()), w.Cur())
      ensures w.calm ==> r.Sent? && tx in w.chain.sent
      ensures w.alone ==> |w.db.deposits| == |old(w.db.deposits)|
    {
      hide Inv, Decide, SignedTx, Enabled, Next, Reachable, Ether.ToEther, SetStatus;
      var s := w.Cur();
      ReachableInv(w.c, s);
      CommitStep(w.c, s, nonce, item, rest, recset, tokens, probe, tx);
      var drip := Drip(item.id, HashOf(tx), w.c.account, item.row.to, Ether.ToEther(tx.value), Encoded(tx));
      SignedTo(w.c, nonce, item, probe);
      var ok := w.db.NewDrip(item, Some(drip));
      if !ok {
        r := GiveUp();
        return;
      }
      w.Record(s, CommitDrip(probe));
      ghost var before := w.db.View();
      r := BumpAndSend(tx);
      ItemGrow(s.t, item.id, before, w.db.View());
    }

    /** One iteration of the send loop; `why` are the answers that the decision was based on. */
    method SendOne(item: Deposit, rest: seq<Deposit>, recset: set<Address>, tokens: set<Address>)
      returns (r: Outcome, newset: set<Address>, ghost why: Probe)
      requires w.Valid() && AtItem(w.Cur(), nonce, item, rest, recset, tokens) && defaultDrip == w.c.defaultDrip
      modifies this`nonce, w, w.db
      ensures w.Valid()
      ensures match r
              case Sent => AtRest(w.Cur(), nonce, rest, newset, tokens)
              case Crashed => w.faucet.Off?
              case _ => IsIdle(w.Cur(), nonce)
      ensures if r.Sent? || r.BroadcastError? then ItemDecided(old(w.db.View()), item.id, w.db.View())
              else old(w.db.deposits) <= w.db.deposits && w.db.drips == old(w.db.drips)
      ensures var d := Decide(w.c.policies, item, recset, tokens, old(w.db.drips), why);
              && (r.Sent? ==> !d.Fail? && w.db.deposits[item.id].status == if d.Go? then Processing else Ignore)
              && (r.BroadcastError? ==> d.Go? && w.db.deposits[item.id].status == Processing)
              && (r.Crashed? <==> d.Go? && Panics(w.c, item, why))
      ensures Given(old(w.Cur()), w.Cur())
      ensures w.calm && (r.Sent? || r.BroadcastError?) && w.db.deposits[item.id].status == Processing ==> Handed(w.Cur(), item.id)
      ensures w.calm && Sane(w.c.policies, w.c.defaultDrip, w.c.maxUSD) ==> r.Sent?
      ensures w.alone ==> |w.db.deposits| == |old(w.db.deposits)|
    {
      hide Inv, Decide, SignedTx, Enabled, Next, Sane, Panics;
      newset := recset;
      ItemInTable(w.c, w.Cur(), nonce, item, rest, recset, tokens);
      w.Interleave(Sender);
      var d, tx, panicked, probe := DecideOne(item, recset, tokens);
      why := probe;
      w.Interleave(Sender);
      ghost var before := w.db.View();
      if d.Fail? || (d.Go? && tx.None? && !panicked) {
        r := GiveUp();
      } else if panicked {
        CrashStep(w.c, w.Cur());
        w.Take(Crash);
        r := Crashed;
      } else if d.NoNeed? {
        r := IgnoreOne(item, rest, recset, tokens, probe);
        if r.Sent? { ItemAfterGrow(old(w.db.View()), before, item.id, w.db.View()); }
      } else {
        newset := recset + {item.row.to};
        r := CommitOne(item, rest, recset, tokens, probe, tx.value);
        if !r.SendError? { ItemAfterGrow(old(w.db.View()), before, item.id, w.db.View()); }
      }
    }

    /**
      Sends one batch. The first n rows of what the query returned were decided, all rows after
      them are untouched; an error stops the batch before the failing row is decided, unless the
      failure is the broadcast, in which case that row is already Processing. If no call fails, every
      row that got a drip has its stored transaction handed to the chain.
     */
    method TryToSendDrip(tokens: set<Address>) returns (r: Outcome, rows: seq<Deposit>, n: nat)
      requires Ready()
      modifies this`nonce, w, w.db
      ensures w.Valid()
      ensures if r.Crashed? then w.faucet.Off? else Ready()
      ensures IsBatch(old(w.db.View()), rows) && n <= |rows|
      ensures BatchProgress(old(w.db.View()), rows, n, w.db.View())
      ensures r.Sent? ==> n == |rows|
      ensures r.BroadcastError? ==> n > 0 && w.db.deposits[rows[n - 1].id].status == Processing
      ensures w.calm && Sane(w.c.policies, w.c.defaultDrip, w.c.maxUSD) ==> r.Sent?
      ensures w.calm ==> AllHanded(w.Cur(), rows, n)
      ensures w.calm && w.db.inOrder ==> LowestFirst(old(w.db.View()), rows)
      ensures w.calm && Sane(w.c.policies, w.c.defaultDrip, w.c.maxUSD) ==> BatchDone(old(w.db.View()), rows, w.db.View())
    {
      hide Inv, Enabled, Next, Sane, ItemDecided, BatchProgress, IsBatch, LowestFirst, BatchDone, Reachable, Count,
        AllHanded,
        Handed, Given;
      var c := w.c;
      ghost var t := w.db.View();
      ghost var calm := w.calm && Sane(c.policies, c.defaultDrip, c.maxUSD);
      IdsAreRanks(c, w.Cur());
      var failed;
      rows, failed := w.db.GetDepositTxStream();
      n := 0;
      NothingDecided(t, rows);
      NoneHanded(w.Cur(), rows);
      BeginStep(c, w.Cur(), rows, tokens);
      ghost var start := w.Cur();
      w.Take(BeginSend(rows, tokens));
      HandedKept(start, w.Cur(), rows, 0);
      var recset: set<Address> := {};
      while n < |rows|
        invariant n <= |rows| && w.Valid() && defaultDrip == c.defaultDrip
        invariant AtRest(w.Cur(), nonce, rows[n..], recset, tokens)
        invariant BatchProgress(t, rows, n, w.db.View())
        invariant w.calm ==> AllHanded(w.Cur(), rows, n)
      {
        ghost var before, was := w.db.View(), w.Cur();
        assert rows[n..] == [rows[n]] + rows[n + 1..];
        ghost var why;
        r, recset, why := SendOne(rows[n], rows[n + 1..], recset, tokens);
        if r.Sent? || r.BroadcastError? {
          ProgressStep(t, rows, n, before, w.db.View());
          if w.calm { HandedStep(t, rows, n, was, w.Cur()); }
          n := n + 1;
        } else {
          ProgressGrow(t, rows, n, before, w.db.View());
          if w.calm { HandedGrow(was, w.Cur(), rows, n); }
        }
        if !r.Sent? { return; }
      }
      if calm { AllDecided(t, rows, w.db.View()); }
      ghost var last := w.Cur();
      EndStep(c, last);
      w.Take(EndSend);
      if w.calm { HandedKept(last, w.Cur(), rows, n); }
      r := if failed then SendError else Sent;
    }

    /** Whether the chain has a receipt; a node may answer late, or not at all. */
    method GetTxStatus(row: PendingDrip) returns (ok: bool, done: bool)
      ensures ok && done ==> HasReceipt(w.chain, row.txid)
      ensures w.calm ==> ok && done == HasReceipt(w.chain, row.txid)
    {
      ok := Attempt(w.calm);
      var seen := Attempt(w.calm);
      done := seen && HasReceipt(w.chain, row.txid);
    }

    /** Marks a confirmed row Done, or hands its stored transaction to the chain once more. */
    method CheckOne(row: PendingDrip, rest: seq<PendingDrip>, done: bool) returns (ok: bool, accepted: bool)
      requires w.Valid() && AtRows(w.Cur(), nonce, [row] + rest) && (done ==> HasReceipt(w.chain, row.txid))
      modifies w, w.db
      ensures w.Valid()
      ensures w.Cur() == if ok then AfterRow(old(w.Cur()), row, rest, done, accepted) else old(w.Cur())
      ensures w.calm ==> ok && accepted
    {
      hide Enabled, Next, Inv, AfterRow, HasReceipt;
      var s := w.Cur();
      RowIsPending(w.c, s, nonce, row, rest);
      accepted := Attempt(w.calm);
      RowStep(w.c, s, nonce, row, rest, done, accepted);
      if !done {
        w.Take(Rebroadcast(accepted));
        return true, accepted;
      }
      ok := w.db.UpdateDripStatus(row.id, Done);
      if ok {
        RowTables(s, row, rest, accepted);
        w.Record(s, MarkDone);
      }
    }

    /**
      Checks the pending drips: mined ones become Done, the others are sent again. If nothing
      fails and the query returns rows by id, the round is complete, whatever ingester and
      chain do meanwhile; alone, it is exactly CheckRound.
     */
    method TryToCheckDrip(balance: Option<nat>, reserved: real) returns (ok: bool)
      requires Ready()
      modifies w, w.db
      ensures Ready()
      ensures Checked(old(w.Cur()), w.Cur())
      ensures balance.None? || Ether.ToEther(balance.value) < reserved ==> !ok && w.Cur() == old(w.Cur())
      ensures w.calm && balance.Some? && Ether.ToEther(balance.value) >= reserved ==>
                ok && (w.db.inOrder ==> CompleteRound(old(w.Cur()), w.Cur()))
      ensures w.calm && w.alone && w.db.inOrder && balance.Some? && Ether.ToEther(balance.value) >= reserved ==>
                w.Cur() == CheckRound(old(w.Cur()))
    {
      hide Inv, Enabled, Next, Checked, IsPending, PartialRound, CheckRound, Ether.ToEther, HasReceipt, AfterRow,
        HandledRows, WindowRows, CompleteRound;
      var c := w.c;
      ghost var s0 := w.Cur();
      NothingChecked(s0);
      if balance.None? { return false; }
      if Ether.ToEther(balance.value) < reserved { return false; }
      ProcessingHasDrip(c, s0);
      var rows, failed := w.db.GetPendingDripsStream();
      BeginCheckStep(c, s0, rows);
      w.Take(BeginCheck(rows));
      PartialStarts(s0, rows);
      NoneHandled(s0, rows, w.Cur());
      CheckedGrow(s0, s0, w.Cur());
      var i := 0;
      ok := true;
      while i < |rows|
        invariant 0 <= i <= |rows| && w.Valid() && ok
        invariant AtRows(w.Cur(), nonce, rows[i..])
        invariant Checked(s0, w.Cur())
        invariant w.calm ==> HandledRows(s0, rows, i, w.Cur())
        invariant w.calm && w.alone ==> w.Cur() == PartialRound(s0, rows, i)
      {
        assert rows[i..] == [rows[i]] + rows[i + 1..];
        ghost var before := w.Cur();
        w.Interleave(Sender);
        ghost var mid := w.Cur();
        CheckedGrow(s0, before, mid);
        if w.calm { HandledGrow(s0, rows, i, before, mid); }
        var done, accepted;
        ok, done := GetTxStatus(rows[i]);
        if !ok { break; }
        RowIsPending(c, mid, nonce, rows[i], rows[i + 1..]);
        ok, accepted := CheckOne(rows[i], rows[i + 1..], done);
        if !ok { break; }
        CheckedRow(s0, mid, rows[i], rows[i + 1..], done, accepted);
        AfterRowAt(mid, nonce, rows[i], rows[i + 1..], done, accepted);
        if w.calm { HandledRow(s0, rows, i, mid, done); }
        if w.calm && w.alone { SameReceipts(s0, rows, i, mid); PartialStep(s0, rows, i); }
        i := i + 1;
      }
      EndCheckStep(c, w.Cur());
      if w.calm && w.alone && w.db.inOrder { PartialEnds(s0, rows); }
      CheckedGrow(s0, w.Cur(), Goto(w.Cur(), Idle));
      if w.calm && w.db.inOrder {
        FirstPendingIsWindow(s0.t, |s0.t.deposits|);
        HandledGrow(s0, rows, |rows|, w.Cur(), Goto(w.Cur(), Idle));
        AllHandled(s0, rows, Goto(w.Cur(), Idle));
      }
      w.Take(EndCheck);
      ok := ok && !failed;
    }
  }
}
