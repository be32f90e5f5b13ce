/**
  Sending makes progress: batches drain the Unprocessed rows a hundred at a time, and with id-ordered
  queries drips follow deposit ids, so that the lowest pending one is always among the rows checked.
 */
module Liveness {
  import opened Data
  import opened Ingest
  import opened Policy
  import opened Protocol
  import Ether
  import opened Invariant
  import opened Nonces
  import opened Safety

  // ----- Counting rows -----

  function IdsWith(deposits: seq<Deposit>, status: Status): set<nat> {
    set i | 0 <= i < |deposits| && deposits[i].status == status
  }

  lemma {:induction false} CountIsSize(deposits: seq<Deposit>, status: Status)
    ensures Count(deposits, status) == |IdsWith(deposits, status)|
  {
    if deposits != [] {
      var n := |deposits| - 1;
      CountIsSize(deposits[..n], status);
      IdsSnoc(deposits, status);
    }
  }

  lemma IdsSnoc(deposits: seq<Deposit>, status: Status)
    requires deposits != []
    ensures var n := |deposits| - 1;
            var rest := IdsWith(deposits[..n], status);
            n !in rest && IdsWith(deposits, status) == if deposits[n].status == status then rest + {n} else rest
  {}

  lemma {:induction false} SubsetSize<T>(a: set<T>, b: set<T>)
    requires a <= b
    ensures |a| <= |b|
    ensures a != b ==> |a| < |b|
  {
    if a != {} {
      var x :| x in a;
      SubsetSize(a - {x}, b - {x});
    }
  }

  // ----- Batches -----

  function BatchIds(batch: seq<Deposit>): set<nat> { set i | 0 <= i < |batch| :: batch[i].id }

  lemma {:induction false} BatchIdsSize(batch: seq<Deposit>)
    requires DistinctIds(batch)
    ensures |BatchIds(batch)| == |batch|
  {
    if batch != [] {
      var n := |batch| - 1;
      BatchIdsSize(batch[..n]);
      assert BatchIds(batch) == BatchIds(batch[..n]) + {batch[n].id};
    }
  }

  function Min(a: nat, b: nat): nat { if a <= b then a else b }

  /** One send batch without errors: a full query result, every row of it decided; more rows may have been inserted. */
  ghost predicate BatchDone(t: Tables, batch: seq<Deposit>, n: Tables) {
    && IsBatch(t, batch) && |batch| == Min(100, Count(t.deposits, Unprocessed))
    && |t.deposits| <= |n.deposits|
    && forall i :: 0 <= i < |t.deposits| ==>
         if i in BatchIds(batch) then n.deposits[i].status in {Processing, Ignore}
         else n.deposits[i].status == t.deposits[i].status
  }

  ghost predicate CompletedBatch(t: Tables, n: Tables) { exists batch :: BatchDone(t, batch, n) }

  /** A batch removes min(100, n) of n Unprocessed rows; rows inserted meanwhile come on top. */
  lemma BatchDrains(t: Tables, n: Tables)
    requires CompletedBatch(t, n)
    ensures |t.deposits| <= |n.deposits|
    ensures Count(n.deposits, Unprocessed)
            == Count(t.deposits, Unprocessed) - Min(100, Count(t.deposits, Unprocessed))
               + Count(n.deposits[|t.deposits|..], Unprocessed)
  {
    var batch :| BatchDone(t, batch, n);
    var m := |t.deposits|;
    OldRowsDrain(t, batch, n);
    CountConcat(n.deposits[..m], n.deposits[m..], Unprocessed);
    assert n.deposits[..m] + n.deposits[m..] == n.deposits;
  }

  lemma OldRowsDrain(t: Tables, batch: seq<Deposit>, n: Tables)
    requires BatchDone(t, batch, n)
    ensures Count(n.deposits[..|t.deposits|], Unprocessed)
            == Count(t.deposits, Unprocessed) - Min(100, Count(t.deposits, Unprocessed))
  {
    hide Count;
    var old' := n.deposits[..|t.deposits|];
    BatchIdsSize(batch);
    CountIsSize(t.deposits, Unprocessed);
    CountIsSize(old', Unprocessed);
    var before, after := IdsWith(t.deposits, Unprocessed), IdsWith(old', Unprocessed);
    assert BatchIds(batch) <= before;
    assert after == before - BatchIds(batch);
  }

  lemma {:induction false} CountConcat(a: seq<Deposit>, b: seq<Deposit>, status: Status)
    ensures Count(a + b, status) == Count(a, status) + Count(b, status)
  {
    if b == [] {
      assert a + b == a;
    } else {
      var n := |b| - 1;
      CountConcat(a, b[..n], status);
      assert (a + b)[..|a + b| - 1] == a + b[..n];
    }
  }

  /** Without insertions, k such batches leave exactly max(0, n - 100 * k) of n Unprocessed rows. */
  lemma {:induction false} BatchesDrain(states: seq<Tables>, k: nat)
    requires k < |states|
    requires forall i :: 0 <= i < |states| - 1 ==>
               CompletedBatch(states[i], states[i + 1]) && |states[i + 1].deposits| == |states[i].deposits|
    ensures var n := Count(states[0].deposits, Unprocessed);
            Count(states[k].deposits, Unprocessed) == if n >= 100 * k then n - 100 * k else 0
  {
    hide CompletedBatch;
    if k > 0 {
      BatchesDrain(states, k - 1);
      BatchDrains(states[k - 1], states[k]);
      assert states[k].deposits[|states[k - 1].deposits|..] == [];
    }
  }

  // ----- Drips follow deposit ids -----

  /** A query result in id order: every lower Unprocessed row comes earlier in it. */
  ghost predicate LowestFirst(t: Tables, todo: seq<Deposit>) {
    && (forall j, k :: 0 <= j < k < |todo| ==> todo[j].id < todo[k].id)
    && (forall i, k :: 0 <= k < |todo| && 0 <= i < |t.deposits| && t.deposits[i].status == Unprocessed && i < todo[k].id
          ==> exists j :: 0 <= j < k && todo[j].id == i)
  }

  ghost predicate PhaseOrdered(t: Tables, phase: Phase) {
    && (phase.Sending? ==> LowestFirst(t, phase.todo))
    && (phase.Committed? && phase.rest.Sending? ==> LowestFirst(t, phase.rest.todo))
    && (phase.Bumped? && phase.rest.Sending? ==> LowestFirst(t, phase.rest.todo))
  }

  /** Drips are committed in deposit order, and every undecided deposit comes after all of them. */
  ghost predicate LogOrdered(s: Sys) {
    && (forall j, k :: 0 <= j < k < |s.log| ==> s.log[j].pid < s.log[k].pid)
    && (forall k, i :: 0 <= k < |s.log| && 0 <= i < |s.t.deposits| && s.t.deposits[i].status == Unprocessed
          ==> s.log[k].pid < i)
  }

  ghost predicate Ordered(s: Sys) {
    LogOrdered(s) && (s.faucet.On? ==> PhaseOrdered(s.t, s.faucet.phase))
  }

  /** Batches come in id order and skip no lower row. */
  ghost predicate OrderedAction(s: Sys, a: Action) {
    a.BeginSend? ==> LowestFirst(s.t, a.batch)
  }

  lemma LowestFirstKept(t: Tables, n: Tables, todo: seq<Deposit>)
    requires LowestFirst(t, todo) && IsBatch(t, todo)
    requires |n.deposits| >= |t.deposits|
    requires forall i :: 0 <= i < |t.deposits| && n.deposits[i].status == Unprocessed ==> t.deposits[i].status == Unprocessed
    ensures LowestFirst(n, todo)
  {}

  lemma LowestFirstRest(n: Tables, todo: seq<Deposit>)
    requires LowestFirst(n, todo) && todo != []
    requires todo[0].id < |n.deposits| && n.deposits[todo[0].id].status != Unprocessed
    ensures LowestFirst(n, todo[1..])
  {
    var rest := todo[1..];
    forall i, k | 0 <= k < |rest| && 0 <= i < |n.deposits| && n.deposits[i].status == Unprocessed && i < rest[k].id
      ensures exists j :: 0 <= j < k && rest[j].id == i
    {
      assert rest[k] == todo[k + 1];
      var j :| 0 <= j < k + 1 && todo[j].id == i;
      assert rest[j - 1].id == i;
    }
  }

  /** Decided rows leave the head of the batch; rows still to do keep their order. */
  lemma LowestFirstNext(t: Tables, n: Tables, todo: seq<Deposit>)
    requires LowestFirst(t, todo) && IsBatch(t, todo)
    requires |n.deposits| >= |t.deposits|
    requires forall i :: 0 <= i < |t.deposits| && n.deposits[i].status == Unprocessed ==> t.deposits[i].status == Unprocessed
    ensures LowestFirst(n, todo)
    ensures todo != [] && n.deposits[todo[0].id].status != Unprocessed ==> LowestFirst(n, todo[1..])
  {
    hide LowestFirst;
    LowestFirstKept(t, n, todo);
    if todo != [] && n.deposits[todo[0].id].status != Unprocessed { LowestFirstRest(n, todo); }
  }

  lemma NextLogOrdered(c: Config, s: Sys, a: Action)
    requires Inv(c, s) && Ordered(s) && Enabled(c, s, a)
    ensures LogOrdered(Next(c, s, a))
  {
    hide Ether.ToEther, Decide, Select, DecideHead, HeadTx, Chunk, ChunkEnd, HasReceipt, LogOk, DecisionsOk, NonceOk,
      ChainOk, DoneOk,
      HeightOk, LowestFirst, PhaseOk, TablesOk, Eligible, RecsetOk;
    LogInTable(c, s);
    if a.CommitDrip? || a.IgnoreItem? { HeadLowest(c, s); }
    if a.CommitDrip? { HeadItem(c, s); }
  }

  lemma NextPhaseOrdered(c: Config, s: Sys, a: Action)
    requires Inv(c, s) && Ordered(s) && Enabled(c, s, a) && OrderedAction(s, a)
    ensures var n := Next(c, s, a); n.faucet.On? ==> PhaseOrdered(n.t, n.faucet.phase)
  {
    hide Ether.ToEther, Decide, Select, DecideHead, HeadTx, Chunk, ChunkEnd, HasReceipt, LogOk, DecisionsOk, NonceOk,
      ChainOk, DoneOk,
      HeightOk, LowestFirst, LogOrdered, Eligible, RecsetOk, TablesOk;
    var n := Next(c, s, a);
    if s.faucet.On? {
      var ph := s.faucet.phase;
      if ph.Sending? { LowestFirstNext(s.t, n.t, ph.todo); }
      if ph.Committed? || ph.Bumped? { LowestFirstNext(s.t, n.t, ph.rest.todo); }
    }
  }

  lemma NextOrdered(c: Config, s: Sys, a: Action)
    requires Inv(c, s) && Ordered(s) && Enabled(c, s, a) && OrderedAction(s, a)
    ensures Ordered(Next(c, s, a))
  {
    hide Ether.ToEther, Enabled, Next, Inv, PhaseOrdered, LogOrdered;
    NextLogOrdered(c, s, a);
    NextPhaseOrdered(c, s, a);
  }

  lemma LogInTable(c: Config, s: Sys)
    requires Inv(c, s)
    ensures forall k :: 0 <= k < |s.log| ==> s.log[k].pid < |s.t.deposits|
  {}

  lemma HeadLowest(c: Config, s: Sys)
    requires Inv(c, s) && InPhase(s) && Ordered(s)
    ensures forall i :: 0 <= i < |s.t.deposits| && s.t.deposits[i].status == Unprocessed ==> s.faucet.phase.todo[0].id <= i
    ensures forall k :: 0 <= k < |s.log| ==> s.log[k].pid < s.faucet.phase.todo[0].id
  {
    HeadItem(c, s);
  }

  ghost predicate OrderedRun(c: Config, s: Sys, run: seq<Action>)
    requires LegalFrom(c, s, run)
  {
    run == [] || (OrderedRun(c, s, run[..|run| - 1]) && OrderedAction(After(c, s, run[..|run| - 1]), run[|run| - 1]))
  }

  lemma {:induction false} RunOrdered(c: Config, s: Sys, run: seq<Action>)
    requires Inv(c, s) && Ordered(s) && LegalFrom(c, s, run) && OrderedRun(c, s, run)
    ensures Ordered(After(c, s, run))
    decreases |run|
  {
    hide Ether.ToEther, Inv, Enabled, Next, OrderedAction, Ordered;
    if run != [] {
      var before := run[..|run| - 1];
      RunOrdered(c, s, before);
      RunFromInv(c, s, before);
      NextOrdered(c, After(c, s, before), run[|run| - 1]);
    }
  }

  /** With id-ordered queries drips, hence their nonces, follow deposit ids, whatever fails or crashes. */
  lemma OrderedRunOrdered(c: Config, run: seq<Action>)
    requires Legal(c, run) && OrderedRun(c, Init(c), run)
    ensures Ordered(After(c, Init(c), run))
  {
    hide Inv, Enabled, Next, OrderedAction;
    InitInv(c);
    RunOrdered(c, Init(c), run);
  }

  // ----- One deposit holds up all others -----

  /** The lowest Unprocessed deposit. */
  ghost predicate IsHead(t: Tables, h: nat) {
    && h < |t.deposits| && t.deposits[h].status == Unprocessed
    && forall i :: 0 <= i < h ==> t.deposits[i].status != Unprocessed
  }

  /** No drip was decided on and no deposit ignored; rows may only have been inserted, or marked Done. */
  ghost predicate NoneDecided(c: Config, s: Sys, n: Sys) {
    && n.log == s.log && n.t.drips == s.t.drips && |s.t.deposits| <= |n.t.deposits|
    && (forall i :: 0 <= i < |s.t.deposits| && s.t.deposits[i].status == Unprocessed ==>
          n.t.deposits[i].status == Unprocessed)
    && (forall i :: |s.t.deposits| <= i < |n.t.deposits| && Eligible(c.dripHeight, n.t.deposits[i].row) ==>
          n.t.deposits[i].status == Unprocessed)
  }

  /** In id order, a step that leaves the head undecided decides nothing. */
  lemma HeadFirst(c: Config, s: Sys, a: Action, h: nat)
    requires Inv(c, s) && Ordered(s) && Enabled(c, s, a) && IsHead(s.t, h)
    requires h < |Next(c, s, a).t.deposits| && Next(c, s, a).t.deposits[h].status == Unprocessed
    ensures !a.IgnoreItem? && !a.CommitDrip?
  {
    hide Inv, Ordered, DecideHead, HeadTx, Chunk, ChunkEnd, HasReceipt, MakeDrip;
    if a.IgnoreItem? || a.CommitDrip? {
      HeadItem(c, s);
      HeadLowest(c, s);
    }
  }

  lemma UndecidedStep(c: Config, s: Sys, a: Action)
    requires Inv(c, s) && Enabled(c, s, a) && !a.IgnoreItem? && !a.CommitDrip?
    ensures NoneDecided(c, s, Next(c, s, a))
    ensures forall i :: 0 <= i < |s.t.deposits| && s.t.deposits[i].status != Unprocessed ==>
              Next(c, s, a).t.deposits[i].status != Unprocessed
  {
    hide Inv, DecideHead, HeadTx, Chunk, ChunkEnd, HasReceipt, IsBatch, IsPending, Eligible;
    if a.MarkDone? { FirstRowPending(c, s); }
    if a.SyncChunk? { NewRowsOpen(c, s, a.ctimes); }
  }

  lemma NoneDecidedOn(c: Config, s: Sys, m: Sys, n: Sys)
    requires NoneDecided(c, s, m) && NoneDecided(c, m, n) && TablesGrow(m, n)
    ensures NoneDecided(c, s, n)
  {
    hide Eligible;
  }

  /**
    With id-ordered batches one deposit holds up all others: as long as the lowest Unprocessed one is
    not decided, because each attempt ends in an error, nothing else is, whatever is ingested, mined,
    checked or restarted.
   */
  lemma {:induction false} HeadOfLine(c: Config, s: Sys, run: seq<Action>, h: nat)
    requires Inv(c, s) && Ordered(s) && LegalFrom(c, s, run) && OrderedRun(c, s, run) && IsHead(s.t, h)
    requires h < |After(c, s, run).t.deposits| && After(c, s, run).t.deposits[h].status == Unprocessed
    ensures NoneDecided(c, s, After(c, s, run)) && IsHead(After(c, s, run).t, h)
    decreases |run|
  {
    hide Inv, Enabled, Next, Ordered, OrderedAction, TablesGrow;
    if run != [] {
      var before, a := run[..|run| - 1], run[|run| - 1];
      var m := After(c, s, before);
      RunFromInv(c, s, before);
      RunOrdered(c, s, before);
      StatusForward(c, s, before, h);
      StatusStep(c, m, a, h);
      HeadOfLine(c, s, before, h);
      HeadFirst(c, m, a, h);
      UndecidedStep(c, m, a);
      NextGrows(c, m, a);
      NoneDecidedOn(c, s, m, Next(c, m, a));
    }
  }

  // ----- The rows that are checked -----

  /** Deposit i is among the first 20 Processing ones. */
  predicate InWindow(t: Tables, i: nat) {
    i < |t.deposits| && t.deposits[i].status == Processing && Count(t.deposits[..i], Processing) < 20
  }

  predicate Confirmed(s: Sys, i: nat) { i in s.t.drips && HasReceipt(s.chain, s.t.drips[i].txid) }

  /** The Processing deposit with the lowest id. */
  ghost predicate Lowest(t: Tables, p: nat) {
    && p < |t.deposits| && t.deposits[p].status == Processing
    && forall i :: 0 <= i < p ==> t.deposits[i].status != Processing
  }

  lemma {:induction false} LowestExists(t: Tables, m: nat) returns (p: nat)
    requires m <= |t.deposits| && Count(t.deposits[..m], Processing) > 0
    ensures p < m && Lowest(t, p)
    decreases m
  {
    var front := t.deposits[..m][..m - 1];
    assert front == t.deposits[..m - 1];
    if Count(front, Processing) > 0 {
      p := LowestExists(t, m - 1);
    } else {
      p := m - 1;
      NoneBefore(front);
    }
  }

  lemma NoneBefore(deposits: seq<Deposit>)
    requires Count(deposits, Processing) == 0
    ensures forall i :: 0 <= i < |deposits| ==> deposits[i].status != Processing
  {
    CountIsSize(deposits, Processing);
    forall i | 0 <= i < |deposits| ensures deposits[i].status != Processing {
      assert i in IdsWith(deposits, Processing) <==> deposits[i].status == Processing;
    }
  }

  lemma LowestInWindow(t: Tables, p: nat)
    requires Lowest(t, p)
    ensures InWindow(t, p)
  {
    CountIsSize(t.deposits[..p], Processing);
    assert IdsWith(t.deposits[..p], Processing) == {};
  }

  /** What an id-ordered query with LIMIT 20 can deliver. */
  ghost predicate AllInWindow(t: Tables, rows: seq<PendingDrip>) {
    forall k :: 0 <= k < |rows| ==> InWindow(t, rows[k].id)
  }

  /** Every check in this run works on what an id-ordered query can deliver. */
  ghost predicate WindowRun(c: Config, s: Sys, run: seq<Action>)
    requires LegalFrom(c, s, run)
  {
    run == [] ||
      (WindowRun(c, s, run[..|run| - 1])
       && (run[|run| - 1].BeginCheck? ==> AllInWindow(After(c, s, run[..|run| - 1]).t, run[|run| - 1].pending)))
  }
}
