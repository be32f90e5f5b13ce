/**
  With check queries in id order: which pending deposits can still be paid and become Done, exactly.
  The positive half clears the rows below a deposit from the lowest id up.
 */
module Clearing {
  import opened Data
  import opened Ingest
  import opened Policy
  import opened Protocol
  import opened Invariant
  import opened Nonces
  import opened Safety
  import opened Liveness
  import opened Payments
  import opened Blocking

  // ----- Histories and continuations in id order -----

  /** A state that id-ordered batches lead to, whatever fails or crashes. */
  ghost predicate Orderly(c: Config, s: Sys) {
    exists run :: Legal(c, run) && OrderedRun(c, Init(c), run) && After(c, Init(c), run) == s
  }

  /** Some continuation with id-ordered batches and checks ends in n. */
  ghost predicate Reaches(c: Config, s: Sys, n: Sys) {
    exists run :: LegalFrom(c, s, run) && WindowRun(c, s, run) && OrderedRun(c, s, run) && After(c, s, run) == n
  }

  lemma ReachesItself(c: Config, s: Sys)
    ensures Reaches(c, s, s)
  {
    assert LegalFrom(c, s, []) && WindowRun(c, s, []) && OrderedRun(c, s, []) && After(c, s, []) == s;
  }

  lemma ReachesNext(c: Config, s: Sys, n: Sys, a: Action)
    requires Reaches(c, s, n) && Enabled(c, n, a) && WindowAction(n, a) && !a.BeginSend?
    ensures Reaches(c, s, Next(c, n, a))
  {
    hide Enabled, Next, AllInWindow;
    var run :| LegalFrom(c, s, run) && WindowRun(c, s, run) && OrderedRun(c, s, run) && After(c, s, run) == n;
    var more := run + [a];
    assert more[..|run|] == run;
    assert LegalFrom(c, s, more) && After(c, s, more) == Next(c, n, a);
    assert WindowRun(c, s, more) && OrderedRun(c, s, more);
  }

  lemma ReachesRun(c: Config, s: Sys, n: Sys) returns (run: seq<Action>)
    requires Reaches(c, s, n)
    ensures LegalFrom(c, s, run) && WindowRun(c, s, run) && After(c, s, run) == n
  {
    run :| LegalFrom(c, s, run) && WindowRun(c, s, run) && OrderedRun(c, s, run) && After(c, s, run) == n;
  }

  lemma ReachesInv(c: Config, s: Sys, n: Sys)
    requires Inv(c, s) && Reaches(c, s, n)
    ensures Inv(c, n)
  {
    hide Inv, Reaches;
    var run := ReachesRun(c, s, n);
    RunFromInv(c, s, run);
  }

  // ----- Who has the next nonce -----

  ghost predicate HolderUpTo(t: Tables, m: int, p: nat) {
    exists q :: q in t.drips && q <= p && t.drips[q].rawtx.tx.nonce == m
  }

  /** Between the chain's nonce and that of drip p, every nonce belongs to some drip up to p. */
  ghost predicate Backed(s: Sys) {
    forall p, m :: p in s.t.drips && s.chain.nonce <= m <= s.t.drips[p].rawtx.tx.nonce ==> HolderUpTo(s.t, m, p)
  }

  ghost predicate Started(c: Config, s: Sys) {
    && (s.faucet.On? ==> s.faucet.n0 <= s.chain.nonce)
    && (s.faucet.On? || s.t.drips != map[] ==> HasDefault(c.policies))
  }

  lemma HolderKept(s: Sys, n: Sys)
    requires TablesGrow(s, n)
    ensures forall m, p :: HolderUpTo(s.t, m, p) ==> HolderUpTo(n.t, m, p)
  {
    forall m, p | HolderUpTo(s.t, m, p) ensures HolderUpTo(n.t, m, p) {
      var q :| q in s.t.drips && q <= p && s.t.drips[q].rawtx.tx.nonce == m;
      assert n.t.drips[q].rawtx.tx.nonce == m;
    }
  }

  lemma NextBacked(c: Config, s: Sys, a: Action)
    requires Inv(c, s) && Ordered(s) && Enabled(c, s, a) && Backed(s) && Started(c, s)
    ensures Backed(Next(c, s, a)) && Started(c, Next(c, s, a))
  {
    hide Inv, Ordered, DecideHead, HeadTx, Chunk, ChunkEnd, HasReceipt, HasDefault, HolderUpTo, IsBatch, IsPending,
      SetStatus, TablesGrow, AfterCommit;
    var n := Next(c, s, a);
    NextGrows(c, s, a);
    HolderKept(s, n);
    if a.CommitDrip? {
      CommitBacked(c, s, a.probe);
    }
  }

  lemma CommitBacked(c: Config, s: Sys, probe: Probe)
    requires Inv(c, s) && Ordered(s) && Enabled(c, s, CommitDrip(probe)) && Backed(s) && Started(c, s)
    ensures Backed(AfterCommit(c, s, probe)) && Started(c, AfterCommit(c, s, probe))
  {
    hide Inv, Ordered, DecideHead, HeadTx, HasDefault, HolderUpTo, AfterCommit, TablesGrow;
    var n, item := AfterCommit(c, s, probe), s.faucet.phase.todo[0].id;
    CommitAppends(c, s, probe);
    CommitKeys(c, s, probe);
    CommitKeepsChain(c, s, probe);
    NextGrows(c, s, CommitDrip(probe));
    HolderKept(s, n);
    forall m: int | s.chain.nonce <= m <= s.faucet.nonce ensures HolderUpTo(n.t, m, item) {
      if m == s.faucet.nonce {
        IsHolder(n.t, item, item);
      } else {
        EarlierHolder(c, s, m);
      }
    }
  }

  lemma IsHolder(t: Tables, q: nat, p: nat)
    requires q in t.drips && q <= p
    ensures HolderUpTo(t, t.drips[q].rawtx.tx.nonce, p)
  {}

  /** This life has given every nonce below the local one to an earlier drip. */
  lemma EarlierHolder(c: Config, s: Sys, m: int)
    requires Inv(c, s) && Ordered(s) && InPhase(s) && s.faucet.n0 <= m < s.faucet.nonce
    ensures HolderUpTo(s.t, m, s.faucet.phase.todo[0].id)
  {
    hide Inv, Ordered;
    LocalNonce(c, s);
    var k := s.faucet.base + (m - s.faucet.n0);
    LifeNonce(c, s, k);
    HeadLowest(c, s);
    IsHolder(s.t, s.log[k].pid, s.faucet.phase.todo[0].id);
  }

  lemma LocalNonce(c: Config, s: Sys)
    requires Inv(c, s) && s.faucet.On? && !s.faucet.phase.Committed?
    ensures s.faucet.base <= |s.log| && s.faucet.nonce == s.faucet.n0 + (|s.log| - s.faucet.base)
  {
    hide TablesOk, LogOk, DecisionsOk, ChainOk, DoneOk, PhaseOk, HeightOk;
  }

  lemma {:induction false} RunBacked(c: Config, run: seq<Action>)
    requires Legal(c, run) && OrderedRun(c, Init(c), run)
    ensures var s := After(c, Init(c), run); Inv(c, s) && Ordered(s) && Backed(s) && Started(c, s)
  {
    hide Inv, Enabled, Next, Backed, Started, Ordered;
    InitInv(c);
    RunFromInv(c, Init(c), run);
    OrderedRunOrdered(c, run);
    if run == [] {
      InitBacked(c);
    } else {
      RunBacked(c, run[..|run| - 1]);
      NextBacked(c, After(c, Init(c), run[..|run| - 1]), run[|run| - 1]);
    }
  }

  lemma InitBacked(c: Config)
    ensures Backed(Init(c)) && Started(c, Init(c))
  {}

  lemma OrderlyFacts(c: Config, s: Sys)
    requires Orderly(c, s)
    ensures Inv(c, s) && Backed(s) && Started(c, s)
  {
    hide Inv, Enabled, Next, Backed, Started, Ordered;
    var run :| Legal(c, run) && OrderedRun(c, Init(c), run) && After(c, Init(c), run) == s;
    RunBacked(c, run);
  }

  // ----- Coming to rest -----

  /** Whatever the faucet is doing, it can stop doing it, or be started. */
  lemma Settle(c: Config, s: Sys) returns (n: Sys)
    requires Inv(c, s) && Started(c, s) && s.t.drips != map[]
    ensures Reaches(c, s, n) && n.faucet.On? && n.faucet.phase.Idle?
    ensures n.t == s.t && n.chain == s.chain
  {
    hide Inv, Reaches, HasDefault;
    ReachesItself(c, s);
    n := s;
    if s.faucet.Off? {
      ReachesNext(c, s, n, Initial);
      n := Next(c, n, Initial);
    } else if s.faucet.phase.Sending? {
      ReachesNext(c, s, n, EndSend);
      n := Next(c, n, EndSend);
    } else if s.faucet.phase.Checking? {
      ReachesNext(c, s, n, EndCheck);
      n := Next(c, n, EndCheck);
    } else if !s.faucet.phase.Idle? {
      if s.faucet.phase.Committed? {
        ReachesNext(c, s, n, BumpNonce);
        n := Next(c, n, BumpNonce);
      }
      ReachesNext(c, s, n, Broadcast(false, false));
      n := Next(c, n, Broadcast(false, false));
    }
  }

  // ----- Settling one row -----

  ghost predicate AtRest(s: Sys) { s.faucet.On? && s.faucet.phase.Idle? }

  lemma OneRow(t: Tables, p: nat)
    requires InWindow(t, p) && p in t.drips
    ensures var rows := [PendingDrip(p, t.drips[p].txid, t.drips[p].rawtx)]; AllInWindow(t, rows) && IsPending(t, rows)
  {
    hide Count;
  }

  /** A mined drip in the window can be marked Done. */
  lemma MarkOne(c: Config, s: Sys, n: Sys, p: nat) returns (m: Sys)
    requires Reaches(c, s, n) && AtRest(n) && InWindow(n.t, p) && Confirmed(n, p)
    ensures Reaches(c, s, m) && AtRest(m) && m.chain == n.chain
    ensures m.t == n.t.(deposits := SetStatus(n.t.deposits, p, Done))
  {
    hide Reaches, InWindow, AllInWindow, HasReceipt, IsPending;
    OneRow(n.t, p);
    var rows := [PendingDrip(p, n.t.drips[p].txid, n.t.drips[p].rawtx)];
    ReachesNext(c, s, n, BeginCheck(rows));
    m := Next(c, n, BeginCheck(rows));
    ReachesNext(c, s, m, MarkDone);
    m := Next(c, m, MarkDone);
    ReachesNext(c, s, m, EndCheck);
    m := Next(c, m, EndCheck);
  }

  /** A drip in the window whose turn it is can be sent once more and mined. */
  lemma MineOne(c: Config, s: Sys, n: Sys, p: nat) returns (m: Sys)
    requires Reaches(c, s, n) && AtRest(n) && InWindow(n.t, p) && p in n.t.drips
    requires n.t.drips[p].rawtx.tx.nonce == n.chain.nonce
    ensures Reaches(c, s, m) && AtRest(m) && m.t == n.t && m.chain.nonce == n.chain.nonce + 1
    ensures m.chain.mined == n.chain.mined + [Receipt(n.t.drips[p].rawtx.tx, true)]
  {
    hide Reaches, InWindow, AllInWindow, IsPending;
    OneRow(n.t, p);
    var rows := [PendingDrip(p, n.t.drips[p].txid, n.t.drips[p].rawtx)];
    var tx := n.t.drips[p].rawtx.tx;
    ReachesNext(c, s, n, BeginCheck(rows));
    m := Next(c, n, BeginCheck(rows));
    ReachesNext(c, s, m, Rebroadcast(true));
    m := Next(c, m, Rebroadcast(true));
    ReachesNext(c, s, m, EndCheck);
    m := Next(c, m, EndCheck);
    ReachesNext(c, s, m, Mine(tx, true));
    m := Next(c, m, Mine(tx, true));
  }

  // ----- Clearing the rows below p -----

  /** Pending and mined, or minable in time. */
  ghost predicate Clearable(s: Sys, q: nat, limit: Option<int>) {
    IsProcessing(s.t, q) && (Confirmed(s, q) || InTime(s, q, limit))
  }

  lemma FirstClearable(s: Sys, p: nat, limit: Option<int>) returns (r: nat)
    ensures r <= p && (r < p ==> Clearable(s, r, limit))
    ensures forall q: nat :: q < r ==> !Clearable(s, q, limit)
  {
    hide Clearable;
    r := 0;
    while r < p && !Clearable(s, r, limit)
      invariant r <= p && forall q: nat :: q < r ==> !Clearable(s, q, limit)
    {
      r := r + 1;
    }
  }

  lemma {:induction false} NoncesAtMost(s: Sys, ids: set<nat>)
    ensures |set q | q in ids :: NonceOf(s, q)| <= |ids|
  {
    hide NonceOf;
    var nonces := set q | q in ids :: NonceOf(s, q);
    if ids != {} {
      var x :| x in ids;
      NoncesAtMost(s, ids - {x});
      var rest := set q | q in ids - {x} :: NonceOf(s, q);
      assert nonces <= rest + {NonceOf(s, x)};
      SubsetSize(nonces, rest + {NonceOf(s, x)});
    } else {
      assert nonces == {};
    }
  }

  /** When fewer than 20 are left over, whatever lies below the lowest clearable row is fewer than 20 rows. */
  lemma FewBelow(s: Sys, p: nat, limit: Option<int>, r: nat)
    requires Leftover(s, p, limit) < 20 && r <= p && r < |s.t.deposits| && s.t.deposits[r].status == Processing
    requires forall q: nat :: q < r ==> !Clearable(s, q, limit)
    ensures InWindow(s.t, r)
  {
    hide Confirmed, InTime, NonceOf;
    var open := OpenIds(s, p);
    var live := set q | q in open && InTime(s, q, limit);
    var below := IdsWith(s.t.deposits[..r], Processing);
    NoncesAtMost(s, live);
    assert OpenNonces(s, p, limit) == set q | q in live :: NonceOf(s, q);
    forall q | q in below ensures q in open - live { assert !Clearable(s, q, limit); }
    SubsetSize(below, open - live);
    SplitSize(open, live);
    CountIsSize(s.t.deposits[..r], Processing);
  }

  lemma SplitSize(a: set<nat>, b: set<nat>)
    requires b <= a
    ensures |a - b| == |a| - |b|
  {
    assert (a - b) + b == a;
  }

  lemma MarkKeepsLeftover(s: Sys, m: Sys, p: nat, r: nat, limit: Option<int>)
    requires Confirmed(s, r) && m.chain == s.chain && m.t == s.t.(deposits := SetStatus(s.t.deposits, r, Done))
    ensures Leftover(m, p, limit) == Leftover(s, p, limit)
  {
    forall q: nat ensures Open(m, q) <==> Open(s, q) {
      SameConfirmed(s, m, q);
    }
    assert OpenIds(m, p) == OpenIds(s, p);
    forall q ensures InTime(m, q, limit) <==> InTime(s, q, limit) {}
    assert OpenNonces(m, p, limit) == OpenNonces(s, p, limit);
  }

  /** Mining an open row below p leaves nothing more over. */
  lemma MineKeepsLeftover(c: Config, s: Sys, m: Sys, p: nat, r: nat, limit: Option<int>)
    requires Inv(c, s) && r < p && Open(s, r) && r in s.t.drips && NonceOf(s, r) == s.chain.nonce && Below(s.chain.nonce, limit)
    requires m.t == s.t && m.chain.nonce == s.chain.nonce + 1
    requires m.chain.mined == s.chain.mined + [Receipt(s.t.drips[r].rawtx.tx, true)]
    ensures Leftover(m, p, limit) <= Leftover(s, p, limit)
  {
    hide Inv, Open;
    var tx := s.t.drips[r].rawtx.tx;
    OpenMined(c, s, m, tx, true, p);
    var before, after := OpenIds(s, p), OpenIds(m, p);
    var ns, ms := OpenNonces(s, p, limit), OpenNonces(m, p, limit);
    SubsetSize(after, before - {r});
    UsesNonce(s, r, tx, p, limit);
    forall j | j in ns - {s.chain.nonce} ensures j in ms {
      var q :| q in before && InTime(s, q, limit) && NonceOf(s, q) == j;
      assert q in after && InTime(m, q, limit) && NonceOf(m, q) == j;
    }
    SubsetSize(ns - {s.chain.nonce}, ms);
  }

  /** The lowest clearable row is mined, or has the chain's next nonce. */
  lemma LowestHasTurn(c: Config, s: Sys, r: nat, limit: Option<int>)
    requires Inv(c, s) && Backed(s) && Clearable(s, r, limit) && !Confirmed(s, r)
    requires forall q: nat :: q < r ==> !Clearable(s, q, limit)
    ensures r in s.t.drips && NonceOf(s, r) == s.chain.nonce && Below(s.chain.nonce, limit)
  {
    hide Inv, HasReceipt;
    DripsPaid(c, s);
    assert HolderUpTo(s.t, s.chain.nonce, r);
    var q :| q in s.t.drips && q <= r && s.t.drips[q].rawtx.tx.nonce == s.chain.nonce;
    StillProcessing(c, s, q);
    assert Clearable(s, q, limit);
  }

  lemma ClearedFewer(t: Tables, p: nat, r: nat)
    requires r < p < |t.deposits| && t.deposits[r].status == Processing
    ensures Count(SetStatus(t.deposits, r, Done)[..p], Processing) < Count(t.deposits[..p], Processing)
  {
    var after := SetStatus(t.deposits, r, Done);
    CountIsSize(t.deposits[..p], Processing);
    CountIsSize(after[..p], Processing);
    var a, b := IdsWith(after[..p], Processing), IdsWith(t.deposits[..p], Processing);
    assert r in b && r !in a && a <= b;
    SubsetSize(a, b);
  }

  /** What clearing keeps: p is as it was, and the chain has gone no further than the limit. */
  ghost predicate Kept(n: Sys, m: Sys, p: nat, limit: Option<int>)
    requires p < |n.t.deposits|
  {
    && m.t.drips == n.t.drips && |m.t.deposits| == |n.t.deposits| && m.t.deposits[p] == n.t.deposits[p]
    && n.chain.mined <= m.chain.mined && n.chain.nonce <= m.chain.nonce
    && (m.chain.nonce == n.chain.nonce || Below(m.chain.nonce - 1, limit))
  }

  /** As long as fewer than 20 are left over, all clearable rows below p can be settled, lowest first. */
  lemma {:induction false} Clear(c: Config, s: Sys, n: Sys, p: nat, limit: Option<int>) returns (m: Sys)
    requires Inv(c, s) && Reaches(c, s, n) && AtRest(n) && Backed(n) && p < |n.t.deposits|
    requires Leftover(n, p, limit) < 20
    ensures Reaches(c, s, m) && AtRest(m) && Backed(m) && Leftover(m, p, limit) < 20
    ensures Kept(n, m, p, limit)
    ensures forall q: nat :: q < p ==> !Clearable(m, q, limit)
    decreases Count(n.t.deposits[..p], Processing)
  {
    hide Inv, Reaches, Leftover, Backed, Confirmed, InWindow, Count;
    ReachesInv(c, s, n);
    var r := FirstClearable(n, p, limit);
    if r == p {
      m := n;
    } else {
      FewBelow(n, p, limit, r);
      if Confirmed(n, r) {
        m := n;
      } else {
        LowestHasTurn(c, n, r, limit);
        m := MineOne(c, s, n, r);
        MineKeepsLeftover(c, n, m, p, r, limit);
        MinedConfirms(c, n, m, r);
      }
      BackedLater(n, m);
      var k := MarkOne(c, s, m, r);
      MarkKeepsLeftover(m, k, p, r, limit);
      BackedLater(m, k);
      ClearedFewer(m.t, p, r);
      m := Clear(c, s, k, p, limit);
    }
  }

  lemma MinedConfirms(c: Config, s: Sys, m: Sys, r: nat)
    requires Inv(c, s) && r in s.t.drips && m.t == s.t
    requires m.chain.mined == s.chain.mined + [Receipt(s.t.drips[r].rawtx.tx, true)]
    ensures Confirmed(m, r) && MinedAs(m, r, true)
  {
    hide Inv;
    HashStored(c, s, r);
    ConfirmedByMining(s, m, s.t.drips[r].rawtx.tx, true, r);
    assert m.chain.mined[|s.chain.mined|] == Receipt(m.t.drips[r].rawtx.tx, true);
  }

  lemma BackedLater(s: Sys, m: Sys)
    requires Backed(s) && m.t.drips == s.t.drips && m.chain.nonce >= s.chain.nonce
    ensures Backed(m)
  {
    forall p, j | p in m.t.drips && m.chain.nonce <= j <= m.t.drips[p].rawtx.tx.nonce ensures HolderUpTo(m.t, j, p) {
      assert HolderUpTo(s.t, j, p);
      var q :| q in s.t.drips && q <= p && s.t.drips[q].rawtx.tx.nonce == j;
      assert m.t.drips[q].rawtx.tx.nonce == j;
    }
  }

  lemma SameLeftover(s: Sys, n: Sys, p: nat, limit: Option<int>)
    requires n.t == s.t && n.chain == s.chain
    ensures Leftover(n, p, limit) == Leftover(s, p, limit)
  {
    assert OpenIds(n, p) == OpenIds(s, p);
    forall q ensures InTime(n, q, limit) <==> InTime(s, q, limit) {}
    assert OpenNonces(n, p, limit) == OpenNonces(s, p, limit);
  }

  // ----- Payment and completion in id order -----

  /** A deposit whose turn is still to come can be paid and marked Done when fewer than 20 are left over before it. */
  lemma PayInOrder(c: Config, s: Sys, p: nat) returns (n: Sys)
    requires Orderly(c, s) && IsProcessing(s.t, p) && !Confirmed(s, p) && s.chain.nonce <= NonceOf(s, p)
    requires Leftover(s, p, Some(NonceOf(s, p))) < 20
    ensures Reaches(c, s, n) && MinedAs(n, p, true)
    ensures p < |n.t.deposits| && n.t.deposits[p].status == Done
  {
    hide Inv, Reaches, Leftover, Confirmed, InWindow, Orderly, Backed;
    OrderlyFacts(c, s);
    DripsPaid(c, s);
    var limit := Some(NonceOf(s, p));
    n := Settle(c, s);
    SameLeftover(s, n, p, limit);
    BackedLater(s, n);
    n := Clear(c, s, n, p, limit);
    ReachesInv(c, s, n);
    ItsTurn(c, n, p, limit);
    FewBelow(n, p, limit, p);
    var m := MineOne(c, s, n, p);
    MinedConfirms(c, n, m, p);
    n := MarkOne(c, s, m, p);
    SameOutcome(m, n, p);
  }

  lemma SameOutcome(m: Sys, n: Sys, p: nat)
    requires MinedAs(m, p, true) && n.chain == m.chain && n.t.drips == m.t.drips
    ensures MinedAs(n, p, true)
  {}

  /** With nothing clearable below p, the chain waits for p. */
  lemma ItsTurn(c: Config, s: Sys, p: nat, limit: Option<int>)
    requires Inv(c, s) && Backed(s) && IsProcessing(s.t, p) && p in s.t.drips
    requires limit == Some(NonceOf(s, p)) && s.chain.nonce <= NonceOf(s, p)
    requires forall q: nat :: q < p ==> !Clearable(s, q, limit)
    ensures NonceOf(s, p) == s.chain.nonce
  {
    hide Inv, Confirmed;
    assert HolderUpTo(s.t, s.chain.nonce, p);
    var q :| q in s.t.drips && q <= p && s.t.drips[q].rawtx.tx.nonce == s.chain.nonce;
    if q < p {
      StillProcessing(c, s, q);
      assert !Clearable(s, q, limit);
    }
  }

  function Range(lo: int, hi: int): (r: set<int>)
    ensures forall m :: m in r <==> lo <= m < hi
    ensures lo <= hi ==> |r| == hi - lo
    decreases hi - lo
  {
    if lo >= hi then {} else Range(lo, hi - 1) + {hi - 1}
  }

  /** The nonces before p's are all to be used up by drips below p. */
  lemma LeftoverBefore(c: Config, s: Sys, p: nat)
    requires Orderly(c, s) && p in s.t.drips && s.chain.nonce <= NonceOf(s, p)
    ensures Leftover(s, p, Some(NonceOf(s, p))) == |OpenIds(s, p)| - (NonceOf(s, p) - s.chain.nonce)
  {
    hide Inv, Orderly, Confirmed;
    OrderlyFacts(c, s);
    var lo, hi := s.chain.nonce, NonceOf(s, p);
    var nonces := OpenNonces(s, p, Some(hi));
    forall m | m in Range(lo, hi) ensures m in nonces {
      assert HolderUpTo(s.t, m, p);
      var q :| q in s.t.drips && q <= p && s.t.drips[q].rawtx.tx.nonce == m;
      StillOpen(c, s, q);
      assert InTime(s, q, Some(hi)) && q in OpenIds(s, p);
    }
    assert nonces == Range(lo, hi);
  }

  lemma StillOpen(c: Config, s: Sys, q: nat)
    requires Inv(c, s) && q in s.t.drips && s.t.drips[q].rawtx.tx.nonce >= s.chain.nonce
    ensures Open(s, q)
  {
    hide Inv, HasReceipt;
    StillProcessing(c, s, q);
    if Confirmed(s, q) {
      MinedBelow(c, s, q);
      assert false;
    }
  }

  /**
    In id order, and when every policy checks for a first drip: a pending deposit whose transaction was
    never sent can still be paid, and can still become Done, exactly when its nonce is still to come and,
    of the unmined pending deposits below it, fewer than 20 exceed the nonces before its own.
   */
  lemma UnsentPayableIff(c: Config, s: Sys, p: nat)
    requires Orderly(c, s) && AllCheckFirst(c) && IsProcessing(s.t, p) && NotChecked(s, p) && Unsent(s, p)
    ensures (exists n :: Reaches(c, s, n) && MinedAs(n, p, true))
            <==> s.chain.nonce <= NonceOf(s, p) && |OpenIds(s, p)| - (NonceOf(s, p) - s.chain.nonce) < 20
    ensures (exists n :: Reaches(c, s, n) && p < |n.t.deposits| && n.t.deposits[p].status == Done)
            <==> s.chain.nonce <= NonceOf(s, p) && |OpenIds(s, p)| - (NonceOf(s, p) - s.chain.nonce) < 20
  {
    hide Inv, Reaches, Leftover, Confirmed, Orderly, Backed, Started, AllCheckFirst, NotChecked, Unsent, MinedAs,
      OpenIds, Lost;
    OrderlyFacts(c, s);
    UnsentStored(s, p);
    UnsentUnmined(c, s, p, true);
    if s.chain.nonce <= NonceOf(s, p) {
      LeftoverBefore(c, s, p);
      if Leftover(s, p, Some(NonceOf(s, p))) < 20 {
        var n := PayInOrder(c, s, p);
      } else {
        forall n | Reaches(c, s, n) ensures IsProcessing(n.t, p) && !MinedAs(n, p, true) { NeverPaid(c, s, n, p); }
      }
    } else {
      PassedIsLost(c, s, p);
      forall n | Reaches(c, s, n) ensures IsProcessing(n.t, p) && !MinedAs(n, p, true) { NeverPaid(c, s, n, p); }
    }
  }

  lemma NeverPaid(c: Config, s: Sys, n: Sys, p: nat)
    requires Inv(c, s) && AllCheckFirst(c) && Hopeless(s, p) && Reaches(c, s, n)
    ensures IsProcessing(n.t, p) && !MinedAs(n, p, true)
  {
    hide Inv, Reaches, Hopeless, AllCheckFirst, MinedAs;
    var run := ReachesRun(c, s, n);
    HopelessForever(c, s, run, p);
    RunFromInv(c, s, run);
    HopelessUnpaid(c, n, p);
  }

  /** Lost deposits are all left over, so 20 of them below are always too many. */
  lemma LostLeftOver(s: Sys, p: nat, limit: Option<int>)
    ensures |LostIds(s, p)| <= Leftover(s, p, limit)
  {
    hide HasReceipt;
    var open := OpenIds(s, p);
    var live := set q | q in open && InTime(s, q, limit);
    NoncesAtMost(s, live);
    assert OpenNonces(s, p, limit) == set q | q in live :: NonceOf(s, q);
    SubsetSize(LostIds(s, p), open - live);
    SplitSize(open, live);
  }

  /**
    In id order, and when every policy checks for a first drip: a pending deposit whose transfer has been
    mined can still become Done exactly when, of the unmined pending deposits below it, fewer than 20
    exceed the nonces still to come that they have between them.
   */
  lemma MinedDoneIff(c: Config, s: Sys, p: nat)
    requires Orderly(c, s) && AllCheckFirst(c) && IsProcessing(s.t, p) && NotChecked(s, p) && Confirmed(s, p)
    ensures (exists n :: Reaches(c, s, n) && p < |n.t.deposits| && n.t.deposits[p].status == Done)
            <==> |OpenIds(s, p)| - |OpenNonces(s, p, None)| < 20
  {
    hide Inv, Reaches, Confirmed, Orderly, Backed, Started, AllCheckFirst, NotChecked, OpenIds, OpenNonces;
    OrderlyFacts(c, s);
    if Leftover(s, p, None) < 20 {
      var n := MarkInOrder(c, s, p);
    } else {
      forall n | Reaches(c, s, n) ensures IsProcessing(n.t, p) { NeverDone(c, s, n, p); }
    }
  }

  lemma NeverDone(c: Config, s: Sys, n: Sys, p: nat)
    requires Inv(c, s) && AllCheckFirst(c) && Buried(s, p) && Reaches(c, s, n)
    ensures IsProcessing(n.t, p)
  {
    hide Inv, Reaches, AllCheckFirst, Leftover, NotChecked;
    var run := ReachesRun(c, s, n);
    BuriedForever(c, s, run, p);
  }

  lemma MarkInOrder(c: Config, s: Sys, p: nat) returns (n: Sys)
    requires Orderly(c, s) && IsProcessing(s.t, p) && Confirmed(s, p) && Leftover(s, p, None) < 20
    ensures Reaches(c, s, n) && p < |n.t.deposits| && n.t.deposits[p].status == Done
  {
    hide Inv, Reaches, Leftover, Confirmed, InWindow, Orderly, Backed;
    OrderlyFacts(c, s);
    DripsPaid(c, s);
    n := Settle(c, s);
    SameLeftover(s, n, p, None);
    BackedLater(s, n);
    var m := Clear(c, s, n, p, None);
    FewBelow(m, p, None, p);
    ConfirmedStored(s, p);
    ConfirmedLater(s, m, p);
    n := MarkOne(c, s, m, p);
  }

  lemma ConfirmedStored(s: Sys, p: nat)
    requires Confirmed(s, p)
    ensures p in s.t.drips
  {}

  lemma ConfirmedLater(s: Sys, m: Sys, p: nat)
    requires Confirmed(s, p) && m.t.drips == s.t.drips && s.chain.mined <= m.chain.mined
    ensures Confirmed(m, p)
  {
    hide HasReceipt;
    ReceiptKept(s, m, s.t.drips[p].txid);
  }
}
