/**
  The ingester goroutine (internal/services/datasync.go).
 */
module DataSync {
  import opened Data
  import opened Ingest
  import opened Protocol
  import opened Invariant
  import opened Repository
  import opened World

  /** The multiset of a table grown by a pass over [from, to). */
  ghost predicate Grown(c: Config, old': seq<Deposit>, new': seq<Deposit>, from: nat, to: nat) {
    from <= to && multiset(RowsOf(new')) == multiset(RowsOf(old')) + Pass(c.l1, c.dripHeight, from, to - from)
  }

  lemma GrownStep(c: Config, a: seq<Deposit>, b: seq<Deposit>, d: seq<Deposit>, from: nat, mid: nat, to: nat)
    requires Grown(c, a, b, from, mid) && Grown(c, b, d, mid, to)
    ensures Grown(c, a, d, from, to)
  {
    hide Pass, RowsOf;
    PassSplit(c.l1, c.dripHeight, from, mid - from, to - mid);
  }

  lemma GrownNone(c: Config, a: seq<Deposit>, b: seq<Deposit>, from: nat)
    requires RowsOf(a) == RowsOf(b)
    ensures Grown(c, a, b, from, from)
  {}

  /** One chunk: saved in full together with its last height, or no row and no height changed. */
  ghost predicate ChunkSaved(c: Config, lo: nat, hi: nat, ok: bool, old': Tables, new': Tables) {
    if ok then new'.height == Some(hi) && Grown(c, old'.deposits, new'.deposits, lo, hi + 1)
    else new'.height == old'.height && Grown(c, old'.deposits, new'.deposits, lo, lo)
  }

  /** These chunks, one after the other from height h0 to h, are what was added to the tables. */
  ghost predicate Synced(c: Config, chunks: seq<(nat, nat)>, h0: nat, h: nat, old': Tables, new': Tables) {
    && Tiles(chunks, h0, h)
    && new'.height == (if chunks == [] then old'.height else Some(h - 1))
    && Grown(c, old'.deposits, new'.deposits, h0, h)
  }

  lemma NothingSynced(c: Config, h: nat, old': Tables, new': Tables)
    requires new'.height == old'.height && RowsOf(new'.deposits) == RowsOf(old'.deposits)
    ensures Synced(c, [], h, h, old', new')
  {}

  lemma {:induction false} TilesSnoc(chunks: seq<(nat, nat)>, lo: nat, mid: nat, end: nat)
    requires Tiles(chunks, lo, mid) && mid <= end
    ensures Tiles(chunks + [(mid, end)], lo, end + 1)
  {
    if chunks != [] {
      TilesSnoc(chunks[1..], chunks[0].1 + 1, mid, end);
      assert (chunks + [(mid, end)])[1..] == chunks[1..] + [(mid, end)];
    }
  }

  lemma SyncedStep(c: Config, chunks: seq<(nat, nat)>, h0: nat, lo: nat, hi: nat, ok: bool,
                   first: Tables, old': Tables, new': Tables)
    requires Synced(c, chunks, h0, lo, first, old') && lo <= hi && ChunkSaved(c, lo, hi, ok, old', new')
    ensures if ok then Synced(c, chunks + [(lo, hi)], h0, hi + 1, first, new') else Synced(c, chunks, h0, lo, first, new')
  {
    hide Grown, Tiles;
    if ok {
      TilesSnoc(chunks, h0, lo, hi);
      GrownStep(c, first.deposits, old'.deposits, new'.deposits, h0, lo, hi + 1);
    } else {
      GrownStep(c, first.deposits, old'.deposits, new'.deposits, h0, lo, lo);
    }
  }

  lemma SyncingStored(c: Config, s: Sys)
    requires Inv(c, s) && s.sync.Syncing?
    ensures s.t.height.Some?
  {}

  lemma ChunkStep(c: Config, s: Sys, lo: nat, hi: nat, ctimes: seq<int>)
    requires s.sync.Syncing? && s.sync.height == lo < s.sync.target
    requires lo <= hi == ChunkEnd(lo, c.rangeSync, s.sync.target)
    requires |ctimes| == |ChunkDeposits(c.l1, c.dripHeight, lo, hi - lo + 1)|
    ensures Enabled(c, s, SyncChunk(ctimes))
    ensures var n := Next(c, s, SyncChunk(ctimes));
            && n.sync == Syncing(hi + 1, s.sync.target)
            && n.t == s.t.(deposits := Inserted(s.t.deposits, ChunkDeposits(c.l1, c.dripHeight, lo, hi - lo + 1), ctimes),
                           height := Some(hi))
  {}

  lemma StartStep(c: Config, s: Sys, head: nat)
    requires s.sync.SyncIdle? && head + c.rangeSync < UINT64
    ensures Enabled(c, s, SyncStart(head))
    ensures Next(c, s, SyncStart(head)) == s.(sync := Syncing(s.sync.height, Target(head, c.confirmations)))
  {}

  lemma StopStep(c: Config, s: Sys)
    requires s.sync.Syncing?
    ensures Enabled(c, s, SyncStop) && Next(c, s, SyncStop) == s.(sync := SyncIdle(s.sync.height))
  {}

  lemma PlanStep(chunks: seq<(nat, nat)>, plan: seq<(nat, nat)>, height: nat, rangeSync: nat, target: nat)
    requires height < target && target + rangeSync < UINT64
    requires plan == chunks + Plan(height, rangeSync, target)
    ensures var end := (height + rangeSync) % UINT64;
            var last := if end > target then target else end;
            && height <= last == ChunkEnd(height, rangeSync, target) && last <= target
            && plan == (chunks + [(height, last)]) + Plan(last + 1, rangeSync, target)
  {}

  lemma NoPlan(height: nat, rangeSync: nat, target: nat)
    requires target + rangeSync < UINT64
    ensures height >= target ==> Plan(height, rangeSync, target) == []
  {}

  lemma InsertedGrows(c: Config, deposits: seq<Deposit>, lo: nat, n: nat, ctimes: seq<int>)
    requires |ctimes| == |ChunkDeposits(c.l1, c.dripHeight, lo, n)|
    ensures Grown(c, deposits, Inserted(deposits, ChunkDeposits(c.l1, c.dripHeight, lo, n), ctimes), lo, lo + n)
  {
    hide ChunkDeposits;
    var items := ChunkDeposits(c.l1, c.dripHeight, lo, n);
    ChunkIsPass(c.l1, c.dripHeight, lo, n);
    InsertedRows(deposits, items, ctimes);
  }

  class DataSync {
    const w: World
    var height: nat

    constructor (w: World)
      ensures this.w == w
    {
      this.w := w;
      height := 0;
    }

    ghost predicate Ready()
      reads this, w, w.db
    {
      w.Valid() && w.sync == SyncIdle(height)
    }

    /** Start of the service: a fresh database starts at startFrom, a resumed one after its stored height. */
    method Prefight() returns (ok: bool)
      requires w.Valid() && w.sync.SyncDown?
      modifies this, w, w.db
      ensures ok ==> Ready()
      ensures ok ==> height == if old(w.db.height).None? then w.c.startFrom else old(w.db.height).value + 1
      ensures !ok ==> w.Valid() && w.Cur() == old(w.Cur())
      ensures w.calm ==> ok
    {
      var s := w.Cur();
      var r := w.db.InitHeight(w.c.startFrom);
      ok := r.Some?;
      if ok {
        height := r.value;
        w.Record(s, Action.Prefight);
      }
    }

    /**
      One round, from the current height to the confirmed part of the head the node reports, if it
      does. The committed chunks are a first part of the plan, all of it when nothing fails; the
      table grows by exactly one pass over the blocks they cover; a failed chunk changes neither height.
     */
    method TryToSync(head: Option<nat>) returns (ok: bool, chunks: seq<(nat, nat)>)
      requires Ready() && (head.Some? ==> head.value + w.c.rangeSync < UINT64)
      modifies this, w, w.db
      ensures Ready()
      ensures Synced(w.c, chunks, old(height), height, old(w.db.View()), w.db.View())
      ensures head.None? ==> !ok && chunks == []
      ensures head.Some? ==> chunks <= Plan(old(height), w.c.rangeSync, Target(head.value, w.c.confirmations))
      ensures ok ==> chunks == Plan(old(height), w.c.rangeSync, Target(head.value, w.c.confirmations))
      ensures ok && head.value > w.c.confirmations && old(height) + w.c.confirmations < head.value ==>
                head.value <= height + w.c.confirmations <= head.value + 1
      ensures ok && head.value <= w.c.confirmations && old(height) < head.value ==> head.value <= height <= head.value + 1
      ensures w.calm && head.Some? ==> ok
    {
      hide Synced, Enabled, Next, Plan, ChunkEnd, ChunkSaved, Reachable, RowsOf, Target;
      var c := w.c;
      ghost var t0, h0 := w.db.View(), height;
      chunks := [];
      w.Interleave(Ingester);
      NothingSynced(c, height, t0, w.db.View());
      if head.None? { return false, []; }
      ConfirmedIff(head.value, c.confirmations);
      StartStep(c, w.Cur(), head.value);
      w.Take(SyncStart(head.value));
      var targetHeight := Target(head.value, c.confirmations);
      ghost var plan := Plan(height, c.rangeSync, targetHeight);
      ok := true;
      while height < targetHeight
        invariant ok && w.Valid() && w.sync == Syncing(height, targetHeight)
        invariant height == h0 || height <= targetHeight + 1
        invariant plan == chunks + Plan(height, c.rangeSync, targetHeight)
        invariant Synced(c, chunks, h0, height, t0, w.db.View())
        decreases targetHeight - height
      {
        PlanStep(chunks, plan, height, c.rangeSync, targetHeight);
        var startHeight, endHeight := height, (height + c.rangeSync) % UINT64;
        if endHeight > targetHeight {
          endHeight := targetHeight;
        }
        ghost var before := w.db.View();
        ok := SyncWithRange(startHeight, endHeight);
        SyncedStep(c, chunks, h0, startHeight, endHeight, ok, t0, before, w.db.View());
        if !ok {
          break;
        }
        height := endHeight + 1;
        chunks := chunks + [(startHeight, endHeight)];
      }
      NoPlan(height, c.rangeSync, targetHeight);
      StopStep(c, w.Cur());
      w.Take(SyncStop);
    }

    /** Collects and formats the events of one chunk and saves them with the chunk's last height. */
    method SyncWithRange(startHeight: nat, endHeight: nat) returns (ok: bool)
      requires w.Valid() && w.sync.Syncing? && w.sync.height == startHeight < w.sync.target
      requires startHeight <= endHeight == ChunkEnd(startHeight, w.c.rangeSync, w.sync.target)
      modifies w, w.db
      ensures w.Valid()
      ensures w.sync == if ok then Syncing(endHeight + 1, old(w.sync.target)) else old(w.sync)
      ensures ChunkSaved(w.c, startHeight, endHeight, ok, old(w.db.View()), w.db.View())
      ensures w.calm ==> ok
    {
      hide Inv, ChunkDeposits, RowsOf, Enabled, Next, ChunkEnd, Grown;
      var c := w.c;
      var n := endHeight - startHeight + 1;
      w.Interleave(Ingester);
      GrownNone(c, old(w.db.deposits), w.db.deposits, startHeight);
      ok := Attempt(w.calm);   // the header of the last block
      if !ok { return; }
      var deposits;
      ok, deposits := CollectDeposits(startHeight, n);
      if !ok { return; }
      var s := w.Cur();
      ghost var before := w.db.deposits;
      assert w.db.height.Some? by { ReachableInv(c, s); SyncingStored(c, s); }
      var ctimes;
      ok, ctimes := w.db.SaveSyncedData(deposits, endHeight);
      if ok {
        InsertedGrows(c, before, startHeight, n, ctimes);
        GrownStep(c, old(w.db.deposits), before, w.db.deposits, startHeight, startHeight, endHeight + 1);
        ChunkStep(c, s, startHeight, endHeight, ctimes);
        w.Record(s, SyncChunk(ctimes));
      }
    }

    /** Drains both event iterators; an error of either aborts the range. */
    method CollectDeposits(startHeight: nat, n: nat) returns (ok: bool, deposits: seq<NewDeposit>)
      ensures ok ==> deposits == ChunkDeposits(w.c.l1, w.c.dripHeight, startHeight, n)
      ensures w.calm ==> ok
    {
      var c := w.c;
      deposits := [];
      var erc20 := Collect(c.l1.erc20, startHeight, n);
      var i := 0;
      while i < |erc20|
        invariant 0 <= i <= |erc20|
        invariant deposits == Erc20Deposits(c.dripHeight, erc20[..i])
      {
        deposits := deposits + [FormatErc20(c.dripHeight, erc20[i])];
        i := i + 1;
      }
      assert erc20[..i] == erc20;
      ok := Attempt(w.calm);
      if !ok { return; }
      var eth := Collect(c.l1.eth, startHeight, n);
      i := 0;
      while i < |eth|
        invariant 0 <= i <= |eth|
        invariant deposits == Erc20Deposits(c.dripHeight, erc20) + EthDeposits(c.dripHeight, eth[..i])
      {
        deposits := deposits + [FormatEth(c.dripHeight, eth[i])];
        i := i + 1;
      }
      assert eth[..i] == eth;
      ok := Attempt(w.calm);
    }
  }
}
