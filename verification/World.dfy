/**
  The running system that the two services act on: the database, the chain, and the control
  state of both goroutines. A World is valid when its current state is reachable by the steps
  of Protocol; every method of the services keeps that, so all theorems about reachable states
  hold before, between and after their steps.
 */
module World {
  import opened Data
  import opened Ingest
  import opened Policy
  import opened Protocol
  import opened Invariant
  import opened Repository

  datatype Actor = Ingester | Sender

  /** Steps that can happen between two steps of this goroutine. */
  predicate Foreign(who: Actor, a: Action) {
    match a
    case Prefight => who == Sender
    case SyncStart(_) => who == Sender
    case SyncChunk(_) => who == Sender
    case SyncStop => who == Sender
    case Mine(_, _) => true
    case Crash => false
    case _ => who == Ingester
  }

  /** What a goroutine can rely on while the others run. */
  ghost predicate Rely(who: Actor, s: Sys, n: Sys) {
    match who
    case Sender =>
      && n.faucet == s.faucet && n.log == s.log && n.t.drips == s.t.drips
      && s.t.deposits <= n.t.deposits && n.chain.sent == s.chain.sent && s.chain.mined <= n.chain.mined
    case Ingester =>
      && n.sync == s.sync && n.boot == s.boot && n.t.height == s.t.height
      && RowsOf(n.t.deposits) == RowsOf(s.t.deposits)
  }

  lemma ForeignStep(c: Config, who: Actor, s: Sys, a: Action)
    requires Foreign(who, a) && Enabled(c, s, a)
    ensures Rely(who, s, Next(c, s, a))
  {
    hide Decide, Select, DecideHead, HeadTx, Chunk, ChunkEnd, HasReceipt;
    if a.IgnoreItem? { StatusKeepsRows(s.t.deposits, s.faucet.phase.todo[0].id, Ignore); }
    if a.CommitDrip? { StatusKeepsRows(s.t.deposits, s.faucet.phase.todo[0].id, Processing); }
    if a.MarkDone? { StatusKeepsRows(s.t.deposits, s.faucet.phase.rows[0].id, Done); }
  }

  class World {
    const c: Config
    const calm: bool    // no call fails
    const alone: bool   // nothing else runs: neither the other goroutine nor the chain takes a step
    const db: Metis
    var chain: Chain
    var sync: Sync
    var faucet: Faucet
    var log: seq<Decided>
    var boot: Boot

    constructor (c: Config, calm: bool, alone: bool, inOrder: bool)
      ensures Valid() && Cur() == Init(c) && this.c == c && fresh(db)
      ensures this.calm == calm && this.alone == alone && db.inOrder == inOrder
    {
      this.c, this.calm, this.alone := c, calm, alone;
      db := new Metis(calm, inOrder);
      var s := Init(c);
      chain, sync, faucet, log, boot := s.chain, s.sync, s.faucet, s.log, s.boot;
      new;
      assert EndsIn(c, [], Init(c));
    }

    function Cur(): Sys
      reads this, db
    {
      Sys(db.View(), chain, sync, faucet, log, boot)
    }

    ghost predicate Valid()
      reads this, db
    {
      db.calm == calm && Reachable(c, Cur())
    }

    /** Records that the database was just changed by step a from state s, and does the rest of that step. */
    method Record(s: Sys, a: Action)
      requires db.calm == calm && Reachable(c, s) && Enabled(c, s, a) && db.View() == Next(c, s, a).t
      modifies this
      ensures Valid() && Cur() == Next(c, s, a)
    {
      var n := Next(c, s, a);
      ReachNext(c, s, a);
      chain, sync, faucet, log, boot := n.chain, n.sync, n.faucet, n.log, n.boot;
    }

    /** Performs a step in full. */
    method Take(a: Action)
      requires Valid() && Enabled(c, Cur(), a)
      modifies this, db
      ensures Valid() && Cur() == Next(c, old(Cur()), a)
    {
      var s := Cur();
      var n := Next(c, s, a);
      db.height, db.deposits, db.drips := n.t.height, n.t.deposits, n.t.drips;
      Record(s, a);
    }

    /** Any number of steps of the other goroutine and of the chain; none when alone. */
    method Interleave(who: Actor)
      requires Valid()
      modifies this, db
      ensures Valid() && Rely(who, old(Cur()), Cur())
      ensures alone ==> Cur() == old(Cur())
    {
      hide Enabled, Next;
      var n: nat := *;
      if alone { n := 0; }
      while n > 0
        invariant Valid() && Rely(who, old(Cur()), Cur())
        invariant alone ==> Cur() == old(Cur()) && n == 0
      {
        var a: Action := *;
        if Foreign(who, a) && Enabled(c, Cur(), a) {
          ForeignStep(c, who, Cur(), a);
          Take(a);
        }
        n := n - 1;
      }
    }
  }
}
