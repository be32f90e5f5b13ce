/**
  The database access of the service (internal/repository): each method works on its own copy of
  the tables and publishes it by one commit, or fails and leaves the tables as they were.
 */
module Repository {
  import opened Data
  import opened Ingest
  import opened Policy
  import opened Protocol
  import opened Invariant
  import opened Liveness

  /** Whether a call to the database or to a node succeeds; in calm conditions it does. */
  method Attempt(calm: bool) returns (ok: bool)
    ensures calm ==> ok
  {
    ok := *;
    ok := ok || calm;
  }

  // ----- Query results in id order -----

  /** The first `limit` Unprocessed rows below m, by id. */
  function FirstUnprocessed(deposits: seq<Deposit>, m: nat, limit: nat): seq<Deposit>
    requires m <= |deposits|
  {
    if m == 0 then [] else
      var rows := FirstUnprocessed(deposits, m - 1, limit);
      if |rows| < limit && deposits[m - 1].status == Unprocessed then rows + [deposits[m - 1]] else rows
  }

  /** Among the rows below m, these are current Unprocessed ones, ascending, and skip none of them. */
  ghost predicate FirstRows(deposits: seq<Deposit>, m: nat, limit: nat, rows: seq<Deposit>)
    requires m <= |deposits|
  {
    && |rows| == Min(limit, Count(deposits[..m], Unprocessed))
    && (forall k :: 0 <= k < |rows| ==> rows[k].id < m && deposits[rows[k].id] == rows[k] && rows[k].status == Unprocessed)
    && (forall j, k :: 0 <= j < k < |rows| ==> rows[j].id < rows[k].id)
    && (forall i :: 0 <= i < m && deposits[i].status == Unprocessed ==>
          Listed(rows, i) || (|rows| == limit && forall k :: 0 <= k < |rows| ==> rows[k].id < i))
  }

  ghost predicate Listed(rows: seq<Deposit>, id: nat) { exists j :: 0 <= j < |rows| && rows[j].id == id }

  lemma ListedSnoc(before: seq<Deposit>, row: Deposit)
    ensures forall i :: Listed(before, i) ==> Listed(before + [row], i)
    ensures Listed(before + [row], row.id)
  {
    var rows := before + [row];
    forall i | Listed(before, i) ensures Listed(rows, i) {
      var j :| 0 <= j < |before| && before[j].id == i;
      assert rows[j].id == i;
    }
    assert rows[|before|].id == row.id;
  }

  lemma FirstRowsStep(deposits: seq<Deposit>, m: nat, limit: nat, before: seq<Deposit>, rows: seq<Deposit>)
    requires 0 < m <= |deposits| && FirstRows(deposits, m - 1, limit, before) && deposits[m - 1].id == m - 1
    requires rows == if |before| < limit && deposits[m - 1].status == Unprocessed then before + [deposits[m - 1]] else before
    ensures FirstRows(deposits, m, limit, rows)
  {
    hide Count, Listed;
    CountSnoc(deposits, m, Unprocessed);
    ListedSnoc(before, deposits[m - 1]);
  }

  lemma {:induction false} FirstUnprocessedRows(deposits: seq<Deposit>, m: nat, limit: nat)
    requires m <= |deposits|
    requires forall i :: 0 <= i < |deposits| ==> deposits[i].id == i
    ensures FirstRows(deposits, m, limit, FirstUnprocessed(deposits, m, limit))
  {
    if m > 0 {
      FirstUnprocessedRows(deposits, m - 1, limit);
      hide FirstRows, Count;
      FirstRowsStep(deposits, m, limit, FirstUnprocessed(deposits, m - 1, limit), FirstUnprocessed(deposits, m, limit));
    }
  }

  lemma EmptyBatch(t: Tables)
    ensures IsBatch(t, [])
  {}

  lemma EmptyPending(t: Tables)
    ensures IsPending(t, [])
  {}

  lemma FirstRowsAreBatch(t: Tables, rows: seq<Deposit>)
    requires FirstRows(t.deposits, |t.deposits|, 100, rows)
    ensures IsBatch(t, rows) && LowestFirst(t, rows) && |rows| == Min(100, Count(t.deposits, Unprocessed))
  {
    assert t.deposits[..|t.deposits|] == t.deposits;
    forall i, k | 0 <= k < |rows| && 0 <= i < |t.deposits| && t.deposits[i].status == Unprocessed && i < rows[k].id
      ensures exists j :: 0 <= j < k && rows[j].id == i
    {
      assert Listed(rows, i);
      var j :| 0 <= j < |rows| && rows[j].id == i;
      assert j < k;
    }
  }

  /** Some of the first i rows, in their order. */
  ghost predicate SomeOf<T>(cursor: seq<T>, i: nat, rows: seq<T>)
    requires i <= |cursor|
    decreases i
  {
    if i == 0 then rows == [] else
      || SomeOf(cursor, i - 1, rows)
      || (rows != [] && rows[|rows| - 1] == cursor[i - 1] && SomeOf(cursor, i - 1, rows[..|rows| - 1]))
  }

  lemma SomeOfNone<T>(cursor: seq<T>)
    ensures SomeOf(cursor, 0, [])
  {}

  /** What an id-ordered query returns. */
  lemma WindowCursor(t: Tables)
    requires forall i :: 0 <= i < |t.deposits| && t.deposits[i].status == Processing ==> i in t.drips
    ensures var cursor := FirstPending(t, |t.deposits|);
            IsPending(t, cursor) && AllInWindow(t, cursor) && |cursor| == Min(20, Count(t.deposits, Processing))
  {
    hide WindowRows, Count, IsPending, AllInWindow, FirstPending;
    FirstPendingIsWindow(t, |t.deposits|);
    WindowIsPending(t, FirstPending(t, |t.deposits|));
    CursorInWindow(t, FirstPending(t, |t.deposits|));
  }

  lemma SomeOfStep<T>(cursor: seq<T>, i: nat, rows: seq<T>)
    requires i < |cursor| && SomeOf(cursor, i, rows)
    ensures SomeOf(cursor, i + 1, rows) && SomeOf(cursor, i + 1, rows + [cursor[i]])
  {
    assert (rows + [cursor[i]])[..|rows|] == rows;
  }

  lemma {:induction false} SomeOfBatch(t: Tables, cursor: seq<Deposit>, i: nat, rows: seq<Deposit>)
    requires i <= |cursor| && IsBatch(t, cursor) && SomeOf(cursor, i, rows)
    ensures IsBatch(t, rows) && |rows| <= i
    ensures forall j, k :: 0 <= j < |rows| && i <= k < |cursor| ==> rows[j].id != cursor[k].id
    decreases i
  {
    if i > 0 {
      if SomeOf(cursor, i - 1, rows) {
        SomeOfBatch(t, cursor, i - 1, rows);
      } else {
        SomeOfBatch(t, cursor, i - 1, rows[..|rows| - 1]);
      }
    }
  }

  lemma {:induction false} SomeOfPending(t: Tables, cursor: seq<PendingDrip>, i: nat, rows: seq<PendingDrip>)
    requires i <= |cursor| && IsPending(t, cursor) && SomeOf(cursor, i, rows)
    ensures IsPending(t, rows) && |rows| <= i
    ensures forall j, k :: 0 <= j < |rows| && i <= k < |cursor| ==> rows[j].id != cursor[k].id
    decreases i
  {
    if i > 0 {
      if SomeOf(cursor, i - 1, rows) {
        SomeOfPending(t, cursor, i - 1, rows);
      } else {
        SomeOfPending(t, cursor, i - 1, rows[..|rows| - 1]);
      }
    }
  }

  /** The rows of the pending join below m that are in the window of 20, by id. */
  function FirstPending(t: Tables, m: nat): seq<PendingDrip>
    requires m <= |t.deposits|
  {
    if m == 0 then [] else
      var rows := FirstPending(t, m - 1);
      if InWindow(t, m - 1) && m - 1 in t.drips
      then rows + [PendingDrip(m - 1, t.drips[m - 1].txid, t.drips[m - 1].rawtx)] else rows
  }

  ghost predicate HasRow(rows: seq<PendingDrip>, id: nat) { exists k :: 0 <= k < |rows| && rows[k].id == id }

  /** Among the rows below m, these are exactly those of the window. */
  ghost predicate WindowRows(t: Tables, m: nat, rows: seq<PendingDrip>)
    requires m <= |t.deposits|
  {
    && |rows| == Min(20, Count(t.deposits[..m], Processing))
    && (forall k :: 0 <= k < |rows| ==> rows[k].id < m && InWindow(t, rows[k].id) && IsPendingRow(t, rows[k]))
    && (forall j, k :: 0 <= j < k < |rows| ==> rows[j].id < rows[k].id)
    && (forall i :: 0 <= i < m && InWindow(t, i) ==> HasRow(rows, i))
  }

  lemma CountSnoc(deposits: seq<Deposit>, m: nat, status: Status)
    requires 0 < m <= |deposits|
    ensures Count(deposits[..m], status)
            == Count(deposits[..m - 1], status) + if deposits[m - 1].status == status then 1 else 0
  {
    assert deposits[..m][..m - 1] == deposits[..m - 1];
  }

  lemma HasRowSnoc(before: seq<PendingDrip>, row: PendingDrip)
    ensures forall i :: HasRow(before, i) ==> HasRow(before + [row], i)
    ensures HasRow(before + [row], row.id)
  {
    var rows := before + [row];
    forall i | HasRow(before, i) ensures HasRow(rows, i) {
      var k :| 0 <= k < |before| && before[k].id == i;
      assert rows[k].id == i;
    }
    assert rows[|before|].id == row.id;
  }

  lemma WindowRow(t: Tables, i: nat)
    requires i < |t.deposits|
    requires t.deposits[i].status == Processing ==> i in t.drips
    ensures InWindow(t, i) <==> t.deposits[i].status == Processing && Count(t.deposits[..i], Processing) < 20
    ensures InWindow(t, i) ==> i in t.drips && IsPendingRow(t, PendingDrip(i, t.drips[i].txid, t.drips[i].rawtx))
  {}

  lemma WindowStep(t: Tables, m: nat, before: seq<PendingDrip>, rows: seq<PendingDrip>)
    requires 0 < m <= |t.deposits| && WindowRows(t, m - 1, before)
    requires t.deposits[m - 1].status == Processing ==> m - 1 in t.drips
    requires rows == if InWindow(t, m - 1)
                     then before + [PendingDrip(m - 1, t.drips[m - 1].txid, t.drips[m - 1].rawtx)] else before
    ensures WindowRows(t, m, rows)
  {
    hide Count, HasRow, InWindow, IsPendingRow;
    CountSnoc(t.deposits, m, Processing);
    WindowRow(t, m - 1);
    if InWindow(t, m - 1) {
      HasRowSnoc(before, PendingDrip(m - 1, t.drips[m - 1].txid, t.drips[m - 1].rawtx));
    }
  }

  lemma {:induction false} FirstPendingIsWindow(t: Tables, m: nat)
    requires m <= |t.deposits|
    requires forall i :: 0 <= i < |t.deposits| && t.deposits[i].status == Processing ==> i in t.drips
    ensures WindowRows(t, m, FirstPending(t, m))
  {
    if m > 0 {
      FirstPendingIsWindow(t, m - 1);
      hide WindowRows, Count;
      WindowStep(t, m, FirstPending(t, m - 1), FirstPending(t, m));
    }
  }

  lemma WindowIsPending(t: Tables, rows: seq<PendingDrip>)
    requires WindowRows(t, |t.deposits|, rows)
    ensures IsPending(t, rows) && |rows| == Min(20, Count(t.deposits, Processing))
  {
    hide IsPendingRow, InWindow;
    assert t.deposits[..|t.deposits|] == t.deposits;
  }

  lemma CursorInWindow(t: Tables, rows: seq<PendingDrip>)
    requires WindowRows(t, |t.deposits|, rows)
    ensures AllInWindow(t, rows)
  {
    hide InWindow, IsPendingRow, Count;
  }

  lemma NoneInWindow(t: Tables)
    ensures AllInWindow(t, [])
  {}

  lemma {:induction false} SomeInWindow(t: Tables, cursor: seq<PendingDrip>, i: nat, rows: seq<PendingDrip>)
    requires i <= |cursor| && AllInWindow(t, cursor) && SomeOf(cursor, i, rows)
    ensures AllInWindow(t, rows)
    decreases i
  {
    hide InWindow;
    if i > 0 {
      if SomeOf(cursor, i - 1, rows) {
        SomeInWindow(t, cursor, i - 1, rows);
      } else {
        SomeInWindow(t, cursor, i - 1, rows[..|rows| - 1]);
      }
    }
  }

  // ----- The tables -----

  class Metis {
    var height: Option<nat>
    var deposits: seq<Deposit>
    var drips: map<nat, Drip>
    const calm: bool      // no call fails
    const inOrder: bool   // queries return rows by id, which nothing in them asks for

    constructor (calm: bool, inOrder: bool)
      ensures View() == Tables(None, [], map[]) && this.calm == calm && this.inOrder == inOrder
    {
      height, deposits, drips := None, [], map[];
      this.calm, this.inOrder := calm, inOrder;
    }

    function View(): Tables
      reads this
    {
      Tables(height, deposits, drips)
    }

    /** The height to start from; None is an error. */
    method InitHeight(defaultHeight: nat) returns (r: Option<nat>)
      modifies this`height
      ensures r.None? ==> height == old(height)
      ensures r.Some? && old(height).None? ==> height == Some(defaultHeight) && r.value == defaultHeight
      ensures r.Some? && old(height).Some? ==> height == old(height) && r.value == height.value + 1
      ensures calm ==> r.Some?
    {
      var ok := Attempt(calm);
      if !ok { return None; }
      if height.None? {
        ok := Attempt(calm);
        if !ok { return None; }
        height := Some(defaultHeight);
        return Some(defaultHeight);
      }
      return Some(height.value + 1);
    }

    /** Inserts all deposits and overwrites the height row, in one transaction. */
    method SaveSyncedData(items: seq<NewDeposit>, number: nat) returns (ok: bool, ctimes: seq<int>)
      modifies this`height, this`deposits
      ensures |ctimes| == |items|
      ensures ok ==> deposits == Inserted(old(deposits), items, ctimes)
      ensures ok ==> height == if old(height).Some? then Some(number) else None
      ensures !ok ==> deposits == old(deposits) && height == old(height)
      ensures calm ==> ok
    {
      ctimes := seq(|items|, _ => 0);
      ok := Attempt(calm);
      if !ok { return; }
      var rows := deposits;
      var i := 0;
      while i < |items|
        invariant 0 <= i <= |items| && |ctimes| == |items|
        invariant deposits == old(deposits) && height == old(height)
        invariant rows == Inserted(deposits, items[..i], ctimes[..i])
      {
        ok := Attempt(calm);
        if !ok { return; }
        var now: int := *;
        ctimes := ctimes[i := now];
        rows := rows + [Deposit(|rows|, items[i].row, items[i].status, now)];
        i := i + 1;
      }
      assert items[..i] == items && ctimes[..i] == ctimes;
      ok := Attempt(calm);
      if !ok { return; }
      var newHeight := if height.Some? then Some(number) else None;
      ok := Attempt(calm);
      if ok {
        deposits, height := rows, newHeight;
      }
    }

    /**
      Rows of the query for Unprocessed deposits, as the channel delivers them: at most 100, by id
      only when inOrder, some dropped once the context is done; `failed` when an error ended the stream.
     */
    method GetDepositTxStream() returns (rows: seq<Deposit>, failed: bool)
      requires forall i :: 0 <= i < |deposits| ==> deposits[i].id == i
      ensures IsBatch(View(), rows)
      ensures calm ==> !failed && |rows| == Min(100, Count(deposits, Unprocessed))
      ensures calm && inOrder ==> LowestFirst(View(), rows)
    {
      hide IsBatch, LowestFirst, Count, FirstRows, FirstUnprocessed, SomeOf;
      rows := [];
      EmptyBatch(View());
      var ok := Attempt(calm);
      if !ok { return [], true; }
      var cursor: seq<Deposit> := *;
      if inOrder || !IsBatch(View(), cursor) || |cursor| != Min(100, Count(deposits, Unprocessed)) {
        cursor := FirstUnprocessed(deposits, |deposits|, 100);
        FirstUnprocessedRows(deposits, |deposits|, 100);
        FirstRowsAreBatch(View(), cursor);
      }
      var i := 0;
      SomeOfNone(cursor);
      while i < |cursor|
        invariant 0 <= i <= |cursor|
        invariant SomeOf(cursor, i, rows)
        invariant calm ==> rows == cursor[..i]
      {
        ok := Attempt(calm);
        if !ok { SomeOfBatch(View(), cursor, i, rows); return rows, true; }
        SomeOfStep(cursor, i, rows);
        var delivered := Attempt(calm);
        if delivered {
          rows := rows + [cursor[i]];
        }
        i := i + 1;
      }
      SomeOfBatch(View(), cursor, i, rows);
      assert calm ==> rows == cursor;
      failed := false;
    }

    /** HasGotDrip: whether no drip row has this recipient yet, if the database answers. */
    method IsFirstDrip(address: Address, answers: bool) returns (ok: bool, first: bool)
      ensures ok == answers
      ensures first <==> forall p :: p in drips ==> drips[p].to != address
    {
      ok := answers;
      first := HasGotDrip(drips, address);
      HasGotDripMeaning(drips, address);
    }

    /** Stores the drip, if there is one, together with the deposit's new status. */
    method NewDrip(deposit: Deposit, drip: Option<Drip>) returns (ok: bool)
      modifies this`deposits, this`drips
      ensures ok ==> deposits == SetStatus(old(deposits), deposit.id, if drip.Some? then Processing else Ignore)
      ensures ok && drip.Some? ==> drip.value.pid == deposit.id && deposit.id !in old(drips)
      ensures ok && drip.Some? ==> drips == old(drips)[deposit.id := drip.value]
      ensures ok && drip.None? ==> drips == old(drips)
      ensures !ok ==> deposits == old(deposits) && drips == old(drips)
      ensures calm && (drip.Some? ==> drip.value.pid == deposit.id && deposit.id !in old(drips)) ==> ok
    {
      ok := Attempt(calm);
      if !ok { return; }
      var status := Ignore;
      var newDrips := drips;
      if drip.Some? {
        if drip.value.pid != deposit.id { return false; }
        if drip.value.pid in drips { return false; }
        ok := Attempt(calm);
        if !ok { return; }
        newDrips := newDrips[drip.value.pid := drip.value];
        status := Processing;
      }
      ok := Attempt(calm);
      if !ok { return; }
      ok := Attempt(calm);
      if ok {
        deposits, drips := SetStatus(deposits, deposit.id, status), newDrips;
      }
    }

    /** Rows of the pending join, as the channel delivers them. */
    method GetPendingDripsStream() returns (rows: seq<PendingDrip>, failed: bool)
      requires forall i :: 0 <= i < |deposits| && deposits[i].status == Processing ==> i in drips
      ensures IsPending(View(), rows)
      ensures calm ==> !failed && |rows| == Min(20, Count(deposits, Processing))
      ensures inOrder ==> AllInWindow(View(), rows)
      ensures calm && inOrder ==> rows == FirstPending(View(), |deposits|)
    {
      hide IsPending, Count, FirstPending, AllInWindow, SomeOf;
      EmptyPending(View());
      NoneInWindow(View());
      rows := [];
      var ok := Attempt(calm);
      if !ok { return [], true; }
      var cursor: seq<PendingDrip> := *;
      if inOrder || !IsPending(View(), cursor) || |cursor| != Min(20, Count(deposits, Processing)) {
        cursor := FirstPending(View(), |deposits|);
        WindowCursor(View());
      }
      var i := 0;
      SomeOfNone(cursor);
      while i < |cursor|
        invariant 0 <= i <= |cursor|
        invariant SomeOf(cursor, i, rows)
        invariant calm ==> rows == cursor[..i]
      {
        ok := Attempt(calm);
        if !ok {
          SomeOfPending(View(), cursor, i, rows);
          if inOrder { SomeInWindow(View(), cursor, i, rows); }
          return rows, true;
        }
        SomeOfStep(cursor, i, rows);
        var delivered := Attempt(calm);
        if delivered {
          rows := rows + [cursor[i]];
        }
        i := i + 1;
      }
      SomeOfPending(View(), cursor, i, rows);
      if inOrder { SomeInWindow(View(), cursor, i, rows); }
      assert calm ==> rows == cursor;
      failed := false;
    }

    /** Fails unless exactly one row changed. */
    method UpdateDripStatus(id: nat, status: Status) returns (ok: bool)
      modifies this`deposits
      ensures ok ==> id < |old(deposits)| && old(deposits)[id].status != status
      ensures ok ==> deposits == SetStatus(old(deposits), id, status)
      ensures !ok ==> deposits == old(deposits)
      ensures calm && id < |old(deposits)| && old(deposits)[id].status != status ==> ok
    {
      ok := Attempt(calm);
      if !ok { return; }
      var affected := if id < |deposits| && deposits[id].status != status then 1 else 0;
      deposits := SetStatus(deposits, id, status);
      ok := affected == 1;
    }
  }
}
