/**
  Rows of the three tables (internal/repository/datamodel.go, migrations/000001_init.up.sql)
  and the L2 transactions stored in them.
 */
module Data {
  type Address = string

  datatype Option<+T> = None | Some(value: T)

  datatype Status = Unprocessed | Processing | Done | Ignore

  datatype Row = Row(height: nat, txid: string, l1token: Address, l2token: Address,
                     from: Address, to: Address, amount: nat)

  /** A row of `deposits`; its id is its rank of insertion. */
  datatype Deposit = Deposit(id: nat, row: Row, status: Status, ctime: int)

  /** A transfer signed by the faucet account. */
  datatype Tx = Tx(nonce: nat, to: Address, value: nat, gasPrice: nat, gas: nat)

  /** Hashing is assumed injective, and encoding invertible. */
  datatype TxHash = HashOf(tx: Tx)
  datatype RawTx = Encoded(tx: Tx)

  datatype Drip = Drip(pid: nat, txid: TxHash, from: Address, to: Address, amount: real, rawtx: RawTx)

  /** A row of the join that GetPendingDripsStream reads. */
  datatype PendingDrip = PendingDrip(id: nat, txid: TxHash, rawtx: RawTx)

  /** The database: the height row, the deposits in insertion order, the drips by primary key. */
  datatype Tables = Tables(height: Option<nat>, deposits: seq<Deposit>, drips: map<nat, Drip>)

  /** UPDATE deposits SET status WHERE id. */
  function SetStatus(deposits: seq<Deposit>, id: nat, status: Status): (r: seq<Deposit>)
    ensures |r| == |deposits|
    ensures forall i :: 0 <= i < |r| ==> r[i] == if i == id then deposits[i].(status := status) else deposits[i]
  {
    if id < |deposits| then deposits[id := deposits[id].(status := status)] else deposits
  }

  /** A deposit about to be inserted: everything but the id and the database clock. */
  datatype NewDeposit = NewDeposit(row: Row, status: Status)

  function Inserted(deposits: seq<Deposit>, items: seq<NewDeposit>, ctimes: seq<int>): (r: seq<Deposit>)
    requires |ctimes| == |items|
    ensures |r| == |deposits| + |items| && deposits <= r
    ensures forall i :: |deposits| <= i < |r| ==>
              r[i] == Deposit(i, items[i - |deposits|].row, items[i - |deposits|].status, ctimes[i - |deposits|])
  {
    deposits + seq(|items|, i requires 0 <= i < |items| =>
      Deposit(|deposits| + i, items[i].row, items[i].status, ctimes[i]))
  }

  function RowsOf(deposits: seq<Deposit>): (r: seq<Row>)
    ensures |r| == |deposits| && forall i :: 0 <= i < |r| ==> r[i] == deposits[i].row
  {
    seq(|deposits|, i requires 0 <= i < |deposits| => deposits[i].row)
  }

  function NewRows(items: seq<NewDeposit>): (r: seq<Row>)
    ensures |r| == |items| && forall i :: 0 <= i < |r| ==> r[i] == items[i].row
  {
    seq(|items|, i requires 0 <= i < |items| => items[i].row)
  }

  /** How many deposits have this status. */
  function Count(deposits: seq<Deposit>, status: Status): nat {
    if deposits == [] then 0
    else Count(deposits[..|deposits| - 1], status) + if deposits[|deposits| - 1].status == status then 1 else 0
  }

  /** HasGotDrip: true when no drip row has this recipient yet. */
  function HasGotDrip(drips: map<nat, Drip>, address: Address): bool {
    |set p | p in drips && drips[p].to == address| == 0
  }

  lemma HasGotDripMeaning(drips: map<nat, Drip>, address: Address)
    ensures HasGotDrip(drips, address) <==> forall p :: p in drips ==> drips[p].to != address
  {
    var s := set p | p in drips && drips[p].to == address;
    if exists p :: p in drips && drips[p].to == address {
      var p :| p in drips && drips[p].to == address;
      assert p in s;
    } else {
      assert s == {};
    }
  }
}
