/** The wallet and transaction records shared by every analysis.
    Layout coordinates, which only the graph rendering uses, are not modelled. */
module WalletModel {
  import opened Numeric

  /** Amounts are unbounded reals; `netBalance` is stored, and the analyses
      read it as given rather than recomputing it. */
  datatype Wallet = Wallet(
    id: string,
    totalReceived: real,
    totalSent: real,
    netBalance: real,
    transactionCount: nat)

  /** A transfer; `timestamp` is milliseconds since the epoch and always present. */
  datatype Transaction = Transaction(
    fromAddr: string,
    toAddr: string,
    amount: real,
    timestamp: int)

  predicate Involves(tx: Transaction, id: string) {
    tx.fromAddr == id || tx.toAddr == id
  }

  /** The transactions that have `id` as sender or receiver, in input order. */
  function WalletTxs(id: string, txs: seq<Transaction>): (r: seq<Transaction>)
    ensures |r| <= |txs|
    ensures forall t :: t in r <==> t in txs && Involves(t, id)
    ensures forall t :: multiset(r)[t] == if Involves(t, id) then multiset(txs)[t] else 0
  {
    if txs == [] then []
    else
      var last := txs[|txs| - 1];
      assert txs == txs[..|txs| - 1] + [last];
      WalletTxs(id, txs[..|txs| - 1]) + (if Involves(last, id) then [last] else [])
  }

  function Amounts(txs: seq<Transaction>): (r: seq<real>)
    ensures |r| == |txs|
  {
    seq(|txs|, i requires 0 <= i < |txs| => txs[i].amount)
  }

  function Timestamps(txs: seq<Transaction>): (r: seq<int>)
    ensures |r| == |txs|
  {
    seq(|txs|, i requires 0 <= i < |txs| => txs[i].timestamp)
  }
}
