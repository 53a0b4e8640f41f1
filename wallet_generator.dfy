/** The synthetic data set: `count` wallets and `3 * count` random transfers between
    distinct wallets, with each transfer booked on both ends. `Math.random` is replaced by
    a finite stream of draws in `[0, 1)`; a run that needs more draws than the stream holds
    ends in `None`. */
module WalletGenerator {
  import opened Numeric
  import opened WalletModel
  import opened Decimal
  import opened RandomDraws

  const MsPerDay: int := 24 * 60 * 60 * 1000

  /** One transfer as drawn: wallet indices, the unrounded amount, and its age in days. */
  datatype Transfer = Transfer(fromIndex: nat, toIndex: nat, amount: real, daysAgo: nat)

  /** A generated transaction record: the shared fields plus the generator's `id`. */
  datatype LedgerTx = LedgerTx(id: string, tx: Transaction)

  datatype Generated = Generated(wallets: seq<Wallet>, transactions: seq<LedgerTx>)

  function WalletId(i: nat): string {
    "wallet_" + PadStart(NatToString(i), 4, '0')
  }

  function TxId(i: nat): string {
    "tx_" + PadStart(NatToString(i), 6, '0')
  }

  /** `Math.random() * 10 + 0.1`. */
  function DrawAmount(r: real): real {
    r * 10.0 + 0.1
  }

  /** `Math.floor(Math.random() * 60)`. */
  function DrawDaysAgo(r: real): (d: nat)
    requires 0.0 <= r < 1.0
    ensures d < 60
  {
    ScaledBelow(r, 60);
    (r * 60.0).Floor
  }

  /** `parseFloat(amount.toFixed(6))` on a positive amount: rounded to 6 decimals, half up. */
  function Round6(x: real): real {
    ((x * 1000000.0 + 0.5).Floor as real) / 1000000.0
  }

  /** What every drawn transfer satisfies: two distinct wallets, an amount in
      `[0.1, 10.1)` and an age under 60 days. */
  predicate Valid(t: Transfer, count: nat) {
    && t.fromIndex < count && t.toIndex < count
    && t.fromIndex != t.toIndex
    && 0.1 <= t.amount < 10.1
    && t.daysAgo < 60
  }

  /** One iteration of the transfer loop: sender, receiver, amount, age. */
  function DrawTransfer(draws: seq<real>, pos: nat, count: nat): (r: Option<(Transfer, nat)>)
    requires Draws(draws) && count > 0
    ensures r.Some? ==> Valid(r.value.0, count) && pos < r.value.1 <= |draws|
  {
    if pos >= |draws| then None
    else
      var fromIndex := DrawIndex(draws[pos], count);
      match DrawOther(draws, pos + 1, fromIndex, count)
      case None => None
      case Some((toIndex, p)) =>
        if p + 1 >= |draws| then None
        else Some((Transfer(fromIndex, toIndex, DrawAmount(draws[p]), DrawDaysAgo(draws[p + 1])), p + 2))
  }

  /** The first `n` transfers, and the position of the next unused draw. */
  function DrawTransfers(draws: seq<real>, count: nat, n: nat): (r: Option<(seq<Transfer>, nat)>)
    requires Draws(draws)
    ensures r.Some? ==> |r.value.0| == n && r.value.1 <= |draws|
  {
    if n == 0 then Some(([], 0))
    else if count == 0 then None
    else
      match DrawTransfers(draws, count, n - 1)
      case None => None
      case Some((ts, p)) =>
        match DrawTransfer(draws, p, count)
        case None => None
        case Some((t, q)) => Some((ts + [t], q))
  }

  /** Every drawn transfer is valid: distinct wallets, amount and age in range. */
  lemma {:induction false} DrawnValid(draws: seq<real>, count: nat, n: nat)
    requires Draws(draws) && DrawTransfers(draws, count, n).Some?
    ensures forall k :: 0 <= k < n ==> Valid(DrawTransfers(draws, count, n).value.0[k], count)
  {
    if n > 0 {
      DrawnValid(draws, count, n - 1);
    }
  }

  /** What the transfers send to wallet `i`, in transfer order. */
  function Received(i: nat, ts: seq<Transfer>): real {
    if ts == [] then 0.0
    else Received(i, ts[..|ts| - 1]) + (if ts[|ts| - 1].toIndex == i then ts[|ts| - 1].amount else 0.0)
  }

  /** What wallet `i` sends. */
  function Sent(i: nat, ts: seq<Transfer>): real {
    if ts == [] then 0.0
    else Sent(i, ts[..|ts| - 1]) + (if ts[|ts| - 1].fromIndex == i then ts[|ts| - 1].amount else 0.0)
  }

  /** Transfers with wallet `i` at one end or the other, each counted once per end. */
  function Ends(i: nat, ts: seq<Transfer>): nat {
    if ts == [] then 0
    else
      var t := ts[|ts| - 1];
      Ends(i, ts[..|ts| - 1]) + (if t.fromIndex == i then 1 else 0) + (if t.toIndex == i then 1 else 0)
  }

  /** Wallet `i` after the transfers are booked and before the balance pass. */
  function Accrued(i: nat, ts: seq<Transfer>): Wallet {
    Wallet(WalletId(i), Received(i, ts), Sent(i, ts), 0.0, Ends(i, ts))
  }

  /** The final pass: `netBalance = totalReceived - totalSent`. */
  function Settle(w: Wallet): Wallet {
    w.(netBalance := w.totalReceived - w.totalSent)
  }

  /** The wallet list the generator returns for the transfers `ts`. */
  function Book(count: nat, ts: seq<Transfer>): (ws: seq<Wallet>)
    ensures |ws| == count
  {
    seq(count, i requires 0 <= i < count => Settle(Accrued(i, ts)))
  }

  /** The transaction records for the transfers `ts`, dated `daysAgo` days before `now`. */
  function Ledger(ts: seq<Transfer>, now: int): (r: seq<LedgerTx>)
    ensures |r| == |ts|
  {
    if ts == [] then [] else Ledger(ts[..|ts| - 1], now) + [Record(|ts| - 1, ts[|ts| - 1], now)]
  }

  /** The `k`-th record: ids by index, the amount rounded to 6 decimals. */
  function Record(k: nat, t: Transfer, now: int): LedgerTx {
    LedgerTx(TxId(k), Transaction(WalletId(t.fromIndex), WalletId(t.toIndex), Round6(t.amount),
                                  now - t.daysAgo * MsPerDay))
  }

  /** `generateWalletData(count)`: creates the wallets, draws and books `3 * count`
      transfers, then settles every balance. */
  method GenerateWalletData(count: nat, now: int, draws: seq<real>) returns (r: Option<Generated>)
    requires Draws(draws)
    ensures r.None? <==> DrawTransfers(draws, count, 3 * count).None?
    ensures r.Some? ==> var ts := DrawTransfers(draws, count, 3 * count).value.0;
      r.value == Generated(Book(count, ts), Ledger(ts, now))
  {
    var wallets := OpenWallets(count);
    var booked, done := BookTransfers(wallets, now, draws);
    if booked.None? {
      return None;
    }
    DrawnValid(draws, count, 3 * count);
    SettleBalances(wallets, done);
    r := Some(Generated(wallets[..], booked.value));
  }

  /** The transfer loop: `3 * count` iterations, each drawing a transfer, pushing its
      record and booking it on both ends. */
  method BookTransfers(wallets: array<Wallet>, now: int, draws: seq<real>)
    returns (r: Option<seq<LedgerTx>>, ghost done: seq<Transfer>)
    requires Draws(draws)
    requires wallets[..] == Accounts(wallets.Length, [])
    modifies wallets
    ensures r.None? <==> DrawTransfers(draws, wallets.Length, 3 * wallets.Length).None?
    ensures r.Some? ==> DrawTransfers(draws, wallets.Length, 3 * wallets.Length).value.0 == done
    ensures r.Some? ==> wallets[..] == Accounts(wallets.Length, done) && r.value == Ledger(done, now)
  {
    var count := wallets.Length;
    var transactions: seq<LedgerTx> := [];
    var txCount := 3 * wallets.Length;
    done := [];
    var pos: nat := 0;
    for i := 0 to txCount
      invariant DrawTransfers(draws, count, i) == Some((done, pos))
      invariant wallets[..] == Accounts(count, done)
      invariant transactions == Ledger(done, now)
    {
      var step, t := TransferOnce(wallets, draws, i, pos, done, transactions, now);
      if step.None? {
        FailureStays(draws, count, i + 1, txCount);
        assert DrawTransfers(draws, wallets.Length, 3 * wallets.Length).None?;
        return None, done;
      }
      pos, transactions := step.value.0, step.value.1;
      done := done + [t];
    }
    r := Some(transactions);
  }

  /** One iteration of the transfer loop: draw a transfer, push its record, and book it
      on both ends. Nothing changes when the draws run out. */
  method TransferOnce(wallets: array<Wallet>, draws: seq<real>, i: nat, pos: nat, ghost done: seq<Transfer>,
                      transactions: seq<LedgerTx>, now: int)
    returns (step: Option<(nat, seq<LedgerTx>)>, t: Transfer)
    requires Draws(draws) && wallets.Length > 0
    requires DrawTransfers(draws, wallets.Length, i) == Some((done, pos))
    requires wallets[..] == Accounts(wallets.Length, done)
    requires transactions == Ledger(done, now)
    modifies wallets
    ensures step.None? ==> DrawTransfers(draws, wallets.Length, i + 1).None?
    ensures step.Some? ==>
      && DrawTransfers(draws, wallets.Length, i + 1) == Some((done + [t], step.value.0))
      && wallets[..] == Accounts(wallets.Length, done + [t])
      && step.value.1 == Ledger(done + [t], now)
  {
    var count := wallets.Length;
    var drawn := NextTransfer(draws, pos, count);
    DrawStep(draws, count, i, done, pos);
    if drawn.None? {
      return None, Transfer(0, 0, 0.0, 0);
    }
    var next;
    t, next := drawn.value.0, drawn.value.1;
    var record := MakeRecord(wallets, done, i, t, now);
    LedgerStep(done, t, now);
    BookTransfer(wallets, done, t);
    step := Some((next, transactions + [record]));
  }

  /** The pushed record: `tx_` and the zero-padded index, the two wallets' ids, the
      amount rounded to 6 decimals, and the date `daysAgo` days before `now`. */
  method MakeRecord(wallets: array<Wallet>, ghost done: seq<Transfer>, i: nat, t: Transfer, now: int)
    returns (record: LedgerTx)
    requires t.fromIndex < wallets.Length && t.toIndex < wallets.Length
    requires wallets[..] == Accounts(wallets.Length, done)
    ensures record == Record(i, t, now)
  {
    AccountsIds(wallets.Length, done);
    record := LedgerTx(TxId(i), Transaction(wallets[t.fromIndex].id, wallets[t.toIndex].id,
                                            Round6(t.amount), now - t.daysAgo * MsPerDay));
  }

  /** The first loop: `count` wallets named `wallet_0000`, `wallet_0001`, ..., every
      total and counter at zero. */
  method OpenWallets(count: nat) returns (wallets: array<Wallet>)
    ensures fresh(wallets)
    ensures wallets[..] == Accounts(count, [])
  {
    wallets := new Wallet[count];
    for i := 0 to count
      invariant wallets[..i] == Opened(i)
    {
      wallets[i] := Wallet(WalletId(i), 0.0, 0.0, 0.0, 0);
      assert wallets[..i + 1] == wallets[..i] + [wallets[i]];
    }
  }

  /** The draws of one loop iteration: `Math.floor(Math.random() * count)` for the sender,
      then for the receiver until it differs from the sender, then the amount and the age. */
  method NextTransfer(draws: seq<real>, pos: nat, count: nat) returns (drawn: Option<(Transfer, nat)>)
    requires Draws(draws) && count > 0
    ensures drawn == DrawTransfer(draws, pos, count)
  {
    if pos >= |draws| {
      return None;
    }
    var fromIndex := DrawIndex(draws[pos], count);
    var p := pos + 1;
    if p >= |draws| {
      return None;
    }
    var toIndex := DrawIndex(draws[p], count);
    p := p + 1;
    while toIndex == fromIndex
      invariant pos + 1 < p <= |draws| && toIndex < count
      invariant DrawOther(draws, pos + 1, fromIndex, count)
        == if toIndex == fromIndex then DrawOther(draws, p, fromIndex, count) else Some((toIndex, p))
      decreases |draws| - p
    {
      if p >= |draws| {
        return None;
      }
      toIndex := DrawIndex(draws[p], count);
      p := p + 1;
    }
    if p + 1 >= |draws| {
      return None;
    }
    var amount := DrawAmount(draws[p]);
    var daysAgo := DrawDaysAgo(draws[p + 1]);
    return Some((Transfer(fromIndex, toIndex, amount, daysAgo), p + 2));
  }

  /** The in-place counter updates of one transfer: the sender's `totalSent` and the
      receiver's `totalReceived` grow by the unrounded amount, and both counts by one. */
  method BookTransfer(wallets: array<Wallet>, ghost done: seq<Transfer>, t: Transfer)
    requires t.fromIndex < wallets.Length && t.toIndex < wallets.Length && t.fromIndex != t.toIndex
    requires wallets[..] == Accounts(wallets.Length, done)
    modifies wallets
    ensures wallets[..] == Accounts(wallets.Length, done + [t])
  {
    var fromIndex, toIndex, amount := t.fromIndex, t.toIndex, t.amount;
    wallets[fromIndex] := wallets[fromIndex].(totalSent := wallets[fromIndex].totalSent + amount,
                                              transactionCount := wallets[fromIndex].transactionCount + 1);
    wallets[toIndex] := wallets[toIndex].(totalReceived := wallets[toIndex].totalReceived + amount,
                                          transactionCount := wallets[toIndex].transactionCount + 1);
    assert wallets[..] == Booked(old(wallets[..]), t);
    BookStep(wallets.Length, done, t);
  }

  /** The final `forEach`: every wallet's `netBalance` becomes received minus sent. */
  method SettleBalances(wallets: array<Wallet>, ghost done: seq<Transfer>)
    requires forall k :: 0 <= k < |done| ==> Valid(done[k], wallets.Length)
    requires wallets[..] == Accounts(wallets.Length, done)
    modifies wallets
    ensures wallets[..] == Book(wallets.Length, done)
  {
    AccountsAccrued(wallets.Length, done);
    for j := 0 to wallets.Length
      invariant forall k :: 0 <= k < j ==> wallets[k] == Settle(Accrued(k, done))
      invariant forall k :: j <= k < wallets.Length ==> wallets[k] == Accrued(k, done)
    {
      wallets[j] := wallets[j].(netBalance := wallets[j].totalReceived - wallets[j].totalSent);
    }
  }

  /** The wallet array after the first loop and the counter updates of the transfers `ts`. */
  function Accounts(count: nat, ts: seq<Transfer>): (ws: seq<Wallet>)
    ensures |ws| == count
  {
    if ts == [] then Opened(count) else Booked(Accounts(count, ts[..|ts| - 1]), ts[|ts| - 1])
  }

  /** The first `n` wallets as the first loop creates them. */
  function Opened(n: nat): (ws: seq<Wallet>)
    ensures |ws| == n
  {
    seq(n, i requires 0 <= i < n => Wallet(WalletId(i), 0.0, 0.0, 0.0, 0))
  }

  /** The wallets after the counter updates of transfer `t`. */
  function Booked(ws: seq<Wallet>, t: Transfer): (r: seq<Wallet>)
    ensures |r| == |ws|
  {
    if t.fromIndex < |ws| && t.toIndex < |ws| then
      ws[t.fromIndex := ws[t.fromIndex].(totalSent := ws[t.fromIndex].totalSent + t.amount,
                                         transactionCount := ws[t.fromIndex].transactionCount + 1)]
        [t.toIndex := ws[t.toIndex].(totalReceived := ws[t.toIndex].totalReceived + t.amount,
                                     transactionCount := ws[t.toIndex].transactionCount + 1)]
    else ws
  }

  /** The counter updates change exactly the transfer's two ends. */
  lemma BookedAt(ws: seq<Wallet>, t: Transfer, k: nat)
    requires t.fromIndex < |ws| && t.toIndex < |ws| && t.fromIndex != t.toIndex && k < |ws|
    ensures var w := ws[k];
      Booked(ws, t)[k]
        == w.(totalSent := w.totalSent + (if t.fromIndex == k then t.amount else 0.0),
              totalReceived := w.totalReceived + (if t.toIndex == k then t.amount else 0.0),
              transactionCount := w.transactionCount + (if t.fromIndex == k then 1 else 0)
                                  + (if t.toIndex == k then 1 else 0))
  {
  }

  lemma BookStep(count: nat, done: seq<Transfer>, t: Transfer)
    ensures Accounts(count, done + [t]) == Booked(Accounts(count, done), t)
  {
    assert (done + [t])[..|done|] == done;
  }

  /** Wallet `i` of the array is `Accrued(i, ts)`: the array holds, for each wallet, what
      the transfers sent to it and from it and how many of them touch it. */
  lemma {:induction false} AccountsAccrued(count: nat, ts: seq<Transfer>)
    requires forall k :: 0 <= k < |ts| ==> Valid(ts[k], count)
    ensures forall i :: 0 <= i < count ==> Accounts(count, ts)[i] == Accrued(i, ts)
  {
    if ts != [] {
      var front, t := ts[..|ts| - 1], ts[|ts| - 1];
      AccountsAccrued(count, front);
      assert ts == front + [t];
      assert Valid(t, count);
      forall i | 0 <= i < count ensures Accounts(count, ts)[i] == Accrued(i, ts) {
        BookedAt(Accounts(count, front), t, i);
        AccruedStep(i, front, t);
      }
    }
  }

  /** The counter updates never rename a wallet. */
  lemma {:induction false} AccountsIds(count: nat, ts: seq<Transfer>)
    ensures forall i :: 0 <= i < count ==> Accounts(count, ts)[i].id == WalletId(i)
  {
    if ts != [] {
      AccountsIds(count, ts[..|ts| - 1]);
    }
  }

  /** One more transfer adds its amount to what its ends sent and received, and one to
      each end's count; every other wallet is unchanged. */
  lemma AccruedStep(k: nat, done: seq<Transfer>, t: Transfer)
    ensures var w := Accrued(k, done);
      Accrued(k, done + [t])
        == w.(totalSent := w.totalSent + (if t.fromIndex == k then t.amount else 0.0),
              totalReceived := w.totalReceived + (if t.toIndex == k then t.amount else 0.0),
              transactionCount := w.transactionCount + (if t.fromIndex == k then 1 else 0)
                                  + (if t.toIndex == k then 1 else 0))
  {
    assert (done + [t])[..|done|] == done;
  }

  lemma LedgerStep(done: seq<Transfer>, t: Transfer, now: int)
    ensures Ledger(done + [t], now) == Ledger(done, now) + [Record(|done|, t, now)]
  {
    assert (done + [t])[..|done|] == done;
  }

  lemma DrawStep(draws: seq<real>, count: nat, i: nat, done: seq<Transfer>, pos: nat)
    requires Draws(draws) && count > 0
    requires DrawTransfers(draws, count, i) == Some((done, pos))
    ensures DrawTransfers(draws, count, i + 1) == match DrawTransfer(draws, pos, count)
      case None => None
      case Some((t, q)) => Some((done + [t], q))
  {
  }

  /** Once the stream runs out, drawing more transfers fails too. */
  lemma {:induction false} FailureStays(draws: seq<real>, count: nat, m: nat, n: nat)
    requires Draws(draws) && m <= n
    requires DrawTransfers(draws, count, m).None?
    ensures DrawTransfers(draws, count, n).None?
    decreases n - m
  {
    if m < n {
      FailureStays(draws, count, m + 1, n);
    }
  }

  /** Sum of the wallets' `transactionCount`s. */
  function TotalTransactionCount(ws: seq<Wallet>): nat {
    if ws == [] then 0 else TotalTransactionCount(ws[..|ws| - 1]) + ws[|ws| - 1].transactionCount
  }

  /** Sum of the wallets' `netBalance`s. */
  function TotalNetBalance(ws: seq<Wallet>): real {
    if ws == [] then 0.0 else TotalNetBalance(ws[..|ws| - 1]) + ws[|ws| - 1].netBalance
  }

  /** Transfer ends among wallets `0 .. n-1`, and their net receipts. */
  function EndsBelow(n: nat, ts: seq<Transfer>): nat {
    if n == 0 then 0 else EndsBelow(n - 1, ts) + Ends(n - 1, ts)
  }

  function NetBelow(n: nat, ts: seq<Transfer>): real {
    if n == 0 then 0.0 else NetBelow(n - 1, ts) + (Received(n - 1, ts) - Sent(n - 1, ts))
  }

  /** Every transfer touches exactly two wallet counters, so the counts add up to twice
      the number of transfers: `2 * 3 * count` for a whole run. */
  lemma TransactionCountsAddUp(count: nat, ts: seq<Transfer>)
    requires forall k :: 0 <= k < |ts| ==> Valid(ts[k], count)
    ensures TotalTransactionCount(Book(count, ts)) == 2 * |ts|
  {
    BookCounts(Book(count, ts), ts);
    EndsTotal(count, ts);
  }

  /** Whatever one wallet sends another receives, so the net balances cancel out. */
  lemma NetBalancesCancel(count: nat, ts: seq<Transfer>)
    requires forall k :: 0 <= k < |ts| ==> Valid(ts[k], count)
    ensures TotalNetBalance(Book(count, ts)) == 0.0
  {
    BookNet(Book(count, ts), ts);
    NetTotal(count, ts);
  }

  /** A completed run: `count` wallets, `3 * count` records, counts summing to
      `6 * count` and net balances summing to 0. */
  lemma CompletedRun(count: nat, now: int, draws: seq<real>)
    requires Draws(draws) && DrawTransfers(draws, count, 3 * count).Some?
    ensures var ts := DrawTransfers(draws, count, 3 * count).value.0;
      && |Book(count, ts)| == count
      && |Ledger(ts, now)| == 3 * count
      && TotalTransactionCount(Book(count, ts)) == 6 * count
      && TotalNetBalance(Book(count, ts)) == 0.0
  {
    var ts := DrawTransfers(draws, count, 3 * count).value.0;
    DrawnValid(draws, count, 3 * count);
    TransactionCountsAddUp(count, ts);
    NetBalancesCancel(count, ts);
  }

  lemma {:induction false} BookCounts(ws: seq<Wallet>, ts: seq<Transfer>)
    requires forall i :: 0 <= i < |ws| ==> ws[i].transactionCount == Ends(i, ts)
    ensures TotalTransactionCount(ws) == EndsBelow(|ws|, ts)
  {
    if ws != [] {
      BookCounts(ws[..|ws| - 1], ts);
    }
  }

  lemma {:induction false} BookNet(ws: seq<Wallet>, ts: seq<Transfer>)
    requires forall i :: 0 <= i < |ws| ==> ws[i].netBalance == Received(i, ts) - Sent(i, ts)
    ensures TotalNetBalance(ws) == NetBelow(|ws|, ts)
  {
    if ws != [] {
      BookNet(ws[..|ws| - 1], ts);
    }
  }

  lemma {:induction false} EndsTotal(count: nat, ts: seq<Transfer>)
    requires forall k :: 0 <= k < |ts| ==> Valid(ts[k], count)
    ensures EndsBelow(count, ts) == 2 * |ts|
  {
    if ts == [] {
      EndsNone(count);
    } else {
      var init, t := ts[..|ts| - 1], ts[|ts| - 1];
      assert ts == init + [t];
      EndsTotal(count, init);
      EndsSnoc(count, init, t);
    }
  }

  lemma {:induction false} EndsNone(n: nat)
    ensures EndsBelow(n, []) == 0
  {
    if n > 0 {
      EndsNone(n - 1);
    }
  }

  /** A new transfer adds one end for each of its wallets below `n`. */
  lemma {:induction false} EndsSnoc(n: nat, ts: seq<Transfer>, t: Transfer)
    ensures EndsBelow(n, ts + [t]) == EndsBelow(n, ts)
      + (if t.fromIndex < n then 1 else 0) + (if t.toIndex < n then 1 else 0)
  {
    assert (ts + [t])[..|ts|] == ts;
    if n > 0 {
      EndsSnoc(n - 1, ts, t);
    }
  }

  lemma {:induction false} NetTotal(count: nat, ts: seq<Transfer>)
    requires forall k :: 0 <= k < |ts| ==> Valid(ts[k], count)
    ensures NetBelow(count, ts) == 0.0
  {
    if ts == [] {
      NetNone(count);
    } else {
      var init, t := ts[..|ts| - 1], ts[|ts| - 1];
      assert ts == init + [t];
      NetTotal(count, init);
      NetSnoc(count, init, t);
    }
  }

  lemma {:induction false} NetNone(n: nat)
    ensures NetBelow(n, []) == 0.0
  {
    if n > 0 {
      NetNone(n - 1);
    }
  }

  /** A new transfer credits its receiver and debits its sender, when they are below `n`. */
  lemma {:induction false} NetSnoc(n: nat, ts: seq<Transfer>, t: Transfer)
    ensures NetBelow(n, ts + [t]) == NetBelow(n, ts)
      + (if t.toIndex < n then t.amount else 0.0) - (if t.fromIndex < n then t.amount else 0.0)
  {
    assert (ts + [t])[..|ts|] == ts;
    if n > 0 {
      NetSnoc(n - 1, ts, t);
    }
  }

  /** A wallet that no transfer involves keeps every counter at zero. */
  lemma {:induction false} UntouchedWallet(i: nat, ts: seq<Transfer>)
    requires forall k :: 0 <= k < |ts| ==> ts[k].fromIndex != i && ts[k].toIndex != i
    ensures Accrued(i, ts) == Wallet(WalletId(i), 0.0, 0.0, 0.0, 0)
  {
    if ts != [] {
      UntouchedWallet(i, ts[..|ts| - 1]);
    }
  }

  /** With a single wallet the receiver draw never differs from the sender, so the run
      never finishes: every finite stream of draws runs out. */
  lemma SingleWalletNeverFinishes(draws: seq<real>)
    requires Draws(draws)
    ensures DrawTransfers(draws, 1, 3).None?
  {
    forall pos: nat ensures DrawTransfer(draws, pos, 1).None? {
      if pos < |draws| {
        OtherNeverFound(draws, pos + 1);
      }
    }
    assert DrawTransfers(draws, 1, 1).None?;
    FailureStays(draws, 1, 1, 3);
  }

  /** With no wallets there are no transfers and no draws are used. */
  lemma NoWalletsNoTransfers(draws: seq<real>)
    requires Draws(draws)
    ensures DrawTransfers(draws, 0, 3 * 0) == Some(([], 0))
    ensures Book(0, []) == [] && Ledger([], 0) == []
  {
  }

  /** Wallet ids and transaction ids name their indices one-to-one. */
  lemma IdsDistinct(i: nat, j: nat)
    ensures WalletId(i) == WalletId(j) ==> i == j
    ensures TxId(i) == TxId(j) ==> i == j
  {
    if WalletId(i) == WalletId(j) {
      PaddedInjective("wallet_", i, j, 4);
    }
    if TxId(i) == TxId(j) {
      PaddedInjective("tx_", i, j, 6);
    }
  }

  /** Rounding to 6 decimals moves a non-negative amount by at most half a millionth. */
  lemma Round6Close(x: real)
    ensures x - 0.0000005 <= Round6(x) <= x + 0.0000005
  {
    var y := x * 1000000.0 + 0.5;
    assert y - 1.0 < y.Floor as real <= y;
  }

  /** Each record carries its index's id, distinct sender and receiver ids, an amount in
      `[0.1, 10.1]` within half a millionth of the drawn one, and a time within the last
      60 days. */
  lemma LedgerRecords(count: nat, ts: seq<Transfer>, now: int)
    requires forall k :: 0 <= k < |ts| ==> Valid(ts[k], count)
    ensures forall k :: 0 <= k < |ts| ==> Ledger(ts, now)[k] == Record(k, ts[k], now)
    ensures forall k :: 0 <= k < |ts| ==> Recorded(Ledger(ts, now)[k], k, ts[k], now)
  {
    forall k | 0 <= k < |ts| ensures Ledger(ts, now)[k] == Record(k, ts[k], now) {
      LedgerAt(ts, now, k);
    }
    forall k | 0 <= k < |ts| ensures Recorded(Record(k, ts[k], now), k, ts[k], now) {
      RecordFacts(k, ts[k], count, now);
    }
  }

  ghost predicate Recorded(rec: LedgerTx, k: nat, t: Transfer, now: int) {
    && rec.id == TxId(k)
    && rec.tx.fromAddr == WalletId(t.fromIndex) && rec.tx.toAddr == WalletId(t.toIndex)
    && rec.tx.fromAddr != rec.tx.toAddr
    && t.amount - 0.0000005 <= rec.tx.amount <= t.amount + 0.0000005
    && 0.1 <= rec.tx.amount <= 10.1
    && now - 59 * MsPerDay <= rec.tx.timestamp <= now
  }

  lemma RecordFacts(k: nat, t: Transfer, count: nat, now: int)
    requires Valid(t, count)
    ensures Recorded(Record(k, t, now), k, t, now)
  {
    IdsDistinct(t.fromIndex, t.toIndex);
    Round6Close(t.amount);
    Round6Range(t.amount);
    DaysBound(t.daysAgo);
  }

  lemma DaysBound(d: nat)
    requires d < 60
    ensures 0 <= d * MsPerDay <= 59 * MsPerDay
  {
  }

  lemma {:induction false} LedgerAt(ts: seq<Transfer>, now: int, k: nat)
    requires k < |ts|
    ensures Ledger(ts, now)[k] == Record(k, ts[k], now)
  {
    if k < |ts| - 1 {
      LedgerAt(ts[..|ts| - 1], now, k);
    }
  }

  /** An amount in `[0.1, 10.1)` stays in `[0.1, 10.1]` once rounded. */
  lemma Round6Range(x: real)
    requires 0.1 <= x < 10.1
    ensures 0.1 <= Round6(x) <= 10.1
  {
    var y := x * 1000000.0 + 0.5;
    assert 100000.5 <= y < 10100000.5;
    assert 100000 <= y.Floor <= 10100000;
  }
}
