/** src/monitor/index.ts: `monitorTransactions`, one sweep over the transactions that were
    `Pending` when it started, asking each row's chain for its receipt. */
module Monitor {
  import opened Wrappers
  import opened Errors
  import opened Provider
  import opened Ledger

  /** What `provider.getTransactionReceipt(hash)` gives: no receipt yet, a mined receipt
      with its status, or an error thrown by the call. */
  datatype Receipt = NoReceipt | Mined(status: int) | FetchFailed(error: Error)

  /** The number of sweeps without a receipt after which a transaction is given up. */
  const MaxReceiptMisses: nat := 10

  /** The status the catch branch writes. It is not the `Failed` of the other branches. */
  const StatusFetchFailed: string := "FAILED"

  /** What Prisma rejects with when `update` finds no row. */
  const RecordNotFound: Error := Raise(PlainError, "Record to update not found.", NoDetails)

  /** The `data` of the update the sweep issues for `row` (as read at the start of the
      sweep) once the receipt call has answered `r`. */
  function Advance(row: TxRow, r: Receipt): (u: TxUpdate)
    ensures u.amount.None?
    ensures u.retryCount.Some? <==> r.NoReceipt?
    ensures u.status == StatusPending ==> r.NoReceipt?
    ensures u.status == StatusSuccess <==> r.Mined? && r.status == 1
  {
    match r
    case NoReceipt =>
      var retries := row.retryCount + 1;
      TxUpdate(if retries >= MaxReceiptMisses then StatusFailed else StatusPending, None, Some(retries))
    case Mined(status) => TxUpdate(if status == 1 then StatusSuccess else StatusFailed, None, None)
    case FetchFailed(_) => TxUpdate(StatusFetchFailed, None, None)
  }

  /** Every row is stored under its own hash. */
  ghost predicate Keyed(txs: map<string, TxRow>)
  {
    forall h :: h in txs ==> txs[h].hash == h
  }

  /** `findMany({ where: { status: "Pending" } })`, the rows listed in the order `order`
      the store returns its keys in. */
  function PendingRows(txs: map<string, TxRow>, order: seq<string>): (batch: seq<TxRow>)
    ensures forall i :: 0 <= i < |batch| ==> batch[i].status == StatusPending
    ensures Keyed(txs) ==> forall i :: 0 <= i < |batch| ==> batch[i].hash in txs && txs[batch[i].hash] == batch[i]
    ensures forall h :: h in order && h in txs && txs[h].status == StatusPending ==>
      exists i :: 0 <= i < |batch| && batch[i] == txs[h]
    decreases |order|
  {
    if order == [] then []
    else
      var rest := PendingRows(txs, order[1..]);
      assert forall h :: h in order ==> h == order[0] || h in order[1..];
      if order[0] in txs && txs[order[0]].status == StatusPending then
        assert ([txs[order[0]]] + rest)[0] == txs[order[0]];
        assert forall i :: 0 <= i < |rest| ==> ([txs[order[0]]] + rest)[i + 1] == rest[i];
        [txs[order[0]]] + rest
      else rest
  }

  /** The rows after a sweep and the error with which it ended early, if any. */
  datatype SweepResult = SweepResult(txs: map<string, TxRow>, aborted: Option<Error>)

  /** The loop of `monitorTransactions` over `batch`: `getRpcProvider` is called outside the
      `try`, so a row on an unsupported chain ends the sweep; an update of a row that no
      longer exists throws inside and again in the catch, which also ends it. */
  function Sweep(txs: map<string, TxRow>, batch: seq<TxRow>, receipts: (Provider, string) -> Receipt): (r: SweepResult)
    ensures r.txs.Keys == txs.Keys
    ensures r.aborted.None? ==>
      forall i :: 0 <= i < |batch| ==> GetRpcProvider(batch[i].chainId).Ok? && batch[i].hash in txs
    decreases |batch|
  {
    if batch == [] then SweepResult(txs, None)
    else
      var row := batch[0];
      match GetRpcProvider(row.chainId)
      case Err(e) => SweepResult(txs, Some(e))
      case Ok(provider) =>
        if row.hash !in txs then SweepResult(txs, Some(RecordNotFound))
        else Sweep(txs[row.hash := ApplyUpdate(txs[row.hash], Advance(row, receipts(provider, row.hash)))], batch[1..], receipts)
  }

  /** `monitorTransactions()`: `order` is the order in which the store lists its rows and
      `receipts` answers the receipt calls. */
  method MonitorTransactions(db: Database, order: seq<string>, receipts: (Provider, string) -> Receipt)
    returns (aborted: Option<Error>)
    modifies db
    ensures SweepResult(db.transactions, aborted) ==
      Sweep(old(db.transactions), PendingRows(old(db.transactions), order), receipts)
    ensures db.investmentEvents == old(db.investmentEvents) && db.redemptionEvents == old(db.redemptionEvents)
    ensures db.metricsEvents == old(db.metricsEvents)
  {
    var batch := PendingRows(db.transactions, order);
    var i := 0;
    while i < |batch|
      invariant 0 <= i <= |batch|
      invariant Sweep(db.transactions, batch[i..], receipts) == Sweep(old(db.transactions), batch, receipts)
      invariant db.investmentEvents == old(db.investmentEvents) && db.redemptionEvents == old(db.redemptionEvents)
      invariant db.metricsEvents == old(db.metricsEvents)
    {
      var row := batch[i];
      var provider := GetRpcProvider(row.chainId);
      if provider.Err? {
        return Some(provider.error);
      }
      var receipt := receipts(provider.value, row.hash);
      var ok := db.UpdateTransaction(row.hash, Advance(row, receipt), false);
      if !ok {
        return Some(RecordNotFound);
      }
      assert batch[i..][1..] == batch[i + 1..];
      i := i + 1;
    }
    return None;
  }

  /** What one answer of the receipt call does to the row: a mined receipt with status 1
      makes it `Success` and any other mined status `Failed`; a missing receipt counts one
      more retry and gives the row up as `Failed` from the tenth; a failing call writes
      `FAILED`, a status that is neither `Failed` nor `Pending`. */
  lemma AdvanceOutcomes(row: TxRow, r: Receipt)
    ensures var next := ApplyUpdate(row, Advance(row, r));
      && next.hash == row.hash && next.amount == row.amount && next.chainId == row.chainId
      && (r.Mined? ==> next.status == (if r.status == 1 then StatusSuccess else StatusFailed) && next.retryCount == row.retryCount)
      && (r.NoReceipt? ==>
            && next.retryCount == row.retryCount + 1
            && (next.status == StatusFailed <==> row.retryCount + 1 >= MaxReceiptMisses)
            && (next.status == StatusPending <==> row.retryCount + 1 < MaxReceiptMisses))
      && (r.FetchFailed? ==>
            && next.status == StatusFetchFailed
            && next.status != StatusFailed && next.status != StatusPending
            && next.retryCount == row.retryCount)
  {
  }

  /** `k` sweeps in a row in which the receipt is missing. */
  function AfterMisses(row: TxRow, k: nat): TxRow
  {
    if k == 0 then row else
      var prev := AfterMisses(row, k - 1);
      ApplyUpdate(prev, Advance(prev, NoReceipt))
  }

  /** A pending row whose receipt never appears stays `Pending` for fewer than ten misses in
      all, counting its earlier ones, and is `Failed` at the tenth, after which no sweep
      selects it again. */
  lemma {:induction false} GivenUpAfterTenMisses(row: TxRow, k: nat)
    requires row.status == StatusPending && 1 <= k && row.retryCount + k <= MaxReceiptMisses
    ensures AfterMisses(row, k).retryCount == row.retryCount + k
    ensures AfterMisses(row, k).status == if row.retryCount + k == MaxReceiptMisses then StatusFailed else StatusPending
  {
    if k > 1 {
      GivenUpAfterTenMisses(row, k - 1);
    }
  }

  /** The sweep over `a + b` is the sweep over `a` followed, unless it ended early, by the
      sweep over `b`. */
  lemma {:induction false} SweepSplits(m: map<string, TxRow>, a: seq<TxRow>, b: seq<TxRow>, receipts: (Provider, string) -> Receipt)
    ensures Sweep(m, a + b, receipts) ==
      var first := Sweep(m, a, receipts);
      if first.aborted.Some? then first else Sweep(first.txs, b, receipts)
    decreases |a|
  {
    if a == [] {
      assert a + b == b;
    } else {
      assert (a + b)[0] == a[0];
      assert (a + b)[1..] == a[1..] + b;
      match GetRpcProvider(a[0].chainId)
      case Err(_) =>
      case Ok(provider) =>
        if a[0].hash in m {
          SweepSplits(m[a[0].hash := ApplyUpdate(m[a[0].hash], Advance(a[0], receipts(provider, a[0].hash)))], a[1..], b, receipts);
        }
    }
  }

  /** A row on a chain `getRpcProvider` does not support ends the sweep with its error:
      the rows before it are processed as a sweep of their own, the rows after it are not
      visited. */
  lemma UnsupportedChainEndsSweep(m: map<string, TxRow>, batch: seq<TxRow>, receipts: (Provider, string) -> Receipt, j: nat)
    requires j < |batch| && GetRpcProvider(batch[j].chainId).Err?
    ensures Sweep(m, batch, receipts) ==
      var before := Sweep(m, batch[..j], receipts);
      if before.aborted.Some? then before
      else SweepResult(before.txs, Some(GetRpcProvider(batch[j].chainId).error))
  {
    assert batch == batch[..j] + batch[j..];
    SweepSplits(m, batch[..j], batch[j..], receipts);
  }

  /** A row whose hash is not in the batch keeps its contents, and a missing row stays
      missing. */
  lemma {:induction false} UntouchedOutsideBatch(m: map<string, TxRow>, batch: seq<TxRow>, receipts: (Provider, string) -> Receipt, h: string)
    requires forall i :: 0 <= i < |batch| ==> batch[i].hash != h
    ensures h in Sweep(m, batch, receipts).txs <==> h in m
    ensures h in m ==> Sweep(m, batch, receipts).txs[h] == m[h]
    decreases |batch|
  {
    if batch != [] {
      match GetRpcProvider(batch[0].chainId)
      case Err(_) =>
      case Ok(provider) =>
        if batch[0].hash in m {
          UntouchedOutsideBatch(m[batch[0].hash := ApplyUpdate(m[batch[0].hash], Advance(batch[0], receipts(provider, batch[0].hash)))], batch[1..], receipts, h);
        }
    }
  }

  /** A row that was not `Pending` when the sweep started is left as it was: a `Success`,
      `Failed` or `FAILED` row is never revisited. */
  lemma NonPendingRowsUntouched(txs: map<string, TxRow>, order: seq<string>, receipts: (Provider, string) -> Receipt, h: string)
    requires Keyed(txs)
    requires h in txs && txs[h].status != StatusPending
    ensures var after := Sweep(txs, PendingRows(txs, order), receipts).txs;
      h in after && after[h] == txs[h]
  {
    UntouchedOutsideBatch(txs, PendingRows(txs, order), receipts, h);
  }

  predicate NoDuplicates(order: seq<string>)
  {
    forall i, j :: 0 <= i < j < |order| ==> order[i] != order[j]
  }

  /** The tail of a list without repeats has none, and lacks the head. */
  lemma NoDuplicatesTail(order: seq<string>)
    requires order != [] && NoDuplicates(order)
    ensures NoDuplicates(order[1..]) && order[0] !in order[1..]
  {
    var tail := order[1..];
    forall i, j | 0 <= i < j < |tail| ensures tail[i] != tail[j] {
      assert tail[i] == order[i + 1] && tail[j] == order[j + 1];
    }
    forall j | 0 <= j < |tail| ensures tail[j] != order[0] {
      assert tail[j] == order[j + 1];
    }
  }

  /** In a keyed store every pending row picked is listed in `order`. */
  lemma {:induction false} PendingRowsListed(txs: map<string, TxRow>, order: seq<string>)
    requires Keyed(txs)
    ensures forall i :: 0 <= i < |PendingRows(txs, order)| ==> PendingRows(txs, order)[i].hash in order
    decreases |order|
  {
    if order != [] {
      var tail := order[1..];
      PendingRowsListed(txs, tail);
      var rest := PendingRows(txs, tail);
      forall i | 0 <= i < |rest| ensures rest[i].hash in order {
        var k :| 0 <= k < |tail| && tail[k] == rest[i].hash;
        assert order[k + 1] == tail[k];
      }
      if order[0] in txs && txs[order[0]].status == StatusPending {
        var batch := [txs[order[0]]] + rest;
        assert forall i :: 0 < i < |batch| ==> batch[i] == rest[i - 1];
        assert PendingRows(txs, order) == batch;
      } else {
        assert PendingRows(txs, order) == rest;
      }
    }
  }

  /** Listed once each, the pending rows of a keyed store have distinct hashes. */
  lemma {:induction false} PendingRowsDistinct(txs: map<string, TxRow>, order: seq<string>)
    requires Keyed(txs) && NoDuplicates(order)
    ensures forall i, j :: 0 <= i < j < |PendingRows(txs, order)| ==>
      PendingRows(txs, order)[i].hash != PendingRows(txs, order)[j].hash
    decreases |order|
  {
    if order != [] {
      var tail := order[1..];
      NoDuplicatesTail(order);
      PendingRowsDistinct(txs, tail);
      PendingRowsListed(txs, tail);
      var rest := PendingRows(txs, tail);
      if order[0] in txs && txs[order[0]].status == StatusPending {
        var batch := [txs[order[0]]] + rest;
        assert batch[0].hash == order[0];
        assert forall i :: 0 < i < |batch| ==> batch[i] == rest[i - 1];
        forall i, j | 0 <= i < j < |batch| ensures batch[i].hash != batch[j].hash {
          if i == 0 {
            assert batch[j].hash == rest[j - 1].hash && rest[j - 1].hash in tail;
          }
        }
        assert PendingRows(txs, order) == batch;
      } else {
        assert PendingRows(txs, order) == rest;
      }
    }
  }

  /** In a sweep that runs to the end over rows with distinct hashes, every row's chain is
      supported and its stored row receives exactly the update computed from the row as
      read and that chain's receipt. */
  lemma {:induction false} SweepUpdatesEachRow(m: map<string, TxRow>, batch: seq<TxRow>, receipts: (Provider, string) -> Receipt, j: nat)
    requires forall a, b :: 0 <= a < b < |batch| ==> batch[a].hash != batch[b].hash
    requires j < |batch| && Sweep(m, batch, receipts).aborted.None?
    ensures GetRpcProvider(batch[j].chainId).Ok? && batch[j].hash in m
    ensures batch[j].hash in Sweep(m, batch, receipts).txs
    ensures var after := Sweep(m, batch, receipts).txs;
      after[batch[j].hash] ==
        ApplyUpdate(m[batch[j].hash], Advance(batch[j], receipts(GetRpcProvider(batch[j].chainId).value, batch[j].hash)))
    decreases |batch|
  {
    var row := batch[0];
    var provider := GetRpcProvider(row.chainId).value;
    var m' := m[row.hash := ApplyUpdate(m[row.hash], Advance(row, receipts(provider, row.hash)))];
    if j == 0 {
      UntouchedOutsideBatch(m', batch[1..], receipts, row.hash);
    } else {
      SweepUpdatesEachRow(m', batch[1..], receipts, j - 1);
    }
  }

  /** A sweep that ends normally gives each row that was `Pending`, listed once, exactly one
      update, and that update is the one its receipt calls for. */
  lemma EachPendingRowUpdatedOnce(txs: map<string, TxRow>, order: seq<string>, receipts: (Provider, string) -> Receipt, h: string)
    requires Keyed(txs) && NoDuplicates(order)
    requires h in order && h in txs && txs[h].status == StatusPending
    requires Sweep(txs, PendingRows(txs, order), receipts).aborted.None?
    ensures GetRpcProvider(txs[h].chainId).Ok?
    ensures h in Sweep(txs, PendingRows(txs, order), receipts).txs
    ensures Sweep(txs, PendingRows(txs, order), receipts).txs[h] ==
      ApplyUpdate(txs[h], Advance(txs[h], receipts(GetRpcProvider(txs[h].chainId).value, h)))
  {
    var batch := PendingRows(txs, order);
    PendingRowsDistinct(txs, order);
    var i :| 0 <= i < |batch| && batch[i] == txs[h];
    SweepUpdatesEachRow(txs, batch, receipts, i);
  }
}
