/** The tables of the transactional store (Prisma) that the indexer and the monitor read and
    write: `Transaction` keyed by hash and one event table per event kind keyed by
    transaction hash. */
module Ledger {
  import opened Wrappers
  import opened Parser

  const StatusPending: string := "Pending"
  const StatusSuccess: string := "Success"
  const StatusFailed: string := "Failed"

  /** A `Transaction` row. `status` is free text: the monitor's catch branch writes the
      literal `FAILED` as well as `Pending`, `Success` and `Failed`. */
  datatype TxRow = TxRow(
    hash: string,
    investor: string,
    fundAddress: string,
    chainId: int,
    txType: string,
    status: string,
    retryCount: nat,
    amount: string)

  /** The `data` of a `prisma.transaction.update`: the fields it sets. */
  datatype TxUpdate = TxUpdate(status: string, amount: Option<string>, retryCount: Option<nat>)

  function ApplyUpdate(row: TxRow, u: TxUpdate): TxRow
  {
    row.(status := u.status,
         amount := if u.amount.Some? then u.amount.value else row.amount,
         retryCount := if u.retryCount.Some? then u.retryCount.value else row.retryCount)
  }

  datatype EventKind = InvestmentKind | RedemptionKind | MetricsKind

  function KindOf(e: FundEvent): EventKind
  {
    match e
    case Investment(_, _, _, _) => InvestmentKind
    case Redemption(_, _, _, _) => RedemptionKind
    case MetricsUpdated(_, _, _) => MetricsKind
  }

  /** An `InvestmentEvent`, `RedemptionEvent` or `MetricsUpdatedEvent` row: the decoded
      fields, the lower-cased transaction hash (the unique key), the lower-cased fund
      address and the chain id as text. */
  datatype EventRow = EventRow(event: FundEvent, txHash: string, fundAddress: string, chainId: string)

  datatype Tables = Tables(
    transactions: map<string, TxRow>,
    investmentEvents: map<string, EventRow>,
    redemptionEvents: map<string, EventRow>,
    metricsEvents: map<string, EventRow>)
  {
    function Events(kind: EventKind): map<string, EventRow>
    {
      match kind
      case InvestmentKind => investmentEvents
      case RedemptionKind => redemptionEvents
      case MetricsKind => metricsEvents
    }

    function WithEvent(kind: EventKind, row: EventRow): (t: Tables)
      ensures t.transactions == transactions
      ensures t.Events(kind) == Events(kind)[row.txHash := row]
      ensures forall k :: k != kind ==> t.Events(k) == Events(k)
    {
      match kind
      case InvestmentKind => this.(investmentEvents := investmentEvents[row.txHash := row])
      case RedemptionKind => this.(redemptionEvents := redemptionEvents[row.txHash := row])
      case MetricsKind => this.(metricsEvents := metricsEvents[row.txHash := row])
    }
  }

  /** The database client. `fault` parameters stand for a query that throws for reasons
      outside the model (connection loss and the like). */
  class Database {
    var transactions: map<string, TxRow>
    var investmentEvents: map<string, EventRow>
    var redemptionEvents: map<string, EventRow>
    var metricsEvents: map<string, EventRow>

    function Snapshot(): Tables
      reads this
    {
      Tables(transactions, investmentEvents, redemptionEvents, metricsEvents)
    }

    constructor (t: Tables)
      ensures Snapshot() == t
    {
      transactions := t.transactions;
      investmentEvents := t.investmentEvents;
      redemptionEvents := t.redemptionEvents;
      metricsEvents := t.metricsEvents;
    }

    /** `prisma.<kind>Event.findUnique({ where: { txHash } })`: `found` is meaningful when
        `ok` holds. */
    method FindEvent(kind: EventKind, txHash: string, fault: bool) returns (ok: bool, found: bool)
      ensures ok == !fault
      ensures ok ==> found == (txHash in Snapshot().Events(kind))
    {
      ok := !fault;
      match kind
      case InvestmentKind => found := txHash in investmentEvents;
      case RedemptionKind => found := txHash in redemptionEvents;
      case MetricsKind => found := txHash in metricsEvents;
    }

    /** `prisma.<kind>Event.create({ data: row })`: throws on a fault or when a row with the
        same `txHash` exists (unique key). */
    method CreateEvent(kind: EventKind, row: EventRow, fault: bool) returns (ok: bool)
      modifies this
      ensures ok == (!fault && row.txHash !in old(Snapshot()).Events(kind))
      ensures Snapshot() == if ok then old(Snapshot()).WithEvent(kind, row) else old(Snapshot())
    {
      ok := !fault && row.txHash !in Snapshot().Events(kind);
      if ok {
        match kind
        case InvestmentKind => investmentEvents := investmentEvents[row.txHash := row];
        case RedemptionKind => redemptionEvents := redemptionEvents[row.txHash := row];
        case MetricsKind => metricsEvents := metricsEvents[row.txHash := row];
      }
    }

    /** `prisma.transaction.update({ where: { hash }, data: u })`: throws on a fault or when no
        row has that hash. */
    method UpdateTransaction(hash: string, u: TxUpdate, fault: bool) returns (ok: bool)
      modifies this
      ensures ok == (!fault && hash in old(transactions))
      ensures transactions == if ok then old(transactions)[hash := ApplyUpdate(old(transactions)[hash], u)] else old(transactions)
      ensures investmentEvents == old(investmentEvents) && redemptionEvents == old(redemptionEvents)
      ensures metricsEvents == old(metricsEvents)
    {
      ok := !fault && hash in transactions;
      if ok {
        transactions := transactions[hash := ApplyUpdate(transactions[hash], u)];
      }
    }
  }
}
