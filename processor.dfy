/** src/indexer/processor.ts: `processLog`, which persists each decoded event at most once per
    transaction hash, and `processTransactions`, one indexing cycle from the block cursor to
    the chain head. `Promise.all` is modelled as its writes run one after the other, each
    applied unless it throws. */
module Processor {
  import opened Wrappers
  import opened Text
  import opened Errors
  import opened KeyValue
  import opened Parser
  import opened Ledger

  /** `INDEXER_CONFIG` (src/indexer/config.ts) */
  const IndexerChainId: int := 84532
  const CursorKey: string := "indexer:lastBlock"
  /** The lookback used when no cursor is stored. */
  const LookbackBlocks: int := 5000

  /** Which of the calls `processLog` makes throw: the `findUnique`, the transaction
      `update`, the event `create` and the Redis `set`. */
  datatype Faults = Faults(lookupFails: bool, updateFails: bool, createFails: bool, cacheSetFails: bool)

  const NoFaults: Faults := Faults(false, false, false, false)

  /** What `processLog` did. It resolves in every case; `Caught` is the logged failure. */
  datatype LogOutcome = NotParsed | Duplicate | Stored | Caught

  /** The store and the Redis keyspace together. */
  datatype LogState = LogState(tables: Tables, cache: Store)

  /** `metrics-${fundAddress}-${chainId}` */
  function MetricsCacheKey(fundAddress: string): string
  {
    "metrics-" + fundAddress + "-" + IntToString(IndexerChainId)
  }

  /** `JSON.stringify({ totalAssetValue, sharesSupply, sharePrice, updatedAt: Date.now() })`;
      the three amounts are decimal digit strings, which need no escaping. */
  function MetricsCacheValue(e: FundEvent, now: int): string
    requires e.MetricsUpdated?
  {
    "{\"totalAssetValue\":\"" + e.totalAssetValue + "\",\"sharesSupply\":\"" + e.sharesSupply +
    "\",\"sharePrice\":\"" + e.sharePrice + "\",\"updatedAt\":" + IntToString(now) + "}"
  }

  /** `processLog(log)` on the state `s`, at time `now`. */
  function StepLog(s: LogState, log: Log, dec: Decoders, f: Faults, now: int): (r: (LogState, LogOutcome))
    ensures r.1 == NotParsed <==> ParseLogs(log, dec).None?
    ensures r.0.tables.transactions.Keys == s.tables.transactions.Keys
  {
    match ParseLogs(log, dec)
    case None => (s, NotParsed)
    case Some(ev) =>
      var hash := Lower(log.transactionHash);
      var fund := Lower(log.address);
      var kind := KindOf(ev);
      if f.lookupFails then (s, Caught)
      else if hash in s.tables.Events(kind) then (s, Duplicate)
      else
        var row := EventRow(ev, hash, fund, IntToString(IndexerChainId));
        var withRow := if f.createFails then s.tables else s.tables.WithEvent(kind, row);
        if ev.MetricsUpdated? then
          var cache :=
            if f.cacheSetFails then s.cache
            else Put(s.cache, MetricsCacheKey(fund), MetricsCacheValue(ev, now), None, now);
          (LogState(withRow, cache), if f.createFails || f.cacheSetFails then Caught else Stored)
        else
          var txs := s.tables.transactions;
          var updated := !f.updateFails && hash in txs;
          var txs' := if updated then txs[hash := ApplyUpdate(txs[hash], TxUpdate(StatusSuccess, Some(ev.usdAmount), None))] else txs;
          (LogState(withRow.(transactions := txs'), s.cache), if updated && !f.createFails then Stored else Caught)
  }

  /** `processLog`, as the sequence of store and Redis calls the source makes. */
  method ProcessLog(db: Database, kv: RedisStore, log: Log, dec: Decoders, f: Faults, now: int)
    returns (outcome: LogOutcome)
    modifies db, kv
    ensures (LogState(db.Snapshot(), kv.entries), outcome) ==
      StepLog(LogState(old(db.Snapshot()), old(kv.entries)), log, dec, f, now)
  {
    var parsed := ParseLogs(log, dec);
    if parsed.None? {
      return NotParsed;
    }
    var ev := parsed.value;
    var txHash := Lower(log.transactionHash);
    var fundAddress := Lower(log.address);
    var kind := KindOf(ev);
    var ok, found := db.FindEvent(kind, txHash, f.lookupFails);
    if !ok {
      return Caught;
    }
    if found {
      return Duplicate;
    }
    var row := EventRow(ev, txHash, fundAddress, IntToString(IndexerChainId));
    if ev.MetricsUpdated? {
      var created := db.CreateEvent(kind, row, f.createFails);
      if !f.cacheSetFails {
        kv.Set(MetricsCacheKey(fundAddress), MetricsCacheValue(ev, now), None, now);
      }
      outcome := if created && !f.cacheSetFails then Stored else Caught;
    } else {
      var updated := db.UpdateTransaction(txHash, TxUpdate(StatusSuccess, Some(ev.usdAmount), None), f.updateFails);
      var created := db.CreateEvent(kind, row, f.createFails);
      outcome := if updated && created then Stored else Caught;
    }
  }

  /** The logs of a batch processed in order, log `i` meeting the faults `faults(i)`. */
  function ApplyLogs(s: LogState, logs: seq<Log>, dec: Decoders, faults: nat -> Faults, now: int): (r: LogState)
    ensures r.tables.transactions.Keys == s.tables.transactions.Keys
    decreases |logs|
  {
    if logs == [] then s
    else StepLog(ApplyLogs(s, logs[..|logs| - 1], dec, faults, now), logs[|logs| - 1], dec, faults(|logs| - 1), now).0
  }

  /** The chain reads of one cycle: `getBlockNumber()`, the `n`-th call answering
      `blockNumber(n)`, and `getLogs({ address, fromBlock, toBlock })`. */
  datatype Chain = Chain(blockNumber: nat -> Result<nat, Error>, getLogs: (int, int) -> Result<seq<Log>, Error>)

  datatype Range = Range(fromBlock: int, toBlock: nat)

  /** What `getLogs` throws for a `fromBlock` of `NaN`. */
  const InvalidBlockTag: Error := Raise(PlainError, "invalid block tag", NoDetails)

  predicate HasCursor(cache: Store, now: int)
  {
    var last := Lookup(cache, CursorKey, now);
    last.Some? && last.value != ""
  }

  /** `processTransactions(provider)`: the new state and either the range scanned or the
      error the cycle rejects with. */
  function Cycle(s: LogState, chain: Chain, dec: Decoders, faults: nat -> Faults, now: int): (r: (LogState, Result<Range, Error>))
    ensures r.0.tables.transactions.Keys == s.tables.transactions.Keys
    ensures r.1.Ok? ==> forall t :: Lookup(r.0.cache, CursorKey, t) == Some(NatToString(r.1.value.toBlock))
  {
    var cursor := HasCursor(s.cache, now);
    var lookback := if cursor then Ok(0) else chain.blockNumber(0);
    if lookback.Err? then (s, Err(lookback.error))
    else
      var head := chain.blockNumber(if cursor then 0 else 1);
      if head.Err? then (s, Err(head.error))
      else
        var from: Option<int> :=
          if !cursor then Some(lookback.value - LookbackBlocks)
          else match ParseDecimal(Lookup(s.cache, CursorKey, now).value)
            case Some(n) => Some(n)
            case None => None;
        if from.None? then (s, Err(InvalidBlockTag))
        else
          match chain.getLogs(from.value, head.value)
          case Err(e) => (s, Err(e))
          case Ok(logs) =>
            var processed := ApplyLogs(s, logs, dec, faults, now);
            (processed.(cache := Put(processed.cache, CursorKey, NatToString(head.value), None, now)),
             Ok(Range(from.value, head.value)))
  }

  /** `processTransactions`, as the sequence of reads, the batch and the cursor write. */
  method ProcessTransactions(db: Database, kv: RedisStore, chain: Chain, dec: Decoders, faults: nat -> Faults, now: int)
    returns (r: Result<Range, Error>)
    modifies db, kv
    ensures (LogState(db.Snapshot(), kv.entries), r) ==
      Cycle(LogState(old(db.Snapshot()), old(kv.entries)), chain, dec, faults, now)
  {
    var lastBlock := kv.Get(CursorKey, now);
    var cursor := lastBlock.Some? && lastBlock.value != "";
    var calls: nat := 0;
    var lookback: int := 0;
    if !cursor {
      var head := chain.blockNumber(0);
      calls := 1;
      if head.Err? {
        return Err(head.error);
      }
      lookback := head.value - LookbackBlocks;
    }
    var toBlock := chain.blockNumber(calls);
    if toBlock.Err? {
      return Err(toBlock.error);
    }
    var fromBlock := lookback;
    if cursor {
      var n := ParseDecimal(lastBlock.value);
      if n.None? {
        return Err(InvalidBlockTag);
      }
      fromBlock := n.value;
    }
    var fetched := chain.getLogs(fromBlock, toBlock.value);
    if fetched.Err? {
      return Err(fetched.error);
    }
    var logs := fetched.value;
    ghost var start := LogState(db.Snapshot(), kv.entries);
    var i := 0;
    while i < |logs|
      invariant 0 <= i <= |logs|
      invariant LogState(db.Snapshot(), kv.entries) == ApplyLogs(start, logs[..i], dec, faults, now)
    {
      assert logs[..i + 1][..i] == logs[..i];
      var outcome := ProcessLog(db, kv, logs[i], dec, faults(i), now);
      i := i + 1;
    }
    assert logs[..i] == logs;
    kv.Set(CursorKey, NatToString(toBlock.value), None, now);
    r := Ok(Range(fromBlock, toBlock.value));
  }

  /** A log that is not one of the fund's events is dropped before any call. */
  lemma UnparsedLogIgnored(s: LogState, log: Log, dec: Decoders, f: Faults, now: int)
    requires ParseLogs(log, dec).None?
    ensures StepLog(s, log, dec, f, now) == (s, NotParsed)
  {
  }

  /** An event whose lower-cased hash is already stored for its kind changes nothing,
      whichever of the later calls would have failed. */
  lemma StoredEventSkipped(s: LogState, log: Log, dec: Decoders, f: Faults, now: int)
    requires ParseLogs(log, dec).Some?
    requires Lower(log.transactionHash) in s.tables.Events(KindOf(ParseLogs(log, dec).value))
    ensures StepLog(s, log, dec, f, now).0 == s
    ensures StepLog(s, log, dec, f, now).1 == if f.lookupFails then Caught else Duplicate
  {
  }

  /** When the lookup and the create succeed, the event is stored under its lower-cased
      transaction hash, whatever else fails. */
  lemma StepRecords(s: LogState, log: Log, dec: Decoders, f: Faults, now: int)
    requires ParseLogs(log, dec).Some?
    requires !f.lookupFails && !f.createFails
    ensures Lower(log.transactionHash) in StepLog(s, log, dec, f, now).0.tables.Events(KindOf(ParseLogs(log, dec).value))
  {
  }

  /** A fresh Investment or Redemption event with no failing call: the event row is stored
      under the lower-cased hash with the lower-cased fund address and chain id "84532", the
      transaction with that hash becomes `Success` with the event's USD amount whatever its
      status was (a `Failed` row included), and nothing else changes. */
  lemma FreshPaymentRecorded(s: LogState, log: Log, dec: Decoders, now: int)
    requires ParseLogs(log, dec).Some? && !ParseLogs(log, dec).value.MetricsUpdated?
    requires Lower(log.transactionHash) !in s.tables.Events(KindOf(ParseLogs(log, dec).value))
    requires Lower(log.transactionHash) in s.tables.transactions
    ensures
      var ev := ParseLogs(log, dec).value;
      var hash := Lower(log.transactionHash);
      var (s', outcome) := StepLog(s, log, dec, NoFaults, now);
      && outcome == Stored
      && s'.tables.Events(KindOf(ev)) ==
           s.tables.Events(KindOf(ev))[hash := EventRow(ev, hash, Lower(log.address), IntToString(IndexerChainId))]
      && (forall k :: k != KindOf(ev) ==> s'.tables.Events(k) == s.tables.Events(k))
      && s'.tables.transactions ==
           s.tables.transactions[hash := s.tables.transactions[hash].(status := StatusSuccess, amount := ev.usdAmount)]
      && s'.cache == s.cache
  {
  }

  /** A fresh Investment or Redemption event whose transaction row does not exist: the
      update throws, the create still lands, and the log ends as caught. */
  lemma OrphanPaymentEventStored(s: LogState, log: Log, dec: Decoders, now: int)
    requires ParseLogs(log, dec).Some? && !ParseLogs(log, dec).value.MetricsUpdated?
    requires Lower(log.transactionHash) !in s.tables.Events(KindOf(ParseLogs(log, dec).value))
    requires Lower(log.transactionHash) !in s.tables.transactions
    ensures
      var ev := ParseLogs(log, dec).value;
      var hash := Lower(log.transactionHash);
      var (s', outcome) := StepLog(s, log, dec, NoFaults, now);
      && outcome == Caught
      && s'.tables.Events(KindOf(ev)) ==
           s.tables.Events(KindOf(ev))[hash := EventRow(ev, hash, Lower(log.address), IntToString(IndexerChainId))]
      && s'.tables.transactions == s.tables.transactions
  {
  }

  /** A fresh MetricsUpdated event with no failing call: the event row is stored, no
      other table changes, only the fund's metrics key is written, and the fund's metrics key holds the event's figures with no
      expiry, so it reads back at every later instant until overwritten. */
  lemma FreshMetricsCached(s: LogState, log: Log, dec: Decoders, now: int, later: int)
    requires ParseLogs(log, dec).Some? && ParseLogs(log, dec).value.MetricsUpdated?
    requires Lower(log.transactionHash) !in s.tables.metricsEvents
    ensures
      var ev := ParseLogs(log, dec).value;
      var hash := Lower(log.transactionHash);
      var (s', outcome) := StepLog(s, log, dec, NoFaults, now);
      && outcome == Stored
      && s'.tables.metricsEvents ==
           s.tables.metricsEvents[hash := EventRow(ev, hash, Lower(log.address), IntToString(IndexerChainId))]
      && s'.tables.transactions == s.tables.transactions
      && s'.tables.investmentEvents == s.tables.investmentEvents
      && s'.tables.redemptionEvents == s.tables.redemptionEvents
      && s'.cache == Put(s.cache, MetricsCacheKey(Lower(log.address)), MetricsCacheValue(ev, now), None, now)
      && Lookup(s'.cache, MetricsCacheKey(Lower(log.address)), later) == Some(MetricsCacheValue(ev, now))
  {
  }

  /** `processLog` never removes or rewrites a stored event row. */
  lemma StepKeepsEvents(s: LogState, log: Log, dec: Decoders, f: Faults, now: int, k: EventKind, h: string)
    requires h in s.tables.Events(k)
    ensures h in StepLog(s, log, dec, f, now).0.tables.Events(k)
    ensures StepLog(s, log, dec, f, now).0.tables.Events(k)[h] == s.tables.Events(k)[h]
  {
    if ParseLogs(log, dec).Some? {
      var ev := ParseLogs(log, dec).value;
      var hash := Lower(log.transactionHash);
      if !f.lookupFails && hash !in s.tables.Events(KindOf(ev)) {
        assert k == KindOf(ev) ==> h != hash;
      }
    }
  }

  /** Event rows only accumulate over a batch. */
  lemma {:induction false} ApplyKeepsEvents(s: LogState, logs: seq<Log>, dec: Decoders, faults: nat -> Faults, now: int, k: EventKind, h: string)
    requires h in s.tables.Events(k)
    ensures h in ApplyLogs(s, logs, dec, faults, now).tables.Events(k)
    ensures ApplyLogs(s, logs, dec, faults, now).tables.Events(k)[h] == s.tables.Events(k)[h]
    decreases |logs|
  {
    if logs != [] {
      var n := |logs| - 1;
      ApplyKeepsEvents(s, logs[..n], dec, faults, now, k, h);
      StepKeepsEvents(ApplyLogs(s, logs[..n], dec, faults, now), logs[n], dec, faults(n), now, k, h);
    }
  }

  /** After a batch whose lookups and creates all succeed, every fund event of the batch is
      stored under its lower-cased hash. */
  lemma {:induction false} BatchRecordsEvents(s: LogState, logs: seq<Log>, dec: Decoders, faults: nat -> Faults, now: int, j: nat)
    requires forall i :: 0 <= i < |logs| ==> !faults(i).lookupFails && !faults(i).createFails
    requires j < |logs| && ParseLogs(logs[j], dec).Some?
    ensures Lower(logs[j].transactionHash) in ApplyLogs(s, logs, dec, faults, now).tables.Events(KindOf(ParseLogs(logs[j], dec).value))
    decreases |logs|
  {
    var n := |logs| - 1;
    var before := ApplyLogs(s, logs[..n], dec, faults, now);
    if j == n {
      StepRecords(before, logs[n], dec, faults(n), now);
    } else {
      assert logs[..n][j] == logs[j];
      BatchRecordsEvents(s, logs[..n], dec, faults, now, j);
      StepKeepsEvents(before, logs[n], dec, faults(n), now,
        KindOf(ParseLogs(logs[j], dec).value), Lower(logs[j].transactionHash));
    }
  }

  /** Logs whose events are all stored already change nothing, whatever fails. */
  lemma {:induction false} RecordedLogsChangeNothing(s: LogState, logs: seq<Log>, dec: Decoders, faults: nat -> Faults, now: int)
    requires forall i :: 0 <= i < |logs| && ParseLogs(logs[i], dec).Some? ==>
      Lower(logs[i].transactionHash) in s.tables.Events(KindOf(ParseLogs(logs[i], dec).value))
    ensures ApplyLogs(s, logs, dec, faults, now) == s
    decreases |logs|
  {
    if logs != [] {
      var n := |logs| - 1;
      assert forall i :: 0 <= i < n ==> logs[..n][i] == logs[i];
      RecordedLogsChangeNothing(s, logs[..n], dec, faults, now);
      if ParseLogs(logs[n], dec).Some? {
        StoredEventSkipped(s, logs[n], dec, faults(n), now);
      }
    }
  }

  /** Scanning the same logs again (the cursor block is scanned twice, a restart rescans)
      after a batch whose lookups and creates succeeded changes nothing, at any later time
      and whatever fails the second time. */
  lemma ReplayChangesNothing(s: LogState, logs: seq<Log>, dec: Decoders, first: nat -> Faults, second: nat -> Faults, now: int, later: int)
    requires forall i :: 0 <= i < |logs| ==> !first(i).lookupFails && !first(i).createFails
    ensures
      var done := ApplyLogs(s, logs, dec, first, now);
      ApplyLogs(done, logs, dec, second, later) == done
  {
    var done := ApplyLogs(s, logs, dec, first, now);
    forall i | 0 <= i < |logs| && ParseLogs(logs[i], dec).Some?
      ensures Lower(logs[i].transactionHash) in done.tables.Events(KindOf(ParseLogs(logs[i], dec).value))
    {
      BatchRecordsEvents(s, logs, dec, first, now, i);
    }
    RecordedLogsChangeNothing(done, logs, dec, second, later);
  }

  /** The same log delivered `n` times in one batch has the effect of its first delivery,
      when that delivery's lookup and create succeed: one event row, one update. */
  lemma {:induction false} RepeatedLogStoredOnce(s: LogState, log: Log, n: nat, dec: Decoders, faults: nat -> Faults, now: int)
    requires n >= 1
    requires !faults(0).lookupFails && !faults(0).createFails
    ensures ApplyLogs(s, seq(n, _ => log), dec, faults, now) == StepLog(s, log, dec, faults(0), now).0
    decreases n
  {
    var logs := seq(n, _ => log);
    assert logs[..n - 1] == seq(n - 1, _ => log);
    if n == 1 {
      assert logs[..0] == [];
    } else {
      RepeatedLogStoredOnce(s, log, n - 1, dec, faults, now);
      var once := StepLog(s, log, dec, faults(0), now).0;
      if ParseLogs(log, dec).Some? {
        StepRecords(s, log, dec, faults(0), now);
        StoredEventSkipped(once, log, dec, faults(n - 1), now);
      }
    }
  }

  /** A cycle that succeeds scans from the stored cursor, or from 5000 blocks below the head
      when none is stored, up to the head read after it; it stores the batch's effects and
      then the scanned-to block as the cursor, with no expiry. */
  lemma CycleScansFromCursor(s: LogState, chain: Chain, dec: Decoders, faults: nat -> Faults, now: int, later: int)
    requires Cycle(s, chain, dec, faults, now).1.Ok?
    ensures
      var (s', r) := Cycle(s, chain, dec, faults, now);
      var range := r.value;
      && (if HasCursor(s.cache, now) then
            && ParseDecimal(Lookup(s.cache, CursorKey, now).value).Some?
            && range.fromBlock == ParseDecimal(Lookup(s.cache, CursorKey, now).value).value
            && chain.blockNumber(0) == Ok(range.toBlock)
          else
            && chain.blockNumber(0).Ok?
            && range.fromBlock == chain.blockNumber(0).value - LookbackBlocks
            && chain.blockNumber(1) == Ok(range.toBlock))
      && chain.getLogs(range.fromBlock, range.toBlock).Ok?
      && var processed := ApplyLogs(s, chain.getLogs(range.fromBlock, range.toBlock).value, dec, faults, now);
         && s'.tables == processed.tables
         && s'.cache == Put(processed.cache, CursorKey, NatToString(range.toBlock), None, now)
         && Lookup(s'.cache, CursorKey, later) == Some(NatToString(range.toBlock))
  {
  }

  /** A cycle that rejects leaves the store and the cursor as they were, so the next cycle
      scans the same range again. */
  lemma FailedCycleKeepsState(s: LogState, chain: Chain, dec: Decoders, faults: nat -> Faults, now: int)
    requires Cycle(s, chain, dec, faults, now).1.Err?
    ensures Cycle(s, chain, dec, faults, now).0 == s
  {
  }

  /** A successful cycle hands over to the next: whatever the chain answers next time, a
      next cycle that succeeds starts at the block the previous one scanned to (that block
      is scanned twice, as the range is inclusive). */
  lemma NextCycleResumes(s: LogState, chain: Chain, dec: Decoders, faults: nat -> Faults, now: int,
                         chain': Chain, dec': Decoders, faults': nat -> Faults, now': int)
    requires Cycle(s, chain, dec, faults, now).1.Ok?
    requires Cycle(Cycle(s, chain, dec, faults, now).0, chain', dec', faults', now').1.Ok?
    ensures
      var (s', r) := Cycle(s, chain, dec, faults, now);
      Cycle(s', chain', dec', faults', now').1.value.fromBlock == r.value.toBlock
  {
    var (s', r) := Cycle(s, chain, dec, faults, now);
    CycleScansFromCursor(s, chain, dec, faults, now, now');
    ParseNatToString(r.value.toBlock);
  }
}
