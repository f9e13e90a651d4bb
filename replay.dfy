/** The body of `main` in src/main.rs once the configuration is loaded and
    the streams are parsed: seed the price table from each pair's first
    buffered price, zero both balance vectors, then merge all streams in date
    order, updating the table or the balances per event and writing one set
    of log rows after each event. */
module Replay {
  import opened PriceTable
  import opened Scheduler
  import opened Ledger

  /** A line of a log file: `"{date} {amount}"`. */
  datatype Row = Row(date: int, amount: real)

  /** The rows written to `transactions.txt`, `balances.txt` and, per asset,
      `balances-NAME.txt` and `maximalist-balances-NAME.txt`. */
  datatype Logs = Logs(
    transactions: seq<Row>,
    balances: seq<Row>,
    assetBalances: seq<seq<Row>>,
    maximalistBalances: seq<seq<Row>>)

  /** How the run ended: every stream exhausted, or aborted because a
      conversion found no usable rate (the program unwraps and panics). */
  datatype Outcome = Completed | MissingRate

  /** A record taken from a cursor, with the cursor it came from. */
  datatype Dispatch = TxDispatch(idx: nat, tx: Transaction) | PriceDispatch(idx: nat, change: PriceChange)

  function DateOf(d: Dispatch): int
  {
    match d
    case TxDispatch(_, t) => t.date
    case PriceDispatch(_, c) => c.date
  }

  /** The records taken from transaction stream `i`, in the order taken. */
  function TxOf(trace: seq<Dispatch>, i: nat): seq<Transaction>
    decreases |trace|
  {
    if trace == [] then []
    else
      var last := trace[|trace| - 1];
      TxOf(trace[..|trace| - 1], i) + if last.TxDispatch? && last.idx == i then [last.tx] else []
  }

  /** The records taken from price stream `i`, in the order taken. */
  function PricesOf(trace: seq<Dispatch>, i: nat): seq<PriceChange>
    decreases |trace|
  {
    if trace == [] then []
    else
      var last := trace[|trace| - 1];
      PricesOf(trace[..|trace| - 1], i) + if last.PriceDispatch? && last.idx == i then [last.change] else []
  }

  /** The number of transactions taken. */
  function TxCount(trace: seq<Dispatch>): nat
    decreases |trace|
  {
    if trace == [] then 0
    else TxCount(trace[..|trace| - 1]) + if trace[|trace| - 1].TxDispatch? then 1 else 0
  }

  /** The sum of a stream's amounts, left to right. */
  function AmountSum(s: seq<Transaction>): real
    decreases |s|
  {
    if s == [] then 0.0 else AmountSum(s[..|s| - 1]) + s[|s| - 1].amount
  }

  ghost predicate DatesNondecreasing(trace: seq<Dispatch>)
  {
    forall j, k :: 0 <= j < k < |trace| ==> DateOf(trace[j]) <= DateOf(trace[k])
  }

  /** Every price in every stream is nonzero (the program would store an
      infinite or zero rate otherwise). */
  ghost predicate NonzeroPrices(prices: seq<seq<PriceChange>>)
  {
    forall i, j :: 0 <= i < |prices| && 0 <= j < |prices[i]| ==> prices[i][j].newPrice != 0.0
  }

  /** Every stream of both kinds is in date order. */
  ghost predicate AllSorted(txs: seq<seq<Transaction>>, prices: seq<seq<PriceChange>>)
  {
    (forall i :: 0 <= i < |txs| ==> SortedTransactions(txs[i]))
    && (forall i :: 0 <= i < |prices| ==> SortedPriceChanges(prices[i]))
  }

  /** No buffered record of either kind is dated before `d`. */
  ghost predicate HeadsNotBefore(d: int, txs: seq<seq<Transaction>>, prices: seq<seq<PriceChange>>)
  {
    (forall i :: 0 <= i < |txs| && txs[i] != [] ==> d <= txs[i][0].date)
    && (forall i :: 0 <= i < |prices| && prices[i] != [] ==> d <= prices[i][0].date)
  }

  /** The table after the seeding loop has visited the first `n` pairs: each
      pair whose stream has a buffered record is quoted at that price, in
      configuration order. */
  function Seeded(m: Rates, pairs: seq<Pair>, prices: seq<seq<PriceChange>>, n: nat): Rates
    requires n <= |pairs| == |prices| && NonzeroPrices(prices)
  {
    if n == 0 then m
    else
      var before := Seeded(m, pairs, prices, n - 1);
      if prices[n - 1] == [] then before
      else Quoted(before, pairs[n - 1].accounting, pairs[n - 1].priceOf, prices[n - 1][0].newPrice)
  }

  /** After seeding, the table still has canonical keys and nonzero rates, and
      every pair with a buffered price has its entry, so the loop can convert
      between the pair's two currencies both ways from the start. */
  lemma {:induction false} SeededQuotesEveryPair(m: Rates, pairs: seq<Pair>, prices: seq<seq<PriceChange>>, n: nat)
    requires n <= |pairs| == |prices| && NonzeroPrices(prices)
    requires Canonical(m) && NonzeroRates(m)
    ensures Canonical(Seeded(m, pairs, prices, n)) && NonzeroRates(Seeded(m, pairs, prices, n))
    ensures forall i :: 0 <= i < n && prices[i] != [] ==>
      CanonicalKey(pairs[i].accounting, pairs[i].priceOf) in Seeded(m, pairs, prices, n)
  {
    if n > 0 {
      SeededQuotesEveryPair(m, pairs, prices, n - 1);
      if prices[n - 1] != [] {
        var before := Seeded(m, pairs, prices, n - 1);
        QuotedKeepsInvariant(before, pairs[n - 1].accounting, pairs[n - 1].priceOf, prices[n - 1][0].newPrice);
      }
    }
  }

  /** The seeding loop (`for (price, pair) in prices.iter().zip(&config.pair)`). */
  method Seed(pm: PriceMap, pairs: seq<Pair>, prices: seq<seq<PriceChange>>)
    requires |pairs| == |prices| && NonzeroPrices(prices)
    modifies pm
    ensures pm.rates == Seeded(old(pm.rates), pairs, prices, |pairs|)
  {
    for i := 0 to |pairs|
      invariant pm.rates == Seeded(old(pm.rates), pairs, prices, i)
    {
      if prices[i] != [] {
        pm.Update(pairs[i].accounting, pairs[i].priceOf, prices[i][0].newPrice);
      }
    }
  }

  /** The table after dispatching `d`: a price change quotes its pair, a
      transaction leaves the table alone. (A price change naming no pair,
      or quoting zero, is never dispatched by the loop; it leaves the table
      alone here.) */
  function AfterDispatch(rates: Rates, pairs: seq<Pair>, d: Dispatch): Rates
  {
    if d.PriceDispatch? && d.idx < |pairs| && d.change.newPrice != 0.0
    then Quoted(rates, pairs[d.idx].accounting, pairs[d.idx].priceOf, d.change.newPrice)
    else rates
  }

  /** The table after the records of `trace` were dispatched, one after the
      other, starting from `seed`. */
  function RatesAfter(seed: Rates, pairs: seq<Pair>, trace: seq<Dispatch>): Rates
    decreases |trace|
  {
    if trace == [] then seed
    else AfterDispatch(RatesAfter(seed, pairs, trace[..|trace| - 1]), pairs, trace[|trace| - 1])
  }

  lemma RatesAfterSnoc(seed: Rates, pairs: seq<Pair>, trace: seq<Dispatch>, d: Dispatch)
    ensures RatesAfter(seed, pairs, trace + [d]) == AfterDispatch(RatesAfter(seed, pairs, trace), pairs, d)
  {
    assert (trace + [d])[..|trace|] == trace;
  }

  /** Whether the round for `d`, run on table `rates`, finds every rate it
      converts with. A transaction values its amount in the unit of account,
      credits it to every maximalist slot, and then values every balance; a
      price change updates the table and then values every balance. */
  predicate RoundOk(rates: Rates, pairs: seq<Pair>, assets: seq<Asset>, uoa: string, d: Dispatch)
  {
    match d
    case TxDispatch(i, _) =>
      && i < |assets|
      && Valuable(rates, assets[i].name, uoa)
      && MaximalistValuable(rates, assets, assets[i].name)
      && AllValuable(rates, assets, uoa)
    case PriceDispatch(i, c) =>
      && i < |pairs| && c.newPrice != 0.0
      && AllValuable(AfterDispatch(rates, pairs, d), assets, uoa)
  }

  /** Every round of `s`, each run on the table the rounds before it left,
      finds its rates. */
  ghost predicate RunsThrough(seed: Rates, pairs: seq<Pair>, assets: seq<Asset>, uoa: string, s: seq<Dispatch>)
  {
    forall k :: 0 <= k < |s| ==> RoundOk(RatesAfter(seed, pairs, s[..k]), pairs, assets, uoa, s[k])
  }

  /** A run that stopped at the last round of `trace`: every round before it
      found its rates and the last one did not. */
  ghost predicate Aborted(seed: Rates, pairs: seq<Pair>, assets: seq<Asset>, uoa: string, trace: seq<Dispatch>)
  {
    && trace != []
    && RunsThrough(seed, pairs, assets, uoa, trace[..|trace| - 1])
    && !RoundOk(RatesAfter(seed, pairs, trace[..|trace| - 1]), pairs, assets, uoa, trace[|trace| - 1])
  }

  lemma RunsThroughSnoc(seed: Rates, pairs: seq<Pair>, assets: seq<Asset>, uoa: string, trace: seq<Dispatch>, d: Dispatch)
    requires RunsThrough(seed, pairs, assets, uoa, trace)
    requires RoundOk(RatesAfter(seed, pairs, trace), pairs, assets, uoa, d)
    ensures RunsThrough(seed, pairs, assets, uoa, trace + [d])
  {
    var t := trace + [d];
    forall k | 0 <= k < |t|
      ensures RoundOk(RatesAfter(seed, pairs, t[..k]), pairs, assets, uoa, t[k])
    {
      if k < |trace| {
        assert t[..k] == trace[..k];
      } else {
        assert t[..k] == trace;
      }
    }
  }

  /** Every record, in the order the loop dispatches them when no round
      aborts: the scheduler's choice on the current cursors, followed by the
      records dispatched from the cursors that choice leaves. One record per
      buffered or unread record of every stream. */
  ghost function Schedule(txs: seq<seq<Transaction>>, prices: seq<seq<PriceChange>>): (r: seq<Dispatch>)
    ensures |r| == Remaining(txs) + Remaining(prices)
    decreases Remaining(txs) + Remaining(prices)
  {
    match NextEvent(txs, prices)
    case None =>
      RemainingExhausted(txs);
      RemainingExhausted(prices);
      []
    case Some(OnTransaction(i)) => [TxDispatch(i, txs[i][0])] + Schedule(Advance(txs, i), prices)
    case Some(OnPriceChange(i)) => [PriceDispatch(i, prices[i][0])] + Schedule(txs, Advance(prices, i))
  }

  /** Dispatching the scheduler's choice moves one record from the schedule
      still ahead to the trace. */
  lemma ScheduleTakesTransaction(full: seq<Dispatch>, trace: seq<Dispatch>,
                                 txs: seq<seq<Transaction>>, prices: seq<seq<PriceChange>>, idx: nat)
    requires trace + Schedule(txs, prices) == full
    requires NextEvent(txs, prices) == Some(OnTransaction(idx))
    ensures (trace + [TxDispatch(idx, txs[idx][0])]) + Schedule(Advance(txs, idx), prices) == full
  {
    assert Schedule(txs, prices) == [TxDispatch(idx, txs[idx][0])] + Schedule(Advance(txs, idx), prices);
  }

  lemma ScheduleTakesPriceChange(full: seq<Dispatch>, trace: seq<Dispatch>,
                                 txs: seq<seq<Transaction>>, prices: seq<seq<PriceChange>>, idx: nat)
    requires trace + Schedule(txs, prices) == full
    requires NextEvent(txs, prices) == Some(OnPriceChange(idx))
    ensures (trace + [PriceDispatch(idx, prices[idx][0])]) + Schedule(txs, Advance(prices, idx)) == full
  {
    assert Schedule(txs, prices) == [PriceDispatch(idx, prices[idx][0])] + Schedule(txs, Advance(prices, idx));
  }

  /** When the scheduler finds nothing left, the trace is the whole schedule. */
  lemma ScheduleEnds(full: seq<Dispatch>, trace: seq<Dispatch>, txs: seq<seq<Transaction>>, prices: seq<seq<PriceChange>>)
    requires trace + Schedule(txs, prices) == full
    requires NextEvent(txs, prices) == None
    ensures trace == full
  {
    assert Schedule(txs, prices) == [];
    assert trace + [] == trace;
  }

  /** A run that aborts in a round took a prefix of the schedule, and that
      round's missing rate means the schedule cannot run through. */
  lemma AbortedBeforeEnd(seed: Rates, pairs: seq<Pair>, assets: seq<Asset>, uoa: string,
                         before: seq<Dispatch>, d: Dispatch, rest: seq<Dispatch>, full: seq<Dispatch>)
    requires (before + [d]) + rest == full
    requires RunsThrough(seed, pairs, assets, uoa, before)
    requires !RoundOk(RatesAfter(seed, pairs, before), pairs, assets, uoa, d)
    ensures before + [d] <= full
    ensures Aborted(seed, pairs, assets, uoa, before + [d])
    ensures !RunsThrough(seed, pairs, assets, uoa, full)
  {
    var t := before + [d];
    assert t[..|before|] == before;
    assert full[..|t|] == t;
    assert full[..|before|] == before;
    assert full[|before|] == d;
  }

  /** Between rounds: the table is `seed` after the records dispatched so
      far, those records followed by the cursors' own schedule are the whole
      schedule `full`, and every round so far found its rates. */
  ghost predicate OnSchedule(seed: Rates, pairs: seq<Pair>, assets: seq<Asset>, uoa: string, full: seq<Dispatch>,
                             txs: seq<seq<Transaction>>, prices: seq<seq<PriceChange>>, trace: seq<Dispatch>, rates: Rates)
  {
    && rates == RatesAfter(seed, pairs, trace)
    && trace + Schedule(txs, prices) == full
    && RunsThrough(seed, pairs, assets, uoa, trace)
  }

  /** Where an aborted run stands: it took a prefix of the schedule, it
      stopped at the first round that lacked a rate, and so the schedule
      does not run through. */
  ghost predicate Stopped(seed: Rates, pairs: seq<Pair>, assets: seq<Asset>, uoa: string, full: seq<Dispatch>, trace: seq<Dispatch>)
  {
    trace <= full && Aborted(seed, pairs, assets, uoa, trace) && !RunsThrough(seed, pairs, assets, uoa, full)
  }

  /** A transaction round on the scheduler's choice: when it finds its rates
      (`ok`) the loop is still on schedule, with the same table; otherwise
      the run stops there. */
  lemma TransactionOnSchedule(seed: Rates, pairs: seq<Pair>, assets: seq<Asset>, uoa: string, full: seq<Dispatch>,
                              txs: seq<seq<Transaction>>, prices: seq<seq<PriceChange>>, trace: seq<Dispatch>,
                              rates: Rates, idx: nat, ok: bool)
    requires OnSchedule(seed, pairs, assets, uoa, full, txs, prices, trace, rates)
    requires NextEvent(txs, prices) == Some(OnTransaction(idx)) && idx < |assets|
    requires ok <==> && Valuable(rates, assets[idx].name, uoa)
                     && MaximalistValuable(rates, assets, assets[idx].name)
                     && AllValuable(rates, assets, uoa)
    ensures ok ==> OnSchedule(seed, pairs, assets, uoa, full, Advance(txs, idx), prices,
                              trace + [TxDispatch(idx, txs[idx][0])], rates)
    ensures !ok ==> Stopped(seed, pairs, assets, uoa, full, trace + [TxDispatch(idx, txs[idx][0])])
  {
    var d := TxDispatch(idx, txs[idx][0]);
    ScheduleTakesTransaction(full, trace, txs, prices, idx);
    RatesAfterSnoc(seed, pairs, trace, d);
    if ok {
      RunsThroughSnoc(seed, pairs, assets, uoa, trace, d);
    } else {
      AbortedBeforeEnd(seed, pairs, assets, uoa, trace, d, Schedule(Advance(txs, idx), prices), full);
    }
  }

  /** A price-change round on the scheduler's choice: the table quotes the
      pair; when every balance can then be valued (`ok`) the loop is still on
      schedule, otherwise the run stops there. */
  lemma PriceChangeOnSchedule(seed: Rates, pairs: seq<Pair>, assets: seq<Asset>, uoa: string, full: seq<Dispatch>,
                              txs: seq<seq<Transaction>>, prices: seq<seq<PriceChange>>, trace: seq<Dispatch>,
                              rates: Rates, idx: nat, ok: bool)
    requires OnSchedule(seed, pairs, assets, uoa, full, txs, prices, trace, rates)
    requires NextEvent(txs, prices) == Some(OnPriceChange(idx)) && idx < |pairs| && prices[idx][0].newPrice != 0.0
    requires ok <==> AllValuable(Quoted(rates, pairs[idx].accounting, pairs[idx].priceOf, prices[idx][0].newPrice), assets, uoa)
    ensures ok ==> OnSchedule(seed, pairs, assets, uoa, full, txs, Advance(prices, idx),
                              trace + [PriceDispatch(idx, prices[idx][0])],
                              Quoted(rates, pairs[idx].accounting, pairs[idx].priceOf, prices[idx][0].newPrice))
    ensures !ok ==> Stopped(seed, pairs, assets, uoa, full, trace + [PriceDispatch(idx, prices[idx][0])])
  {
    var d := PriceDispatch(idx, prices[idx][0]);
    ScheduleTakesPriceChange(full, trace, txs, prices, idx);
    RatesAfterSnoc(seed, pairs, trace, d);
    if ok {
      RunsThroughSnoc(seed, pairs, assets, uoa, trace, d);
    } else {
      AbortedBeforeEnd(seed, pairs, assets, uoa, trace, d, Schedule(txs, Advance(prices, idx)), full);
    }
  }

  /** A run that ends on schedule has dispatched the whole schedule, and
      every round of it found its rates. */
  lemma OnScheduleAtEnd(seed: Rates, pairs: seq<Pair>, assets: seq<Asset>, uoa: string, full: seq<Dispatch>,
                        txs: seq<seq<Transaction>>, prices: seq<seq<PriceChange>>, trace: seq<Dispatch>, rates: Rates)
    requires OnSchedule(seed, pairs, assets, uoa, full, txs, prices, trace, rates)
    requires NextEvent(txs, prices) == None
    ensures trace == full && RunsThrough(seed, pairs, assets, uoa, full)
  {
    ScheduleEnds(full, trace, txs, prices);
  }

  /** One new row per per-asset log. */
  function AppendRows(logs: seq<seq<Row>>, date: int, values: seq<real>): (r: seq<seq<Row>>)
    requires |values| == |logs|
    ensures |r| == |logs|
    ensures forall i :: 0 <= i < |logs| ==> r[i] == logs[i] + [Row(date, values[i])]
  {
    seq(|logs|, i requires 0 <= i < |logs| => logs[i] + [Row(date, values[i])])
  }

  /** Each log row per stream so far, and the ledger consistent with it. */
  ghost predicate LogsMatch(logs: Logs, trace: seq<Dispatch>, n: nat)
  {
    && |logs.transactions| == TxCount(trace)
    && |logs.balances| == |trace|
    && (forall k :: 0 <= k < |trace| ==> logs.balances[k].date == DateOf(trace[k]))
    && |logs.assetBalances| == n && |logs.maximalistBalances| == n
    && (forall i :: 0 <= i < n ==> |logs.assetBalances[i]| == |trace| && |logs.maximalistBalances[i]| == |trace|)
  }

  /** Taking one more record extends exactly one stream's share of the trace. */
  lemma TxOfSnoc(trace: seq<Dispatch>, d: Dispatch, i: nat)
    ensures TxOf(trace + [d], i) == TxOf(trace, i) + if d.TxDispatch? && d.idx == i then [d.tx] else []
  {
    assert (trace + [d])[..|trace|] == trace;
  }

  lemma PricesOfSnoc(trace: seq<Dispatch>, d: Dispatch, i: nat)
    ensures PricesOf(trace + [d], i) == PricesOf(trace, i) + if d.PriceDispatch? && d.idx == i then [d.change] else []
  {
    assert (trace + [d])[..|trace|] == trace;
  }

  lemma TxCountSnoc(trace: seq<Dispatch>, d: Dispatch)
    ensures TxCount(trace + [d]) == TxCount(trace) + if d.TxDispatch? then 1 else 0
  {
    assert (trace + [d])[..|trace|] == trace;
  }

  lemma AmountSumSnoc(s: seq<Transaction>, t: Transaction)
    ensures AmountSum(s + [t]) == AmountSum(s) + t.amount
  {
    assert (s + [t])[..|s|] == s;
  }

  /** What the replay loop keeps true between rounds, stated over the values
      of its state: the records taken so far followed by each cursor's
      remaining records give back each stream; one round has run per record
      taken; and, when every stream is in date order, the records were taken
      in date order and none still buffered is dated before the last one. */
  ghost predicate ReplayInvariant(txStreams: seq<seq<Transaction>>, priceStreams: seq<seq<PriceChange>>,
                                  transactions: seq<seq<Transaction>>, prices: seq<seq<PriceChange>>,
                                  trace: seq<Dispatch>, sorted: bool)
  {
    && TxSplit(txStreams, trace, transactions)
    && PriceSplit(priceStreams, trace, prices)
    && |trace| + Remaining(transactions) + Remaining(prices) == Remaining(txStreams) + Remaining(priceStreams)
    && (sorted ==> InOrder(trace, transactions, prices))
  }

  /** Before the first round nothing is taken and every cursor holds its
      whole stream. */
  lemma ReplayInvariantInitially(txStreams: seq<seq<Transaction>>, priceStreams: seq<seq<PriceChange>>)
    ensures ReplayInvariant(txStreams, priceStreams, txStreams, priceStreams, [], AllSorted(txStreams, priceStreams))
  {
    assert forall i: nat :: TxOf([], i) == [] && PricesOf([], i) == [];
  }

  /** The transactions taken from each stream, followed by its cursor, give
      back the stream. */
  ghost predicate TxSplit(txStreams: seq<seq<Transaction>>, trace: seq<Dispatch>, transactions: seq<seq<Transaction>>)
  {
    && |transactions| == |txStreams|
    && forall i :: 0 <= i < |txStreams| ==> txStreams[i] == TxOf(trace, i) + transactions[i]
  }

  /** The price changes taken from each stream, followed by its cursor, give
      back the stream. */
  ghost predicate PriceSplit(priceStreams: seq<seq<PriceChange>>, trace: seq<Dispatch>, prices: seq<seq<PriceChange>>)
  {
    && |prices| == |priceStreams|
    && forall i :: 0 <= i < |priceStreams| ==> priceStreams[i] == PricesOf(trace, i) + prices[i]
  }

  /** The cursors are in date order, the records were taken in date order,
      and none still buffered is dated before the last one taken. */
  ghost predicate InOrder(trace: seq<Dispatch>, transactions: seq<seq<Transaction>>, prices: seq<seq<PriceChange>>)
  {
    && AllSorted(transactions, prices)
    && DatesNondecreasing(trace)
    && (trace != [] ==> HeadsNotBefore(DateOf(trace[|trace| - 1]), transactions, prices))
  }

  /** After a transaction is taken from cursor `idx`, the records taken from
      each transaction stream followed by its cursor still give the stream. */
  lemma TakeTxKeepsStreams(txStreams: seq<seq<Transaction>>, transactions: seq<seq<Transaction>>,
                           trace: seq<Dispatch>, idx: nat)
    requires TxSplit(txStreams, trace, transactions) && idx < |transactions| && transactions[idx] != []
    ensures TxSplit(txStreams, trace + [TxDispatch(idx, transactions[idx][0])], Advance(transactions, idx))
  {
    var d, after := TxDispatch(idx, transactions[idx][0]), Advance(transactions, idx);
    forall i | 0 <= i < |txStreams|
      ensures txStreams[i] == TxOf(trace + [d], i) + after[i]
    {
      TxOfSnoc(trace, d, i);
      if i == idx {
        assert transactions[idx] == [transactions[idx][0]] + after[idx];
      }
    }
  }

  /** After a price change is taken from cursor `idx`, the same holds of the
      price streams. */
  lemma TakePriceKeepsStreams(priceStreams: seq<seq<PriceChange>>, prices: seq<seq<PriceChange>>,
                              trace: seq<Dispatch>, idx: nat)
    requires PriceSplit(priceStreams, trace, prices) && idx < |prices| && prices[idx] != []
    ensures PriceSplit(priceStreams, trace + [PriceDispatch(idx, prices[idx][0])], Advance(prices, idx))
  {
    var d, after := PriceDispatch(idx, prices[idx][0]), Advance(prices, idx);
    forall i | 0 <= i < |priceStreams|
      ensures priceStreams[i] == PricesOf(trace + [d], i) + after[i]
    {
      PricesOfSnoc(trace, d, i);
      if i == idx {
        assert prices[idx] == [prices[idx][0]] + after[idx];
      }
    }
  }

  /** A transaction leaves the price streams' shares alone. */
  lemma TxLeavesPriceShares(trace: seq<Dispatch>, d: Dispatch, n: nat)
    requires d.TxDispatch?
    ensures forall i :: 0 <= i < n ==> PricesOf(trace + [d], i) == PricesOf(trace, i)
  {
    forall i | 0 <= i < n
      ensures PricesOf(trace + [d], i) == PricesOf(trace, i)
    {
      PricesOfSnoc(trace, d, i);
      assert PricesOf(trace, i) + [] == PricesOf(trace, i);
    }
  }

  /** A price change leaves the transaction streams' shares alone. */
  lemma PriceLeavesTxShares(trace: seq<Dispatch>, d: Dispatch, n: nat)
    requires d.PriceDispatch?
    ensures forall i :: 0 <= i < n ==> TxOf(trace + [d], i) == TxOf(trace, i)
  {
    forall i | 0 <= i < n
      ensures TxOf(trace + [d], i) == TxOf(trace, i)
    {
      TxOfSnoc(trace, d, i);
      assert TxOf(trace, i) + [] == TxOf(trace, i);
    }
  }

  /** A transaction keeps the price streams' split. */
  lemma TxKeepsPriceSplit(priceStreams: seq<seq<PriceChange>>, trace: seq<Dispatch>, prices: seq<seq<PriceChange>>, d: Dispatch)
    requires d.TxDispatch? && PriceSplit(priceStreams, trace, prices)
    ensures PriceSplit(priceStreams, trace + [d], prices)
  {
    TxLeavesPriceShares(trace, d, |priceStreams|);
  }

  /** A price change keeps the transaction streams' split. */
  lemma PriceKeepsTxSplit(txStreams: seq<seq<Transaction>>, trace: seq<Dispatch>, transactions: seq<seq<Transaction>>, d: Dispatch)
    requires d.PriceDispatch? && TxSplit(txStreams, trace, transactions)
    ensures TxSplit(txStreams, trace + [d], transactions)
  {
    PriceLeavesTxShares(trace, d, |txStreams|);
  }

  /** Each asset's balance after the records of `trace` were dispatched:
      the sum of the amounts taken from its stream. */
  function Balances(trace: seq<Dispatch>, n: nat): (r: seq<real>)
    ensures |r| == n
  {
    seq(n, i requires 0 <= i < n => AmountSum(TxOf(trace, i)))
  }

  /** Before any record is dispatched every balance is zero. */
  lemma BalancesInitially(n: nat)
    ensures Balances([], n) == seq(n, _ => 0.0)
  {
  }

  /** A transaction for asset `idx` raises that asset's balance by its amount
      and leaves every other balance alone. */
  lemma BalancesAfterTransaction(trace: seq<Dispatch>, n: nat, idx: nat, t: Transaction)
    requires idx < n
    ensures Balances(trace + [TxDispatch(idx, t)], n) == Balances(trace, n)[idx := Balances(trace, n)[idx] + t.amount]
  {
    var d := TxDispatch(idx, t);
    var before, after := Balances(trace, n), Balances(trace + [d], n);
    forall i | 0 <= i < n
      ensures after[i] == if i == idx then before[i] + t.amount else before[i]
    {
      BalanceAfterTransaction(trace, idx, t, i);
    }
    assert after == before[idx := before[idx] + t.amount];
  }

  /** The same, one asset at a time. */
  lemma BalanceAfterTransaction(trace: seq<Dispatch>, idx: nat, t: Transaction, i: nat)
    ensures AmountSum(TxOf(trace + [TxDispatch(idx, t)], i))
         == if i == idx then AmountSum(TxOf(trace, i)) + t.amount else AmountSum(TxOf(trace, i))
  {
    TxOfSnoc(trace, TxDispatch(idx, t), i);
    if i == idx {
      AmountSumSnoc(TxOf(trace, idx), t);
    } else {
      assert TxOf(trace, i) + [] == TxOf(trace, i);
    }
  }

  /** A price change leaves every balance alone. */
  lemma BalancesAfterPriceChange(trace: seq<Dispatch>, n: nat, idx: nat, c: PriceChange)
    ensures Balances(trace + [PriceDispatch(idx, c)], n) == Balances(trace, n)
  {
    PriceLeavesTxShares(trace, PriceDispatch(idx, c), n);
  }

  /** Taking the earliest buffered record keeps the trace in date order and
      leaves no buffered record earlier than it, when the streams are sorted. */
  lemma TakeTxKeepsOrder(transactions: seq<seq<Transaction>>, prices: seq<seq<PriceChange>>,
                         trace: seq<Dispatch>, idx: nat)
    requires InOrder(trace, transactions, prices)
    requires EarliestTransaction(transactions, prices, idx)
    ensures InOrder(trace + [TxDispatch(idx, transactions[idx][0])], Advance(transactions, idx), prices)
  {
    var t: Transaction, after: seq<seq<Transaction>> := transactions[idx][0], Advance(transactions, idx);
    assert (trace + [TxDispatch(idx, t)])[|trace|] == TxDispatch(idx, t);
    assert SortedTransactions(transactions[idx]);
    assert forall j :: 0 <= j < |trace| ==> DateOf(trace[j]) <= t.date by {
      if trace != [] {
        assert DateOf(trace[|trace| - 1]) <= t.date;
      }
    }
    assert after[idx] != [] ==> t.date <= after[idx][0].date by {
      if after[idx] != [] {
        assert after[idx][0] == transactions[idx][1];
      }
    }
    assert forall j :: 0 <= j < |after| ==> SortedTransactions(after[j]) by {
      assert forall j :: 0 <= j < |after| && j != idx ==> after[j] == transactions[j];
    }
  }

  /** The same for taking the earliest price change. */
  lemma TakePriceKeepsOrder(transactions: seq<seq<Transaction>>, prices: seq<seq<PriceChange>>,
                            trace: seq<Dispatch>, idx: nat)
    requires InOrder(trace, transactions, prices)
    requires EarliestPriceChange(transactions, prices, idx)
    ensures InOrder(trace + [PriceDispatch(idx, prices[idx][0])], transactions, Advance(prices, idx))
  {
    var c: PriceChange, after: seq<seq<PriceChange>> := prices[idx][0], Advance(prices, idx);
    assert (trace + [PriceDispatch(idx, c)])[|trace|] == PriceDispatch(idx, c);
    assert SortedPriceChanges(prices[idx]);
    assert forall j :: 0 <= j < |trace| ==> DateOf(trace[j]) <= c.date by {
      if trace != [] {
        assert DateOf(trace[|trace| - 1]) <= c.date;
      }
    }
    assert after[idx] != [] ==> c.date <= after[idx][0].date by {
      if after[idx] != [] {
        assert after[idx][0] == prices[idx][1];
      }
    }
    assert forall j :: 0 <= j < |after| ==> SortedPriceChanges(after[j]) by {
      assert forall j :: 0 <= j < |after| && j != idx ==> after[j] == prices[j];
    }
  }

  /** A cursor's buffered price comes from its stream, so it is nonzero when
      all of the stream's prices are. */
  lemma BufferedPriceNonzero(stream: seq<PriceChange>, taken: seq<PriceChange>, cursor: seq<PriceChange>)
    requires stream == taken + cursor && cursor != []
    requires forall j :: 0 <= j < |stream| ==> stream[j].newPrice != 0.0
    ensures cursor[0].newPrice != 0.0
  {
    assert cursor[0] == stream[|taken|];
  }

  /** Taking transaction cursor `idx`'s buffered record, when it is the
      earliest one, keeps the invariant; the trace gains one transaction. */
  lemma TakeTransaction(txStreams: seq<seq<Transaction>>, priceStreams: seq<seq<PriceChange>>,
                        transactions: seq<seq<Transaction>>, prices: seq<seq<PriceChange>>,
                        trace: seq<Dispatch>, sorted: bool, idx: nat)
    requires ReplayInvariant(txStreams, priceStreams, transactions, prices, trace, sorted)
    requires EarliestTransaction(transactions, prices, idx)
    ensures ReplayInvariant(txStreams, priceStreams, Advance(transactions, idx), prices,
                            trace + [TxDispatch(idx, transactions[idx][0])], sorted)
    ensures TxCount(trace + [TxDispatch(idx, transactions[idx][0])]) == TxCount(trace) + 1
  {
    var d := TxDispatch(idx, transactions[idx][0]);
    TakeTxKeepsStreams(txStreams, transactions, trace, idx);
    TxKeepsPriceSplit(priceStreams, trace, prices, d);
    TxCountSnoc(trace, d);
    if sorted {
      TakeTxKeepsOrder(transactions, prices, trace, idx);
    }
  }

  /** Taking price cursor `idx`'s buffered record, when it is the earliest
      one, keeps the invariant; the record's price is nonzero. */
  lemma TakePriceChange(txStreams: seq<seq<Transaction>>, priceStreams: seq<seq<PriceChange>>,
                        transactions: seq<seq<Transaction>>, prices: seq<seq<PriceChange>>,
                        trace: seq<Dispatch>, sorted: bool, idx: nat)
    requires ReplayInvariant(txStreams, priceStreams, transactions, prices, trace, sorted)
    requires NonzeroPrices(priceStreams)
    requires EarliestPriceChange(transactions, prices, idx)
    ensures ReplayInvariant(txStreams, priceStreams, transactions, Advance(prices, idx),
                            trace + [PriceDispatch(idx, prices[idx][0])], sorted)
    ensures TxCount(trace + [PriceDispatch(idx, prices[idx][0])]) == TxCount(trace)
    ensures prices[idx][0].newPrice != 0.0
  {
    var d := PriceDispatch(idx, prices[idx][0]);
    TakePriceKeepsStreams(priceStreams, prices, trace, idx);
    PriceKeepsTxSplit(txStreams, trace, transactions, d);
    TxCountSnoc(trace, d);
    BufferedPriceNonzero(priceStreams[idx], PricesOf(trace, idx), prices[idx]);
    if sorted {
      TakePriceKeepsOrder(transactions, prices, trace, idx);
    }
  }

  /** Writing one event's rows keeps the logs in step with the trace. */
  lemma LogsStep(logs: Logs, trace: seq<Dispatch>, d: Dispatch, txRows: seq<Row>, total: real, r: Logs, n: nat)
    requires LogsMatch(logs, trace, n)
    requires TxCount(trace + [d]) == TxCount(trace) + |txRows|
    requires r.transactions == logs.transactions + txRows
    requires r.balances == logs.balances + [Row(DateOf(d), total)]
    requires |r.assetBalances| == |r.maximalistBalances| == n
    requires forall i :: 0 <= i < n ==>
      |r.assetBalances[i]| == |logs.assetBalances[i]| + 1 && |r.maximalistBalances[i]| == |logs.maximalistBalances[i]| + 1
    ensures LogsMatch(r, trace + [d], n)
  {
  }

  /** The rows written after an event dated `date`: each asset's balance and
      maximalist balance valued in the unit of account, and their total. */
  function Snapshot(logs: Logs, date: int, rates: Rates, assets: seq<Asset>, uoa: string,
                    balances: seq<real>, maximalist: seq<real>): (r: Logs)
    requires |balances| == |maximalist| == |assets| == |logs.assetBalances| == |logs.maximalistBalances|
    requires AllValuable(rates, assets, uoa)
    ensures r.transactions == logs.transactions
    ensures r.balances == logs.balances + [Row(date, Total(rates, assets, uoa, balances))]
    ensures |r.assetBalances| == |r.maximalistBalances| == |assets|
    ensures forall i :: 0 <= i < |assets| ==>
      && r.assetBalances[i] == logs.assetBalances[i] + [Row(date, Value(rates, assets[i].name, uoa, balances[i]))]
      && r.maximalistBalances[i] == logs.maximalistBalances[i] + [Row(date, Value(rates, assets[i].name, uoa, maximalist[i]))]
  {
    var values := Valuations(rates, assets, uoa, balances);
    var maximalistValues := Valuations(rates, assets, uoa, maximalist);
    logs.(
      balances := logs.balances + [Row(date, Sum(values))],
      assetBalances := AppendRows(logs.assetBalances, date, values),
      maximalistBalances := AppendRows(logs.maximalistBalances, date, maximalistValues))
  }

  /** A transaction event for asset `idx` (the `Event::Transaction` arm):
      the asset's balance grows by the amount, so the balances are those
      after `trace` followed by this transaction; then, if the amount can be
      valued in the unit of account and credited to every maximalist slot,
      the valued amount is returned for the transaction log and every
      maximalist slot is credited. `ok` is false exactly where the program
      would abort on a missing rate. */
  method ApplyTransaction(bal: array<real>, maximalist: array<real>, assets: seq<Asset>, rates: Rates,
                          uoa: string, ghost trace: seq<Dispatch>, idx: nat, tx: Transaction)
    returns (ok: bool, logged: real)
    requires bal.Length == maximalist.Length == |assets| && idx < |assets| && bal != maximalist
    requires bal[..] == Balances(trace, |assets|)
    modifies bal, maximalist
    ensures bal[..] == old(bal[..])[idx := old(bal[idx]) + tx.amount]
    ensures bal[..] == Balances(trace + [TxDispatch(idx, tx)], |assets|)
    ensures ok <==> Valuable(rates, assets[idx].name, uoa) && MaximalistValuable(rates, assets, assets[idx].name)
    ensures ok ==> logged == Value(rates, assets[idx].name, uoa, tx.amount)
    ensures ok ==> forall j :: 0 <= j < |assets| ==>
      maximalist[j] == old(maximalist[j]) + Value(rates, assets[idx].name, assets[j].name, tx.amount)
  {
    var amount := tx.amount;
    bal[idx] := bal[idx] + amount;
    BalancesAfterTransaction(trace, |assets|, idx, tx);
    var name := assets[idx].name;
    ok := Valuable(rates, name, uoa) && MaximalistValuable(rates, assets, name);
    logged := 0.0;
    if ok {
      logged := Value(rates, name, uoa, amount);
      CreditMaximalist(maximalist, assets, rates, name, amount);
    }
  }

  /** What any run, completed or aborted, has done: taken a prefix of each
      stream, and taken records in date order when every stream is sorted. */
  ghost predicate TakenInOrder(txStreams: seq<seq<Transaction>>, priceStreams: seq<seq<PriceChange>>, trace: seq<Dispatch>)
  {
    && (forall i :: 0 <= i < |txStreams| ==> TxOf(trace, i) <= txStreams[i])
    && (forall i :: 0 <= i < |priceStreams| ==> PricesOf(trace, i) <= priceStreams[i])
    && (AllSorted(txStreams, priceStreams) ==> DatesNondecreasing(trace))
  }

  /** What a completed run has done: taken every record of every stream, one
      round per record. */
  ghost predicate TakenAll(txStreams: seq<seq<Transaction>>, priceStreams: seq<seq<PriceChange>>, trace: seq<Dispatch>)
  {
    && |trace| == Remaining(txStreams) + Remaining(priceStreams)
    && (forall i :: 0 <= i < |txStreams| ==> TxOf(trace, i) == txStreams[i])
    && (forall i :: 0 <= i < |priceStreams| ==> PricesOf(trace, i) == priceStreams[i])
  }

  /** Each asset's balance once its whole stream is taken: the sum of the
      stream's amounts. */
  function StreamTotals(txStreams: seq<seq<Transaction>>): (r: seq<real>)
    ensures |r| == |txStreams|
  {
    seq(|txStreams|, i requires 0 <= i < |txStreams| => AmountSum(txStreams[i]))
  }

  /** Between rounds, every stream's share of the trace is a prefix of it,
      and the trace is in date order when the streams are. */
  lemma InvariantTakenInOrder(txStreams: seq<seq<Transaction>>, priceStreams: seq<seq<PriceChange>>,
                              transactions: seq<seq<Transaction>>, prices: seq<seq<PriceChange>>, trace: seq<Dispatch>)
    requires ReplayInvariant(txStreams, priceStreams, transactions, prices, trace, AllSorted(txStreams, priceStreams))
    ensures TakenInOrder(txStreams, priceStreams, trace)
  {
    forall i | 0 <= i < |txStreams|
      ensures TxOf(trace, i) <= txStreams[i]
    {
      assert txStreams[i][..|TxOf(trace, i)|] == TxOf(trace, i);
    }
    forall i | 0 <= i < |priceStreams|
      ensures PricesOf(trace, i) <= priceStreams[i]
    {
      assert priceStreams[i][..|PricesOf(trace, i)|] == PricesOf(trace, i);
    }
  }

  /** Once every cursor is exhausted, the trace holds every record. */
  lemma InvariantTakenAll(txStreams: seq<seq<Transaction>>, priceStreams: seq<seq<PriceChange>>,
                          transactions: seq<seq<Transaction>>, prices: seq<seq<PriceChange>>,
                          trace: seq<Dispatch>, sorted: bool)
    requires ReplayInvariant(txStreams, priceStreams, transactions, prices, trace, sorted)
    requires AllExhausted(transactions, prices)
    ensures TakenAll(txStreams, priceStreams, trace)
  {
    RemainingExhausted(transactions);
    RemainingExhausted(prices);
    forall i | 0 <= i < |txStreams|
      ensures TxOf(trace, i) == txStreams[i]
    {
      assert TxOf(trace, i) + [] == TxOf(trace, i);
    }
    forall i | 0 <= i < |priceStreams|
      ensures PricesOf(trace, i) == priceStreams[i]
    {
      assert PricesOf(trace, i) + [] == PricesOf(trace, i);
    }
  }

  /** After a completed run each balance is its stream's total. */
  lemma BalancesOfCompleteRun(txStreams: seq<seq<Transaction>>, priceStreams: seq<seq<PriceChange>>, trace: seq<Dispatch>)
    requires TakenAll(txStreams, priceStreams, trace)
    ensures Balances(trace, |txStreams|) == StreamTotals(txStreams)
  {
  }

  /** The program's mutable state agrees with the records dispatched so far:
      the balances are the sums `trace` gives, the table is well formed, and
      the logs are in step with `trace`. */
  ghost predicate InStep(bal: array<real>, maximalist: array<real>, pm: PriceMap, n: nat,
                         trace: seq<Dispatch>, logs: Logs)
    reads bal, maximalist, pm
  {
    && bal.Length == maximalist.Length == n && bal != maximalist
    && bal[..] == Balances(trace, n)
    && Canonical(pm.rates) && NonzeroRates(pm.rates)
    && LogsMatch(logs, trace, n)
  }

  /** One round for a transaction of asset `idx`: the balance update and
      transaction-log row of `ApplyTransaction`, then the snapshot rows.
      `ok` is false exactly where the program would abort on a missing rate:
      the amount cannot be valued in the unit of account or credited to some
      maximalist slot, or some balance cannot be valued for the snapshot. */
  method TransactionRound(bal: array<real>, maximalist: array<real>, pm: PriceMap, assets: seq<Asset>,
                          uoa: string, logs: Logs, ghost trace: seq<Dispatch>, idx: nat, tx: Transaction)
    returns (ok: bool, logs': Logs)
    requires InStep(bal, maximalist, pm, |assets|, trace, logs) && idx < |assets|
    modifies bal, maximalist
    ensures bal[..] == old(bal[..])[idx := old(bal[idx]) + tx.amount]
    ensures ok <==> && Valuable(pm.rates, assets[idx].name, uoa)
                    && MaximalistValuable(pm.rates, assets, assets[idx].name)
                    && AllValuable(pm.rates, assets, uoa)
    ensures ok ==> forall j :: 0 <= j < |assets| ==>
      maximalist[j] == old(maximalist[j]) + Value(pm.rates, assets[idx].name, assets[j].name, tx.amount)
    ensures ok ==> logs' == Snapshot(logs.(transactions := logs.transactions + [Row(tx.date, Value(pm.rates, assets[idx].name, uoa, tx.amount))]),
                                     tx.date, pm.rates, assets, uoa, bal[..], maximalist[..])
    ensures ok ==> InStep(bal, maximalist, pm, |assets|, trace + [TxDispatch(idx, tx)], logs')
    ensures !ok ==> logs' == logs
  {
    var logged;
    ok, logged := ApplyTransaction(bal, maximalist, assets, pm.rates, uoa, trace, idx, tx);
    logs' := logs;
    if !ok {
      return;
    }
    if !AllValuable(pm.rates, assets, uoa) {
      ok := false;
      return;
    }
    var withRow := logs.(transactions := logs.transactions + [Row(tx.date, logged)]);
    logs' := Snapshot(withRow, tx.date, pm.rates, assets, uoa, bal[..], maximalist[..]);
    TxCountSnoc(trace, TxDispatch(idx, tx));
    LogsStep(logs, trace, TxDispatch(idx, tx), [Row(tx.date, logged)], Total(pm.rates, assets, uoa, bal[..]), logs', |assets|);
  }

  /** One round for a price change of pair `idx` (the `Event::PriceChange`
      arm): the table is updated, then the snapshot rows are written. `ok`
      is false exactly where the program would abort because some balance
      cannot be valued. */
  method PriceRound(bal: array<real>, maximalist: array<real>, pm: PriceMap, assets: seq<Asset>,
                    uoa: string, logs: Logs, ghost trace: seq<Dispatch>, idx: nat, pair: Pair, change: PriceChange)
    returns (ok: bool, logs': Logs)
    requires InStep(bal, maximalist, pm, |assets|, trace, logs) && change.newPrice != 0.0
    modifies pm
    ensures pm.rates == Quoted(old(pm.rates), pair.accounting, pair.priceOf, change.newPrice)
    ensures ok <==> AllValuable(pm.rates, assets, uoa)
    ensures ok ==> logs' == Snapshot(logs, change.date, pm.rates, assets, uoa, bal[..], maximalist[..])
    ensures ok ==> InStep(bal, maximalist, pm, |assets|, trace + [PriceDispatch(idx, change)], logs')
    ensures !ok ==> logs' == logs
  {
    QuotedKeepsInvariant(pm.rates, pair.accounting, pair.priceOf, change.newPrice);
    pm.Update(pair.accounting, pair.priceOf, change.newPrice);
    BalancesAfterPriceChange(trace, |assets|, idx, change);
    logs' := logs;
    ok := AllValuable(pm.rates, assets, uoa);
    if !ok {
      return;
    }
    logs' := Snapshot(logs, change.date, pm.rates, assets, uoa, bal[..], maximalist[..]);
    TxCountSnoc(trace, PriceDispatch(idx, change));
    LogsStep(logs, trace, PriceDispatch(idx, change), [], Total(pm.rates, assets, uoa, bal[..]), logs', |assets|);
  }

  /** The loop body for the scheduler's choice of transaction cursor `idx`:
      the round runs and the cursor advances. The cursor bookkeeping always
      stays in step; when the round finds its rates the state and the logs
      stay in step and the loop is still on schedule, otherwise the run stops
      here. */
  method TransactionStep(bal: array<real>, maximalist: array<real>, pm: PriceMap, assets: seq<Asset>,
                         pairs: seq<Pair>, uoa: string, logs: Logs,
                         ghost txStreams: seq<seq<Transaction>>, ghost priceStreams: seq<seq<PriceChange>>,
                         ghost sorted: bool, ghost seed: Rates, ghost full: seq<Dispatch>,
                         transactions: seq<seq<Transaction>>, prices: seq<seq<PriceChange>>,
                         ghost trace: seq<Dispatch>, idx: nat)
    returns (ok: bool, logs': Logs, transactions': seq<seq<Transaction>>, ghost trace': seq<Dispatch>)
    requires ReplayInvariant(txStreams, priceStreams, transactions, prices, trace, sorted)
    requires InStep(bal, maximalist, pm, |assets|, trace, logs) && |txStreams| == |assets|
    requires OnSchedule(seed, pairs, assets, uoa, full, transactions, prices, trace, pm.rates)
    requires NextEvent(transactions, prices) == Some(OnTransaction(idx))
    modifies bal, maximalist
    ensures transactions' == Advance(transactions, idx)
    ensures trace' == trace + [TxDispatch(idx, transactions[idx][0])]
    ensures ReplayInvariant(txStreams, priceStreams, transactions', prices, trace', sorted)
    ensures ok ==> InStep(bal, maximalist, pm, |assets|, trace', logs')
    ensures ok ==> OnSchedule(seed, pairs, assets, uoa, full, transactions', prices, trace', pm.rates)
    ensures !ok ==> Stopped(seed, pairs, assets, uoa, full, trace')
  {
    var tx := transactions[idx][0];
    TakeTransaction(txStreams, priceStreams, transactions, prices, trace, sorted, idx);
    ok, logs' := TransactionRound(bal, maximalist, pm, assets, uoa, logs, trace, idx, tx);
    TransactionOnSchedule(seed, pairs, assets, uoa, full, transactions, prices, trace, pm.rates, idx, ok);
    transactions' := Advance(transactions, idx);
    trace' := trace + [TxDispatch(idx, tx)];
  }

  /** The loop body for the scheduler's choice of price cursor `idx`, in the
      same terms. */
  method PriceChangeStep(bal: array<real>, maximalist: array<real>, pm: PriceMap, assets: seq<Asset>,
                         pairs: seq<Pair>, uoa: string, logs: Logs,
                         ghost txStreams: seq<seq<Transaction>>, ghost priceStreams: seq<seq<PriceChange>>,
                         ghost sorted: bool, ghost seed: Rates, ghost full: seq<Dispatch>,
                         transactions: seq<seq<Transaction>>, prices: seq<seq<PriceChange>>,
                         ghost trace: seq<Dispatch>, idx: nat)
    returns (ok: bool, logs': Logs, prices': seq<seq<PriceChange>>, ghost trace': seq<Dispatch>)
    requires ReplayInvariant(txStreams, priceStreams, transactions, prices, trace, sorted)
    requires InStep(bal, maximalist, pm, |assets|, trace, logs)
    requires |priceStreams| == |pairs| && NonzeroPrices(priceStreams)
    requires OnSchedule(seed, pairs, assets, uoa, full, transactions, prices, trace, pm.rates)
    requires NextEvent(transactions, prices) == Some(OnPriceChange(idx))
    modifies pm
    ensures prices' == Advance(prices, idx)
    ensures trace' == trace + [PriceDispatch(idx, prices[idx][0])]
    ensures ReplayInvariant(txStreams, priceStreams, transactions, prices', trace', sorted)
    ensures ok ==> InStep(bal, maximalist, pm, |assets|, trace', logs')
    ensures ok ==> OnSchedule(seed, pairs, assets, uoa, full, transactions, prices', trace', pm.rates)
    ensures !ok ==> Stopped(seed, pairs, assets, uoa, full, trace')
  {
    var change := prices[idx][0];
    TakePriceChange(txStreams, priceStreams, transactions, prices, trace, sorted, idx);
    ghost var before := pm.rates;
    ok, logs' := PriceRound(bal, maximalist, pm, assets, uoa, logs, trace, idx, pairs[idx], change);
    PriceChangeOnSchedule(seed, pairs, assets, uoa, full, transactions, prices, trace, before, idx, ok);
    prices' := Advance(prices, idx);
    trace' := trace + [PriceDispatch(idx, change)];
  }

  /** Everything before the loop: the table seeded from each pair's first
      price, zeroed balance vectors, and empty logs. */
  method Start(pairs: seq<Pair>, priceStreams: seq<seq<PriceChange>>, n: nat)
    returns (pm: PriceMap, bal: array<real>, maximalist: array<real>, logs: Logs)
    requires |priceStreams| == |pairs| && NonzeroPrices(priceStreams)
    ensures fresh(pm) && fresh(bal) && fresh(maximalist)
    ensures pm.rates == Seeded(map[], pairs, priceStreams, |pairs|)
    ensures bal[..] == maximalist[..] == seq(n, _ => 0.0)
    ensures logs == Logs([], [], seq(n, _ => []), seq(n, _ => []))
    ensures InStep(bal, maximalist, pm, n, [], logs)
  {
    pm := new PriceMap();
    Seed(pm, pairs, priceStreams);
    SeededQuotesEveryPair(map[], pairs, priceStreams, |pairs|);
    bal := new real[n](_ => 0.0);
    maximalist := new real[n](_ => 0.0);
    logs := Logs([], [], seq(n, _ => []), seq(n, _ => []));
    BalancesInitially(n);
  }

  /** The replay loop of `main`. The streams are the parsed records of each
      asset's and each pair's file, in file order.

      The records are dispatched in the order `Schedule` gives, which is the
      scheduler's choice round after round. The run completes exactly when
      every round of that schedule finds the rates it converts with;
      otherwise it stops at the first round that does not. Every record taken
      from a stream is taken in stream order; when every stream is in date
      order, records are dispatched in date order; a completed run has taken
      one round per record, each asset's balance is the sum of its stream's
      amounts, and one balance row is written per dispatched record, dated
      like it. */
  method Run(assets: seq<Asset>, pairs: seq<Pair>, uoa: string,
             txStreams: seq<seq<Transaction>>, priceStreams: seq<seq<PriceChange>>)
    returns (outcome: Outcome, logs: Logs, balances: seq<real>, ghost trace: seq<Dispatch>)
    requires |txStreams| == |assets| && |priceStreams| == |pairs|
    requires NonzeroPrices(priceStreams)
    ensures trace <= Schedule(txStreams, priceStreams)
    ensures outcome == Completed ==> trace == Schedule(txStreams, priceStreams)
    ensures outcome == Completed <==>
      RunsThrough(Seeded(map[], pairs, priceStreams, |pairs|), pairs, assets, uoa, Schedule(txStreams, priceStreams))
    ensures outcome == MissingRate ==> Aborted(Seeded(map[], pairs, priceStreams, |pairs|), pairs, assets, uoa, trace)
    ensures TakenInOrder(txStreams, priceStreams, trace)
    ensures outcome == Completed ==> TakenAll(txStreams, priceStreams, trace) && LogsMatch(logs, trace, |assets|)
    ensures outcome == Completed ==> balances == StreamTotals(txStreams)
    ensures outcome == Completed ==> |logs.balances| == Remaining(txStreams) + Remaining(priceStreams)
  {
    var pm, bal, maximalist;
    pm, bal, maximalist, logs := Start(pairs, priceStreams, |assets|);
    var transactions, prices := txStreams, priceStreams;
    trace := [];
    outcome := Completed;
    balances := [];
    ghost var sorted := AllSorted(txStreams, priceStreams);
    ghost var seed := Seeded(map[], pairs, priceStreams, |pairs|);
    ghost var full := Schedule(txStreams, priceStreams);
    ReplayInvariantInitially(txStreams, priceStreams);

    while true
      invariant ReplayInvariant(txStreams, priceStreams, transactions, prices, trace, sorted)
      invariant InStep(bal, maximalist, pm, |assets|, trace, logs)
      invariant OnSchedule(seed, pairs, assets, uoa, full, transactions, prices, trace, pm.rates)
      decreases Remaining(transactions) + Remaining(prices)
    {
      var event := NextEvent(transactions, prices);
      if event == None {
        OnScheduleAtEnd(seed, pairs, assets, uoa, full, transactions, prices, trace, pm.rates);
        InvariantTakenAll(txStreams, priceStreams, transactions, prices, trace, sorted);
        BalancesOfCompleteRun(txStreams, priceStreams, trace);
        break;
      }
      var ok;
      var idx := event.value.idx;
      if event.value.OnTransaction? {
        ok, logs, transactions, trace := TransactionStep(bal, maximalist, pm, assets, pairs, uoa, logs,
          txStreams, priceStreams, sorted, seed, full, transactions, prices, trace, idx);
      } else {
        ok, logs, prices, trace := PriceChangeStep(bal, maximalist, pm, assets, pairs, uoa, logs,
          txStreams, priceStreams, sorted, seed, full, transactions, prices, trace, idx);
      }
      if !ok {
        outcome := MissingRate;
        InvariantTakenInOrder(txStreams, priceStreams, transactions, prices, trace);
        return;
      }
    }
    InvariantTakenInOrder(txStreams, priceStreams, transactions, prices, trace);
    balances := bal[..];
  }
}
