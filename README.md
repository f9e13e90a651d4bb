# multi_currency: merge scheduler, price table and balance ledger

This project models the core of `multi_currency`, a batch tool that replays a
portfolio's history. It reads one stream of transactions per asset and one
stream of price changes per currency pair. It merges them in date order. After
every event it reports each asset's balance, and the sum of all balances, in a
chosen unit of account. Beside the real balances it keeps "maximalist"
balances: what each asset's balance would be if every transaction had been
made in that asset.

The model has five modules:

- `Lexicographic`: the order Rust's `>` uses on `String`. Dafny's `<` on
  sequences means "proper prefix", so the order is defined from scratch. It is
  proved irreflexive, asymmetric, total on distinct strings and transitive.
- `PriceTable`: the `PriceMap` exchange-rate table.
  - `PriceMap` is a class whose `rates` field the `Update` method rewrites.
  - `Quoted` is the table value after an update.
  - `Convert` is `convert` as a function of the table value, since the
    program's `convert` only reads the map.
- `Scheduler`: the selection of the next event.
  - Each input stream is a cursor: the sequence of its unread records, whose
    head is the buffered record.
  - `MinDate` is the `enumerate().fold(..)` over buffered dates.
  - `Select` is the `match` on the two minima.
  - `NextEvent` is one round's choice.
  - `Advance` is the `mem::replace` that moves the chosen cursor on.
- `Ledger`: valuing an amount in another currency, with the name-equality
  guard the loop writes before each `convert`. It also holds the reported
  total and the in-place maximalist update (`CreditMaximalist`, a loop over an
  array).
- `Replay`: the body of `main` once the streams are parsed.
  - `Start` seeds the table from each pair's first buffered price and zeroes
    both balance vectors (arrays).
  - `Run` is the `loop`. Each round does `NextEvent`, then `TransactionRound`
    or `PriceRound`, then the snapshot rows.
  - A ghost `trace` records every dispatched record. The loop invariant ties
    the cursors, balances, table and logs to it.
  - `Schedule` is the whole sequence of records the loop dispatches when no
    round aborts: `NextEvent`'s choice, round after round. `RatesAfter` is the
    table after a prefix of it, and `RoundOk` says whether one round finds
    every rate it converts with. `Run` dispatches a prefix of `Schedule`, and
    completes exactly when every round of `Schedule` is `RoundOk`; otherwise
    it stops at the first round that is not.

`Scenario` works through one asset "BTC" and one USD/BTC pair on concrete
numbers: the schedule of its four rounds, that every round finds its rates
(so `Run` completes), and, on the table and balances the run holds after
each round, the balance and the row written to the balance log.

Two behaviours of the code are easy to misread, and the model states them as
the code has them:

- **Direction of a quote.** After `update(accounting, priced, p)`,
  `convert(priced, accounting, x)` is `x * p` and `convert(accounting, priced,
  x)` is `x / p` (`ConvertAfterUpdate`). So a quote of BTC in USD at 10000
  stores 10000 under `("BTC", "USD")`: the stored rate is the price of the
  smaller name in the larger one.
- **Converting a currency into itself.** `convert(X, X, a)` is not the
  identity. It takes the dividing branch, which needs a table entry under
  `(X, X)`, and then divides `a` by that entry (`SelfConversionNeedsEntry`).
  The program never calls it that way: every call site first checks the names
  for equality. The model puts that guard in one place, `Ledger.Value`.

## Model

| member | source | states |
|---|---|---|
| Lexicographic.Less | src/main.rs:107-121 | defines Rust's `>` on `String` (`b > a` is `Less(a, b)`): first differing character, or proper prefix; `LessIrreflexive`, `LessAsymmetric`, `LessTotal`, `LessTransitive` and `Trichotomy` state that it is a strict total order (no contract of its own) |
| Lexicographic.LessIrreflexive | src/main.rs:108 | no name sorts before itself |
| Lexicographic.LessAsymmetric | src/main.rs:108 | two names never sort before each other both ways |
| Lexicographic.LessTotal | src/main.rs:116 | of two different names one sorts before the other |
| Lexicographic.LessTransitive | src/main.rs:116 | the name order is transitive |
| Lexicographic.Trichotomy | src/main.rs:107-121 | two names are equal exactly when neither sorts before the other |
| PriceTable.CanonicalKey | src/main.rs:107-113 | the key a pair is stored under is its two names, smaller first |
| PriceTable.Quoted | src/main.rs:107-113 | `update` writes the pair's canonical entry (the price if `accounting > priced`, else its reciprocal) and changes no other entry |
| PriceTable.PriceMap.constructor | src/main.rs:179 | the table starts empty |
| PriceTable.PriceMap.Update | src/main.rs:107-113 | the method leaves the table equal to `Quoted` of the old table |
| PriceTable.Convertible | src/main.rs:115-121 | defines when `convert` finds its key, and a nonzero rate where it divides, instead of panicking in `unwrap`; `ConvertibleBothWays` characterizes it (no contract of its own) |
| PriceTable.Convert | src/main.rs:115-121 | defines `convert`: multiply by the canonical entry when `target` is the larger name, else divide by it; its properties are `ConvertAfterUpdate`, `ConvertRoundTrip`, `ConvertAdditive` and `SelfConversionNeedsEntry` (no contract of its own) |
| PriceTable.ConvertibleBothWays | src/main.rs:115-121 | two different names convert both ways exactly when their canonical entry exists and is nonzero |
| PriceTable.ConvertAfterUpdate | src/main.rs:107-121 | after `update(accounting, priced, p)`, `convert(priced, accounting, x) = x*p` and `convert(accounting, priced, x) = x/p`, whichever way the names sort |
| PriceTable.ConvertRoundTrip | src/main.rs:115-121 | converting to a currency and back gives the amount back |
| PriceTable.SelfConversionNeedsEntry | src/main.rs:115-121 | `convert(x, x, a)` is defined only with an entry under `(x, x)`, and is then `a` divided by it |
| PriceTable.LastPriceWins | src/main.rs:107-113 | a second update of the same quote replaces the first |
| PriceTable.ReversedQuoteSharesEntry | src/main.rs:107-113 | quoting a pair in the other direction overwrites the same single entry |
| PriceTable.QuotedKeepsInvariant | src/main.rs:107-113 | updates keep every key in canonical order and every rate nonzero |
| PriceTable.ConvertAdditive | src/main.rs:115-121 | conversion of a sum is the sum of the conversions |
| Scheduler.TxDates | src/main.rs:209-212 | defines the slots the transaction fold scans, the buffered date of each cursor or `None` when exhausted; `MinTxDate` states what the fold finds in them (no contract of its own) |
| Scheduler.PriceDates | src/main.rs:226-229 | the same slots for the price-change cursors; `MinPriceDate` states what the fold finds in them (no contract of its own) |
| Scheduler.Keep | src/main.rs:213-223 | defines one step of the fold's closure, keeping the running minimum only when it is strictly earlier; `MinDate` states what the fold of it computes (no contract of its own) |
| Scheduler.MinDate | src/main.rs:209-224 | the fold is `None` exactly when all slots are empty, and otherwise finds the minimum date at the last slot that holds it |
| Scheduler.LastMinimumUnique | src/main.rs:209-224 | only one slot and date are the last minimum |
| Scheduler.MinDateIsLastMinimum | src/main.rs:209-224 | the fold returns `(i, d)` if and only if slot `i` is the last minimum with date `d` |
| Scheduler.MinTxDate | src/main.rs:209-224 | the transaction fold, stated over the cursors: none when all are exhausted, else the last earliest buffered transaction |
| Scheduler.MinPriceDate | src/main.rs:226-241 | the same for the price-change fold |
| Scheduler.Select | src/main.rs:243-252 | defines the `match` on the two minima: stop on two `None`s, otherwise a transaction only with a strictly earlier date; `NextEvent` and `NextEventDetermined` state what it chooses (no contract of its own) |
| Scheduler.NextEvent | src/main.rs:209-252 | the loop stops exactly when every cursor is exhausted; a transaction is chosen only if it is earliest among transactions, last among equals, and strictly before every buffered price change; a price change is chosen only if it is earliest among price changes, last among equals, and not after any buffered transaction |
| Scheduler.NextEventDetermined | src/main.rs:243-252 | whenever a cursor meets those conditions it is the one chosen, so the choice is an if-and-only-if |
| Scheduler.TieBreakExamples | src/main.rs:243-252 | of two transactions on a date the later cursor goes first, a price change precedes a same-day transaction, and an earlier transaction precedes a price change |
| Scheduler.RemainingExhausted | src/main.rs:244 | exhausted cursors hold no records |
| Scheduler.RemainingUpdate | src/main.rs:263 | replacing one cursor changes the record count by the difference in length |
| Scheduler.Advance | src/main.rs:263 | the chosen cursor drops its buffered record, the others are unchanged, and one record fewer remains |
| Ledger.Valuable | src/main.rs:265-269 | defines when the guarded conversion succeeds: the same name, or `Convertible`; `Value` requires it and `ApplyTransaction` fails exactly when it does not hold (no contract of its own) |
| Ledger.AllValuable | src/main.rs:297-316 | defines when every balance can be valued in the unit of account, so the snapshot does not panic; `PriceRound` fails exactly when it does not hold (no contract of its own) |
| Ledger.MaximalistValuable | src/main.rs:272-278 | defines when a transaction can be credited to every maximalist slot; `ApplyTransaction` and `TransactionRound` fail when it does not hold (no contract of its own) |
| Ledger.Value | src/main.rs:265-269 | defines the guarded conversion written before each `convert`: an amount in the target's own name is taken as is; `ValueAdditive` and `TotalAfterTransaction` state its properties (no contract of its own) |
| Ledger.Valuations | src/main.rs:297-316 | each balance valued in the unit of account, one per asset |
| Ledger.Sum | src/main.rs:321 | defines `.sum()` left to right; `SumUpdate` and `SumZeros` state its properties (no contract of its own) |
| Ledger.Total | src/main.rs:297-321 | defines the total written to the balance log, the sum of the valuations; `TotalOfZeroBalances` and `TotalAfterTransaction` state its properties (no contract of its own) |
| Ledger.ValueAdditive | src/main.rs:265-269 | valuing a sum in another currency is the sum of the values |
| Ledger.SumUpdate | src/main.rs:297-321 | raising one summand raises the sum by the same amount |
| Ledger.SumZeros | src/main.rs:297-321 | a sum of zeros is zero |
| Ledger.TotalOfZeroBalances | src/main.rs:186-191 | with the zeroed balances the total is zero whatever the rates |
| Ledger.TotalAfterTransaction | src/main.rs:264-270 | a transaction raises the total by the amount written to the transaction log |
| Ledger.CreditMaximalist | src/main.rs:272-278 | every maximalist slot gains the amount, unconverted for the slot of the same name and converted into the slot's asset otherwise |
| Replay.Seeded | src/main.rs:181-185 | defines the table after the seeding loop has visited a number of pairs; `Seed` and `SeededQuotesEveryPair` state its properties (no contract of its own) |
| Replay.SeededQuotesEveryPair | src/main.rs:181-185 | seeding keeps the table canonical with nonzero rates and writes an entry for every pair with a buffered price |
| Replay.Seed | src/main.rs:181-185 | the seeding loop leaves the table equal to the pairs' first prices quoted in configuration order |
| Replay.ReplayInvariantInitially | src/main.rs:158-208 | before the first round nothing is taken and every cursor holds its whole stream |
| Replay.TakeTxKeepsStreams | src/main.rs:255-263 | after taking a transaction, the records taken from each stream followed by its cursor still give the stream |
| Replay.TakePriceKeepsStreams | src/main.rs:282-290 | the same for taking a price change |
| Replay.TxKeepsPriceSplit | src/main.rs:255-263 | a transaction leaves the price streams' shares alone |
| Replay.PriceKeepsTxSplit | src/main.rs:282-290 | a price change leaves the transaction streams' shares alone |
| Replay.TakeTxKeepsOrder | src/main.rs:243-263 | with sorted streams, taking the chosen transaction keeps the dispatched records in date order |
| Replay.TakePriceKeepsOrder | src/main.rs:243-290 | with sorted streams, taking the chosen price change keeps the dispatched records in date order |
| Replay.TakeTransaction | src/main.rs:255-263 | taking the chosen transaction keeps the loop invariant and adds one transaction to the trace |
| Replay.TakePriceChange | src/main.rs:282-290 | taking the chosen price change keeps the loop invariant, adds no transaction, and its price is nonzero |
| Replay.BufferedPriceNonzero | src/main.rs:290-292 | a buffered price comes from its stream, so it is nonzero |
| Replay.Balances | src/main.rs:264 | each asset's balance after the dispatched records: the sum of the amounts taken from its stream |
| Replay.BalancesInitially | src/main.rs:186-188 | before any record every balance is zero |
| Replay.BalancesAfterTransaction | src/main.rs:264 | a transaction raises its asset's balance by its amount and no other |
| Replay.BalancesAfterPriceChange | src/main.rs:282-294 | a price change leaves every balance alone |
| Replay.InvariantTakenInOrder | src/main.rs:208-324 | between rounds every stream's share is a prefix of it, in date order when the streams are sorted |
| Replay.InvariantTakenAll | src/main.rs:243-244 | once every cursor is exhausted, every record of every stream has been taken |
| Replay.BalancesOfCompleteRun | src/main.rs:264 | after a completed run each balance is its stream's total |
| Replay.LogsStep | src/main.rs:270-323 | one round's rows keep one balance row per dispatched record, dated like it, and one transaction row per transaction |
| Replay.Snapshot | src/main.rs:297-323 | after an event each asset log gains the balance valued in the unit of account, each maximalist log the maximalist balance, and the balance log their total |
| Replay.ApplyTransaction | src/main.rs:264-278 | the asset's balance grows by the amount; it succeeds exactly when the amount can be valued in the unit of account and credited to every maximalist slot, and then returns the logged value and credits every slot |
| Replay.TransactionRound | src/main.rs:255-323 | a transaction round raises the asset's balance by the amount, credits every maximalist slot with the amount valued in the slot's asset, writes the valued amount to the transaction log and the snapshot rows, and fails exactly when one of those conversions has no rate |
| Replay.PriceRound | src/main.rs:282-323 | a price-change round updates the table and writes the snapshot rows, failing exactly when a balance cannot be valued |
| Replay.RatesAfter | src/main.rs:282-294 | defines the table after a run of dispatched records: each price change quotes its pair, in order (no contract of its own) |
| Replay.RoundOk | src/main.rs:264-321 | defines whether one round finds every rate it converts with: the transaction log value, every maximalist credit and every snapshot value (no contract of its own) |
| Replay.Schedule | src/main.rs:208-294 | the records the loop dispatches when no round aborts, each `NextEvent`'s choice on the cursors the earlier ones leave: one per record of every stream |
| Replay.TransactionOnSchedule | src/main.rs:255-280 | a transaction round on the scheduler's choice that finds its rates keeps the run on the schedule with the same table; one that does not stops the run at the first failing round |
| Replay.PriceChangeOnSchedule | src/main.rs:282-294 | a price-change round on the scheduler's choice quotes the pair; if every balance can then be valued the run stays on the schedule, otherwise it stops at the first failing round |
| Replay.OnScheduleAtEnd | src/main.rs:243-244 | when the scheduler finds no record left, the dispatched records are the whole schedule and every round found its rates |
| Replay.TransactionStep | src/main.rs:255-280 | the loop body on a transaction: the cursor moves on and the cursor bookkeeping stays in step; with all rates found the state, logs and schedule stay in step, otherwise the run stops there |
| Replay.PriceChangeStep | src/main.rs:282-294 | the same for a price change |
| Replay.Start | src/main.rs:179-191 | the table is seeded, both balance vectors are zero, the logs are empty |
| Replay.Run | src/main.rs:179-324 | the records are dispatched in the scheduler's order (a prefix of `Schedule`); the run completes exactly when every round of the schedule finds its rates, and otherwise stops at the first round that does not; every stream is taken in stream order, in date order when sorted; a completed run takes every record in one round each, writes one dated balance row per record, and ends with each balance equal to its stream's total |
| Scenario.BitcoinSchedule | src/main.rs:208-294 | on the BTC/USD example the rounds are: day-1 price change, day-1 transaction, day-2 price change, day-2 transaction |
| Scenario.BitcoinRunCompletes | src/main.rs:179-324 | on the BTC/USD example every round finds its rates, so the run completes, and the BTC balance ends at 2 |
| Scenario.BitcoinRates | src/main.rs:181-292 | on the BTC/USD example the seeded table holds 10000 under (BTC, USD), the first round requotes it at 10000 and the third at 20000 |
| Scenario.BitcoinBalances | src/main.rs:264 | on the BTC/USD example the BTC balance is 0 after the first round, 1 after the second and third, and 2 after the fourth |
| Scenario.BitcoinTotals | src/main.rs:297-323 | on the BTC/USD example, with the table and balances of the run itself (`RatesAfter` of the seeded table, `Balances` of the rounds so far), every balance can be valued and the balance-log rows are 0, 10000, 20000 and 40000 |

## Left out

- Reading the configuration (TOML), the command-line arguments, opening and writing files, and CSV parsing are left out. These include the price readers' default header row and delimiter, and the transaction readers' configured separator. The streams are given as already-parsed records in file order.
- Dates are whole numbers. Parsing them with a date format is left out; only their order matters to the loop.
- Amounts and rates are exact reals, not `f64`. Rounding, infinities and NaN are not modelled. For that reason `PriceTable.PriceMap.Update`, `PriceTable.Quoted` and `Replay.Run` require nonzero prices. With `f64`, a zero price quoted with `accounting` sorting after `priced` is stored as 0.0 and a later conversion that divides by it gives an infinity or NaN; quoted the other way, its reciprocal, an infinity, is stored.
- `PriceTable.Convertible` also asks that a rate it divides by be nonzero; with nonzero prices every stored rate is nonzero (`QuotedKeepsInvariant`), so this does not change the loop's behaviour.
- `HashMap` internals (hashing, capacity) are left out; the table is a Dafny `map`.
- A missing rate makes the program panic. The model returns `Outcome.MissingRate` instead and does not say which conversion failed.
- Replay.TransactionRound: on a missing rate it returns the logs as they were before the round. The program may already have written some of that round's rows before it panics.
- Replay.PriceRound: on a missing rate it returns the logs as they were before the round. The program may already have written some of that round's rows before it panics.
- Replay.Run: its contract states the order of the rounds, when the run completes, and the number and dates of the rows of a completed run. The rows' values, and the maximalist balances, are stated per round by `TransactionRound`, `PriceRound` and `Snapshot`, not as a function of the whole run.
- A read or parse error while refilling a cursor (the `?` after `next()`) is not modelled. Each stream is a finite, well-formed sequence.
