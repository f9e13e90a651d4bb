/** The bitcoin example on one asset and one pair: asset "BTC" with a
    transaction of +1 on day 1 and on day 2, the pair quoting BTC in USD at
    10000 on day 1 and 20000 on day 2, unit of account "USD". It follows the
    replay's schedule round by round: which record each round dispatches,
    that every round finds its rates (so `Replay.Run` completes on these
    streams), the balance, and the balance-log row written after each round. */
module Scenario {
  import opened Lexicographic
  import opened PriceTable
  import opened Scheduler
  import opened Ledger
  import opened Replay

  const btc: seq<Transaction> := [Transaction(1, 1.0), Transaction(2, 1.0)]
  const usdBtc: seq<PriceChange> := [PriceChange(1, 10000.0), PriceChange(2, 20000.0)]
  const pairs: seq<Pair> := [Pair("USD", "BTC")]
  const assets: seq<Asset> := [Asset("BTC")]

  /** The four rounds of the example, in the order the loop takes them. */
  const rounds: seq<Dispatch> :=
    [PriceDispatch(0, usdBtc[0]), TxDispatch(0, btc[0]), PriceDispatch(0, usdBtc[1]), TxDispatch(0, btc[1])]

  /** The rounds in order: the day-1 price change goes before the day-1
      transaction, and likewise on day 2. */
  lemma BitcoinSchedule()
    ensures Schedule([btc], [usdBtc]) == rounds
  {
    var p1: seq<seq<PriceChange>> := [usdBtc[1..]];
    NextEventDetermined([btc], [usdBtc], 0);
    NextEventDetermined([btc], p1, 0);
    assert Advance([usdBtc], 0) == p1;
    BitcoinDayTwo();
  }

  /** The rounds left once day 1 is through. */
  lemma BitcoinDayTwo()
    ensures Schedule([btc], [usdBtc[1..]]) == rounds[1..]
  {
    var t1, p1: seq<seq<PriceChange>> := [btc[1..]], [usdBtc[1..]];
    NextEventDetermined([btc], p1, 0);
    NextEventDetermined(t1, p1, 0);
    NextEventDetermined(t1, [[]], 0);
    assert Advance([btc], 0) == t1;
    assert Schedule([[]], [[]]) == [];
    assert Schedule(t1, [[]]) == [TxDispatch(0, btc[1])];
    assert Schedule(t1, p1) == [PriceDispatch(0, usdBtc[1]), TxDispatch(0, btc[1])];
  }

  /** The table before each round: seeded at 10000, requoted at 10000 by
      the first round and at 20000 by the third. */
  lemma BitcoinRates()
    ensures Seeded(map[], pairs, [usdBtc], 1) == map[("BTC", "USD") := 10000.0]
    ensures RatesAfter(map[("BTC", "USD") := 10000.0], pairs, rounds[..1]) == map[("BTC", "USD") := 10000.0]
    ensures RatesAfter(map[("BTC", "USD") := 10000.0], pairs, rounds[..2]) == map[("BTC", "USD") := 10000.0]
    ensures RatesAfter(map[("BTC", "USD") := 10000.0], pairs, rounds[..3]) == map[("BTC", "USD") := 20000.0]
  {
    var seed := map[("BTC", "USD") := 10000.0];
    assert Less("BTC", "USD");
    assert Seeded(map[], pairs, [usdBtc], 0) == map[];
    assert rounds[..1][..0] == [];
    assert rounds[..2][..1] == rounds[..1];
    assert rounds[..3][..2] == rounds[..2];
    assert RatesAfter(seed, pairs, rounds[..1]) == seed;
    assert RatesAfter(seed, pairs, rounds[..2]) == seed;
    assert RatesAfter(seed, pairs, rounds[..3]) == Quoted(seed, "USD", "BTC", 20000.0);
  }

  /** Every round of the schedule finds its rates, so the run completes,
      with BTC's balance ending at 2. */
  lemma BitcoinRunCompletes()
    ensures RunsThrough(Seeded(map[], pairs, [usdBtc], 1), pairs, assets, "USD", Schedule([btc], [usdBtc]))
    ensures StreamTotals([btc]) == [2.0]
  {
    BitcoinSchedule();
    BitcoinRates();
    assert Less("BTC", "USD");
    forall k | 0 <= k < |rounds|
      ensures RoundOk(RatesAfter(map[("BTC", "USD") := 10000.0], pairs, rounds[..k]), pairs, assets, "USD", rounds[k])
    {
      if k == 0 {
        assert rounds[..0] == [];
      }
    }
    assert btc[..1] == [btc[0]];
    assert AmountSum(btc) == 2.0;
  }

  /** BTC's balance after each round: 0 after the day-1 price change, 1
      after the day-1 transaction and the day-2 price change, 2 at the end. */
  lemma BitcoinBalances()
    ensures Balances(rounds[..1], 1) == [0.0]
    ensures Balances(rounds[..2], 1) == [1.0]
    ensures Balances(rounds[..3], 1) == [1.0]
    ensures Balances(rounds, 1) == [2.0]
  {
    BalancesInitially(1);
    assert rounds[..1] == [] + [rounds[0]];
    BalancesAfterPriceChange([], 1, 0, usdBtc[0]);
    assert rounds[..2] == rounds[..1] + [rounds[1]];
    BalancesAfterTransaction(rounds[..1], 1, 0, btc[0]);
    assert rounds[..3] == rounds[..2] + [rounds[2]];
    BalancesAfterPriceChange(rounds[..2], 1, 0, usdBtc[1]);
    assert rounds == rounds[..3] + [rounds[3]];
    BalancesAfterTransaction(rounds[..3], 1, 0, btc[1]);
  }

  /** The rows of the balance log, on the table and balances the run holds
      after each round (the values `Snapshot` writes): 0 after the day-1
      price change, 10000 after the day-1 transaction, 20000 after the day-2
      price change, and 40000 after the day-2 transaction. */
  lemma BitcoinTotals()
    ensures AllValuable(RatesAfter(Seeded(map[], pairs, [usdBtc], 1), pairs, rounds[..1]), assets, "USD")
    ensures Total(RatesAfter(Seeded(map[], pairs, [usdBtc], 1), pairs, rounds[..1]), assets, "USD",
                  Balances(rounds[..1], 1)) == 0.0
    ensures AllValuable(RatesAfter(Seeded(map[], pairs, [usdBtc], 1), pairs, rounds[..2]), assets, "USD")
    ensures Total(RatesAfter(Seeded(map[], pairs, [usdBtc], 1), pairs, rounds[..2]), assets, "USD",
                  Balances(rounds[..2], 1)) == 10000.0
    ensures AllValuable(RatesAfter(Seeded(map[], pairs, [usdBtc], 1), pairs, rounds[..3]), assets, "USD")
    ensures Total(RatesAfter(Seeded(map[], pairs, [usdBtc], 1), pairs, rounds[..3]), assets, "USD",
                  Balances(rounds[..3], 1)) == 20000.0
    ensures AllValuable(RatesAfter(Seeded(map[], pairs, [usdBtc], 1), pairs, rounds), assets, "USD")
    ensures Total(RatesAfter(Seeded(map[], pairs, [usdBtc], 1), pairs, rounds), assets, "USD",
                  Balances(rounds, 1)) == 40000.0
  {
    BitcoinRates();
    BitcoinBalances();
    var day1, day2 := map[("BTC", "USD") := 10000.0], map[("BTC", "USD") := 20000.0];
    assert Less("BTC", "USD");
    assert rounds[..4] == rounds;
    assert RatesAfter(day1, pairs, rounds) == day2 by {
      assert rounds[..3] == rounds[..|rounds| - 1];
    }
    assert Valuations(day1, assets, "USD", [0.0]) == [0.0];
    assert Valuations(day1, assets, "USD", [1.0]) == [10000.0];
    assert Valuations(day2, assets, "USD", [1.0]) == [20000.0];
    assert Valuations(day2, assets, "USD", [2.0]) == [40000.0];
  }
}
