/** The merge scheduler of `main`'s loop in src/main.rs: each input stream is
    a cursor holding its not yet consumed records (the head is the buffered
    record, the empty sequence means exhausted); each round picks the earliest
    buffered record across all transaction and price-change cursors and
    advances that one cursor. Dates are whole days, as `int`. */
module Scheduler {

  datatype Option<T> = None | Some(value: T)

  /** A parsed record of an asset's transaction stream. */
  datatype Transaction = Transaction(date: int, amount: real)

  /** A parsed record of a currency pair's price stream. */
  datatype PriceChange = PriceChange(date: int, newPrice: real)

  /** The event a round selects: which cursor to advance. */
  datatype Event = OnTransaction(idx: nat) | OnPriceChange(idx: nat)

  /** The buffered dates of the transaction cursors (`transactions.iter().map(|tx| tx.as_ref().map(|tx| tx.date))`). */
  function TxDates(cursors: seq<seq<Transaction>>): seq<Option<int>>
  {
    seq(|cursors|, i requires 0 <= i < |cursors| => if cursors[i] == [] then None else Some(cursors[i][0].date))
  }

  /** The buffered dates of the price-change cursors. */
  function PriceDates(cursors: seq<seq<PriceChange>>): seq<Option<int>>
  {
    seq(|cursors|, i requires 0 <= i < |cursors| => if cursors[i] == [] then None else Some(cursors[i][0].date))
  }

  /** `(i, d)` is what the scan should find: slot `i` holds `d`, no slot holds
      an earlier date, and no later slot holds a date as early (ties go to the
      last slot). */
  ghost predicate IsLastMinimum(slots: seq<Option<int>>, i: nat, d: int)
  {
    && i < |slots|
    && slots[i] == Some(d)
    && (forall j :: 0 <= j < |slots| && slots[j].Some? ==> d <= slots[j].value)
    && (forall j :: i < j < |slots| && slots[j].Some? ==> d < slots[j].value)
  }

  /** One step of the fold's closure: the running minimum is kept only when
      it is strictly earlier than the new slot's date. */
  function Keep(min: Option<(nat, int)>, idx: nat, item: Option<int>): Option<(nat, int)>
  {
    match (min, item)
    case (None, None) => None
    case (Some(m), None) => Some(m)
    case (None, Some(d)) => Some((idx, d))
    case (Some(m), Some(d)) => if m.1 < d then Some(m) else Some((idx, d))
  }

  /** The `enumerate().fold(None, ...)` over the slots, left to right. It is
      `None` exactly when every slot is empty, and otherwise finds the last
      minimum. */
  function MinDate(slots: seq<Option<int>>): (r: Option<(nat, int)>)
    ensures r == None <==> forall i :: 0 <= i < |slots| ==> slots[i] == None
    ensures r.Some? ==> IsLastMinimum(slots, r.value.0, r.value.1)
    decreases |slots|
  {
    if slots == [] then None
    else Keep(MinDate(slots[..|slots| - 1]), |slots| - 1, slots[|slots| - 1])
  }

  /** At most one slot and date satisfy `IsLastMinimum`. */
  lemma LastMinimumUnique(slots: seq<Option<int>>, i: nat, d: int, i': nat, d': int)
    requires IsLastMinimum(slots, i, d) && IsLastMinimum(slots, i', d')
    ensures i == i' && d == d'
  {
    assert d <= d' && d' <= d;
  }

  /** The fold returns `(i, d)` if and only if `(i, d)` is the last minimum. */
  lemma MinDateIsLastMinimum(slots: seq<Option<int>>, i: nat, d: int)
    ensures MinDate(slots) == Some((i, d)) <==> IsLastMinimum(slots, i, d)
  {
    if IsLastMinimum(slots, i, d) {
      var r := MinDate(slots);
      assert r.Some? by { assert slots[i] != None; }
      LastMinimumUnique(slots, i, d, r.value.0, r.value.1);
    }
  }

  /** The `match (min_tx_date, min_price_date)`: no candidate ends the loop
      (`None`); a transaction wins only with a strictly earlier date. */
  function Select(minTx: Option<(nat, int)>, minPrice: Option<(nat, int)>): Option<Event>
  {
    match (minTx, minPrice)
    case (None, None) => None
    case (Some(t), None) => Some(OnTransaction(t.0))
    case (None, Some(p)) => Some(OnPriceChange(p.0))
    case (Some(t), Some(p)) => if t.1 < p.1 then Some(OnTransaction(t.0)) else Some(OnPriceChange(p.0))
  }

  /** Every cursor of both kinds is exhausted. */
  ghost predicate AllExhausted(txs: seq<seq<Transaction>>, prices: seq<seq<PriceChange>>)
  {
    (forall i :: 0 <= i < |txs| ==> txs[i] == []) && (forall i :: 0 <= i < |prices| ==> prices[i] == [])
  }

  /** Transaction cursor `i` holds the record to dispatch next: no
      transaction is earlier, no later transaction cursor is as early, and
      every buffered price change is strictly later. */
  ghost predicate EarliestTransaction(txs: seq<seq<Transaction>>, prices: seq<seq<PriceChange>>, i: nat)
  {
    && i < |txs| && txs[i] != []
    && (forall j :: 0 <= j < |txs| && txs[j] != [] ==> txs[i][0].date <= txs[j][0].date)
    && (forall j :: i < j < |txs| && txs[j] != [] ==> txs[i][0].date < txs[j][0].date)
    && (forall j :: 0 <= j < |prices| && prices[j] != [] ==> txs[i][0].date < prices[j][0].date)
  }

  /** Price cursor `i` holds the record to dispatch next: no price change is
      earlier, no later price cursor is as early, and no buffered transaction
      is earlier (a transaction on the same date waits). */
  ghost predicate EarliestPriceChange(txs: seq<seq<Transaction>>, prices: seq<seq<PriceChange>>, i: nat)
  {
    && i < |prices| && prices[i] != []
    && (forall j :: 0 <= j < |prices| && prices[j] != [] ==> prices[i][0].date <= prices[j][0].date)
    && (forall j :: i < j < |prices| && prices[j] != [] ==> prices[i][0].date < prices[j][0].date)
    && (forall j :: 0 <= j < |txs| && txs[j] != [] ==> prices[i][0].date <= txs[j][0].date)
  }

  /** The transaction fold, restated over the cursors themselves. */
  lemma MinTxDate(txs: seq<seq<Transaction>>)
    ensures MinDate(TxDates(txs)) == None <==> forall i :: 0 <= i < |txs| ==> txs[i] == []
    ensures MinDate(TxDates(txs)).Some? ==>
      var (i, d) := MinDate(TxDates(txs)).value;
      && i < |txs| && txs[i] != [] && txs[i][0].date == d
      && (forall j :: 0 <= j < |txs| && txs[j] != [] ==> d <= txs[j][0].date)
      && (forall j :: i < j < |txs| && txs[j] != [] ==> d < txs[j][0].date)
  {
    var slots := TxDates(txs);
    assert forall j :: 0 <= j < |txs| ==> (slots[j] == None <==> txs[j] == []);
    assert forall j :: 0 <= j < |txs| && txs[j] != [] ==> slots[j] == Some(txs[j][0].date);
  }

  /** The price-change fold, restated over the cursors themselves. */
  lemma MinPriceDate(prices: seq<seq<PriceChange>>)
    ensures MinDate(PriceDates(prices)) == None <==> forall i :: 0 <= i < |prices| ==> prices[i] == []
    ensures MinDate(PriceDates(prices)).Some? ==>
      var (i, d) := MinDate(PriceDates(prices)).value;
      && i < |prices| && prices[i] != [] && prices[i][0].date == d
      && (forall j :: 0 <= j < |prices| && prices[j] != [] ==> d <= prices[j][0].date)
      && (forall j :: i < j < |prices| && prices[j] != [] ==> d < prices[j][0].date)
  {
    var slots := PriceDates(prices);
    assert forall j :: 0 <= j < |prices| ==> (slots[j] == None <==> prices[j] == []);
    assert forall j :: 0 <= j < |prices| && prices[j] != [] ==> slots[j] == Some(prices[j][0].date);
  }

  /** One round's choice: the two folds followed by `Select`. The loop ends
      exactly when every cursor is exhausted; otherwise the chosen cursor
      holds the earliest buffered record, with ties broken as described
      above. */
  function NextEvent(txs: seq<seq<Transaction>>, prices: seq<seq<PriceChange>>): (e: Option<Event>)
    ensures e == None <==> AllExhausted(txs, prices)
    ensures e.Some? && e.value.OnTransaction? ==> EarliestTransaction(txs, prices, e.value.idx)
    ensures e.Some? && e.value.OnPriceChange? ==> EarliestPriceChange(txs, prices, e.value.idx)
  {
    MinTxDate(txs);
    MinPriceDate(prices);
    Select(MinDate(TxDates(txs)), MinDate(PriceDates(prices)))
  }

  /** The choice is determined by the earliest-record conditions: whenever a
      transaction cursor (or a price cursor) satisfies them, it is the one
      chosen. Together with `NextEvent`'s contract this makes the choice an
      if-and-only-if. */
  lemma NextEventDetermined(txs: seq<seq<Transaction>>, prices: seq<seq<PriceChange>>, i: nat)
    ensures EarliestTransaction(txs, prices, i) ==> NextEvent(txs, prices) == Some(OnTransaction(i))
    ensures EarliestPriceChange(txs, prices, i) ==> NextEvent(txs, prices) == Some(OnPriceChange(i))
  {
    var e := NextEvent(txs, prices);
  }

  /** The tie-breaks on small inputs: of two transactions on one date the
      later cursor goes first; a price change goes before a transaction on
      its date; a strictly earlier transaction goes first. */
  lemma TieBreakExamples()
    ensures NextEvent([[Transaction(5, 1.0)], [Transaction(5, 2.0)]], []) == Some(OnTransaction(1))
    ensures NextEvent([[Transaction(5, 1.0)]], [[PriceChange(5, 2.0)]]) == Some(OnPriceChange(0))
    ensures NextEvent([[Transaction(4, 1.0)]], [[PriceChange(5, 2.0)]]) == Some(OnTransaction(0))
  {
    NextEventDetermined([[Transaction(5, 1.0)], [Transaction(5, 2.0)]], [], 1);
    NextEventDetermined([[Transaction(5, 1.0)]], [[PriceChange(5, 2.0)]], 0);
    NextEventDetermined([[Transaction(4, 1.0)]], [[PriceChange(5, 2.0)]], 0);
  }

  /** The number of records still to be read, over all cursors of one kind. */
  function Remaining<T>(cursors: seq<seq<T>>): nat
    decreases |cursors|
  {
    if cursors == [] then 0 else Remaining(cursors[..|cursors| - 1]) + |cursors[|cursors| - 1]|
  }

  /** Exhausted cursors hold no records. */
  lemma {:induction false} RemainingExhausted<T>(cursors: seq<seq<T>>)
    requires forall i :: 0 <= i < |cursors| ==> cursors[i] == []
    ensures Remaining(cursors) == 0
    decreases |cursors|
  {
    if cursors != [] {
      RemainingExhausted(cursors[..|cursors| - 1]);
    }
  }

  /** Replacing one cursor changes the count by the difference in lengths. */
  lemma {:induction false} RemainingUpdate<T>(cursors: seq<seq<T>>, idx: nat, c: seq<T>)
    requires idx < |cursors|
    ensures Remaining(cursors[idx := c]) == Remaining(cursors) - |cursors[idx]| + |c|
    decreases |cursors|
  {
    var n := |cursors|;
    var updated := cursors[idx := c];
    assert updated[..n - 1] == if idx < n - 1 then cursors[..n - 1][idx := c] else cursors[..n - 1];
    if idx < n - 1 {
      RemainingUpdate(cursors[..n - 1], idx, c);
    }
  }

  /** The `std::mem::replace(&mut cursors[idx], next)`: the selected cursor
      moves past its buffered record and every other cursor is left alone, so
      exactly one record fewer remains. */
  function Advance<T>(cursors: seq<seq<T>>, idx: nat): (r: seq<seq<T>>)
    requires idx < |cursors| && cursors[idx] != []
    ensures |r| == |cursors| && r[idx] == cursors[idx][1..]
    ensures forall j :: 0 <= j < |cursors| && j != idx ==> r[j] == cursors[j]
    ensures Remaining(r) == Remaining(cursors) - 1
  {
    RemainingUpdate(cursors, idx, cursors[idx][1..]);
    cursors[idx := cursors[idx][1..]]
  }

  /** Every record of the stream is dated no earlier than the ones before it. */
  ghost predicate SortedTransactions(s: seq<Transaction>)
  {
    forall j, k :: 0 <= j < k < |s| ==> s[j].date <= s[k].date
  }

  /** Every record of the stream is dated no earlier than the ones before it. */
  ghost predicate SortedPriceChanges(s: seq<PriceChange>)
  {
    forall j, k :: 0 <= j < k < |s| ==> s[j].date <= s[k].date
  }
}
