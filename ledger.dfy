/** The balance ledger of src/main.rs: the configured assets and pairs, the
    valuation of an amount in another currency with the name-equality guard
    the loop applies before every conversion, the reported total, and the
    in-place update of the maximalist balances. */
module Ledger {
  import opened PriceTable

  /** An `[[asset]]` entry of the configuration; only its name matters to
      the ledger (file name and column layout belong to parsing). */
  datatype Asset = Asset(name: string)

  /** A `[[pair]]` entry: prices of `priceOf` quoted in `accounting`. */
  datatype Pair = Pair(accounting: string, priceOf: string)

  /** Whether an amount of `currency` can be expressed in `target`: same
      name, or a conversion the table can make. */
  predicate Valuable(rates: Rates, currency: string, target: string)
  {
    currency == target || Convertible(rates, currency, target)
  }

  /** The guarded conversion the loop writes out each time
      (`if asset.name == uoa { x } else { price_map.convert(..) }`): an
      amount in its own currency is taken as is, so `convert` is never asked
      to convert a currency into itself. */
  function Value(rates: Rates, currency: string, target: string, amount: real): real
    requires Valuable(rates, currency, target)
  {
    if currency == target then amount else Convert(rates, currency, target, amount)
  }

  /** Valuation is linear in the amount. */
  lemma ValueAdditive(rates: Rates, currency: string, target: string, x: real, y: real)
    requires Valuable(rates, currency, target)
    ensures Value(rates, currency, target, x + y) == Value(rates, currency, target, x) + Value(rates, currency, target, y)
  {
    if currency != target {
      ConvertAdditive(rates, currency, target, x, y);
    }
  }

  /** Every asset's balance can be expressed in the unit of account. */
  predicate AllValuable(rates: Rates, assets: seq<Asset>, uoa: string)
  {
    forall i :: 0 <= i < |assets| ==> Valuable(rates, assets[i].name, uoa)
  }

  /** The per-asset values written to the per-asset logs: each balance
      expressed in the unit of account. */
  function Valuations(rates: Rates, assets: seq<Asset>, uoa: string, balances: seq<real>): (r: seq<real>)
    requires |balances| == |assets| && AllValuable(rates, assets, uoa)
    ensures |r| == |assets|
  {
    seq(|assets|, i requires 0 <= i < |assets| => Value(rates, assets[i].name, uoa, balances[i]))
  }

  /** `Iterator::sum` over reals, left to right. */
  function Sum(s: seq<real>): real
    decreases |s|
  {
    if s == [] then 0.0 else Sum(s[..|s| - 1]) + s[|s| - 1]
  }

  /** The total written to the aggregate balance log. */
  function Total(rates: Rates, assets: seq<Asset>, uoa: string, balances: seq<real>): real
    requires |balances| == |assets| && AllValuable(rates, assets, uoa)
  {
    Sum(Valuations(rates, assets, uoa, balances))
  }

  /** Raising one summand raises the sum by the same amount. */
  lemma {:induction false} SumUpdate(s: seq<real>, i: nat, x: real)
    requires i < |s|
    ensures Sum(s[i := s[i] + x]) == Sum(s) + x
    decreases |s|
  {
    var n := |s|;
    var u := s[i := s[i] + x];
    if i < n - 1 {
      assert u[..n - 1] == s[..n - 1][i := s[i] + x];
      SumUpdate(s[..n - 1], i, x);
    } else {
      assert u[..n - 1] == s[..n - 1];
    }
  }

  /** A sum of zeros is zero. */
  lemma {:induction false} SumZeros(s: seq<real>)
    requires forall i :: 0 <= i < |s| ==> s[i] == 0.0
    ensures Sum(s) == 0.0
    decreases |s|
  {
    if s != [] {
      SumZeros(s[..|s| - 1]);
    }
  }

  /** With every balance at its initial zero the reported total is zero,
      whatever the rates. */
  lemma TotalOfZeroBalances(rates: Rates, assets: seq<Asset>, uoa: string, balances: seq<real>)
    requires |balances| == |assets| && AllValuable(rates, assets, uoa)
    requires forall i :: 0 <= i < |balances| ==> balances[i] == 0.0
    ensures Total(rates, assets, uoa, balances) == 0.0
  {
    var v := Valuations(rates, assets, uoa, balances);
    assert forall i :: 0 <= i < |v| ==> v[i] == 0.0 by {
      forall i | 0 <= i < |v| ensures v[i] == 0.0 {
        assert v[i] == Value(rates, assets[i].name, uoa, 0.0);
        if assets[i].name != uoa {
          if Lexicographic.Less(assets[i].name, uoa) {
            assert v[i] == 0.0 * rates[(assets[i].name, uoa)];
          }
        }
      }
    }
    SumZeros(v);
  }

  /** A transaction of `amount` in asset `idx`, at unchanged rates, raises the
      reported total by exactly the amount written to the transaction log:
      the same amount valued in the unit of account. */
  lemma TotalAfterTransaction(rates: Rates, assets: seq<Asset>, uoa: string, balances: seq<real>, idx: nat, amount: real)
    requires |balances| == |assets| && AllValuable(rates, assets, uoa) && idx < |assets|
    ensures Total(rates, assets, uoa, balances[idx := balances[idx] + amount])
         == Total(rates, assets, uoa, balances) + Value(rates, assets[idx].name, uoa, amount)
  {
    var v := Valuations(rates, assets, uoa, balances);
    var delta := Value(rates, assets[idx].name, uoa, amount);
    ValueAdditive(rates, assets[idx].name, uoa, balances[idx], amount);
    assert Valuations(rates, assets, uoa, balances[idx := balances[idx] + amount]) == v[idx := v[idx] + delta];
    SumUpdate(v, idx, delta);
  }

  /** Every maximalist slot can receive a transaction in `currency`. */
  predicate MaximalistValuable(rates: Rates, assets: seq<Asset>, currency: string)
  {
    forall j :: 0 <= j < |assets| ==> Valuable(rates, currency, assets[j].name)
  }

  /** The `for (balance, asset) in maximalist_balances.iter_mut()...` loop: a
      transaction of `amount` in `currency` is credited to every maximalist
      slot, unconverted to the slots whose asset has that name and converted
      into the slot's asset for all others. */
  method CreditMaximalist(maximalist: array<real>, assets: seq<Asset>, rates: Rates, currency: string, amount: real)
    requires maximalist.Length == |assets|
    requires MaximalistValuable(rates, assets, currency)
    modifies maximalist
    ensures forall j :: 0 <= j < |assets| ==>
      maximalist[j] == old(maximalist[j]) + Value(rates, currency, assets[j].name, amount)
  {
    for j := 0 to |assets|
      invariant forall k :: 0 <= k < j ==>
        maximalist[k] == old(maximalist[k]) + Value(rates, currency, assets[k].name, amount)
      invariant forall k :: j <= k < |assets| ==> maximalist[k] == old(maximalist[k])
    {
      if assets[j].name == currency {
        maximalist[j] := maximalist[j] + amount;
      } else {
        maximalist[j] := maximalist[j] + Convert(rates, currency, assets[j].name, amount);
      }
    }
  }
}
