/** The exchange-rate table (`PriceMap` in src/main.rs). One entry per
    unordered pair of currency names, stored under the key
    (smaller name, larger name); the stored number is the price of one unit
    of the smaller-named currency expressed in the larger-named one, so
    converting from the smaller name to the larger multiplies by it and the
    other way divides by it. Rates are exact reals here, where the program
    uses `f64`. */
module PriceTable {
  import opened Lexicographic

  /** The contents of the table's `HashMap<(String, String), Currency>`. */
  type Rates = map<(string, string), real>

  /** The key under which a pair is stored: its two names, smaller first. */
  function CanonicalKey(a: string, b: string): (k: (string, string))
    ensures (k.0 == a && k.1 == b) || (k.0 == b && k.1 == a)
    ensures !Less(k.1, k.0)
  {
    if Less(b, a) then LessAsymmetric(a, b); (b, a) else (a, b)
  }

  /** Every key is written smaller name first. */
  ghost predicate Canonical(m: Rates)
  {
    forall k :: k in m ==> !Less(k.1, k.0)
  }

  /** No stored rate is zero, so every conversion that finds its key can
      divide by it. */
  ghost predicate NonzeroRates(m: Rates)
  {
    forall k :: k in m ==> m[k] != 0.0
  }

  /** The table after `update(accounting, priced, price)`: the pair's entry
      is written (or overwritten) and nothing else changes. When `accounting`
      sorts after `priced` the quoted price is stored as is, otherwise its
      reciprocal is. */
  function Quoted(m: Rates, accounting: string, priced: string, price: real): (r: Rates)
    requires price != 0.0
    ensures CanonicalKey(accounting, priced) in r
    ensures r[CanonicalKey(accounting, priced)] == if Less(priced, accounting) then price else 1.0 / price
    ensures forall k :: k != CanonicalKey(accounting, priced) ==> (k in r <==> k in m)
    ensures forall k :: k != CanonicalKey(accounting, priced) && k in m ==> r[k] == m[k]
  {
    if Less(priced, accounting) then m[(priced, accounting) := price]
    else m[(accounting, priced) := 1.0 / price]
  }

  /** Whether `convert(currency, target, _)` finds its key (the program
      unwraps the lookup and aborts otherwise) and, when it divides, finds a
      nonzero rate. */
  predicate Convertible(m: Rates, currency: string, target: string)
  {
    if Less(currency, target) then (currency, target) in m
    else (target, currency) in m && m[(target, currency)] != 0.0
  }

  /** `PriceMap::convert`: an amount of `currency` expressed in `target`,
      multiplying by the stored rate when `target` is the larger name and
      dividing by it otherwise. It reads only the table, so it is a function
      of the table's contents. */
  function Convert(m: Rates, currency: string, target: string, amount: real): real
    requires Convertible(m, currency, target)
  {
    if Less(currency, target) then amount * m[(currency, target)]
    else amount / m[(target, currency)]
  }

  /** Two different names find their rate under the canonical key, and the
      table can convert both ways exactly when that key holds a nonzero rate. */
  lemma ConvertibleBothWays(m: Rates, a: string, b: string)
    requires a != b
    ensures Convertible(m, a, b) && Convertible(m, b, a)
        <==> CanonicalKey(a, b) in m && m[CanonicalKey(a, b)] != 0.0
  {
    Trichotomy(a, b);
  }

  /** After `update(accounting, priced, price)` the table converts one unit
      of `priced` into `price` units of `accounting`, and back by dividing
      by `price`, whichever way the two names sort. */
  lemma ConvertAfterUpdate(m: Rates, accounting: string, priced: string, price: real, x: real)
    requires accounting != priced && price != 0.0
    ensures Convertible(Quoted(m, accounting, priced, price), priced, accounting)
    ensures Convertible(Quoted(m, accounting, priced, price), accounting, priced)
    ensures Convert(Quoted(m, accounting, priced, price), priced, accounting, x) == x * price
    ensures Convert(Quoted(m, accounting, priced, price), accounting, priced, x) == x / price
  {
    Trichotomy(accounting, priced);
    var r := Quoted(m, accounting, priced, price);
    if !Less(priced, accounting) {
      assert r[(accounting, priced)] == 1.0 / price;
      calc {
        x / (1.0 / price);
        x * price / (price * (1.0 / price));
        x * price;
      }
      assert x * (1.0 / price) == x / price;
    }
  }

  /** Converting to a currency and back recovers the amount, as long as the
      pair's rate is present and nonzero. */
  lemma ConvertRoundTrip(m: Rates, a: string, b: string, x: real)
    requires a != b
    requires Convertible(m, a, b) && Convertible(m, b, a)
    ensures Convert(m, a, b, Convert(m, b, a, x)) == x
  {
    Trichotomy(a, b);
    LessAsymmetric(a, b);
    if Less(a, b) {
      var rate := m[(a, b)];
      assert Convert(m, b, a, x) == x / rate;
      assert x / rate * rate == x;
    } else {
      var rate := m[(b, a)];
      assert Convert(m, b, a, x) == x * rate;
      assert x * rate / rate == x;
    }
  }

  /** `convert` of a currency into itself is not the identity: it takes the
      dividing branch and needs an entry under the key (x, x), which only a
      pair quoting a currency in itself would write. The ledger therefore
      never calls it with equal names (see `Ledger.Value`). */
  lemma SelfConversionNeedsEntry(m: Rates, x: string, amount: real)
    ensures Convertible(m, x, x) <==> (x, x) in m && m[(x, x)] != 0.0
    ensures Convertible(m, x, x) ==> Convert(m, x, x, amount) == amount / m[(x, x)]
  {
    LessIrreflexive(x);
  }

  /** A later price for the same quote replaces the earlier one outright. */
  lemma LastPriceWins(m: Rates, accounting: string, priced: string, p: real, q: real)
    requires p != 0.0 && q != 0.0
    ensures Quoted(Quoted(m, accounting, priced, p), accounting, priced, q) == Quoted(m, accounting, priced, q)
  {
  }

  /** Quoting a pair the other way round writes the same single entry, so the
      table never holds two rates for one pair. */
  lemma ReversedQuoteSharesEntry(m: Rates, accounting: string, priced: string, p: real, q: real)
    requires accounting != priced && p != 0.0 && q != 0.0
    ensures Quoted(Quoted(m, accounting, priced, p), priced, accounting, q) == Quoted(m, priced, accounting, q)
  {
    Trichotomy(accounting, priced);
  }

  /** `update` keeps every key in canonical order and every rate nonzero. */
  lemma QuotedKeepsInvariant(m: Rates, accounting: string, priced: string, price: real)
    requires price != 0.0
    requires Canonical(m) && NonzeroRates(m)
    ensures Canonical(Quoted(m, accounting, priced, price))
    ensures NonzeroRates(Quoted(m, accounting, priced, price))
  {
  }

  /** Conversion is linear in the amount: converting a sum is the sum of the
      conversions. */
  lemma ConvertAdditive(m: Rates, currency: string, target: string, x: real, y: real)
    requires Convertible(m, currency, target)
    ensures Convert(m, currency, target, x + y) == Convert(m, currency, target, x) + Convert(m, currency, target, y)
  {
    if !Less(currency, target) {
      var rate := m[(target, currency)];
      assert (x + y) / rate == x / rate + y / rate by {
        assert (x / rate + y / rate) * rate == x + y;
      }
    }
  }

  /** The mutable table of the program. */
  class PriceMap {
    var rates: Rates

    /** `PriceMap { map: HashMap::new() }`. */
    constructor ()
      ensures rates == map[]
    {
      rates := map[];
    }

    /** `PriceMap::update`: inserts the pair's rate under its canonical key. */
    method Update(accounting: string, priced: string, price: real)
      requires price != 0.0
      modifies this
      ensures rates == Quoted(old(rates), accounting, priced, price)
    {
      if Less(priced, accounting) {
        rates := rates[(priced, accounting) := price];
      } else {
        rates := rates[(accounting, priced) := 1.0 / price];
      }
    }
  }
}
