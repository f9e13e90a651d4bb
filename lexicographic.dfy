/** The order Rust's `>` and `<` use on `String`: lexicographic over the
    UTF-8 bytes, which for well-formed text is the same as lexicographic over
    Unicode scalar values. Dafny's own `<` on sequences means "proper prefix",
    so the order is defined here from scratch. */
module Lexicographic {

  /** `Less(a, b)` holds when `a` sorts strictly before `b`: at the first
      position where they differ `a` has the smaller character, or `a` is a
      proper prefix of `b`. Rust's `b > a` is `Less(a, b)`. */
  predicate Less(a: string, b: string)
    decreases |a|
  {
    if |a| == 0 then |b| > 0
    else if |b| == 0 then false
    else if a[0] != b[0] then a[0] < b[0]
    else Less(a[1..], b[1..])
  }

  /** No string sorts before itself. */
  lemma {:induction false} LessIrreflexive(a: string)
    ensures !Less(a, a)
    decreases |a|
  {
    if |a| > 0 {
      LessIrreflexive(a[1..]);
    }
  }

  /** Two strings never sort before each other. */
  lemma {:induction false} LessAsymmetric(a: string, b: string)
    ensures !(Less(a, b) && Less(b, a))
    decreases |a|
  {
    if |a| > 0 && |b| > 0 && a[0] == b[0] {
      LessAsymmetric(a[1..], b[1..]);
    }
  }

  /** Two different strings are always ordered one way or the other. */
  lemma {:induction false} LessTotal(a: string, b: string)
    requires a != b
    ensures Less(a, b) || Less(b, a)
    decreases |a|
  {
    if |a| > 0 && |b| > 0 && a[0] == b[0] {
      assert a == [a[0]] + a[1..] && b == [b[0]] + b[1..];
      LessTotal(a[1..], b[1..]);
    }
  }

  /** The order is transitive. */
  lemma {:induction false} LessTransitive(a: string, b: string, c: string)
    requires Less(a, b) && Less(b, c)
    ensures Less(a, c)
    decreases |a|
  {
    if |a| > 0 && a[0] == b[0] && b[0] == c[0] {
      LessTransitive(a[1..], b[1..], c[1..]);
    }
  }

  /** For two different strings exactly one of the two orders holds; this is
      the fact every orientation argument about currency pairs rests on. */
  lemma Trichotomy(a: string, b: string)
    ensures a == b <==> !Less(a, b) && !Less(b, a)
  {
    if a == b {
      LessIrreflexive(a);
    } else {
      LessTotal(a, b);
    }
  }
}
