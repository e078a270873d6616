/** Small shared vocabulary: optional values and the arithmetic helpers the source takes from its language. */
module Common {
  datatype Option<+T> = None | Some(value: T)

  function Max(a: real, b: real): real {
    if a >= b then a else b
  }

  function Min(a: real, b: real): real {
    if a <= b then a else b
  }

  /** Conversion to an integer by dropping the fraction, towards zero for either sign. */
  function Trunc(x: real): int {
    if x >= 0.0 then x.Floor else -((-x).Floor)
  }

  function Part(whole: real, fraction: real): real {
    whole * fraction
  }

  lemma ScaleUp(x: real, low: real, high: real)
    requires x >= 0.0 && low <= high
    ensures x * low <= x * high
  {
  }

  lemma ScaleBy(low: real, high: real, x: real)
    requires x >= 0.0 && low <= high
    ensures low * x <= high * x
  {
  }

  lemma TruncBetween(low: int, x: real, high: int)
    requires 0 <= low && low as real <= x <= high as real
    ensures low <= Trunc(x) <= high
  {
  }

  lemma Cancel(a: real, b: real, c: real)
    requires c > 0.0 && a * c == b * c
    ensures a == b
  {
  }

  function Least(a: nat, b: nat): nat {
    if a <= b then a else b
  }

  lemma SameMembers<T>(es: seq<T>, fs: seq<T>)
    requires multiset(es) == multiset(fs)
    ensures forall e :: e in es <==> e in fs
  {
    forall e ensures e in es <==> e in fs {
      assert e in multiset(es) <==> e in multiset(fs);
    }
  }

  lemma HeadIsMember<T>(xs: seq<T>)
    ensures xs == [] || xs[0] in xs
  {
  }
}
