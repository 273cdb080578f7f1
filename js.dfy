/** The small part of JavaScript's value semantics the components rely on. */
module Js {
  import opened Wrappers

  /** Truthiness of an optional string: `undefined`, `null` and `""` are falsy. */
  predicate Truthy(v: Option<string>)
  {
    v.Some? && v.value != ""
  }

  /** A JavaScript number, restricted to the integers (milliseconds) and NaN. */
  datatype Number = Finite(n: int) | NaN

  /** A Date coerced to a number: its instant in milliseconds, or NaN for an invalid Date. */
  function DateValue(t: Option<int>): (x: Number)
    ensures x.Finite? <==> t.Some?
    ensures t.Some? ==> x.n == t.value
  {
    match t
    case Some(ms) => Finite(ms)
    case None => NaN
  }

  /** `a + k`; NaN absorbs. */
  function Plus(a: Number, k: int): Number
  {
    match a
    case Finite(n) => Finite(n + k)
    case NaN => NaN
  }

  /** `a - k`; NaN absorbs. */
  function Minus(a: Number, k: int): Number
  {
    match a
    case Finite(n) => Finite(n - k)
    case NaN => NaN
  }

  /** `a >= b`: every comparison with NaN is false. */
  predicate AtLeast(a: Number, b: Number)
  {
    a.Finite? && b.Finite? && a.n >= b.n
  }

  /** `a <= b`: every comparison with NaN is false. */
  predicate AtMost(a: Number, b: Number)
  {
    a.Finite? && b.Finite? && a.n <= b.n
  }

  /** `a < b`: every comparison with NaN is false. */
  predicate Below(a: Number, b: Number)
  {
    a.Finite? && b.Finite? && a.n < b.n
  }

  predicate StartsWith(s: string, prefix: string)
  {
    |prefix| <= |s| && s[..|prefix|] == prefix
  }

  /** `s.includes(needle)`, scanning from the left. */
  predicate Includes(s: string, needle: string)
    decreases |s|
  {
    StartsWith(s, needle) || (|s| > 0 && Includes(s[1..], needle))
  }

  /** `needle` occurs in `s` starting at index `i`. */
  ghost predicate OccursAt(s: string, needle: string, i: int)
  {
    0 <= i && i + |needle| <= |s| && s[i..i + |needle|] == needle
  }

  lemma {:induction false} IncludedOccurs(s: string, needle: string)
    requires Includes(s, needle)
    ensures exists i :: OccursAt(s, needle, i)
    decreases |s|
  {
    if StartsWith(s, needle) {
      assert OccursAt(s, needle, 0);
    } else {
      IncludedOccurs(s[1..], needle);
      var j :| OccursAt(s[1..], needle, j);
      assert s[1..][j..j + |needle|] == s[j + 1..j + 1 + |needle|];
      assert OccursAt(s, needle, j + 1);
    }
  }

  lemma {:induction false} OccurrenceIncluded(s: string, needle: string, i: int)
    requires OccursAt(s, needle, i)
    ensures Includes(s, needle)
    decreases i
  {
    if i > 0 {
      assert s[1..][i - 1..i - 1 + |needle|] == s[i..i + |needle|];
      OccurrenceIncluded(s[1..], needle, i - 1);
    }
  }

  /** The scan agrees with the definition of a substring occurrence, in both directions. */
  lemma IncludesIff(s: string, needle: string)
    ensures Includes(s, needle) <==> exists i :: OccursAt(s, needle, i)
  {
    if Includes(s, needle) {
      IncludedOccurs(s, needle);
    }
    forall i | OccursAt(s, needle, i)
      ensures Includes(s, needle)
    {
      OccurrenceIncluded(s, needle, i);
    }
  }
}
