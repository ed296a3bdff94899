/**
 * The order Java's String.compareTo gives: character by character, and a
 * proper prefix before any longer string that extends it.
 */
module Strings {
  import opened Sorting

  /** `a.compareTo(b) <= 0`. */
  predicate Le(a: string, b: string) {
    |a| == 0 || (|b| > 0 && (a[0] < b[0] || (a[0] == b[0] && Le(a[1..], b[1..]))))
  }

  lemma {:induction false} LeTotal(a: string, b: string)
    ensures Le(a, b) || Le(b, a)
  {
    if |a| > 0 && |b| > 0 && a[0] == b[0] {
      LeTotal(a[1..], b[1..]);
    }
  }

  lemma {:induction false} LeTransitive(a: string, b: string, c: string)
    requires Le(a, b) && Le(b, c)
    ensures Le(a, c)
  {
    if |a| > 0 && a[0] == b[0] && b[0] == c[0] {
      LeTransitive(a[1..], b[1..], c[1..]);
    }
  }

  /** compareTo returns 0 only for equal strings. */
  lemma {:induction false} LeAntisymmetric(a: string, b: string)
    requires Le(a, b) && Le(b, a)
    ensures a == b
  {
    if |a| > 0 {
      LeAntisymmetric(a[1..], b[1..]);
      assert a == [a[0]] + a[1..] && b == [b[0]] + b[1..];
    }
  }

  /** `Le` is what a sort needs: total and transitive. */
  lemma LeTotalPreorder()
    ensures TotalPreorder(Le)
  {
    forall a, b ensures Le(a, b) || Le(b, a) {
      LeTotal(a, b);
    }
    forall a, b, c | Le(a, b) && Le(b, c) ensures Le(a, c) {
      LeTransitive(a, b, c);
    }
  }

  /** Only equal strings tie under `Le`, so `Le` is a total order. */
  lemma LeTiesAreEqual()
    ensures Antisymmetric(Le)
  {
    forall a, b | Le(a, b) && Le(b, a) ensures a == b {
      LeAntisymmetric(a, b);
    }
  }

  /**
   * Sorting strings (Arrays.sort, Collections.sort) gives a sorted
   * rearrangement that depends only on which strings occur how often.
   */
  lemma SortStrings(a: seq<string>, b: seq<string>)
    requires multiset(a) == multiset(b)
    ensures SortedBy(Sort(a, Le), Le) && multiset(Sort(a, Le)) == multiset(a)
    ensures Sort(a, Le) == Sort(b, Le)
  {
    LeTotalPreorder();
    LeTiesAreEqual();
    SortSorted(a, Le);
    SortCanonical(a, b, Le);
  }
}
