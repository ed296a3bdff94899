/**
 * A stable sort, generic in the element type and the comparison.
 *
 * The program sorts in three places with library sorts: a String[] array
 * (Arrays.sort), a copy of a playlist-name list (Collections.sort) and lists
 * of songs under a comparator (List.sort). All three are stable sorts. `Sort`
 * below is an insertion sort; `StableSortUnique` shows that any two sorted,
 * stable rearrangements of the same input are equal, so `Sort` yields exactly
 * what a stable library sort yields.
 */
module Sorting {

  /** Any two elements compare one way or the other (so each is `le` itself). */
  ghost predicate Total<T(!new)>(le: (T, T) -> bool) {
    forall a, b :: le(a, b) || le(b, a)
  }

  ghost predicate Transitive<T(!new)>(le: (T, T) -> bool) {
    forall a, b, c :: le(a, b) && le(b, c) ==> le(a, c)
  }

  /** `le` is total and transitive: what a comparator's `<= 0` must be. */
  ghost predicate TotalPreorder<T(!new)>(le: (T, T) -> bool) {
    Total(le) && Transitive(le)
  }

  /** Only equal elements tie under `le`. */
  ghost predicate Antisymmetric<T(!new)>(le: (T, T) -> bool) {
    forall a, b :: le(a, b) && le(b, a) ==> a == b
  }

  predicate SortedBy<T>(s: seq<T>, le: (T, T) -> bool) {
    forall i, j :: 0 <= i < j < |s| ==> le(s[i], s[j])
  }

  /** `a` and `b` tie under `le`: a comparator returns 0 for them. */
  predicate Tie<T>(le: (T, T) -> bool, a: T, b: T) {
    le(a, b) && le(b, a)
  }

  /** The elements of `s` that tie with `k`, in their order in `s`. */
  function Ties<T>(s: seq<T>, le: (T, T) -> bool, k: T): seq<T> {
    if s == [] then []
    else (if Tie(le, s[0], k) then [s[0]] else []) + Ties(s[1..], le, k)
  }

  function Repeat<T>(x: T, n: nat): (r: seq<T>)
    ensures |r| == n && forall i :: 0 <= i < n ==> r[i] == x
  {
    if n == 0 then [] else [x] + Repeat(x, n - 1)
  }

  /** Puts `x` in front of the first element it is `le`, so `x` goes before every element it ties with, which makes `Sort` stable. */
  function Insert<T>(x: T, s: seq<T>, le: (T, T) -> bool): (r: seq<T>)
    ensures multiset(r) == multiset(s) + multiset{x}
  {
    if s == [] then [x]
    else if le(x, s[0]) then [x] + s
    else
      assert s == [s[0]] + s[1..];
      [s[0]] + Insert(x, s[1..], le)
  }

  function Sort<T>(s: seq<T>, le: (T, T) -> bool): (r: seq<T>)
    ensures multiset(r) == multiset(s)
  {
    if s == [] then []
    else
      assert s == [s[0]] + s[1..];
      Insert(s[0], Sort(s[1..], le), le)
  }

  lemma {:induction false} InsertSorted<T(!new)>(x: T, s: seq<T>, le: (T, T) -> bool)
    requires TotalPreorder(le) && SortedBy(s, le)
    ensures SortedBy(Insert(x, s, le), le)
  {
    if s != [] && !le(x, s[0]) {
      InsertSorted(x, s[1..], le);
      var r := Insert(x, s[1..], le);
      assert le(s[0], x);
      forall y | y in r ensures le(s[0], y) {
        assert y in multiset(r);
        if y != x {
          assert y in multiset(s[1..]);
          var j :| 0 <= j < |s[1..]| && s[1..][j] == y;
          assert s[j + 1] == y;
        }
      }
      forall i, j | 0 <= i < j < |[s[0]] + r| ensures le(([s[0]] + r)[i], ([s[0]] + r)[j]) {
        if i == 0 {
          assert ([s[0]] + r)[j] == r[j - 1] && r[j - 1] in r;
        } else {
          assert ([s[0]] + r)[i] == r[i - 1] && ([s[0]] + r)[j] == r[j - 1];
        }
      }
    }
  }

  /** The result of `Sort` is sorted. */
  lemma {:induction false} SortSorted<T(!new)>(s: seq<T>, le: (T, T) -> bool)
    requires TotalPreorder(le)
    ensures SortedBy(Sort(s, le), le)
  {
    if s != [] {
      SortSorted(s[1..], le);
      InsertSorted(s[0], Sort(s[1..], le), le);
    }
  }

  lemma {:induction false} TiesAppend<T>(a: seq<T>, b: seq<T>, le: (T, T) -> bool, k: T)
    ensures Ties(a + b, le, k) == Ties(a, le, k) + Ties(b, le, k)
  {
    if a == [] {
      assert a + b == b;
    } else {
      var h := if Tie(le, a[0], k) then [a[0]] else [];
      assert (a + b)[0] == a[0] && (a + b)[1..] == a[1..] + b;
      assert Ties(a + b, le, k) == h + Ties(a[1..] + b, le, k);
      TiesAppend(a[1..], b, le, k);
      assert Ties(a, le, k) == h + Ties(a[1..], le, k);
      assert h + (Ties(a[1..], le, k) + Ties(b, le, k)) == (h + Ties(a[1..], le, k)) + Ties(b, le, k);
    }
  }

  lemma {:induction false} TiesMember<T>(s: seq<T>, le: (T, T) -> bool, k: T, y: T)
    requires y in Ties(s, le, k)
    ensures y in s && Tie(le, y, k)
  {
    if s != [] && y in Ties(s[1..], le, k) {
      TiesMember(s[1..], le, k, y);
    }
  }

  /** Inserting `x` adds it in front of the elements it ties with and changes nothing else. */
  lemma {:induction false} InsertTies<T(!new)>(x: T, s: seq<T>, le: (T, T) -> bool, k: T)
    requires TotalPreorder(le)
    ensures Ties(Insert(x, s, le), le, k) == (if Tie(le, x, k) then [x] else []) + Ties(s, le, k)
  {
    if s == [] {
    } else if le(x, s[0]) {
      TiesAppend([x], s, le, k);
    } else {
      var y, t := s[0], s[1..];
      var r := Insert(x, t, le);
      var hx := if Tie(le, x, k) then [x] else [];
      var hy := if Tie(le, y, k) then [y] else [];
      assert Insert(x, s, le) == [y] + r;
      InsertTies(x, t, le, k);
      TiesAppend([y], r, le, k);
      assert Ties([y], le, k) == hy;
      assert Ties(s, le, k) == hy + Ties(t, le, k);
      assert Tie(le, x, k) ==> hy == [] by {
        assert Tie(le, x, k) && Tie(le, y, k) ==> le(x, y);
      }
    }
  }

  /** `Sort` is stable: elements that tie keep their relative order. */
  lemma {:induction false} SortStable<T(!new)>(s: seq<T>, le: (T, T) -> bool, k: T)
    requires TotalPreorder(le)
    ensures Ties(Sort(s, le), le, k) == Ties(s, le, k)
  {
    if s != [] {
      SortStable(s[1..], le, k);
      InsertTies(s[0], Sort(s[1..], le), le, k);
    }
  }

  /** The first element of a non-empty sequence ties with itself, so its ties are not empty. */
  lemma HeadTies<T(!new)>(s: seq<T>, le: (T, T) -> bool)
    ensures s != [] && TotalPreorder(le) ==> Ties(s, le, s[0]) == [s[0]] + Ties(s[1..], le, s[0])
  {
    if s != [] && TotalPreorder(le) {
      assert le(s[0], s[0]);
    }
  }

  /**
   * Two sorted sequences with the same ties, in the same order, are equal:
   * a stable sort's result is determined by its input.
   */
  lemma {:induction false} StableSortUnique<T(!new)>(t: seq<T>, u: seq<T>, le: (T, T) -> bool)
    requires TotalPreorder(le) && SortedBy(t, le) && SortedBy(u, le)
    requires forall k :: Ties(t, le, k) == Ties(u, le, k)
    ensures t == u
  {
    if t == [] || u == [] {
      HeadTies(t, le);
      HeadTies(u, le);
    } else {
      var a, b := t[0], u[0];
      assert Ties(u, le, b) == [b] + Ties(u[1..], le, b);
      assert b in Ties(t, le, b);
      TiesMember(t, le, b, b);
      assert le(a, b) by {
        var j :| 0 <= j < |t| && t[j] == b;
      }
      assert Ties(t, le, a) == [a] + Ties(t[1..], le, a);
      assert a in Ties(u, le, a);
      TiesMember(u, le, a, a);
      assert le(b, a) by {
        var j :| 0 <= j < |u| && u[j] == a;
      }
      assert Ties(u, le, a) == [b] + Ties(u[1..], le, a);
      assert Ties(t, le, a)[0] == a && Ties(u, le, a)[0] == b;
      forall k ensures Ties(t[1..], le, k) == Ties(u[1..], le, k) {
        var h := if Tie(le, a, k) then [a] else [];
        assert Ties(t, le, k) == h + Ties(t[1..], le, k);
        assert Ties(u, le, k) == h + Ties(u[1..], le, k);
        assert Ties(t[1..], le, k) == Ties(t, le, k)[|h|..];
        assert Ties(u[1..], le, k) == Ties(u, le, k)[|h|..];
      }
      assert SortedBy(t[1..], le) && SortedBy(u[1..], le) by {
        forall i, j | 0 <= i < j < |t| - 1 ensures le(t[1..][i], t[1..][j]) {
          assert t[1..][i] == t[i + 1] && t[1..][j] == t[j + 1];
        }
        forall i, j | 0 <= i < j < |u| - 1 ensures le(u[1..][i], u[1..][j]) {
          assert u[1..][i] == u[i + 1] && u[1..][j] == u[j + 1];
        }
      }
      StableSortUnique(t[1..], u[1..], le);
      assert t == [a] + t[1..] && u == [b] + u[1..];
    }
  }

  /** Sorting a sorted sequence leaves it as it is; in particular sorting twice equals sorting once. */
  lemma SortedFixpoint<T(!new)>(s: seq<T>, le: (T, T) -> bool)
    requires TotalPreorder(le) && SortedBy(s, le)
    ensures Sort(s, le) == s
  {
    SortSorted(s, le);
    forall k ensures Ties(Sort(s, le), le, k) == Ties(s, le, k) {
      SortStable(s, le, k);
    }
    StableSortUnique(Sort(s, le), s, le);
  }

  lemma SortIdempotent<T(!new)>(s: seq<T>, le: (T, T) -> bool)
    requires TotalPreorder(le)
    ensures Sort(Sort(s, le), le) == Sort(s, le)
  {
    SortSorted(s, le);
    SortedFixpoint(Sort(s, le), le);
  }

  /**
   * When no two distinct elements tie, the ties of `k` are just the copies of `k`,
   * so the ties are fixed by the multiset of elements.
   */
  lemma {:induction false} TiesOfAntisymmetric<T(!new)>(s: seq<T>, le: (T, T) -> bool, k: T)
    requires Antisymmetric(le)
    requires le(k, k)
    ensures Ties(s, le, k) == Repeat(k, multiset(s)[k])
  {
    if s != [] {
      TiesOfAntisymmetric(s[1..], le, k);
      assert s == [s[0]] + s[1..];
      assert multiset(s)[k] == multiset([s[0]])[k] + multiset(s[1..])[k];
      if s[0] == k {
        assert Repeat(k, multiset(s)[k]) == [k] + Repeat(k, multiset(s[1..])[k]);
      }
    }
  }

  /**
   * For an order in which only equal elements tie, the sorted result depends
   * only on the multiset of the input, not on its order.
   */
  lemma SortCanonical<T(!new)>(a: seq<T>, b: seq<T>, le: (T, T) -> bool)
    requires TotalPreorder(le)
    requires Antisymmetric(le)
    requires multiset(a) == multiset(b)
    ensures Sort(a, le) == Sort(b, le)
  {
    SortSorted(a, le);
    SortSorted(b, le);
    forall k ensures Ties(Sort(a, le), le, k) == Ties(Sort(b, le), le, k) {
      assert le(k, k);
      TiesOfAntisymmetric(Sort(a, le), le, k);
      TiesOfAntisymmetric(Sort(b, le), le, k);
    }
    StableSortUnique(Sort(a, le), Sort(b, le), le);
  }
}
