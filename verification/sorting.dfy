/**
 * The ordering used by `Array.prototype.sort` with a comparator, as the
 * source calls it: elements are ordered by a total "comes no later than"
 * relation, and elements the comparator calls equal keep their input order.
 * The definition below is a stable insertion sort.
 */
module Sorting {

  /** Any two elements are ordered one way or the other. */
  ghost predicate Total<T(!new)>(leq: (T, T) -> bool) {
    forall a, b :: leq(a, b) || leq(b, a)
  }

  ghost predicate Transitive<T(!new)>(leq: (T, T) -> bool) {
    forall a, b, c :: leq(a, b) && leq(b, c) ==> leq(a, c)
  }

  /** Every element comes no later than its successor. */
  ghost predicate Sorted<T>(s: seq<T>, leq: (T, T) -> bool) {
    forall i :: 0 < i < |s| ==> leq(s[i - 1], s[i])
  }

  /** Inserts `x` before the first element it comes no later than. */
  function Insert<T>(x: T, s: seq<T>, leq: (T, T) -> bool): (r: seq<T>)
    ensures multiset(r) == multiset(s) + multiset{x}
    ensures |r| == |s| + 1
    ensures r[0] == x || (s != [] && r[0] == s[0])
  {
    if s == [] then [x]
    else if leq(x, s[0]) then [x] + s
    else
      assert s == [s[0]] + s[1..];
      [s[0]] + Insert(x, s[1..], leq)
  }

  /** Stable sort: the head of the input goes before every equal element. */
  function Sort<T>(s: seq<T>, leq: (T, T) -> bool): (r: seq<T>)
    ensures multiset(r) == multiset(s)
    ensures |r| == |s|
  {
    if s == [] then []
    else
      assert s == [s[0]] + s[1..];
      Insert(s[0], Sort(s[1..], leq), leq)
  }

  lemma {:induction false} InsertSorted<T(!new)>(x: T, s: seq<T>, leq: (T, T) -> bool)
    requires Total(leq) && Sorted(s, leq)
    ensures Sorted(Insert(x, s, leq), leq)
  {
    if s != [] && !leq(x, s[0]) {
      assert leq(s[0], x);
      var t := Insert(x, s[1..], leq);
      assert Sorted(s[1..], leq) by {
        forall i | 0 < i < |s[1..]| ensures leq(s[1..][i - 1], s[1..][i]) {
          assert s[1..][i - 1] == s[i] && s[1..][i] == s[i + 1];
        }
      }
      InsertSorted(x, s[1..], leq);
      assert leq(s[0], t[0]);
      var r := [s[0]] + t;
      forall i | 0 < i < |r| ensures leq(r[i - 1], r[i]) {
        if i > 1 {
          assert r[i - 1] == t[i - 2] && r[i] == t[i - 1];
        }
      }
    }
  }

  /** The result of `Sort` is ordered by `leq`. */
  lemma {:induction false} SortSorted<T(!new)>(s: seq<T>, leq: (T, T) -> bool)
    requires Total(leq)
    ensures Sorted(Sort(s, leq), leq)
  {
    if s != [] {
      SortSorted(s[1..], leq);
      InsertSorted(s[0], Sort(s[1..], leq), leq);
    }
  }

  /** With a transitive order, adjacent order gives order between any two positions. */
  lemma {:induction false} SortedPairwise<T(!new)>(s: seq<T>, leq: (T, T) -> bool, i: int, j: int)
    requires Transitive(leq) && Sorted(s, leq)
    requires 0 <= i <= j < |s|
    requires forall x :: leq(x, x)
    ensures leq(s[i], s[j])
    decreases j - i
  {
    if i < j {
      SortedPairwise(s, leq, i, j - 1);
      assert leq(s[j - 1], s[j]);
    }
  }

  /** The elements of `s` that `leq` ranks equal to `x`, in their order in `s`. */
  function Equivalentes<T(!new)>(s: seq<T>, leq: (T, T) -> bool, x: T): (r: seq<T>)
    ensures |r| <= |s|
    ensures forall e :: e in r <==> e in s && leq(e, x) && leq(x, e)
  {
    if s == [] then []
    else (if leq(s[0], x) && leq(x, s[0]) then [s[0]] else []) + Equivalentes(s[1..], leq, x)
  }

  lemma {:induction false} EquivalentesConcatena<T(!new)>(a: seq<T>, b: seq<T>, leq: (T, T) -> bool, x: T)
    ensures Equivalentes(a + b, leq, x) == Equivalentes(a, leq, x) + Equivalentes(b, leq, x)
  {
    if a == [] {
      assert a + b == b;
    } else {
      assert (a + b)[0] == a[0] && (a + b)[1..] == a[1..] + b;
      EquivalentesConcatena(a[1..], b, leq, x);
    }
  }

  /**
   * Inserting `y` keeps the order of the elements ranked equal to `x`: `y`
   * passes over only elements ranked strictly before it.
   */
  lemma {:induction false} InsertEstable<T(!new)>(y: T, t: seq<T>, leq: (T, T) -> bool, x: T)
    requires Transitive(leq)
    ensures Equivalentes(Insert(y, t, leq), leq, x) == Equivalentes([y] + t, leq, x)
  {
    if t != [] && !leq(y, t[0]) {
      var u := t[1..];
      assert t == [t[0]] + u;
      InsertEstable(y, u, leq, x);
      EquivalentesConcatena([t[0]], Insert(y, u, leq), leq, x);
      EquivalentesConcatena([y], u, leq, x);
      EquivalentesConcatena([t[0]], u, leq, x);
      EquivalentesConcatena([y], t, leq, x);
      assert !(leq(t[0], x) && leq(x, t[0]) && leq(y, x) && leq(x, y));
    }
  }

  /** `Sort` is stable: elements ranked equal keep their input order. */
  lemma {:induction false} SortEstable<T(!new)>(s: seq<T>, leq: (T, T) -> bool, x: T)
    requires Transitive(leq)
    ensures Equivalentes(Sort(s, leq), leq, x) == Equivalentes(s, leq, x)
  {
    if s != [] {
      assert s == [s[0]] + s[1..];
      SortEstable(s[1..], leq, x);
      InsertEstable(s[0], Sort(s[1..], leq), leq, x);
      EquivalentesConcatena([s[0]], Sort(s[1..], leq), leq, x);
      EquivalentesConcatena([s[0]], s[1..], leq, x);
    }
  }
}
