/** Values shared by every component: an optional value and deterministic sorting. */
module Common {

  datatype Option<+T> = None | Some(value: T)

  /** `less` orders the elements of `s` strictly and totally. */
  ghost predicate StrictTotalOn<T>(less: (T, T) -> bool, s: set<T>) {
    && (forall x | x in s :: !less(x, x))
    && (forall x, y | x in s && y in s && x != y :: less(x, y) || less(y, x))
    && (forall x, y, z | x in s && y in s && z in s && less(x, y) && less(y, z) :: less(x, z))
  }

  predicate Least<T(==)>(less: (T, T) -> bool, x: T, s: set<T>) {
    x in s && forall y | y in s :: y == x || less(x, y)
  }

  lemma {:induction false} LeastExists<T>(less: (T, T) -> bool, s: set<T>)
    requires s != {} && StrictTotalOn(less, s)
    ensures exists x :: Least(less, x, s)
  {
    var a :| a in s;
    var rest := s - {a};
    if rest == {} {
      assert s == {a};
      assert Least(less, a, s);
    } else {
      LeastExists(less, rest);
      var b :| Least(less, b, rest);
      if less(a, b) {
        assert Least(less, a, s);
      } else {
        assert Least(less, b, s);
      }
    }
  }

  /** The elements of a set in increasing order, as `sort_by_key` leaves them. */
  function Sort<T(==, !new)>(s: set<T>, less: (T, T) -> bool): (r: seq<T>)
    requires StrictTotalOn(less, s)
    ensures forall x :: x in r <==> x in s
    ensures forall i, j | 0 <= i < j < |r| :: less(r[i], r[j])
    decreases s
  {
    if s == {} then []
    else
      LeastExists(less, s);
      var x :| Least(less, x, s);
      [x] + Sort(s - {x}, less)
  }

  lemma {:induction false} SortDistinct<T(!new)>(s: set<T>, less: (T, T) -> bool)
    requires StrictTotalOn(less, s)
    ensures forall i, j | 0 <= i < j < |Sort(s, less)| :: Sort(s, less)[i] != Sort(s, less)[j]
  {
    forall i, j | 0 <= i < j < |Sort(s, less)|
      ensures Sort(s, less)[i] != Sort(s, less)[j]
    {
      var r := Sort(s, less);
      assert less(r[i], r[j]) && r[i] in s;
    }
  }

  /** Lexicographic order of strings by code point. */
  predicate StringLess(a: string, b: string) {
    if b == "" then false
    else if a == "" then true
    else a[0] < b[0] || (a[0] == b[0] && StringLess(a[1..], b[1..]))
  }

  lemma {:induction false} StringLessTotal(a: string, b: string)
    ensures !(StringLess(a, b) && StringLess(b, a))
    ensures a != b ==> StringLess(a, b) || StringLess(b, a)
  {
    if a != "" && b != "" && a[0] == b[0] {
      StringLessTotal(a[1..], b[1..]);
      assert a == [a[0]] + a[1..] && b == [b[0]] + b[1..];
    }
  }

  lemma {:induction false} StringLessTransitive(a: string, b: string, c: string)
    requires StringLess(a, b) && StringLess(b, c)
    ensures StringLess(a, c)
  {
    if a != "" && a[0] == b[0] == c[0] {
      StringLessTransitive(a[1..], b[1..], c[1..]);
    }
  }

  lemma {:induction false} SubsetSize<T>(a: set<T>, b: set<T>)
    requires a <= b
    ensures |a| <= |b|
    decreases a
  {
    if x :| x in a {
      SubsetSize(a - {x}, b - {x});
    }
  }

  lemma {:induction false} SmallerSize<T>(a: set<T>, b: set<T>)
    requires a < b
    ensures |a| < |b|
  {
    var x :| x in b && x !in a;
    SubsetSize(a, b - {x});
  }

  lemma {:induction false} Wrap(n: nat, x: nat)
    requires 0 < n && x < 2 * n
    ensures x % n == if x < n then x else x - n
  {
    if x >= n {
      assert x == n * 1 + (x - n);
    }
  }
}
