/** Sorting by a strict weak order, as an insertion sort on sequences. */
module Sorting {

  ghost predicate StrictWeak<T(!new)>(less: (T, T) -> bool) {
    && (forall x :: !less(x, x))
    && (forall x, y, z :: less(x, y) && less(y, z) ==> less(x, z))
    && (forall x, y, z :: !less(y, x) && !less(z, y) ==> !less(z, x))
  }

  ghost predicate SortedBy<T>(s: seq<T>, less: (T, T) -> bool) {
    forall i, j :: 0 <= i < j < |s| ==> !less(s[j], s[i])
  }

  function Insert<T>(x: T, s: seq<T>, less: (T, T) -> bool): (r: seq<T>)
    ensures multiset(r) == multiset{x} + multiset(s)
  {
    if s == [] || less(x, s[0]) then [x] + s
    else
      var r := [s[0]] + Insert(x, s[1..], less);
      assert s == [s[0]] + s[1..];
      r
  }

  function Sort<T>(s: seq<T>, less: (T, T) -> bool): (r: seq<T>)
    ensures multiset(r) == multiset(s)
  {
    if s == [] then []
    else
      var n := |s| - 1;
      assert s == s[..n] + [s[n]];
      Insert(s[n], Sort(s[..n], less), less)
  }

  lemma NotBefore<T(!new)>(x: T, y: T, z: T, less: (T, T) -> bool)
    requires StrictWeak(less) && less(x, y) && !less(z, y)
    ensures !less(z, x)
  {
    assert less(z, x) && less(x, y) ==> less(z, y);
  }

  lemma {:induction false} InsertKeepsSorted<T(!new)>(x: T, s: seq<T>, less: (T, T) -> bool)
    requires StrictWeak(less) && SortedBy(s, less)
    ensures SortedBy(Insert(x, s, less), less)
    decreases s
  {
    if s != [] {
      if less(x, s[0]) {
        forall j | 0 <= j < |s| ensures !less(s[j], x) {
          NotBefore(x, s[0], s[j], less);
        }
      } else {
        InsertKeepsSorted(x, s[1..], less);
        var r := Insert(x, s[1..], less);
        forall y | y in r ensures !less(y, s[0]) {
          assert y in multiset(r);
          assert y == x || y in s[1..];
        }
      }
    }
  }

  lemma {:induction false} SortSorts<T(!new)>(s: seq<T>, less: (T, T) -> bool)
    requires StrictWeak(less)
    ensures SortedBy(Sort(s, less), less)
    decreases s
  {
    if s != [] {
      var n := |s| - 1;
      SortSorts(s[..n], less);
      InsertKeepsSorted(s[n], Sort(s[..n], less), less);
    }
  }
}
