/** `Array.prototype.sort` with a comparator, as a stable insertion sort.
    `after(a, b)` holds when the comparator returns a positive number for
    `(a, b)`, that is when `a` must be placed after `b`. */
module Sorting {
  import Lists

  /** `after` is a strict weak order: asymmetric, and "not after" is transitive.
      Every comparator of the application satisfies this. */
  ghost predicate StrictWeakOrder<T(!new)>(after: (T, T) -> bool) {
    && (forall a, b :: after(a, b) ==> !after(b, a))
    && (forall a, b, c :: !after(a, b) && !after(b, c) ==> !after(a, c))
  }

  /** No element is placed before one it must come after. */
  predicate Sorted<T>(s: seq<T>, after: (T, T) -> bool) {
    forall i, j :: 0 <= i < j < |s| ==> !after(s[i], s[j])
  }

  /** Inserts `x`, which preceded every element of `s` in the input, before the
      first element it need not follow. */
  function Insert<T(!new)>(x: T, s: seq<T>, after: (T, T) -> bool): (r: seq<T>)
    requires StrictWeakOrder(after) && Sorted(s, after)
    ensures Sorted(r, after)
    ensures multiset(r) == multiset(s) + multiset{x}
    ensures forall k :: 0 <= k < |r| ==> r[k] == x || r[k] in s
    ensures |r| == |s| + 1
  {
    if s == [] then [x]
    else if after(x, s[0]) then
      var rest := Insert(x, s[1..], after);
      InsertAfterHead(x, s, rest, after);
      [s[0]] + rest
    else
      InsertAtHead(x, s, after);
      [x] + s
  }

  lemma InsertAfterHead<T(!new)>(x: T, s: seq<T>, rest: seq<T>, after: (T, T) -> bool)
    requires StrictWeakOrder(after) && Sorted(s, after) && s != [] && after(x, s[0])
    requires Sorted(rest, after)
    requires multiset(rest) == multiset(s[1..]) + multiset{x}
    requires forall k :: 0 <= k < |rest| ==> rest[k] == x || rest[k] in s[1..]
    ensures Sorted([s[0]] + rest, after)
    ensures multiset([s[0]] + rest) == multiset(s) + multiset{x}
    ensures forall k :: 0 <= k < |[s[0]] + rest| ==> ([s[0]] + rest)[k] == x || ([s[0]] + rest)[k] in s
  {
    assert s == [s[0]] + s[1..];
    var r := [s[0]] + rest;
    forall i, j | 0 <= i < j < |r|
      ensures !after(r[i], r[j])
    {
      if i == 0 {
        assert r[j] == rest[j - 1];
        if rest[j - 1] == x {
        } else {
          var m :| 0 <= m < |s[1..]| && s[1..][m] == rest[j - 1];
          assert s[m + 1] == rest[j - 1];
        }
      } else {
        assert r[i] == rest[i - 1] && r[j] == rest[j - 1];
      }
    }
  }

  lemma InsertAtHead<T(!new)>(x: T, s: seq<T>, after: (T, T) -> bool)
    requires StrictWeakOrder(after) && Sorted(s, after) && s != [] && !after(x, s[0])
    ensures Sorted([x] + s, after)
  {
    var r := [x] + s;
    forall i, j | 0 <= i < j < |r|
      ensures !after(r[i], r[j])
    {
      if i == 0 && j > 1 {
        assert !after(s[0], s[j - 1]);
      }
    }
  }

  /** The input rearranged so that it is sorted; elements the comparator does
      not distinguish keep their input order. */
  function Sort<T(!new)>(s: seq<T>, after: (T, T) -> bool): (r: seq<T>)
    requires StrictWeakOrder(after)
    ensures Sorted(r, after)
    ensures multiset(r) == multiset(s)
    ensures |r| == |s|
  {
    if s == [] then []
    else
      assert s == [s[0]] + s[1..];
      Insert(s[0], Sort(s[1..], after), after)
  }

  /** Sorting an already sorted sequence leaves it as it is. */
  lemma {:induction false} SortSorted<T(!new)>(s: seq<T>, after: (T, T) -> bool)
    requires StrictWeakOrder(after) && Sorted(s, after)
    ensures Sort(s, after) == s
    decreases |s|
  {
    if s != [] {
      var t := s[1..];
      assert Sorted(t, after);
      SortSorted(t, after);
      assert Sort(s, after) == Insert(s[0], t, after);
      if t != [] {
        assert !after(s[0], t[0]);
      }
      assert Insert(s[0], t, after) == [s[0]] + t;
      assert s == [s[0]] + t;
    }
  }

  /** The comparator does not tell `a` and `b` apart. */
  predicate Tied<T>(after: (T, T) -> bool, a: T, b: T) {
    !after(a, b) && !after(b, a)
  }

  /** The selector of the elements tied with `k`. */
  function TiedWith<T>(after: (T, T) -> bool, k: T): T -> bool {
    x => Tied(after, x, k)
  }

  /** The sort is stable: the elements tied with any `k` come out in the order
      they went in. */
  lemma {:induction false} SortStable<T(!new)>(s: seq<T>, after: (T, T) -> bool, k: T)
    requires StrictWeakOrder(after)
    ensures Lists.Filter(Sort(s, after), TiedWith(after, k))
         == Lists.Filter(s, TiedWith(after, k))
    decreases |s|
  {
    if s != [] {
      var t := Sort(s[1..], after);
      SortStable(s[1..], after, k);
      InsertStable(s[0], t, after, k);
      assert ([s[0]] + t)[1..] == t;
      assert s == [s[0]] + s[1..];
    }
  }

  /** Inserting `x` keeps it ahead of every element tied with it. */
  lemma {:induction false} InsertStable<T(!new)>(x: T, s: seq<T>, after: (T, T) -> bool, k: T)
    requires StrictWeakOrder(after) && Sorted(s, after)
    ensures Lists.Filter(Insert(x, s, after), TiedWith(after, k))
         == Lists.Filter([x] + s, TiedWith(after, k))
    decreases |s|
  {
    var p := TiedWith(after, k);
    if s != [] && after(x, s[0]) {
      var rest := Insert(x, s[1..], after);
      InsertStable(x, s[1..], after, k);
      assert s == [s[0]] + s[1..];
      Lists.FilterCons(s[0], rest, p);
      Lists.FilterCons(x, s[1..], p);
      Lists.FilterCons(x, s, p);
      Lists.FilterCons(s[0], s[1..], p);
      NotBothTied(after, x, s[0], k);
    }
  }

  /** Two elements one of which must follow the other are not both tied with `k`. */
  lemma NotBothTied<T(!new)>(after: (T, T) -> bool, x: T, y: T, k: T)
    requires StrictWeakOrder(after) && after(x, y)
    ensures !(Tied(after, x, k) && Tied(after, y, k))
  {
  }
}
