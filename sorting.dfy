/**
 * Python's `sorted(items, key=key_func, reverse=desc)` as the states use it for
 * client-side column sorting: a stable sort on a key, where `reverse=True` sorts
 * descending and still keeps items with equal keys in their original order.
 */
module Sorting {

  /**
   * A sort-key value: an integer (sizes, counters, and datetimes as ordinals) or a
   * string. One column always yields keys of one kind; the order put between the two
   * kinds only makes the comparison total.
   */
  datatype Key = Num(n: int) | Str(s: string)

  /** Python's `<` on strings: lexicographic by code point. */
  predicate StrLess(a: string, b: string)
    decreases |a|
  {
    if a == [] then b != []
    else if b == [] then false
    else if a[0] != b[0] then a[0] < b[0]
    else StrLess(a[1..], b[1..])
  }

  lemma {:induction false} StrLessIrreflexive(a: string)
    ensures !StrLess(a, a)
    decreases |a|
  {
    if a != [] {
      StrLessIrreflexive(a[1..]);
    }
  }

  lemma {:induction false} StrLessTransitive(a: string, b: string, c: string)
    requires StrLess(a, b) && StrLess(b, c)
    ensures StrLess(a, c)
    decreases |a|
  {
    if a != [] && a[0] == b[0] && b[0] == c[0] {
      StrLessTransitive(a[1..], b[1..], c[1..]);
    }
  }

  lemma {:induction false} StrLessTotal(a: string, b: string)
    ensures a == b || StrLess(a, b) || StrLess(b, a)
    decreases |a|
  {
    if a != [] && b != [] && a[0] == b[0] {
      StrLessTotal(a[1..], b[1..]);
      if a[1..] == b[1..] {
        assert a == [a[0]] + a[1..] && b == [b[0]] + b[1..];
      }
    }
  }

  predicate KeyLess(a: Key, b: Key) {
    match (a, b)
    case (Num(x), Num(y)) => x < y
    case (Str(x), Str(y)) => StrLess(x, y)
    case (Num(_), Str(_)) => true
    case (Str(_), Num(_)) => false
  }

  /** With `reverse=desc`, key `x` goes strictly before key `y`. */
  predicate Precedes(x: Key, y: Key, desc: bool) {
    if desc then KeyLess(y, x) else KeyLess(x, y)
  }

  /** `Precedes` is a strict total order on keys, in both directions. */
  lemma PrecedesOrder(x: Key, y: Key, z: Key, desc: bool)
    ensures !Precedes(x, x, desc)
    ensures Precedes(x, y, desc) && Precedes(y, z, desc) ==> Precedes(x, z, desc)
    ensures x == y || Precedes(x, y, desc) || Precedes(y, x, desc)
  {
    if x.Str? {
      StrLessIrreflexive(x.s);
    }
    if x.Str? && y.Str? {
      StrLessTotal(x.s, y.s);
      if z.Str? {
        if desc {
          if StrLess(z.s, y.s) && StrLess(y.s, x.s) {
            StrLessTransitive(z.s, y.s, x.s);
          }
        } else {
          if StrLess(x.s, y.s) && StrLess(y.s, z.s) {
            StrLessTransitive(x.s, y.s, z.s);
          }
        }
      }
    }
  }

  /** Every later item's key is not strictly before an earlier one's. */
  ghost predicate Ordered<T>(s: seq<T>, key: T -> Key, desc: bool) {
    forall i, j :: 0 <= i < j < |s| ==> !Precedes(key(s[j]), key(s[i]), desc)
  }

  /** The items of `s` whose key is `k`, in their order in `s`. */
  function WithKey<T>(s: seq<T>, key: T -> Key, k: Key): seq<T>
    decreases |s|
  {
    if s == [] then []
    else (if key(s[0]) == k then [s[0]] else []) + WithKey(s[1..], key, k)
  }

  /** Put `x` after every item of the ordered `s` that does not strictly follow it. */
  function Insert<T>(s: seq<T>, x: T, key: T -> Key, desc: bool): seq<T>
    decreases |s|
  {
    if s == [] then [x]
    else if Precedes(key(x), key(s[0]), desc) then [x] + s
    else [s[0]] + Insert(s[1..], x, key, desc)
  }

  /** `sorted(xs, key=key, reverse=desc)`: insertion of each item in turn, so ties keep their order. */
  function SortBy<T>(xs: seq<T>, key: T -> Key, desc: bool): seq<T>
    decreases |xs|
  {
    if xs == [] then []
    else Insert(SortBy(xs[..|xs| - 1], key, desc), xs[|xs| - 1], key, desc)
  }

  lemma {:induction false} InsertPermutes<T>(s: seq<T>, x: T, key: T -> Key, desc: bool)
    ensures multiset(Insert(s, x, key, desc)) == multiset(s) + multiset{x}
    decreases |s|
  {
    if s != [] && !Precedes(key(x), key(s[0]), desc) {
      InsertPermutes(s[1..], x, key, desc);
      assert s == [s[0]] + s[1..];
    }
  }

  lemma {:induction false} InsertOrdered<T>(s: seq<T>, x: T, key: T -> Key, desc: bool)
    requires Ordered(s, key, desc)
    ensures Ordered(Insert(s, x, key, desc), key, desc)
    decreases |s|
  {
    if s == [] {
    } else if Precedes(key(x), key(s[0]), desc) {
      var r := [x] + s;
      forall i, j | 0 <= i < j < |r|
        ensures !Precedes(key(r[j]), key(r[i]), desc)
      {
        PrecedesOrder(key(r[j]), key(x), key(s[0]), desc);
        PrecedesOrder(key(x), key(s[0]), key(x), desc);
      }
    } else {
      var tail := Insert(s[1..], x, key, desc);
      InsertOrdered(s[1..], x, key, desc);
      InsertPermutes(s[1..], x, key, desc);
      var r := [s[0]] + tail;
      forall i, j | 0 <= i < j < |r|
        ensures !Precedes(key(r[j]), key(r[i]), desc)
      {
        if i == 0 {
          assert r[j] in multiset(tail);
          if r[j] != x {
            assert r[j] in multiset(s[1..]);
            var m :| 0 <= m < |s[1..]| && s[1..][m] == r[j];
            assert s[m + 1] == r[j];
          }
        }
      }
    }
  }

  /** No item of `s` has key `k`, so none is kept. */
  lemma {:induction false} WithKeyNone<T>(s: seq<T>, key: T -> Key, k: Key)
    requires forall i :: 0 <= i < |s| ==> key(s[i]) != k
    ensures WithKey(s, key, k) == []
    decreases |s|
  {
    if s != [] {
      WithKeyNone(s[1..], key, k);
    }
  }

  lemma {:induction false} WithKeyAppend<T>(a: seq<T>, b: seq<T>, key: T -> Key, k: Key)
    ensures WithKey(a + b, key, k) == WithKey(a, key, k) + WithKey(b, key, k)
    decreases |a|
  {
    if a != [] {
      WithKeyAppend(a[1..], b, key, k);
      assert (a + b)[0] == a[0];
      assert (a + b)[1..] == a[1..] + b;
    } else {
      assert a + b == b;
    }
  }

  /** Inserting `x` adds it behind every item with the same key. */
  lemma {:induction false} InsertStable<T>(s: seq<T>, x: T, key: T -> Key, desc: bool, k: Key)
    requires Ordered(s, key, desc)
    ensures WithKey(Insert(s, x, key, desc), key, k) == WithKey(s, key, k) + (if key(x) == k then [x] else [])
    decreases |s|
  {
    var tag := if key(x) == k then [x] else [];
    if s == [] {
      assert Insert(s, x, key, desc) == [x];
      assert WithKey([x], key, k) == tag + WithKey([x][1..], key, k);
    } else if Precedes(key(x), key(s[0]), desc) {
      var r := [x] + s;
      assert r[0] == x && r[1..] == s;
      assert WithKey(r, key, k) == tag + WithKey(s, key, k);
      if key(x) == k {
        AllFollow(s, x, key, desc);
        WithKeyNone(s, key, k);
      }
    } else {
      var t := Insert(s[1..], x, key, desc);
      InsertStable(s[1..], x, key, desc, k);
      var r := [s[0]] + t;
      assert r[0] == s[0] && r[1..] == t;
      var head := if key(s[0]) == k then [s[0]] else [];
      assert WithKey(r, key, k) == head + WithKey(t, key, k);
      assert WithKey(s, key, k) == head + WithKey(s[1..], key, k);
    }
  }

  /** An item strictly before the head of an ordered sequence shares its key with no item of it. */
  lemma AllFollow<T>(s: seq<T>, x: T, key: T -> Key, desc: bool)
    requires Ordered(s, key, desc)
    requires s != [] && Precedes(key(x), key(s[0]), desc)
    ensures forall i :: 0 <= i < |s| ==> key(s[i]) != key(x)
  {
    forall i | 0 <= i < |s|
      ensures key(s[i]) != key(x)
    {
      PrecedesOrder(key(x), key(s[0]), key(s[i]), desc);
      PrecedesOrder(key(s[i]), key(s[0]), key(s[i]), desc);
    }
  }

  /** The sort rearranges the items and nothing more. */
  lemma {:induction false} SortPermutes<T>(xs: seq<T>, key: T -> Key, desc: bool)
    ensures multiset(SortBy(xs, key, desc)) == multiset(xs)
    decreases |xs|
  {
    if xs != [] {
      var init := xs[..|xs| - 1];
      SortPermutes(init, key, desc);
      InsertPermutes(SortBy(init, key, desc), xs[|xs| - 1], key, desc);
      assert xs == init + [xs[|xs| - 1]];
    }
  }

  /** The result is ordered by key: ascending, or descending with `reverse=True`. */
  lemma {:induction false} SortOrdered<T>(xs: seq<T>, key: T -> Key, desc: bool)
    ensures Ordered(SortBy(xs, key, desc), key, desc)
    decreases |xs|
  {
    if xs != [] {
      var init := xs[..|xs| - 1];
      SortOrdered(init, key, desc);
      InsertOrdered(SortBy(init, key, desc), xs[|xs| - 1], key, desc);
    }
  }

  /** The sort is stable: the items sharing any one key keep their original order. */
  lemma {:induction false} SortStable<T>(xs: seq<T>, key: T -> Key, desc: bool, k: Key)
    ensures WithKey(SortBy(xs, key, desc), key, k) == WithKey(xs, key, k)
    decreases |xs|
  {
    if xs != [] {
      var init := xs[..|xs| - 1];
      var x := xs[|xs| - 1];
      SortStable(init, key, desc, k);
      SortOrdered(init, key, desc);
      InsertStable(SortBy(init, key, desc), x, key, desc, k);
      WithKeyAppend(init, [x], key, k);
      assert xs == init + [x];
    }
  }

  /** When every item has the same key, nothing moves. */
  lemma {:induction false} SortSameKey<T>(xs: seq<T>, key: T -> Key, desc: bool, k: Key)
    requires forall i :: 0 <= i < |xs| ==> key(xs[i]) == k
    ensures SortBy(xs, key, desc) == xs
    decreases |xs|
  {
    if xs != [] {
      var init := xs[..|xs| - 1];
      SortSameKey(init, key, desc, k);
      PrecedesOrder(k, k, k, desc);
      InsertLast(init, xs[|xs| - 1], key, desc);
      assert xs == init + [xs[|xs| - 1]];
    }
  }

  /** Inserting an item that no item of `s` strictly follows appends it. */
  lemma {:induction false} InsertLast<T>(s: seq<T>, x: T, key: T -> Key, desc: bool)
    requires forall i :: 0 <= i < |s| ==> !Precedes(key(x), key(s[i]), desc)
    ensures Insert(s, x, key, desc) == s + [x]
    decreases |s|
  {
    if s != [] {
      InsertLast(s[1..], x, key, desc);
      assert s == [s[0]] + s[1..];
    }
  }
}
