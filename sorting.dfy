/** MongoDB's `sort` on one numeric path. BSON order puts null before every
    number; the order among documents with equal keys is left unspecified, so
    only sortedness and the permutation are promised. */
module Sorting {
  import opened Js

  datatype Direction = Ascending | Descending

  /** BSON comparison of two nullable numbers. */
  predicate KeyLe(a: Option<int>, b: Option<int>) {
    a.None? || (b.Some? && a.value <= b.value)
  }

  predicate InOrder(a: Option<int>, b: Option<int>, dir: Direction) {
    if dir == Ascending then KeyLe(a, b) else KeyLe(b, a)
  }

  predicate SortedBy<T>(s: seq<T>, key: T -> Option<int>, dir: Direction) {
    forall i, j :: 0 <= i < j < |s| ==> InOrder(key(s[i]), key(s[j]), dir)
  }

  /** Putting in front an element that is in order with every element keeps a list sorted. */
  lemma ConsSorted<T>(x: T, s: seq<T>, key: T -> Option<int>, dir: Direction)
    requires SortedBy(s, key, dir)
    requires forall j :: 0 <= j < |s| ==> InOrder(key(x), key(s[j]), dir)
    ensures SortedBy([x] + s, key, dir)
  {
    var r := [x] + s;
    forall i, j | 0 <= i < j < |r| ensures InOrder(key(r[i]), key(r[j]), dir) {
      if i > 0 {
        assert r[i] == s[i - 1] && r[j] == s[j - 1];
      }
    }
  }

  /** After inserting x into t, every element still follows y, when x and all of t do. */
  lemma InsertBound<T>(y: T, x: T, t: seq<T>, rest: seq<T>, key: T -> Option<int>, dir: Direction)
    requires multiset(rest) == multiset(t) + multiset{x}
    requires InOrder(key(y), key(x), dir)
    requires forall j :: 0 <= j < |t| ==> InOrder(key(y), key(t[j]), dir)
    ensures forall j :: 0 <= j < |rest| ==> InOrder(key(y), key(rest[j]), dir)
  {
    forall j | 0 <= j < |rest| ensures InOrder(key(y), key(rest[j]), dir) {
      assert rest[j] in multiset(t) + multiset{x} by {
        assert rest[j] in multiset(rest);
      }
      if rest[j] != x {
        assert rest[j] in t;
      }
    }
  }

  function Insert<T>(x: T, s: seq<T>, key: T -> Option<int>, dir: Direction): (r: seq<T>)
    requires SortedBy(s, key, dir)
    ensures |r| == |s| + 1
    ensures multiset(r) == multiset(s) + multiset{x}
    ensures SortedBy(r, key, dir)
  {
    if s == [] || InOrder(key(x), key(s[0]), dir) then
      assert forall j :: 0 <= j < |s| ==> InOrder(key(s[0]), key(s[j]), dir);
      ConsSorted(x, s, key, dir);
      [x] + s
    else
      assert s == [s[0]] + s[1..];
      var rest := Insert(x, s[1..], key, dir);
      assert forall j :: 0 <= j < |s[1..]| ==> InOrder(key(s[0]), key(s[1..][j]), dir) by {
        assert forall j :: 0 <= j < |s[1..]| ==> s[1..][j] == s[j + 1];
      }
      InsertBound(s[0], x, s[1..], rest, key, dir);
      ConsSorted(s[0], rest, key, dir);
      [s[0]] + rest
  }

  /** `.sort({ path: 1 })` or `.sort({ path: -1 })` on a list of documents. */
  function SortBy<T>(s: seq<T>, key: T -> Option<int>, dir: Direction): (r: seq<T>)
    ensures |r| == |s|
    ensures multiset(r) == multiset(s)
    ensures SortedBy(r, key, dir)
  {
    if s == [] then []
    else
      assert s == [s[0]] + s[1..];
      Insert(s[0], SortBy(s[1..], key, dir), key, dir)
  }
}
