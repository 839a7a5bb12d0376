/** The two query stages every list handler uses: a `find` filter over the
    documents of a collection, and a `.sort()` on one integer key. */
module Query {

  /** The documents of `docs` that match `p`, in their original order. */
  function Filter<T>(docs: seq<T>, p: T -> bool): (r: seq<T>)
    ensures |r| <= |docs|
  {
    if docs == [] then []
    else (if p(docs[0]) then [docs[0]] else []) + Filter(docs[1..], p)
  }

  /** A filter keeps every matching copy of a document and nothing else. */
  lemma {:induction false} FilterCount<T>(docs: seq<T>, p: T -> bool, x: T)
    ensures multiset(Filter(docs, p))[x] == if p(x) then multiset(docs)[x] else 0
  {
    if docs != [] {
      FilterCount(docs[1..], p, x);
      assert docs == [docs[0]] + docs[1..];
      assert multiset(docs) == multiset([docs[0]]) + multiset(docs[1..]);
    }
  }

  /** Filtering a concatenation filters each part. */
  lemma {:induction false} FilterAppend<T>(a: seq<T>, b: seq<T>, p: T -> bool)
    ensures Filter(a + b, p) == Filter(a, p) + Filter(b, p)
  {
    if a != [] {
      FilterAppend(a[1..], b, p);
      var head := if p(a[0]) then [a[0]] else [];
      assert (a + b)[0] == a[0] && (a + b)[1..] == a[1..] + b;
      assert Filter(a + b, p) == head + (Filter(a[1..], p) + Filter(b, p));
      assert Filter(a, p) == head + Filter(a[1..], p);
    } else {
      assert a + b == b;
    }
  }

  /** Ascending order of `key`; a descending sort uses the negated key. */
  ghost predicate SortedBy<T>(s: seq<T>, key: T -> int) {
    forall i, j :: 0 <= i < j < |s| ==> key(s[i]) <= key(s[j])
  }

  /** Places `x` before the first element whose key is not smaller. */
  function Insert<T>(x: T, s: seq<T>, key: T -> int): seq<T> {
    if s == [] || key(x) <= key(s[0]) then [x] + s
    else [s[0]] + Insert(x, s[1..], key)
  }

  /** A lower bound of `x` and of every element of `s` bounds the insertion. */
  lemma {:induction false} InsertBound<T>(x: T, s: seq<T>, key: T -> int, b: int)
    requires b <= key(x)
    requires forall k :: 0 <= k < |s| ==> b <= key(s[k])
    ensures forall k :: 0 <= k < |Insert(x, s, key)| ==> b <= key(Insert(x, s, key)[k])
  {
    if s != [] && key(x) > key(s[0]) {
      InsertBound(x, s[1..], key, b);
    }
  }

  lemma {:induction false} InsertSorted<T>(x: T, s: seq<T>, key: T -> int)
    requires SortedBy(s, key)
    ensures SortedBy(Insert(x, s, key), key)
  {
    if s != [] && key(x) > key(s[0]) {
      InsertSorted(x, s[1..], key);
      InsertBound(x, s[1..], key, key(s[0]));
    }
  }

  /** An insertion adds exactly one copy of `x`. */
  lemma {:induction false} InsertCount<T>(x: T, s: seq<T>, key: T -> int)
    ensures multiset(Insert(x, s, key)) == multiset(s) + multiset{x}
  {
    if s != [] && key(x) > key(s[0]) {
      InsertCount(x, s[1..], key);
      assert s == [s[0]] + s[1..];
    }
  }

  /** The order a `.sort({ key: 1 })` stage produces: the same documents,
      ascending by `key`. Ties keep their order, which a caller may not rely on. */
  method SortBy<T>(docs: seq<T>, key: T -> int) returns (r: seq<T>)
    ensures SortedBy(r, key)
    ensures multiset(r) == multiset(docs)
  {
    r := [];
    var i := 0;
    while i < |docs|
      invariant 0 <= i <= |docs|
      invariant SortedBy(r, key)
      invariant multiset(r) == multiset(docs[..i])
    {
      InsertSorted(docs[i], r, key);
      InsertCount(docs[i], r, key);
      r := Insert(docs[i], r, key);
      assert docs[..i + 1] == docs[..i] + [docs[i]];
      i := i + 1;
    }
    assert docs[..i] == docs;
  }

  /** A collection scan: the documents of a table whose ids lie below `n`,
      in id (insertion) order. */
  function Collect<R>(rows: map<nat, R>, n: nat): seq<R> {
    if n == 0 then []
    else Collect(rows, n - 1) + (if n - 1 in rows then [rows[n - 1]] else [])
  }

  /** When every document is stored under its own id, the scan holds each
      document with an id below `n` exactly once. */
  lemma {:induction false} CollectCount<R>(rows: map<nat, R>, n: nat, idOf: R -> nat, x: R)
    requires forall k :: k in rows ==> idOf(rows[k]) == k
    ensures multiset(Collect(rows, n))[x] == if x in rows.Values && idOf(x) < n then 1 else 0
  {
    if n > 0 {
      CollectCount(rows, n - 1, idOf, x);
      if x in rows.Values && idOf(x) == n - 1 {
        var k :| k in rows && rows[k] == x;
        assert k == n - 1;
      }
    }
  }

  /** `Model.find(filter).sort(key)` over a table whose ids all lie below `n`:
      every matching document exactly once, ascending by `key`. */
  method Find<R(==)>(rows: map<nat, R>, n: nat, idOf: R -> nat, filter: R -> bool, key: R -> int)
    returns (r: seq<R>)
    requires forall k :: k in rows ==> k < n && idOf(rows[k]) == k
    ensures forall x :: multiset(r)[x] == if x in rows.Values && filter(x) then 1 else 0
    ensures SortedBy(r, key)
  {
    var docs := Collect(rows, n);
    var matching := Filter(docs, filter);
    r := SortBy(matching, key);
    forall x
      ensures multiset(r)[x] == if x in rows.Values && filter(x) then 1 else 0
    {
      FilterCount(docs, filter, x);
      CollectCount(rows, n, idOf, x);
      if x in rows.Values {
        var k :| k in rows && rows[k] == x;
      }
    }
  }
}
