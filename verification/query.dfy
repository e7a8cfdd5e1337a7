/** The Mongo query primitives the routes use, as functions over a
    collection held in natural (insertion) order: a `find` filter, a
    `findOne`, a descending `sort` on a date path, and `limit`. */
module Query {
  import opened Common

  /** `find(filter)`: the documents that match, in natural order. */
  function Select<T>(s: seq<T>, p: T -> bool): (r: seq<T>)
    ensures |r| <= |s|
    ensures forall i :: 0 <= i < |r| ==> p(r[i]) && r[i] in s
    ensures forall i :: 0 <= i < |s| && p(s[i]) ==> s[i] in r
  {
    if s == [] then []
    else if p(s[0]) then [s[0]] + Select(s[1..], p)
    else Select(s[1..], p)
  }

  /** Filtering distributes over concatenation. */
  lemma {:induction false} SelectAppend<T>(a: seq<T>, b: seq<T>, p: T -> bool)
    ensures Select(a + b, p) == Select(a, p) + Select(b, p)
  {
    if a == [] {
      assert a + b == b;
    } else {
      assert (a + b)[1..] == a[1..] + b;
      SelectAppend(a[1..], b, p);
    }
  }

  /** Filters that agree on every document select the same documents. */
  lemma {:induction false} SelectAgree<T>(s: seq<T>, p: T -> bool, q: T -> bool)
    requires forall x :: p(x) == q(x)
    ensures Select(s, p) == Select(s, q)
  {
    if s != [] {
      SelectAgree(s[1..], p, q);
    }
  }

  /** `findOne(filter)`: the first match in natural order, if any. */
  function FindFirst<T>(s: seq<T>, p: T -> bool): (r: Option<T>)
    ensures r.None? <==> forall i :: 0 <= i < |s| ==> !p(s[i])
    ensures r.Some? ==> p(r.value) && r.value in s
  {
    if s == [] then None
    else if p(s[0]) then Some(s[0])
    else FindFirst(s[1..], p)
  }

  /** The position of the first match, if any. */
  function FindIndex<T>(s: seq<T>, p: T -> bool): (r: Option<nat>)
    ensures r.None? <==> forall i :: 0 <= i < |s| ==> !p(s[i])
    ensures r.Some? ==> r.value < |s| && p(s[r.value])
                        && forall i :: 0 <= i < r.value ==> !p(s[i])
  {
    if s == [] then None
    else if p(s[0]) then Some(0)
    else match FindIndex(s[1..], p)
      case None => None
      case Some(k) => Some(k + 1)
  }

  /** The result of `sort({ key: -1 })`: latest first, missing keys last. */
  ghost predicate SortedDesc<T>(s: seq<T>, key: T -> Option<Date>)
  {
    forall i, j :: 0 <= i < j < |s| ==> KeyLe(key(s[j]), key(s[i]))
  }

  /** Inserts `x` into a list sorted latest first, before the first element
      whose key is not later than its own. */
  function InsertDesc<T>(x: T, s: seq<T>, key: T -> Option<Date>): (r: seq<T>)
    requires SortedDesc(s, key)
    ensures multiset(r) == multiset(s) + multiset{x}
    ensures SortedDesc(r, key)
  {
    if s == [] || KeyLe(key(s[0]), key(x)) then [x] + s
    else
      var rest := InsertDesc(x, s[1..], key);
      HeadBoundsInsert(x, s, rest, key);
      assert s == [s[0]] + s[1..];
      [s[0]] + rest
  }

  /** Every element of `rest`, a permutation of the tail of `s` and `x`,
      comes no later than the head of `s` when `x` does not. */
  lemma HeadBoundsInsert<T>(x: T, s: seq<T>, rest: seq<T>, key: T -> Option<Date>)
    requires SortedDesc(s, key) && s != [] && !KeyLe(key(s[0]), key(x))
    requires multiset(rest) == multiset(s[1..]) + multiset{x}
    ensures forall j :: 0 <= j < |rest| ==> KeyLe(key(rest[j]), key(s[0]))
  {
    forall j | 0 <= j < |rest| ensures KeyLe(key(rest[j]), key(s[0])) {
      assert rest[j] in multiset(rest);
      if rest[j] != x {
        assert rest[j] in multiset(s[1..]);
        var k :| 0 <= k < |s[1..]| && s[1..][k] == rest[j];
        assert s[k + 1] == rest[j];
      }
    }
  }

  /** `sort({ key: -1 })`: a permutation of the input, latest key first. Ties
      keep their natural order; Mongo leaves the order of ties unspecified. */
  function SortDesc<T>(s: seq<T>, key: T -> Option<Date>): (r: seq<T>)
    ensures multiset(r) == multiset(s)
    ensures |r| == |s|
    ensures SortedDesc(r, key)
  {
    if s == [] then []
    else
      var r := InsertDesc(s[0], SortDesc(s[1..], key), key);
      assert s == [s[0]] + s[1..];
      assert multiset(r) == multiset(s);
      assert |r| == |multiset(r)| == |multiset(s)| == |s|;
      r
  }

  /** Sorting on a key that no document has leaves the natural order. */
  lemma {:induction false} SortOnMissingKey<T>(s: seq<T>, key: T -> Option<Date>)
    requires forall x :: key(x).None?
    ensures SortDesc(s, key) == s
  {
    if s != [] {
      SortOnMissingKey(s[1..], key);
      assert s == [s[0]] + s[1..];
    }
  }

  /** `limit(n)`: the first `n` documents of the result. */
  function Limit<T>(s: seq<T>, n: nat): (r: seq<T>)
    ensures |r| <= n && |r| <= |s|
    ensures r == s[..|r|]
    ensures |s| <= n ==> r == s
    ensures |r| == if |s| <= n then |s| else n
  {
    if |s| <= n then s else s[..n]
  }
}
