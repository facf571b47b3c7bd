/** What the data layer does to a query's documents once it has selected
    them: keep those a predicate accepts, sort them on a key, and cut out the
    `skip`/`limit` window. */
module Listing {
  import opened Common

  predicate SortedBy<T>(s: seq<T>, key: T -> int) {
    forall i, j :: 0 <= i < j < |s| ==> key(s[i]) <= key(s[j])
  }

  /** `a` is `b` with some elements left out, the rest in the same order. */
  predicate SubsequenceOf<T(==)>(a: seq<T>, b: seq<T>)
    decreases |b|
  {
    if |a| == 0 then true
    else if |b| == 0 then false
    else if a[0] == b[0] then SubsequenceOf(a[1..], b[1..])
    else SubsequenceOf(a, b[1..])
  }

  /** The documents of `s` that `p` accepts, in their original order. */
  function Filter<T(==)>(s: seq<T>, p: T -> bool): (r: seq<T>)
    ensures forall k :: 0 <= k < |r| ==> r[k] in s && p(r[k])
    ensures forall k :: 0 <= k < |s| && p(s[k]) ==> s[k] in r
    ensures |r| <= |s|
    ensures SubsequenceOf(r, s)
    ensures (forall k :: 0 <= k < |s| ==> p(s[k])) ==> r == s
    decreases |s|
  {
    if |s| == 0 then []
    else
      var rest := Filter(s[1..], p);
      assert s == [s[0]] + s[1..];
      if p(s[0]) then
        assert ([s[0]] + rest)[1..] == rest;
        [s[0]] + rest
      else
        assert |rest| > 0 ==> rest[0] in rest;
        rest
  }

  /** Filtering a list with one more element at the end filters the list and
      then keeps or drops that element. */
  lemma {:induction false} FilterSnoc<T>(s: seq<T>, x: T, p: T -> bool)
    ensures Filter(s + [x], p) == Filter(s, p) + (if p(x) then [x] else [])
    decreases |s|
  {
    if |s| > 0 {
      assert (s + [x])[1..] == s[1..] + [x];
      FilterSnoc(s[1..], x, p);
    }
  }

  /** Filtering keeps every accepted element as many times as it occurs and
      drops every other one. */
  lemma {:induction false} FilterMultiplicity<T>(s: seq<T>, p: T -> bool, x: T)
    ensures multiset(Filter(s, p))[x] == if p(x) then multiset(s)[x] else 0
    decreases |s|
  {
    if |s| > 0 {
      assert s == [s[0]] + s[1..];
      FilterMultiplicity(s[1..], p, x);
    }
  }

  function FirstIndexFrom<T>(s: seq<T>, p: T -> bool, i: nat): (r: Option<nat>)
    requires i <= |s|
    ensures r.Some? ==> i <= r.value < |s| && p(s[r.value])
    ensures r.Some? ==> forall k :: i <= k < r.value ==> !p(s[k])
    ensures r.None? ==> forall k :: i <= k < |s| ==> !p(s[k])
    decreases |s| - i
  {
    if i == |s| then None
    else if p(s[i]) then Some(i)
    else FirstIndexFrom(s, p, i + 1)
  }

  /** Position of the first document `p` accepts (`findById`, `findOne`). */
  function FirstIndex<T>(s: seq<T>, p: T -> bool): (r: Option<nat>)
    ensures r.Some? ==> r.value < |s| && p(s[r.value])
    ensures r.Some? ==> forall k :: 0 <= k < r.value ==> !p(s[k])
    ensures r.None? ==> forall k :: 0 <= k < |s| ==> !p(s[k])
  {
    FirstIndexFrom(s, p, 0)
  }

  lemma InsertedBound<T>(x: T, s: seq<T>, r: seq<T>, key: T -> int, b: int)
    requires multiset(r) == multiset(s) + multiset{x}
    requires b <= key(x)
    requires forall k :: 0 <= k < |s| ==> b <= key(s[k])
    ensures forall k :: 0 <= k < |r| ==> b <= key(r[k])
  {
    forall k | 0 <= k < |r|
      ensures b <= key(r[k])
    {
      assert r[k] in multiset(r);
      if r[k] != x {
        assert r[k] in multiset(s);
        var j :| 0 <= j < |s| && s[j] == r[k];
      }
    }
  }

  /** Places `x` into an already sorted sequence. */
  function Insert<T>(x: T, s: seq<T>, key: T -> int): (r: seq<T>)
    requires SortedBy(s, key)
    ensures SortedBy(r, key)
    ensures multiset(r) == multiset(s) + multiset{x}
    decreases |s|
  {
    if |s| == 0 || key(x) <= key(s[0]) then [x] + s
    else
      var rest := Insert(x, s[1..], key);
      assert s == [s[0]] + s[1..];
      InsertedBound(x, s[1..], rest, key, key(s[0]));
      [s[0]] + rest
  }

  /** The data layer's `sort` on an integer key, ascending: a reordering of
      its input in which keys never decrease. */
  function SortBy<T>(s: seq<T>, key: T -> int): (r: seq<T>)
    ensures SortedBy(r, key)
    ensures multiset(r) == multiset(s)
    decreases |s|
  {
    if |s| == 0 then []
    else
      assert s == [s[0]] + s[1..];
      Insert(s[0], SortBy(s[1..], key), key)
  }

  /** How many documents a `limit` lets through out of `available`: a limit
      of 0 means no limit, and a negative limit is read as its magnitude. */
  function Taken(available: nat, limit: int): nat {
    if limit == 0 then available else Min(Abs(limit), available)
  }

  /** The data layer's `skip(skip).limit(limit)`; a negative skip is refused. */
  function Window<T>(s: seq<T>, skip: int, limit: int): (r: Result<seq<T>>)
    ensures r.Err? <==> skip < 0
    ensures r.Ok? ==> |r.value| == Taken(Max(0, |s| - skip), limit)
    ensures r.Ok? ==> forall i :: 0 <= i < |r.value| ==> r.value[i] == s[skip + i]
    ensures r.Ok? ==> Min(skip, |s|) + |r.value| <= |s| && r.value == s[Min(skip, |s|)..Min(skip, |s|) + |r.value|]
  {
    if skip < 0 then Err("skip value must be non-negative")
    else
      var start := Min(skip, |s|);
      Ok(s[start..start + Taken(|s| - start, limit)])
  }

  /** A window of a sorted listing is still sorted. */
  lemma WindowKeepsOrder<T>(s: seq<T>, skip: int, limit: int, key: T -> int)
    requires SortedBy(s, key)
    requires Window(s, skip, limit).Ok?
    ensures SortedBy(Window(s, skip, limit).value, key)
  {
    var w := Window(s, skip, limit).value;
    forall i, j | 0 <= i < j < |w|
      ensures key(w[i]) <= key(w[j])
    {
      assert w[i] == s[skip + i] && w[j] == s[skip + j];
    }
  }

  /** `page` is the run of elements, starting at position `skip`, of some
      ordering of `s` by `key`.  The data layer's sort leaves the order of
      equal keys open, so any such ordering will do. */
  ghost predicate PageOfSorted<T(!new)>(page: seq<T>, s: seq<T>, key: T -> int, skip: nat) {
    exists t :: && multiset(t) == multiset(s) && SortedBy(t, key)
                && Min(skip, |t|) + |page| <= |t| && page == t[Min(skip, |t|)..Min(skip, |t|) + |page|]
  }

  /** Sorting and then cutting the window gives such a page. */
  lemma WindowOfSorted<T(!new)>(s: seq<T>, skip: int, limit: int, key: T -> int)
    requires skip >= 0
    ensures PageOfSorted(Window(SortBy(s, key), skip, limit).value, s, key, skip)
  {
    var t := SortBy(s, key);
    var page := Window(t, skip, limit).value;
    assert multiset(t) == multiset(s) && SortedBy(t, key)
           && Min(skip, |t|) + |page| <= |t| && page == t[Min(skip, |t|)..Min(skip, |t|) + |page|];
  }

  // Ranks

  /** How many elements of `s` satisfy `p`. */
  function Count<T>(s: seq<T>, p: T -> bool): (n: nat)
    ensures n <= |s|
    decreases |s|
  {
    if |s| == 0 then 0 else (if p(s[0]) then 1 else 0) + Count(s[1..], p)
  }

  predicate DistinctKeys<T>(s: seq<T>, key: T -> int) {
    forall i, j :: 0 <= i < j < |s| ==> key(s[i]) != key(s[j])
  }

  function Below<T>(key: T -> int, d: int): T -> bool {
    (x: T) => key(x) < d
  }

  function SameKey<T>(key: T -> int, d: int): T -> bool {
    (x: T) => key(x) == d
  }

  /** How many elements of `s` have a key below `d`: the rank a document
      with key `d` takes in any sort of `s` by `key`. */
  function Earlier<T>(s: seq<T>, key: T -> int, d: int): nat {
    Count(s, Below(key, d))
  }

  lemma {:induction false} CountAppend<T>(a: seq<T>, b: seq<T>, p: T -> bool)
    ensures Count(a + b, p) == Count(a, p) + Count(b, p)
    decreases |a|
  {
    if |a| == 0 {
      assert a + b == b;
    } else {
      assert (a + b)[1..] == a[1..] + b;
      CountAppend(a[1..], b, p);
    }
  }

  /** Reordering a sequence does not change how many of its elements
      satisfy a predicate. */
  lemma {:induction false} CountPermutation<T>(a: seq<T>, b: seq<T>, p: T -> bool)
    requires multiset(a) == multiset(b)
    ensures Count(a, p) == Count(b, p)
    decreases |a|
  {
    if |a| > 0 {
      var x := a[0];
      assert a == [x] + a[1..];
      assert x in multiset(b);
      var i :| 0 <= i < |b| && b[i] == x;
      assert b == b[..i] + [x] + b[i + 1..];
      var rest := b[..i] + b[i + 1..];
      assert multiset(b) == multiset(b[..i]) + multiset{x} + multiset(b[i + 1..]);
      assert multiset(a) == multiset{x} + multiset(a[1..]);
      assert multiset(rest) == multiset(b[..i]) + multiset(b[i + 1..]);
      assert multiset(rest) == multiset(b) - multiset{x};
      assert multiset(a[1..]) == multiset(a) - multiset{x};
      CountPermutation(a[1..], rest, p);
      CountAppend(b[..i] + [x], b[i + 1..], p);
      CountAppend(b[..i], [x], p);
      CountAppend(b[..i], b[i + 1..], p);
    }
  }

  /** When `p` holds on exactly the first `j` elements, `j` of them satisfy it. */
  lemma {:induction false} CountPrefix<T>(t: seq<T>, p: T -> bool, j: nat)
    requires j <= |t|
    requires forall i :: 0 <= i < |t| ==> (p(t[i]) <==> i < j)
    ensures Count(t, p) == j
    decreases |t|
  {
    if |t| > 0 {
      CountPrefix(t[1..], p, if j == 0 then 0 else j - 1);
    }
  }

  lemma {:induction false} CountAt<T>(t: seq<T>, p: T -> bool, i: nat)
    requires i < |t| && p(t[i])
    ensures Count(t, p) >= 1
    decreases |t|
  {
    if i > 0 {
      CountAt(t[1..], p, i - 1);
    }
  }

  lemma {:induction false} CountAtTwo<T>(t: seq<T>, p: T -> bool, i: nat, j: nat)
    requires i < j < |t| && p(t[i]) && p(t[j])
    ensures Count(t, p) >= 2
    decreases |t|
  {
    if i > 0 {
      CountAtTwo(t[1..], p, i - 1, j - 1);
    } else {
      CountAt(t[1..], p, j - 1);
    }
  }

  lemma {:induction false} CountWitness<T>(s: seq<T>, p: T -> bool)
    requires Count(s, p) >= 1
    ensures exists i :: 0 <= i < |s| && p(s[i])
    decreases |s|
  {
    if !p(s[0]) {
      CountWitness(s[1..], p);
      var i :| 0 <= i < |s[1..]| && p(s[1..][i]);
      assert p(s[i + 1]);
    }
  }

  lemma {:induction false} CountWitnesses<T>(s: seq<T>, p: T -> bool)
    requires Count(s, p) >= 2
    ensures exists i, j :: 0 <= i < j < |s| && p(s[i]) && p(s[j])
    decreases |s|
  {
    if p(s[0]) {
      CountWitness(s[1..], p);
      var j :| 0 <= j < |s[1..]| && p(s[1..][j]);
      assert p(s[0]) && p(s[j + 1]);
    } else {
      CountWitnesses(s[1..], p);
      var i, j :| 0 <= i < j < |s[1..]| && p(s[1..][i]) && p(s[1..][j]);
      assert p(s[i + 1]) && p(s[j + 1]);
    }
  }

  /** Distinct keys stay distinct under any reordering. */
  lemma DistinctKeysPermutation<T>(s: seq<T>, t: seq<T>, key: T -> int)
    requires multiset(s) == multiset(t) && DistinctKeys(s, key)
    ensures DistinctKeys(t, key)
  {
    forall i, j | 0 <= i < j < |t|
      ensures key(t[i]) != key(t[j])
    {
      if key(t[i]) == key(t[j]) {
        var same := SameKey(key, key(t[i]));
        CountAtTwo(t, same, i, j);
        CountPermutation(s, t, same);
        CountWitnesses(s, same);
        assert false;
      }
    }
  }

  /** In a sorted sequence with distinct keys, the elements with a key
      below that of position `j` are exactly the first `j`. */
  lemma SortedRank<T>(t: seq<T>, key: T -> int, j: nat)
    requires SortedBy(t, key) && DistinctKeys(t, key) && j < |t|
    ensures Earlier(t, key, key(t[j])) == j
  {
    var d := key(t[j]);
    forall i | 0 <= i < |t|
      ensures Below(key, d)(t[i]) <==> i < j
    {
      if i < j {
        assert key(t[i]) <= d && key(t[i]) != d;
      } else if i > j {
        assert key(t[j]) <= key(t[i]);
      }
    }
    CountPrefix(t, Below(key, d), j);
  }

  /** With distinct keys, the `k`-th element of a sorted page is the element
      of `s` that has exactly `skip + k` elements with a smaller key: the
      page is determined by `s`, `key` and `skip`. */
  lemma PageRank<T(!new)>(page: seq<T>, s: seq<T>, key: T -> int, skip: nat, k: nat)
    requires PageOfSorted(page, s, key, skip) && DistinctKeys(s, key)
    requires k < |page|
    ensures page[k] in s
    ensures Earlier(s, key, key(page[k])) == skip + k
  {
    var t :| && multiset(t) == multiset(s) && SortedBy(t, key)
             && Min(skip, |t|) + |page| <= |t| && page == t[Min(skip, |t|)..Min(skip, |t|) + |page|];
    RankInOrdering(page, s, t, key, skip, k);
  }

  lemma RankInOrdering<T>(page: seq<T>, s: seq<T>, t: seq<T>, key: T -> int, skip: nat, k: nat)
    requires multiset(t) == multiset(s) && SortedBy(t, key) && DistinctKeys(s, key)
    requires Min(skip, |t|) + |page| <= |t| && page == t[Min(skip, |t|)..Min(skip, |t|) + |page|]
    requires k < |page|
    ensures page[k] in s
    ensures Earlier(s, key, key(page[k])) == skip + k
  {
    assert skip <= |t|;
    assert page[k] == t[skip + k];
    assert page[k] in multiset(s);
    DistinctKeysPermutation(s, t, key);
    SortedRank(t, key, skip + k);
    CountPermutation(s, t, Below(key, key(page[k])));
  }
}
