/** Sequence helpers shared by the engine: filtering, first-occurrence de-duplication and stable sorting. */
module Seqs {

  // ---------------------------------------------------------------- filtering

  /** The elements of `s` that satisfy `p`, in order (Array.prototype.filter). */
  function Filter<T>(s: seq<T>, p: T -> bool): (r: seq<T>)
    ensures |r| <= |s|
    ensures forall i :: 0 <= i < |r| ==> p(r[i])
  {
    if s == [] then []
    else if p(s[|s| - 1]) then Filter(s[..|s| - 1], p) + [s[|s| - 1]]
    else Filter(s[..|s| - 1], p)
  }

  lemma {:induction false} FilterMembers<T>(s: seq<T>, p: T -> bool, x: T)
    ensures x in Filter(s, p) <==> x in s && p(x)
  {
    if s != [] {
      assert s == s[..|s| - 1] + [s[|s| - 1]];
      FilterMembers(s[..|s| - 1], p, x);
    }
  }

  lemma {:induction false} FilterAppend<T>(a: seq<T>, b: seq<T>, p: T -> bool)
    ensures Filter(a + b, p) == Filter(a, p) + Filter(b, p)
  {
    if b == [] {
      assert a + b == a;
    } else {
      assert (a + b)[..|a + b| - 1] == a + b[..|b| - 1];
      FilterAppend(a, b[..|b| - 1], p);
    }
  }

  lemma FilterSingle<T>(x: T, p: T -> bool)
    ensures Filter([x], p) == if p(x) then [x] else []
  {
    assert [x][..0] == [];
  }

  /** Filtering a prefix yields a prefix of the filtered sequence. */
  lemma FilterPrefix<T>(s: seq<T>, i: nat, p: T -> bool)
    requires i <= |s|
    ensures Filter(s[..i], p) <= Filter(s, p)
  {
    assert s == s[..i] + s[i..];
    FilterAppend(s[..i], s[i..], p);
  }

  /** Filtering a window that starts where the suffix starts gives a prefix of the suffix's filter. */
  lemma FilterWindowPrefix<T>(s: seq<T>, a: nat, b: nat, p: T -> bool)
    requires a <= b <= |s|
    ensures Filter(s[a..b], p) <= Filter(s[a..], p)
  {
    FilterPrefix(s[a..], b - a, p);
    assert s[a..][..b - a] == s[a..b];
  }

  /** Extending a prefix by one element extends its filtered form by that element when it passes. */
  lemma FilterSnoc<T>(s: seq<T>, i: nat, p: T -> bool)
    requires i < |s|
    ensures Filter(s[..i + 1], p) == Filter(s[..i], p) + if p(s[i]) then [s[i]] else []
  {
    assert s[..i + 1][..i] == s[..i];
  }

  /** The same for a window `s[a..b]` of the sequence. */
  lemma FilterWindowSnoc<T>(s: seq<T>, a: nat, b: nat, p: T -> bool)
    requires a <= b < |s|
    ensures Filter(s[a..b + 1], p) == Filter(s[a..b], p) + if p(s[b]) then [s[b]] else []
  {
    assert s[a..b + 1][..b - a] == s[a..b];
  }

  lemma {:induction false} FilterNone<T>(s: seq<T>, p: T -> bool)
    requires forall i :: 0 <= i < |s| ==> !p(s[i])
    ensures Filter(s, p) == []
  {
    if s != [] {
      FilterNone(s[..|s| - 1], p);
    }
  }

  lemma {:induction false} FilterAll<T>(s: seq<T>, p: T -> bool)
    requires forall i :: 0 <= i < |s| ==> p(s[i])
    ensures Filter(s, p) == s
  {
    if s != [] {
      FilterAll(s[..|s| - 1], p);
    }
  }

  lemma {:induction false} FilterMultiset<T>(s: seq<T>, p: T -> bool)
    ensures multiset(Filter(s, p)) <= multiset(s)
  {
    if s != [] {
      assert s == s[..|s| - 1] + [s[|s| - 1]];
      FilterMultiset(s[..|s| - 1], p);
    }
  }

  /** Splitting by a predicate and its complement loses and invents nothing. */
  lemma {:induction false} FilterComplement<T>(s: seq<T>, p: T -> bool, q: T -> bool)
    requires forall x :: q(x) <==> !p(x)
    ensures multiset(Filter(s, p)) + multiset(Filter(s, q)) == multiset(s)
  {
    if s != [] {
      assert s == s[..|s| - 1] + [s[|s| - 1]];
      FilterComplement(s[..|s| - 1], p, q);
    }
  }

  // ---------------------------------------------------------------- first-occurrence de-duplication

  predicate NoDuplicates<T(==)>(s: seq<T>) {
    forall i, j :: 0 <= i < j < |s| ==> s[i] != s[j]
  }

  /** Adding each element of `s`, in order, to an insertion-ordered set (a JavaScript Set). */
  function Dedup<T(==)>(s: seq<T>): (r: seq<T>)
    ensures NoDuplicates(r)
    ensures forall i :: 0 <= i < |r| ==> r[i] in s
    ensures forall i :: 0 <= i < |s| ==> s[i] in r
  {
    if s == [] then []
    else
      var d := Dedup(s[..|s| - 1]);
      assert forall i :: 0 <= i < |s| - 1 ==> s[i] == s[..|s| - 1][i];
      if s[|s| - 1] in d then d else d + [s[|s| - 1]]
  }

  /** The first element added to a Set is its first element. */
  lemma {:induction false} DedupFirst<T>(s: seq<T>)
    requires s != []
    ensures |Dedup(s)| > 0 && Dedup(s)[0] == s[0]
  {
    var pre := s[..|s| - 1];
    if pre != [] {
      DedupFirst(pre);
      assert pre[0] == s[0];
    }
  }

  lemma AppendSlice<T>(a: seq<T>, b: seq<T>, j: nat)
    requires j < |b|
    ensures a + b[..j + 1] == (a + b[..j]) + [b[j]]
  {
    assert b[..j + 1] == b[..j] + [b[j]];
  }

  lemma DedupSnoc<T>(s: seq<T>, x: T)
    ensures Dedup(s + [x]) == if x in Dedup(s) then Dedup(s) else Dedup(s) + [x]
  {
    assert (s + [x])[..|s|] == s;
  }

  /** The position of the first occurrence of `x` in `s`. */
  function FirstIndex<T(==)>(s: seq<T>, x: T): (k: nat)
    requires x in s
    ensures k < |s| && s[k] == x
    ensures forall j :: 0 <= j < k ==> s[j] != x
  {
    if s[0] == x then 0 else 1 + FirstIndex(s[1..], x)
  }

  lemma FirstIndexPrefix<T>(s: seq<T>, n: nat, x: T)
    requires n <= |s| && x in s[..n]
    ensures FirstIndex(s, x) == FirstIndex(s[..n], x)
  {
    var k := FirstIndex(s[..n], x);
    var m := FirstIndex(s, x);
    assert s[k] == x;
    assert m <= k;
    assert s[..n][m] == x;
  }

  /** De-duplication keeps first-insertion order: earlier elements of the result first occur earlier. */
  lemma {:induction false} DedupOrder<T>(s: seq<T>, i: nat, j: nat)
    requires i < j < |Dedup(s)|
    ensures FirstIndex(s, Dedup(s)[i]) < FirstIndex(s, Dedup(s)[j])
  {
    var n := |s| - 1;
    var pre := s[..n];
    var d := Dedup(pre);
    var r := Dedup(s);
    assert r[i] in pre by {
      if r == d { } else { assert r == d + [s[n]]; assert i < |d|; }
    }
    FirstIndexPrefix(s, n, r[i]);
    if j < |d| {
      assert r[i] == d[i] && r[j] == d[j];
      FirstIndexPrefix(s, n, r[j]);
      DedupOrder(pre, i, j);
    } else {
      assert r[j] == s[n] && s[n] !in pre;
      assert FirstIndex(s, r[j]) == n;
    }
  }

  // ---------------------------------------------------------------- stable sorting

  predicate SortedBy<T>(s: seq<T>, key: T -> int) {
    forall i, j :: 0 <= i < j < |s| ==> key(s[i]) <= key(s[j])
  }

  function HasKey<T>(key: T -> int, k: int): T -> bool {
    x => key(x) == k
  }

  /** Inserts `x` before the first element whose key is strictly greater, so equal keys keep their order. */
  function InsertSorted<T>(s: seq<T>, x: T, key: T -> int): (r: seq<T>)
    ensures |r| == |s| + 1
  {
    if s == [] then [x]
    else if key(x) < key(s[0]) then [x] + s
    else [s[0]] + InsertSorted(s[1..], x, key)
  }

  /** A stable sort by an integer key, as Array.prototype.sort does with `(a, b) => key(a) - key(b)`. */
  function SortBy<T>(s: seq<T>, key: T -> int): (r: seq<T>)
    ensures |r| == |s|
  {
    if s == [] then [] else InsertSorted(SortBy(s[..|s| - 1], key), s[|s| - 1], key)
  }

  lemma SortedTail<T>(s: seq<T>, key: T -> int)
    requires SortedBy(s, key) && s != []
    ensures SortedBy(s[1..], key)
    ensures forall j :: 0 <= j < |s| ==> key(s[0]) <= key(s[j])
  {
  }

  lemma SortedCons<T>(a: T, t: seq<T>, key: T -> int)
    requires SortedBy(t, key)
    requires forall j :: 0 <= j < |t| ==> key(a) <= key(t[j])
    ensures SortedBy([a] + t, key)
  {
    var r := [a] + t;
    forall i, j | 0 <= i < j < |r| ensures key(r[i]) <= key(r[j]) {
      assert r[j] == t[j - 1];
      if i > 0 {
        assert r[i] == t[i - 1];
      }
    }
  }

  /** Inserting keeps a common lower bound on the keys. */
  lemma {:induction false} InsertSortedBound<T>(s: seq<T>, x: T, key: T -> int, b: int)
    requires forall j :: 0 <= j < |s| ==> b <= key(s[j])
    requires b <= key(x)
    ensures forall j :: 0 <= j < |InsertSorted(s, x, key)| ==> b <= key(InsertSorted(s, x, key)[j])
  {
    if s != [] && key(x) >= key(s[0]) {
      InsertSortedBound(s[1..], x, key, b);
      var t := InsertSorted(s[1..], x, key);
      assert InsertSorted(s, x, key) == [s[0]] + t;
    }
  }

  lemma {:induction false} InsertSortedMultiset<T>(s: seq<T>, x: T, key: T -> int)
    ensures multiset(InsertSorted(s, x, key)) == multiset(s) + multiset{x}
  {
    if s != [] && key(x) >= key(s[0]) {
      InsertSortedMultiset(s[1..], x, key);
      assert s == [s[0]] + s[1..];
    }
  }

  lemma {:induction false} InsertSortedKeys<T>(s: seq<T>, x: T, key: T -> int)
    requires SortedBy(s, key)
    ensures SortedBy(InsertSorted(s, x, key), key)
    ensures multiset(InsertSorted(s, x, key)) == multiset(s) + multiset{x}
  {
    InsertSortedMultiset(s, x, key);
    if s == [] {
    } else if key(x) < key(s[0]) {
      SortedTail(s, key);
      SortedCons(x, s, key);
    } else {
      SortedTail(s, key);
      InsertSortedKeys(s[1..], x, key);
      var t := InsertSorted(s[1..], x, key);
      InsertSortedBound(s[1..], x, key, key(s[0]));
      SortedCons(s[0], t, key);
    }
  }

  lemma {:induction false} SortByIsSorted<T>(s: seq<T>, key: T -> int)
    ensures SortedBy(SortBy(s, key), key)
    ensures multiset(SortBy(s, key)) == multiset(s)
  {
    if s != [] {
      SortByIsSorted(s[..|s| - 1], key);
      InsertSortedKeys(SortBy(s[..|s| - 1], key), s[|s| - 1], key);
      assert s == s[..|s| - 1] + [s[|s| - 1]];
    }
  }

  lemma HasKeyApply<T>(key: T -> int, k: int, y: T)
    ensures HasKey(key, k)(y) == (key(y) == k)
  {
  }

  /** An element placed before a sorted sequence of strictly greater keys is the only one with its key. */
  lemma InsertFirstStable<T>(s: seq<T>, x: T, key: T -> int, k: int)
    requires SortedBy(s, key) && s != [] && key(x) < key(s[0])
    ensures Filter([x] + s, HasKey(key, k)) == Filter(s, HasKey(key, k)) + if key(x) == k then [x] else []
  {
    var p := HasKey(key, k);
    HasKeyApply(key, k, x);
    FilterSingle(x, p);
    FilterAppend([x], s, p);
    if key(x) == k {
      SortedTail(s, key);
      forall i | 0 <= i < |s| ensures !p(s[i]) {
        HasKeyApply(key, k, s[i]);
      }
      FilterNone(s, p);
    }
  }

  lemma {:induction false} InsertSortedStable<T>(s: seq<T>, x: T, key: T -> int, k: int)
    requires SortedBy(s, key)
    ensures Filter(InsertSorted(s, x, key), HasKey(key, k)) ==
            Filter(s, HasKey(key, k)) + if key(x) == k then [x] else []
  {
    var p := HasKey(key, k);
    if s == [] {
      HasKeyApply(key, k, x);
      FilterSingle(x, p);
      assert InsertSorted(s, x, key) == [x];
    } else if key(x) < key(s[0]) {
      assert InsertSorted(s, x, key) == [x] + s;
      InsertFirstStable(s, x, key, k);
    } else {
      var t := InsertSorted(s[1..], x, key);
      assert InsertSorted(s, x, key) == [s[0]] + t;
      SortedTail(s, key);
      InsertSortedStable(s[1..], x, key, k);
      FilterAppend([s[0]], t, p);
      FilterAppend([s[0]], s[1..], p);
      assert [s[0]] + s[1..] == s;
    }
  }

  /** Stability: among elements with equal keys the sort keeps the input order. */
  lemma {:induction false} SortByIsStable<T>(s: seq<T>, key: T -> int, k: int)
    ensures Filter(SortBy(s, key), HasKey(key, k)) == Filter(s, HasKey(key, k))
  {
    if s != [] {
      var pre := s[..|s| - 1];
      SortByIsStable(pre, key, k);
      SortByIsSorted(pre, key);
      InsertSortedStable(SortBy(pre, key), s[|s| - 1], key, k);
    }
  }
}
