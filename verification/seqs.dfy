/** Python list operations on sequences: `index`, `insert`, `pop`, filtering and ordered dicts. */
module Seqs {
  import opened Wrappers

  /** No element occurs twice. */
  predicate NoDup<T(==)>(s: seq<T>) {
    forall i, j :: 0 <= i < j < |s| ==> s[i] != s[j]
  }

  /** The prefix one longer is the prefix with the next element appended. */
  lemma PrefixStep<T>(s: seq<T>, i: nat)
    requires i < |s|
    ensures s[..i + 1][..i] == s[..i] && s[..i + 1] == s[..i] + [s[i]]
  {
  }

  /** The prefix of full length is the whole sequence. */
  lemma PrefixWhole<T>(s: seq<T>)
    ensures s[..|s|] == s
  {
  }

  /** Concatenation regroups freely. */
  lemma ConcatAssoc<T>(a: seq<T>, b: seq<T>, c: seq<T>)
    ensures (a + b) + c == a + (b + c)
  {
  }

  /** `s.index(x)`: the first position holding `x`. */
  function IndexOf<T(==)>(s: seq<T>, x: T): (i: nat)
    requires x in s
    ensures i < |s| && s[i] == x && x !in s[..i]
  {
    if s[0] == x then 0 else 1 + IndexOf(s[1..], x)
  }

  /** `s.insert(i, x)` for an index within `0..|s|`. */
  function InsertAt<T>(s: seq<T>, i: nat, x: T): (r: seq<T>)
    requires i <= |s|
    ensures |r| == |s| + 1 && r[i] == x
    ensures forall k :: 0 <= k < i ==> r[k] == s[k]
    ensures forall k :: i < k < |r| ==> r[k] == s[k - 1]
  {
    s[..i] + [x] + s[i..]
  }

  /** `s.insert(i, x)` for any non-negative index: past the end it appends. */
  function PyInsert<T>(s: seq<T>, i: nat, x: T): seq<T> {
    if i <= |s| then InsertAt(s, i, x) else s + [x]
  }

  /** `s.pop(i)` seen from the list: position `i` removed. */
  function RemoveAt<T>(s: seq<T>, i: nat): (r: seq<T>)
    requires i < |s|
    ensures |r| == |s| - 1
    ensures forall k :: 0 <= k < i ==> r[k] == s[k]
    ensures forall k :: i <= k < |r| ==> r[k] == s[k + 1]
  {
    s[..i] + s[i + 1..]
  }

  /** Putting a removed element back where it was restores the list. */
  lemma InsertRemoved<T>(s: seq<T>, i: nat)
    requires i < |s|
    ensures InsertAt(RemoveAt(s, i), i, s[i]) == s
  {
    var r := InsertAt(RemoveAt(s, i), i, s[i]);
    assert forall k :: 0 <= k < |s| ==> r[k] == s[k];
  }

  /** `[x for x in s if x not in excluded]`. */
  function Without<T(==)>(s: seq<T>, excluded: seq<T>): (r: seq<T>)
    ensures forall k :: 0 <= k < |r| ==> r[k] in s && r[k] !in excluded
    ensures forall k :: 0 <= k < |s| && s[k] !in excluded ==> s[k] in r
    ensures |r| <= |s|
  {
    if s == [] then []
    else if s[0] in excluded then Without(s[1..], excluded)
    else [s[0]] + Without(s[1..], excluded)
  }

  /** A block spliced in at `at` sits at `at`, and cutting it out gives the original back. */
  lemma SpliceShape<T>(f: seq<T>, b: seq<T>, at: nat)
    requires at <= |f|
    ensures var r := f[..at] + b + f[at..];
      && |r| == |f| + |b|
      && r[at..at + |b|] == b
      && r[..at] + r[at + |b|..] == f
      && (forall i :: 0 <= i < at ==> r[i] == f[i])
      && (forall i :: at <= i < |f| ==> r[i + |b|] == f[i])
  {
    var r := f[..at] + b + f[at..];
    assert r[..at] == f[..at];
    assert r[at + |b|..] == f[at..];
    assert f[..at] + f[at..] == f;
  }

  /** Excluding every element leaves nothing. */
  lemma {:induction false} WithoutAll<T>(s: seq<T>, excluded: seq<T>)
    requires forall k :: 0 <= k < |s| ==> s[k] in excluded
    ensures Without(s, excluded) == []
    decreases |s|
  {
    if s != [] {
      assert forall k :: 0 <= k < |s| - 1 ==> s[1..][k] == s[k + 1];
      WithoutAll(s[1..], excluded);
    }
  }

  /** The keys of an ordered dict are pairwise different. */
  predicate DistinctKeys<T>(m: seq<(string, T)>) {
    forall i, j :: 0 <= i < j < |m| ==> m[i].0 != m[j].0
  }

  /** A Python dict with string keys, in insertion order. */
  type OrderedMap<T> = m: seq<(string, T)> | DistinctKeys(m) witness []

  /** `list(m.keys())`. */
  function KeysOf<T>(m: seq<(string, T)>): (r: seq<string>)
    ensures |r| == |m|
    ensures forall i :: 0 <= i < |m| ==> r[i] == m[i].0
  {
    seq(|m|, i requires 0 <= i < |m| => m[i].0)
  }

  /** `m.get(k)`. */
  function Lookup<T>(m: seq<(string, T)>, k: string): (r: Option<T>)
    ensures r.None? <==> k !in KeysOf(m)
  {
    if m == [] then None else if m[0].0 == k then Some(m[0].1) else Lookup(m[1..], k)
  }

  /** The keys of a dict with one more entry. */
  lemma KeysOfSnoc<T>(m: seq<(string, T)>)
    requires m != []
    ensures KeysOf(m) == KeysOf(m[..|m| - 1]) + [m[|m| - 1].0]
  {
  }

  /** Inserting adds exactly the inserted element. */
  lemma InsertMultiset<T>(s: seq<T>, i: nat, x: T)
    requires i <= |s|
    ensures multiset(InsertAt(s, i, x)) == multiset(s) + multiset{x}
  {
    assert s == s[..i] + s[i..];
  }

  /** Popping removes exactly the popped element. */
  lemma RemoveMultiset<T>(s: seq<T>, i: nat)
    requires i < |s|
    ensures multiset(RemoveAt(s, i)) + multiset{s[i]} == multiset(s)
  {
    assert s == s[..i] + [s[i]] + s[i + 1..];
  }

  /** Dropping elements keeps a list free of duplicates. */
  lemma {:induction false} WithoutNoDup<T>(s: seq<T>, excluded: seq<T>)
    requires NoDup(s)
    ensures NoDup(Without(s, excluded))
    decreases |s|
  {
    if s != [] {
      assert NoDup(s[1..]);
      WithoutNoDup(s[1..], excluded);
      assert s[0] !in s[1..];
    }
  }

  /** Filtering by a list no element belongs to changes nothing. */
  lemma {:induction false} WithoutDisjoint<T>(s: seq<T>, excluded: seq<T>)
    requires forall k :: 0 <= k < |s| ==> s[k] !in excluded
    ensures Without(s, excluded) == s
    decreases |s|
  {
    if s != [] {
      WithoutDisjoint(s[1..], excluded);
      assert s == [s[0]] + s[1..];
    }
  }

  /** Two duplicate-free lists with no element in common concatenate to a duplicate-free list. */
  lemma NoDupConcat<T>(a: seq<T>, b: seq<T>)
    requires NoDup(a) && NoDup(b)
    requires forall k :: 0 <= k < |a| ==> a[k] !in b
    ensures NoDup(a + b)
  {
    var r := a + b;
    forall i, j | 0 <= i < j < |r|
      ensures r[i] != r[j]
    {
      if i < |a| && |a| <= j {
        assert r[j] == b[j - |a|];
      }
    }
  }

  /** `IndexOf` finds the one position holding `x` with no `x` before it. */
  lemma IndexOfUnique<T>(s: seq<T>, x: T, i: nat)
    requires i < |s| && s[i] == x && x !in s[..i]
    ensures IndexOf(s, x) == i
  {
  }

  /** The members of a list with a block spliced in at `at`. */
  lemma SpliceMembers<T>(f: seq<T>, b: seq<T>, at: nat)
    requires at <= |f|
    ensures forall x :: x in f[..at] + b + f[at..] <==> x in f || x in b
  {
    assert f == f[..at] + f[at..];
  }

  /** Splicing a duplicate-free block into a duplicate-free list it shares nothing with keeps it duplicate-free. */
  lemma SpliceNoDup<T>(f: seq<T>, b: seq<T>, at: nat)
    requires at <= |f| && NoDup(f) && NoDup(b)
    requires forall k :: 0 <= k < |b| ==> b[k] !in f
    ensures NoDup(f[..at] + b + f[at..])
  {
    var left, right := f[..at], f[at..];
    forall k | 0 <= k < |left|
      ensures left[k] !in b + right
    {
      assert left[k] == f[k];
      forall m | 0 <= m < |right|
        ensures right[m] != left[k]
      {
        assert right[m] == f[at + m];
      }
    }
    forall k | 0 <= k < |b|
      ensures b[k] !in right
    {
      assert f == left + right;
    }
    NoDupConcat(b, right);
    NoDupConcat(left, b + right);
    assert f[..at] + b + f[at..] == left + (b + right);
  }

  /**
   * `order` followed by each element of `values` that is not already there,
   * in the order `values` first mentions it.
   */
  function AppendNew<T(==,!new)>(order: seq<T>, values: seq<T>): (r: seq<T>)
    ensures |order| <= |r| && r[..|order|] == order
    ensures forall x :: x in r <==> x in order || x in values
    ensures NoDup(order) ==> NoDup(r)
    decreases |values|
  {
    if values == [] then order
    else
      var d := AppendNew(order, values[..|values| - 1]);
      var x := values[|values| - 1];
      assert forall y :: y in values <==> y in values[..|values| - 1] || y == x by {
        assert values == values[..|values| - 1] + [x];
      }
      if x in d then d else d + [x]
  }

  /** One more value is appended unless the result already holds it. */
  lemma AppendNewSnoc<T(!new)>(order: seq<T>, values: seq<T>, x: T)
    ensures AppendNew(order, values + [x])
      == if x in AppendNew(order, values) then AppendNew(order, values) else AppendNew(order, values) + [x]
  {
    assert (values + [x])[..|values|] == values;
  }

  /** The elements of `values` without repeats. */
  function Dedup<T(==,!new)>(values: seq<T>): seq<T> {
    AppendNew([], values)
  }

  /**
   * `Dedup` keeps exactly the elements of `values`, once each, in the order
   * of their first occurrences.
   */
  lemma {:induction false} DedupIsFirstOccurrences<T(!new)>(values: seq<T>)
    ensures var r := Dedup(values);
      && NoDup(r)
      && (forall x :: x in r <==> x in values)
      && (forall i, j :: 0 <= i < j < |r| ==> IndexOf(values, r[i]) < IndexOf(values, r[j]))
    decreases |values|
  {
    if values != [] {
      var n := |values| - 1;
      var prefix := values[..n];
      DedupIsFirstOccurrences(prefix);
      var d := Dedup(prefix);
      forall y | y in prefix
        ensures IndexOf(values, y) == IndexOf(prefix, y) < n
      {
        var k := IndexOf(prefix, y);
        assert values[..k] == prefix[..k];
        IndexOfUnique(values, y, k);
      }
      var x := values[n];
      if x !in d {
        assert values[..n] == prefix;
        IndexOfUnique(values, x, n);
      }
    }
  }

  /** A list without repeats is its own deduplication. */
  lemma {:induction false} DedupNoDup<T(!new)>(values: seq<T>)
    requires NoDup(values)
    ensures Dedup(values) == values
    decreases |values|
  {
    if values != [] {
      var n := |values| - 1;
      assert NoDup(values[..n]);
      DedupNoDup(values[..n]);
      assert values[n] !in values[..n];
      assert values == values[..n] + [values[n]];
    }
  }

  /** Deduplicating one more element appends it unless it was already there. */
  lemma DedupSnoc<T(!new)>(values: seq<T>, x: T)
    ensures Dedup(values + [x]) == if x in Dedup(values) then Dedup(values) else Dedup(values) + [x]
  {
    assert (values + [x])[..|values|] == values;
  }
}
