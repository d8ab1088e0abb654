/** Length-sorted batch packing and its inverse (m3inference/utils.py:
    pack_wrapper, unpack_wrapper). Each row of a batch is an opaque value; the
    recurrent layer between packing and unpacking treats rows independently. */
module Packing {
  import opened Common

  // ---------------------------------------------------------------------------
  // Permutations of 0..n-1
  // ---------------------------------------------------------------------------

  /** The multiset {0, 1, ..., n-1}. */
  function Indices(n: nat): multiset<nat>
  {
    if n == 0 then multiset{} else Indices(n - 1) + multiset{(n - 1) as nat}
  }

  /** `idx` lists every index 0..n-1 exactly once. */
  predicate IsPermutation(idx: seq<nat>, n: nat)
  {
    multiset(idx) == Indices(n)
  }

  lemma {:induction false} IndicesCount(n: nat, v: nat)
    ensures Indices(n)[v] == if v < n then 1 else 0
    ensures |Indices(n)| == n
  {
    if n > 0 {
      IndicesCount(n - 1, v);
    }
  }

  /** A permutation has the right length, stays in range, repeats nothing and
      misses nothing. */
  lemma PermutationFacts(idx: seq<nat>, n: nat)
    requires IsPermutation(idx, n)
    ensures |idx| == n
    ensures forall k :: 0 <= k < |idx| ==> idx[k] < n
    ensures Distinct(idx)
    ensures forall i :: 0 <= i < n ==> i in idx
  {
    IndicesCount(n, 0);
    assert |idx| == |multiset(idx)| == |Indices(n)| == n;
    forall k | 0 <= k < |idx| ensures idx[k] < n {
      assert idx[k] in multiset(idx);
      IndicesCount(n, idx[k]);
    }
    forall a, b | 0 <= a < b < |idx| ensures idx[a] != idx[b] {
      if idx[a] == idx[b] {
        var v := idx[a];
        assert idx == idx[..a] + [idx[a]] + idx[a + 1..b] + [idx[b]] + idx[b + 1..];
        assert multiset(idx)[v] >= 2;
        IndicesCount(n, v);
      }
    }
    forall i | 0 <= i < n ensures i in idx {
      IndicesCount(n, i);
      assert i in multiset(idx);
    }
  }

  // ---------------------------------------------------------------------------
  // pack_wrapper
  // ---------------------------------------------------------------------------

  /** Python `x[idx]`: row k of the result is row idx[k] of `x`. */
  function Gather<T>(x: seq<T>, idx: seq<nat>): (r: seq<T>)
    requires forall k :: 0 <= k < |idx| ==> idx[k] < |x|
    ensures |r| == |idx|
    ensures forall k :: 0 <= k < |idx| ==> r[k] == x[idx[k]]
  {
    seq(|idx|, k requires 0 <= k < |idx| => x[idx[k]])
  }

  predicate InRange(idx: seq<nat>, n: nat)
  {
    forall k :: 0 <= k < |idx| ==> idx[k] < n
  }

  /** The indices in `idx` have non-increasing keys. */
  predicate SortedByKeyDesc(keys: seq<int>, idx: seq<nat>)
    requires InRange(idx, |keys|)
  {
    forall a, b :: 0 <= a < b < |idx| ==> keys[idx[a]] >= keys[idx[b]]
  }

  predicate NonIncreasing(s: seq<int>)
  {
    forall a, b :: 0 <= a < b < |s| ==> s[a] >= s[b]
  }

  /** Insert index `i` after every index with a key at least as large. */
  function Insert(keys: seq<int>, sorted: seq<nat>, i: nat): (r: seq<nat>)
    requires i < |keys| && InRange(sorted, |keys|)
    ensures InRange(r, |keys|)
  {
    if sorted == [] then [i]
    else if keys[i] > keys[sorted[0]] then [i] + sorted
    else [sorted[0]] + Insert(keys, sorted[1..], i)
  }

  /** Insertion adds exactly `i`. */
  lemma {:induction false} InsertCount(keys: seq<int>, sorted: seq<nat>, i: nat)
    requires i < |keys| && InRange(sorted, |keys|)
    ensures multiset(Insert(keys, sorted, i)) == multiset(sorted) + multiset{i}
  {
    if sorted != [] {
      assert sorted == [sorted[0]] + sorted[1..];
      if keys[i] <= keys[sorted[0]] {
        InsertCount(keys, sorted[1..], i);
      }
    }
  }

  /** Every index in `s` has a key of at most `bound`. */
  predicate KeysAtMost(keys: seq<int>, s: seq<nat>, bound: int)
    requires InRange(s, |keys|)
  {
    forall k :: 0 <= k < |s| ==> keys[s[k]] <= bound
  }

  lemma {:induction false} InsertKeysAtMost(keys: seq<int>, sorted: seq<nat>, i: nat, bound: int)
    requires i < |keys| && InRange(sorted, |keys|)
    requires KeysAtMost(keys, sorted, bound) && keys[i] <= bound
    ensures KeysAtMost(keys, Insert(keys, sorted, i), bound)
  {
    if sorted != [] && keys[i] <= keys[sorted[0]] {
      InsertKeysAtMost(keys, sorted[1..], i, bound);
    }
  }

  /** In a sorted list no later key exceeds the first. */
  lemma TailKeysAtMost(keys: seq<int>, sorted: seq<nat>)
    requires sorted != [] && InRange(sorted, |keys|)
    requires SortedByKeyDesc(keys, sorted)
    ensures KeysAtMost(keys, sorted[1..], keys[sorted[0]])
  {
    forall k | 0 <= k < |sorted| - 1 ensures keys[sorted[1..][k]] <= keys[sorted[0]] {
      assert sorted[1..][k] == sorted[k + 1];
    }
  }

  /** A head whose key bounds a sorted tail keeps the list sorted. */
  lemma ConsSorted(keys: seq<int>, head: nat, rest: seq<nat>)
    requires head < |keys| && InRange(rest, |keys|)
    requires KeysAtMost(keys, rest, keys[head]) && SortedByKeyDesc(keys, rest)
    ensures InRange([head] + rest, |keys|)
    ensures SortedByKeyDesc(keys, [head] + rest)
  {
    var r := [head] + rest;
    forall a, b | 0 <= a < b < |r| ensures keys[r[a]] >= keys[r[b]] {
      assert r[b] == rest[b - 1];
      if a > 0 {
        assert r[a] == rest[a - 1];
      }
    }
  }

  /** Inserting into a sorted list keeps it sorted. */
  lemma {:induction false} InsertSorted(keys: seq<int>, sorted: seq<nat>, i: nat)
    requires i < |keys| && InRange(sorted, |keys|)
    requires SortedByKeyDesc(keys, sorted)
    ensures SortedByKeyDesc(keys, Insert(keys, sorted, i))
  {
    if sorted != [] && keys[i] <= keys[sorted[0]] {
      var tail := sorted[1..];
      assert SortedByKeyDesc(keys, tail) by {
        forall a, b | 0 <= a < b < |tail| ensures keys[tail[a]] >= keys[tail[b]] {
          assert tail[a] == sorted[a + 1] && tail[b] == sorted[b + 1];
        }
      }
      InsertSorted(keys, tail, i);
      TailKeysAtMost(keys, sorted);
      InsertKeysAtMost(keys, tail, i, keys[sorted[0]]);
      ConsSorted(keys, sorted[0], Insert(keys, tail, i));
    } else if sorted != [] {
      TailKeysAtMost(keys, [i] + sorted);
      ConsSorted(keys, i, sorted);
    }
  }

  /** `idx` lists 0..n-1 by non-increasing key. */
  predicate Arranges(keys: seq<int>, idx: seq<nat>, n: nat)
  {
    && InRange(idx, |keys|)
    && IsPermutation(idx, n)
    && SortedByKeyDesc(keys, idx)
  }

  /** Inserting index n-1 into an arrangement of 0..n-2 gives one of 0..n-1. */
  lemma InsertNext(keys: seq<int>, front: seq<nat>, n: nat)
    requires 0 < n <= |keys|
    requires Arranges(keys, front, n - 1)
    ensures Arranges(keys, Insert(keys, front, n - 1), n)
  {
    var last: nat := n - 1;
    var r := Insert(keys, front, last);
    InsertSorted(keys, front, last);
    InsertCount(keys, front, last);
    assert multiset(r) == Indices(n - 1) + multiset{last};
  }

  /** Indices 0..n-1 ordered by descending key (ties in index order). */
  function SortIndicesDesc(keys: seq<int>, n: nat): (idx: seq<nat>)
    requires n <= |keys|
    ensures Arranges(keys, idx, n)
  {
    if n == 0 then []
    else
      var front := SortIndicesDesc(keys, n - 1);
      InsertNext(keys, front, n);
      Insert(keys, front, n - 1)
  }

  /** What pack_wrapper returns: the rows and lengths in sorted order, and the
      sort index that unpack_wrapper later uses. */
  datatype Packed<T> = Packed(rows: seq<T>, lengths: seq<int>, idx: seq<nat>)

  /** `lengths.sort(descending=True)`, `sents[idx_sorted]`, then
      `pack_padded_sequence`, which rejects any length below 1. */
  function Pack<T>(sents: seq<T>, lengths: seq<int>): (r: Result<Packed<T>>)
    requires |sents| == |lengths|
    ensures r.Success? <==> forall k :: 0 <= k < |lengths| ==> lengths[k] >= 1
    ensures r.Success? ==>
      && IsPermutation(r.value.idx, |lengths|) && |r.value.idx| == |lengths|
      && |r.value.lengths| == |r.value.rows| == |lengths|
      && NonIncreasing(r.value.lengths)
      && (forall k :: 0 <= k < |lengths| ==> r.value.idx[k] < |lengths|)
      && (forall k :: 0 <= k < |lengths| ==> r.value.lengths[k] == lengths[r.value.idx[k]])
      && (forall k :: 0 <= k < |lengths| ==> r.value.rows[k] == sents[r.value.idx[k]])
  {
    if exists k :: 0 <= k < |lengths| && lengths[k] < 1 then
      Failure(ValueError("Length of all samples has to be greater than 0"))
    else
      var idx := SortIndicesDesc(lengths, |lengths|);
      PermutationFacts(idx, |lengths|);
      Success(Packed(Gather(sents, idx), Gather(lengths, idx), idx))
  }

  // ---------------------------------------------------------------------------
  // unpack_wrapper
  // ---------------------------------------------------------------------------

  /** `base.scatter_(0, idx, h)`: writes row k of `h` to row idx[k] of `base`,
      for k = 0, 1, ... in turn. */
  function Scatter<T>(h: seq<T>, idx: seq<nat>, base: seq<T>): (r: seq<T>)
    requires |idx| == |h| && InRange(idx, |base|)
    ensures |r| == |base|
    decreases |h|
  {
    if h == [] then base
    else
      var n := |h| - 1;
      Scatter(h[..n], idx[..n], base)[idx[n] := h[n]]
  }

  /** With distinct targets, every written row holds its source row and every
      other row keeps its old value. */
  lemma {:induction false} ScatterAt<T>(h: seq<T>, idx: seq<nat>, base: seq<T>)
    requires |idx| == |h| && InRange(idx, |base|) && Distinct(idx)
    ensures forall k :: 0 <= k < |h| ==> Scatter(h, idx, base)[idx[k]] == h[k]
    ensures forall i :: 0 <= i < |base| && i !in idx ==> Scatter(h, idx, base)[i] == base[i]
    decreases |h|
  {
    if h != [] {
      var n := |h| - 1;
      ScatterAt(h[..n], idx[..n], base);
      forall k | 0 <= k < n ensures idx[..n][k] == idx[k] && idx[k] != idx[n] { }
      forall i | 0 <= i < |base| && i !in idx ensures i !in idx[..n] { }
    }
  }

  /** Unsorting undoes sorting: scattering the gathered rows back through the
      same permutation yields the original rows, whatever the row values. */
  lemma UnsortSort<T>(x: seq<T>, idx: seq<nat>, base: seq<T>)
    requires IsPermutation(idx, |x|) && |base| == |x|
    ensures InRange(idx, |x|)
    ensures Scatter(Gather(x, idx), idx, base) == x
  {
    PermutationFacts(idx, |x|);
    var g := Gather(x, idx);
    ScatterAt(g, idx, base);
    var r := Scatter(g, idx, base);
    forall i | 0 <= i < |x| ensures r[i] == x[i] {
      assert i in idx;
      var k :| 0 <= k < |idx| && idx[k] == i;
    }
  }

  /** A row-wise transformation applied to every row. */
  function MapRows<T, U>(f: T -> U, xs: seq<T>): (r: seq<U>)
    ensures |r| == |xs|
    ensures forall k :: 0 <= k < |xs| ==> r[k] == f(xs[k])
  {
    seq(|xs|, k requires 0 <= k < |xs| => f(xs[k]))
  }

  /** The key property of the pair: for any lengths (duplicates included) and
      any row-wise transformation `f` applied to the packed batch, unpacking
      puts the transformed row of original record i back at position i. */
  lemma UnpackPack<T, U>(sents: seq<T>, lengths: seq<int>, f: T -> U, base: seq<U>)
    requires |sents| == |lengths| == |base|
    requires Pack(sents, lengths).Success?
    ensures InRange(Pack(sents, lengths).value.idx, |base|)
    ensures Scatter(MapRows(f, Pack(sents, lengths).value.rows), Pack(sents, lengths).value.idx, base)
            == MapRows(f, sents)
  {
    var p := Pack(sents, lengths).value;
    var fx := MapRows(f, sents);
    var fh := MapRows(f, p.rows);
    PermutationFacts(p.idx, |sents|);
    var g := Gather(fx, p.idx);
    forall k | 0 <= k < |sents| ensures fh[k] == g[k] {
      assert p.rows[k] == sents[p.idx[k]];
    }
    assert fh == g;
    UnsortSort(fx, p.idx, base);
  }

  /** unpack_wrapper: a fresh all-`zero` batch into which row k of the sorted
      output is written at row idx[k]. */
  method Unpack<T>(h: seq<T>, idx: seq<nat>, zero: T) returns (out: array<T>)
    requires IsPermutation(idx, |h|)
    ensures |idx| == |h| && InRange(idx, |h|)
    ensures out.Length == |h|
    ensures out[..] == Scatter(h, idx, seq(|h|, _ => zero))
    ensures forall k :: 0 <= k < |h| ==> out[idx[k]] == h[k]
  {
    PermutationFacts(idx, |h|);
    var n := |h|;
    out := new T[n](_ => zero);
    ghost var zeros := seq(n, _ => zero);
    assert out[..] == zeros;
    for k := 0 to n
      invariant out.Length == n
      invariant out[..] == Scatter(h[..k], idx[..k], zeros)
    {
      out[idx[k]] := h[k];
      assert h[..k + 1][..k] == h[..k] && idx[..k + 1][..k] == idx[..k];
    }
    assert h[..n] == h && idx[..n] == idx;
    ScatterAt(h, idx, zeros);
  }
}
