/** Shared building blocks: an Option type and the sequence operations the
    application code gets from JavaScript arrays (filter, find, includes,
    slice, splice, de-duplication through a Set). */
module Common {

  /** The conventional Some/None datatype; None stands for JavaScript's
      `undefined` or `null` where the source treats them alike. */
  datatype Option<+T> = None | Some(value: T) {
    function GetOr(default: T): T {
      match this
      case Some(v) => v
      case None => default
    }
  }

  /** `Array.prototype.filter`: the elements satisfying `p`, in order. */
  function Filter<T(!new)>(s: seq<T>, p: T -> bool): (r: seq<T>)
    ensures |r| <= |s|
    ensures forall x :: x in r <==> x in s && p(x)
  {
    if |s| == 0 then []
    else if p(s[0]) then [s[0]] + Filter(s[1..], p)
    else Filter(s[1..], p)
  }

  /** The positions from `i` on that `filter` keeps: every position whose
      element satisfies `p`, in increasing order. */
  function KeptFrom<T>(s: seq<T>, p: T -> bool, i: nat): (idx: seq<nat>)
    requires i <= |s|
    ensures forall k :: 0 <= k < |idx| ==> i <= idx[k] < |s| && p(s[idx[k]])
    ensures forall k, l :: 0 <= k < l < |idx| ==> idx[k] < idx[l]
    ensures forall j :: i <= j < |s| && p(s[j]) ==> j in idx
    decreases |s| - i
  {
    if i == |s| then []
    else
      var rest := KeptFrom(s, p, i + 1);
      if p(s[i]) then [i] + rest else rest
  }

  function KeptIndices<T>(s: seq<T>, p: T -> bool): (idx: seq<nat>)
    ensures forall k :: 0 <= k < |idx| ==> idx[k] < |s| && p(s[idx[k]])
    ensures forall k, l :: 0 <= k < l < |idx| ==> idx[k] < idx[l]
    ensures forall j :: 0 <= j < |s| && p(s[j]) ==> j in idx
  {
    KeptFrom(s, p, 0)
  }

  /** `r` is what `filter` with `p` keeps of `s`: the elements at the kept
      positions, in their order. */
  predicate KeptInOrder<T(==)>(r: seq<T>, s: seq<T>, p: T -> bool) {
    |r| == |KeptIndices(s, p)| && forall k {:trigger KeptElem(s, p, k)} :: 0 <= k < |r| ==> r[k] == KeptElem(s, p, k)
  }

  /** The element at the k-th position `filter` keeps. */
  function KeptElem<T>(s: seq<T>, p: T -> bool, k: nat): T
    requires k < |KeptIndices(s, p)|
  {
    s[KeptIndices(s, p)[k]]
  }

  /** `filter` keeps order: the k-th kept element is the element at the
      k-th kept position. */
  lemma FilterIsKept<T(!new)>(s: seq<T>, p: T -> bool)
    ensures |Filter(s, p)| == |KeptIndices(s, p)|
    ensures forall k :: 0 <= k < |Filter(s, p)| ==> Filter(s, p)[k] == s[KeptIndices(s, p)[k]]
  {
    FilterFromIsKept(s, p, 0);
    assert s[0..] == s;
  }

  lemma {:induction false} FilterFromIsKept<T(!new)>(s: seq<T>, p: T -> bool, i: nat)
    requires i <= |s|
    ensures |Filter(s[i..], p)| == |KeptFrom(s, p, i)|
    ensures forall k :: 0 <= k < |Filter(s[i..], p)| ==> Filter(s[i..], p)[k] == s[KeptFrom(s, p, i)[k]]
    decreases |s| - i
  {
    if i < |s| {
      FilterFromIsKept(s, p, i + 1);
      var f := Filter(s[i..], p);
      var rest := Filter(s[i + 1..], p);
      var idx := KeptFrom(s, p, i);
      var ridx := KeptFrom(s, p, i + 1);
      assert s[i..][1..] == s[i + 1..];
      if p(s[i]) {
        assert f == [s[i]] + rest && idx == [i] + ridx;
        forall k | 0 < k < |f| ensures f[k] == s[idx[k]] {
          assert f[k] == rest[k - 1] && idx[k] == ridx[k - 1];
        }
      } else {
        assert f == rest && idx == ridx;
      }
    }
  }

  lemma FilterAppend<T(!new)>(a: seq<T>, b: seq<T>, p: T -> bool)
    ensures Filter(a + b, p) == Filter(a, p) + Filter(b, p)
  {
    if |a| > 0 {
      assert (a + b)[1..] == a[1..] + b;
      FilterAppend(a[1..], b, p);
    } else {
      assert a + b == b;
    }
  }

  /** Filtering with a predicate every element satisfies changes nothing. */
  lemma FilterKeepsAll<T(!new)>(s: seq<T>, p: T -> bool)
    requires forall i :: 0 <= i < |s| ==> p(s[i])
    ensures Filter(s, p) == s
  {
    if |s| > 0 {
      FilterKeepsAll(s[1..], p);
    }
  }

  /** Filtering with a predicate that fails only at index i removes
      exactly that element. */
  lemma {:induction false} FilterDropsOne<T(!new)>(s: seq<T>, i: nat, p: T -> bool)
    requires i < |s| && !p(s[i])
    requires forall j :: 0 <= j < |s| && j != i ==> p(s[j])
    ensures Filter(s, p) == s[..i] + s[i + 1..]
  {
    if i == 0 {
      FilterDropsHead(s, p);
    } else {
      var tail := s[1..];
      assert forall k :: 0 <= k < |tail| && k != i - 1 ==> p(tail[k]) by {
        assert forall k :: 0 <= k < |tail| ==> tail[k] == s[k + 1];
      }
      FilterDropsOne(tail, i - 1, p);
      FilterKeepsHead(s, i, p);
    }
  }

  lemma FilterDropsHead<T(!new)>(s: seq<T>, p: T -> bool)
    requires |s| > 0 && !p(s[0])
    requires forall j :: 0 < j < |s| ==> p(s[j])
    ensures Filter(s, p) == s[1..]
  {
    var tail := s[1..];
    assert forall k :: 0 <= k < |tail| ==> tail[k] == s[k + 1];
    FilterKeepsAll(tail, p);
  }

  lemma FilterKeepsHead<T(!new)>(s: seq<T>, i: nat, p: T -> bool)
    requires 0 < i < |s| && p(s[0])
    requires Filter(s[1..], p) == s[1..][..i - 1] + s[1..][i..]
    ensures Filter(s, p) == s[..i] + s[i + 1..]
  {
    assert Filter(s, p) == [s[0]] + Filter(s[1..], p);
    ConsSlices(s, i);
  }

  lemma ConsSlices<T>(s: seq<T>, i: nat)
    requires 0 < i < |s|
    ensures [s[0]] + (s[1..][..i - 1] + s[1..][i..]) == s[..i] + s[i + 1..]
  {
    assert s[..i] == [s[0]] + s[1..][..i - 1];
    assert s[i + 1..] == s[1..][i..];
  }

  /** `Array.prototype.findIndex`: the index of the first element
      satisfying `p`, or None. */
  function FindIndex<T>(s: seq<T>, p: T -> bool): (r: Option<nat>)
    ensures r.Some? ==> r.value < |s| && p(s[r.value])
    ensures r.Some? ==> forall j :: 0 <= j < r.value ==> !p(s[j])
    ensures r.None? <==> forall j :: 0 <= j < |s| ==> !p(s[j])
  {
    if |s| == 0 then None
    else if p(s[0]) then Some(0)
    else match FindIndex(s[1..], p)
      case None => None
      case Some(i) => Some(i + 1)
  }

  /** `Array.prototype.find`: the first element satisfying `p`, or None. */
  function Find<T>(s: seq<T>, p: T -> bool): (r: Option<T>)
    ensures r.Some? ==> r.value in s && p(r.value)
    ensures r.None? <==> forall j :: 0 <= j < |s| ==> !p(s[j])
    ensures r.Some? ==> exists i :: 0 <= i < |s| && s[i] == r.value && p(s[i]) && forall j :: 0 <= j < i ==> !p(s[j])
  {
    match FindIndex(s, p)
    case None => None
    case Some(i) => Some(s[i])
  }

  /** `Array.prototype.map` with a function that rewrites exactly the
      elements satisfying `p` and keeps the others. */
  function MapWhere<T>(s: seq<T>, p: T -> bool, f: T -> T): (r: seq<T>)
    ensures |r| == |s|
    ensures forall i :: 0 <= i < |s| ==> r[i] == (if p(s[i]) then f(s[i]) else s[i])
  {
    seq(|s|, i requires 0 <= i < |s| => if p(s[i]) then f(s[i]) else s[i])
  }

  predicate NoDuplicates<T(==)>(s: seq<T>) {
    forall i, j :: 0 <= i < j < |s| ==> s[i] != s[j]
  }

  /** `Array.from(new Set(s))`: keeps the first occurrence of every value,
      in order of first appearance. */
  function Dedup<T(==, !new)>(s: seq<T>): (r: seq<T>)
    ensures NoDuplicates(r)
    ensures forall x :: x in r <==> x in s
    ensures |r| <= |s|
  {
    DedupFrom([], s)
  }

  /** Helper of Dedup: `seen` is the de-duplicated prefix built so far. */
  function DedupFrom<T(==, !new)>(seen: seq<T>, rest: seq<T>): (r: seq<T>)
    requires NoDuplicates(seen)
    ensures NoDuplicates(r)
    ensures forall x :: x in r <==> x in seen || x in rest
    ensures |r| <= |seen| + |rest|
    ensures |seen| <= |r| && r[..|seen|] == seen
    decreases |rest|
  {
    if |rest| == 0 then seen
    else if rest[0] in seen then DedupFrom(seen, rest[1..])
    else DedupFrom(seen + [rest[0]], rest[1..])
  }

  /** On a list without duplicates, de-duplication is the identity. */
  lemma {:induction false} DedupOfDistinct<T(!new)>(seen: seq<T>, rest: seq<T>)
    requires NoDuplicates(seen)
    requires NoDuplicates(seen + rest)
    ensures DedupFrom(seen, rest) == seen + rest
    decreases |rest|
  {
    if |rest| > 0 {
      assert rest[0] !in seen by {
        forall i | 0 <= i < |seen| ensures seen[i] != rest[0] {
          assert seen[i] == (seen + rest)[i] && rest[0] == (seen + rest)[|seen|];
        }
      }
      assert seen + rest == (seen + [rest[0]]) + rest[1..];
      DedupOfDistinct(seen + [rest[0]], rest[1..]);
    }
  }

  /** `Array.prototype.slice(start, end)` with JavaScript's treatment of
      negative and out-of-range bounds. */
  function JsSlice<T>(s: seq<T>, start: int, end: int): (r: seq<T>)
    ensures var lo := ClampIndex(start, |s|);
            var hi := ClampIndex(end, |s|);
            r == if lo < hi then s[lo..hi] else []
    ensures 0 <= start <= end <= |s| ==> r == s[start..end]
  {
    var lo := ClampIndex(start, |s|);
    var hi := ClampIndex(end, |s|);
    if lo < hi then s[lo..hi] else []
  }

  /** The relative-index rule of `slice` and `splice`: a negative index
      counts back from the end; the result lies in [0, len]. */
  function ClampIndex(i: int, len: nat): (r: nat)
    ensures r <= len
    ensures 0 <= i <= len ==> r == i
  {
    if i < 0 then (if len + i < 0 then 0 else len + i)
    else if i > len then len
    else i
  }

  /** `s.splice(index, 1)` on a copy: removes at most one element, at the
      relative index. */
  function SpliceOne<T>(s: seq<T>, index: int): (r: seq<T>)
    ensures 0 <= index < |s| ==> r == s[..index] + s[index + 1..]
    ensures |r| == if ClampIndex(index, |s|) < |s| then |s| - 1 else |s|
  {
    var k := ClampIndex(index, |s|);
    if k < |s| then s[..k] + s[k + 1..] else s
  }

  function IsNot<T(==)>(x: T): T -> bool {
    (y: T) => y != x
  }

  /** `s.includes(x) ? s.filter(y => y !== x) : [...s, x]`: removes every
      occurrence of a present value, appends an absent one. */
  function Toggle<T(==, !new)>(s: seq<T>, x: T): (r: seq<T>)
    ensures x in r <==> x !in s
    ensures forall y :: y != x ==> (y in r <==> y in s)
    ensures x !in s ==> r == s + [x]
    ensures x in s ==> KeptInOrder(r, s, IsNot(x))
  {
    FilterIsKept(s, IsNot(x));
    if x in s then Filter(s, IsNot(x)) else s + [x]
  }

  /** Toggling an absent value twice restores the list exactly. */
  lemma ToggleTwice<T(!new)>(s: seq<T>, x: T)
    requires x !in s
    ensures Toggle(Toggle(s, x), x) == s
  {
    FilterAppend(s, [x], IsNot(x));
    FilterKeepsAll(s, IsNot(x));
    assert Filter([x], IsNot(x)) == [];
  }

  /** A map filled by assigning `m[k] = v` for each pair in turn: a later
      pair overwrites an earlier one with the same key. */
  function ToMap<K(!new), V>(pairs: seq<(K, V)>): (m: map<K, V>)
    ensures forall k :: k in m <==> exists i :: 0 <= i < |pairs| && pairs[i].0 == k
    ensures |pairs| > 0 ==> m[pairs[|pairs| - 1].0] == pairs[|pairs| - 1].1
  {
    if |pairs| == 0 then map[]
    else
      var last := pairs[|pairs| - 1];
      var m := ToMap(pairs[..|pairs| - 1])[last.0 := last.1];
      assert forall k :: k in m <==> exists i :: 0 <= i < |pairs| && pairs[i].0 == k by {
        forall k | k in m ensures exists i :: 0 <= i < |pairs| && pairs[i].0 == k {
          if k != last.0 {
            var i :| 0 <= i < |pairs| - 1 && pairs[..|pairs| - 1][i].0 == k;
            assert pairs[i].0 == k;
          }
        }
      }
      m
  }

  /** The entry of a key is the value of the last pair with that key. */
  lemma {:induction false} ToMapLastWins<K(!new), V>(pairs: seq<(K, V)>, i: nat)
    requires i < |pairs|
    requires forall j :: i < j < |pairs| ==> pairs[j].0 != pairs[i].0
    ensures pairs[i].0 in ToMap(pairs) && ToMap(pairs)[pairs[i].0] == pairs[i].1
  {
    if i < |pairs| - 1 {
      var init := pairs[..|pairs| - 1];
      ToMapLastWins(init, i);
    }
  }

  /** Filtering keeps a duplicate-free list duplicate-free. */
  lemma {:induction false} FilterDistinct<T(!new)>(s: seq<T>, p: T -> bool)
    requires NoDuplicates(s)
    ensures NoDuplicates(Filter(s, p))
  {
    if |s| > 0 {
      FilterDistinct(s[1..], p);
      if p(s[0]) {
        assert s[0] !in s[1..] by {
          forall k | 0 <= k < |s[1..]| ensures s[1..][k] != s[0] {
            assert s[1..][k] == s[k + 1];
          }
        }
        assert s[0] !in Filter(s[1..], p);
      }
    }
  }
}
