/**
 * The two list-building shapes the core uses again and again: keep the items a test
 * accepts (a boolean mask, a list comprehension with `if`), and keep the results a step
 * produced (append only when the step returned something truthy).
 */
module Seqs {
  import opened Optional

  /** The items of `s` that `p` accepts, in order. */
  function Filter<T>(s: seq<T>, p: T -> bool): seq<T>
  {
    if s == [] then []
    else if p(s[|s| - 1]) then Filter(s[..|s| - 1], p) + [s[|s| - 1]]
    else Filter(s[..|s| - 1], p)
  }

  /** The values `f` produces over `s`, in order, dropping the items it maps to nothing. */
  function FilterMap<T, U>(s: seq<T>, f: T -> Option<U>): seq<U>
  {
    if s == [] then []
    else if f(s[|s| - 1]).Some? then FilterMap(s[..|s| - 1], f) + [f(s[|s| - 1]).value]
    else FilterMap(s[..|s| - 1], f)
  }

  lemma AppendAssociative<T>(a: seq<T>, b: seq<T>, c: seq<T>)
    ensures (a + b) + c == a + (b + c)
  {
  }

  lemma {:induction false} FilterAppend<T>(a: seq<T>, b: seq<T>, p: T -> bool)
    ensures Filter(a + b, p) == Filter(a, p) + Filter(b, p)
  {
    if b != [] {
      assert (a + b)[..|a + b| - 1] == a + b[..|b| - 1];
      FilterAppend(a, b[..|b| - 1], p);
    } else {
      assert a + b == a;
    }
  }

  /** What is kept is exactly what is in `s` and accepted. */
  lemma {:induction false} FilterMembers<T>(s: seq<T>, p: T -> bool)
    ensures forall x :: x in Filter(s, p) <==> x in s && p(x)
  {
    if s != [] {
      var front := s[..|s| - 1];
      FilterMembers(front, p);
      assert s == front + [s[|s| - 1]];
    }
  }

  /** Filtering never invents or duplicates an item: the result is a sub-multiset. */
  lemma {:induction false} FilterSubMultiset<T>(s: seq<T>, p: T -> bool)
    ensures multiset(Filter(s, p)) <= multiset(s)
    ensures |Filter(s, p)| <= |s|
  {
    if s != [] {
      var front := s[..|s| - 1];
      FilterSubMultiset(front, p);
      assert s == front + [s[|s| - 1]];
    }
  }

  /** Two filters in a row are one filter by the conjunction `r`. */
  lemma {:induction false} FilterTwice<T>(s: seq<T>, p: T -> bool, q: T -> bool, r: T -> bool)
    requires forall x :: r(x) == (p(x) && q(x))
    ensures Filter(Filter(s, p), q) == Filter(s, r)
  {
    if s != [] {
      var front := s[..|s| - 1];
      var last := s[|s| - 1];
      FilterTwice(front, p, q, r);
      if p(last) {
        FilterAppend(Filter(front, p), [last], q);
        assert [last][..0] == [];
      }
    }
  }

  /** A filter that accepts nothing keeps nothing. */
  lemma {:induction false} FilterNone<T>(s: seq<T>, p: T -> bool)
    requires forall i :: 0 <= i < |s| ==> !p(s[i])
    ensures Filter(s, p) == []
  {
    if s != [] {
      var front := s[..|s| - 1];
      assert forall i :: 0 <= i < |front| ==> front[i] == s[i];
      FilterNone(front, p);
    }
  }

  /** Filters by tests that agree everywhere keep the same items. */
  lemma {:induction false} FilterExt<T>(s: seq<T>, p: T -> bool, q: T -> bool)
    requires forall x :: p(x) == q(x)
    ensures Filter(s, p) == Filter(s, q)
  {
    if s != [] {
      FilterExt(s[..|s| - 1], p, q);
    }
  }

  /** A filter that accepts everything keeps everything. */
  lemma {:induction false} FilterAll<T>(s: seq<T>, p: T -> bool)
    requires forall i :: 0 <= i < |s| ==> p(s[i])
    ensures Filter(s, p) == s
  {
    if s != [] {
      var front := s[..|s| - 1];
      assert forall i :: 0 <= i < |front| ==> front[i] == s[i];
      FilterAll(front, p);
    }
  }

  lemma {:induction false} FilterMapAppend<T, U>(a: seq<T>, b: seq<T>, f: T -> Option<U>)
    ensures FilterMap(a + b, f) == FilterMap(a, f) + FilterMap(b, f)
  {
    if b != [] {
      assert (a + b)[..|a + b| - 1] == a + b[..|b| - 1];
      FilterMapAppend(a, b[..|b| - 1], f);
    } else {
      assert a + b == a;
    }
  }

  /** An item mapped to nothing can be dropped without changing what the others produce. */
  lemma FilterMapSkip<T, U>(before: seq<T>, x: T, after: seq<T>, f: T -> Option<U>)
    requires f(x).None?
    ensures FilterMap(before + [x] + after, f) == FilterMap(before + after, f)
  {
    FilterMapAppend(before + [x], after, f);
    FilterMapAppend(before, [x], f);
    FilterMapAppend(before, after, f);
    assert [x][..0] == [];
  }

  /** A value is produced exactly when some item maps to it. */
  lemma {:induction false} FilterMapMembers<T, U>(s: seq<T>, f: T -> Option<U>)
    ensures forall u :: u in FilterMap(s, f) <==> exists i :: 0 <= i < |s| && f(s[i]) == Some(u)
  {
    if s != [] {
      var front := s[..|s| - 1];
      FilterMapMembers(front, f);
      assert forall i :: 0 <= i < |front| ==> front[i] == s[i];
    }
  }

  /** At most one value per item. */
  lemma {:induction false} FilterMapLength<T, U>(s: seq<T>, f: T -> Option<U>)
    ensures |FilterMap(s, f)| <= |s|
    ensures |FilterMap(s, f)| == |s| <==> forall i :: 0 <= i < |s| ==> f(s[i]).Some?
  {
    if s != [] {
      var front := s[..|s| - 1];
      FilterMapLength(front, f);
      assert forall i :: 0 <= i < |front| ==> front[i] == s[i];
    }
  }

  /** The values produced do not depend on the order the items come in, only on which items there are. */
  lemma {:induction false} FilterMapPermutation<T, U>(s: seq<T>, t: seq<T>, f: T -> Option<U>)
    requires multiset(s) == multiset(t)
    ensures multiset(FilterMap(s, f)) == multiset(FilterMap(t, f))
    decreases |s|
  {
    if s == [] {
      assert |t| == |multiset(t)| == 0;
    } else {
      var front, last := s[..|s| - 1], s[|s| - 1];
      assert s == front + [last];
      assert last in multiset(t);
      var j :| 0 <= j < |t| && t[j] == last;
      MultisetRemove(front, last, t, j);
      FilterMapPermutation(front, t[..j] + t[j + 1..], f);
      FilterMapSplice(t, j, f);
      FilterMapAppend(front, [last], f);
    }
  }

  /** Taking the same element out of two equal multisets leaves equal multisets. */
  lemma MultisetRemove<T>(front: seq<T>, last: T, t: seq<T>, j: int)
    requires 0 <= j < |t| && t[j] == last && multiset(front + [last]) == multiset(t)
    ensures multiset(front) == multiset(t[..j] + t[j + 1..])
  {
    var rest := t[..j] + t[j + 1..];
    assert t == t[..j] + [last] + t[j + 1..];
    assert multiset(t) == multiset(rest) + multiset{last};
    assert multiset(front + [last]) == multiset(front) + multiset{last};
    forall y ensures multiset(front)[y] == multiset(rest)[y] {
      assert (multiset(front) + multiset{last})[y] == (multiset(rest) + multiset{last})[y];
    }
  }

  /** Mapping a sequence is mapping it with one element cut out, plus that element's value. */
  lemma FilterMapSplice<T, U>(t: seq<T>, j: int, f: T -> Option<U>)
    requires 0 <= j < |t|
    ensures multiset(FilterMap(t, f)) == multiset(FilterMap(t[..j] + t[j + 1..], f)) + multiset(FilterMap([t[j]], f))
  {
    var before, at, after := t[..j], [t[j]], t[j + 1..];
    assert t == before + at + after;
    FilterMapAppend(before + at, after, f);
    FilterMapAppend(before, at, f);
    FilterMapAppend(before, after, f);
    var x, y, z := FilterMap(before, f), FilterMap(at, f), FilterMap(after, f);
    assert FilterMap(t, f) == x + y + z;
    assert multiset(x + y + z) == multiset(x) + multiset(y) + multiset(z);
    assert multiset(x + z) == multiset(x) + multiset(z);
  }

  /** The value of the last element `f` maps to something, `default` if there is none. */
  function LastSome<T, U>(s: seq<T>, f: T -> Option<U>, default: U): U
  {
    if s == [] then default
    else if f(s[|s| - 1]).Some? then f(s[|s| - 1]).value
    else LastSome(s[..|s| - 1], f, default)
  }

  lemma {:induction false} LastSomeNone<T, U>(s: seq<T>, f: T -> Option<U>, default: U)
    requires forall i :: 0 <= i < |s| ==> f(s[i]).None?
    ensures LastSome(s, f, default) == default
  {
    if s != [] {
      var front := s[..|s| - 1];
      assert forall i :: 0 <= i < |front| ==> front[i] == s[i];
      LastSomeNone(front, f, default);
    }
  }

  lemma {:induction false} LastSomeAt<T, U>(s: seq<T>, f: T -> Option<U>, default: U, k: int)
    requires 0 <= k < |s| && f(s[k]).Some?
    requires forall j :: k < j < |s| ==> f(s[j]).None?
    ensures LastSome(s, f, default) == f(s[k]).value
  {
    if k < |s| - 1 {
      var front := s[..|s| - 1];
      assert f(s[|s| - 1]).None?;
      assert forall i :: 0 <= i < |front| ==> front[i] == s[i];
      LastSomeAt(front, f, default, k);
    }
  }

  // A Python dict as its insertion-ordered list of entries, each key at most once.

  /** `d.get(k)`. */
  function Lookup<K(==), V>(d: seq<(K, V)>, k: K): Option<V>
  {
    if d == [] then None else if d[0].0 == k then Some(d[0].1) else Lookup(d[1..], k)
  }

  /** An entry whose key no earlier entry has is the one `get` finds. */
  lemma {:induction false} LookupAt<K, V>(d: seq<(K, V)>, i: nat)
    requires i < |d|
    requires forall j :: 0 <= j < i ==> d[j].0 != d[i].0
    ensures Lookup(d, d[i].0) == Some(d[i].1)
  {
    if i > 0 {
      assert forall j :: 0 <= j < i - 1 ==> d[1..][j] == d[j + 1];
      LookupAt(d[1..], i - 1);
    }
  }

  /** A key no entry has is absent. */
  lemma {:induction false} LookupNone<K, V>(d: seq<(K, V)>, k: K)
    requires forall j :: 0 <= j < |d| ==> d[j].0 != k
    ensures Lookup(d, k) == None
  {
    if d != [] {
      assert forall j :: 0 <= j < |d| - 1 ==> d[1..][j] == d[j + 1];
      LookupNone(d[1..], k);
    }
  }

  /** `d[k] = v`: an existing key keeps its place and takes the new value; a new key goes last. */
  function Put<K(==), V>(d: seq<(K, V)>, k: K, v: V): (r: seq<(K, V)>)
    ensures |r| == |d| + (if Lookup(d, k).None? then 1 else 0)
  {
    if d == [] then [(k, v)]
    else if d[0].0 == k then [(k, v)] + d[1..]
    else [d[0]] + Put(d[1..], k, v)
  }

  lemma {:induction false} PutLookup<K, V>(d: seq<(K, V)>, k: K, v: V, j: K)
    ensures Lookup(Put(d, k, v), j) == if j == k then Some(v) else Lookup(d, j)
  {
    if d != [] && d[0].0 != k {
      PutLookup(d[1..], k, v, j);
    }
  }

  /** The assignments `d[k] = v` for the pairs of `ps`, in order. */
  function PutAll<K(==), V>(d: seq<(K, V)>, ps: seq<(K, V)>): (r: seq<(K, V)>)
    ensures |d| <= |r| <= |d| + |ps|
  {
    if ps == [] then d else Put(PutAll(d, ps[..|ps| - 1]), ps[|ps| - 1].0, ps[|ps| - 1].1)
  }

  /** A key no pair assigns keeps its value. */
  lemma {:induction false} PutAllOther<K, V>(d: seq<(K, V)>, ps: seq<(K, V)>, k: K)
    requires forall i :: 0 <= i < |ps| ==> ps[i].0 != k
    ensures Lookup(PutAll(d, ps), k) == Lookup(d, k)
  {
    if ps != [] {
      var front, last := ps[..|ps| - 1], ps[|ps| - 1];
      assert forall i :: 0 <= i < |front| ==> front[i] == ps[i];
      PutAllOther(d, front, k);
      PutLookup(PutAll(d, front), last.0, last.1, k);
    }
  }

  /** A key holds the value of the last pair that assigns it. */
  lemma {:induction false} PutAllLast<K, V>(d: seq<(K, V)>, ps: seq<(K, V)>, i: nat)
    requires i < |ps|
    requires forall j :: i < j < |ps| ==> ps[j].0 != ps[i].0
    ensures Lookup(PutAll(d, ps), ps[i].0) == Some(ps[i].1)
  {
    var front, last := ps[..|ps| - 1], ps[|ps| - 1];
    PutLookup(PutAll(d, front), last.0, last.1, ps[i].0);
    if i < |ps| - 1 {
      assert forall j :: i < j < |front| ==> front[j] == ps[j];
      PutAllLast(d, front, i);
    }
  }

  /** Fresh, distinct keys each add one entry. */
  lemma {:induction false} PutAllLength<K, V>(d: seq<(K, V)>, ps: seq<(K, V)>)
    requires forall i :: 0 <= i < |ps| ==> Lookup(d, ps[i].0).None?
    requires forall i, j :: 0 <= i < j < |ps| ==> ps[i].0 != ps[j].0
    ensures |PutAll(d, ps)| == |d| + |ps|
  {
    if ps != [] {
      var front, last := ps[..|ps| - 1], ps[|ps| - 1];
      assert forall i :: 0 <= i < |front| ==> front[i] == ps[i];
      PutAllLength(d, front);
      PutAllOther(d, front, last.0);
    }
  }
}
