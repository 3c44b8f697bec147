/** Python's `sorted(rows, key=...)` with a key of the shape `(flag, number)`:
    a stable sort, modelled as insertion sort from the back. */
module StableSort {
  import opened Seqs
  import opened Grouping

  /** A sort key `(late, value)`, compared as a Python tuple with `False < True`. */
  datatype SortKey = SortKey(late: bool, value: real)

  predicate KeyLe(a: SortKey, b: SortKey) {
    (!a.late && b.late) || (a.late == b.late && a.value <= b.value)
  }

  lemma KeyLeTotal(a: SortKey, b: SortKey)
    ensures KeyLe(a, b) || KeyLe(b, a)
  {
  }

  lemma KeyLeTransitive(a: SortKey, b: SortKey, c: SortKey)
    requires KeyLe(a, b) && KeyLe(b, c)
    ensures KeyLe(a, c)
  {
  }

  ghost predicate Sorted<T>(s: seq<T>, key: T -> SortKey) {
    forall i, j :: 0 <= i < j < |s| ==> KeyLe(key(s[i]), key(s[j]))
  }

  /** Place `x` after every element whose key is not greater than its own. */
  function Insert<T>(s: seq<T>, x: T, key: T -> SortKey): (r: seq<T>)
    ensures |r| == |s| + 1
    decreases |s|
  {
    if |s| == 0 then [x]
    else if KeyLe(key(s[|s| - 1]), key(x)) then s + [x]
    else Insert(s[..|s| - 1], x, key) + [s[|s| - 1]]
  }

  /** `sorted(xs, key=key)`. */
  function Sort<T>(xs: seq<T>, key: T -> SortKey): (r: seq<T>)
    ensures |r| == |xs|
    decreases |xs|
  {
    if |xs| == 0 then [] else Insert(Sort(xs[..|xs| - 1], key), xs[|xs| - 1], key)
  }

  lemma {:induction false} InsertPermutes<T>(s: seq<T>, x: T, key: T -> SortKey)
    ensures multiset(Insert(s, x, key)) == multiset(s) + multiset{x}
    decreases |s|
  {
    if |s| > 0 && !KeyLe(key(s[|s| - 1]), key(x)) {
      var init, e := s[..|s| - 1], s[|s| - 1];
      InsertPermutes(init, x, key);
      assert s == init + [e];
    }
  }

  lemma {:induction false} InsertSorted<T>(s: seq<T>, x: T, key: T -> SortKey)
    requires Sorted(s, key)
    ensures Sorted(Insert(s, x, key), key)
    decreases |s|
  {
    if |s| > 0 {
      var init, e := s[..|s| - 1], s[|s| - 1];
      var r := Insert(s, x, key);
      if KeyLe(key(e), key(x)) {
        forall i, j | 0 <= i < j < |r|
          ensures KeyLe(key(r[i]), key(r[j]))
        {
          if j == |s| && i < |s| - 1 {
            KeyLeTransitive(key(s[i]), key(e), key(x));
          }
        }
      } else {
        InsertSorted(init, x, key);
        var r0 := Insert(init, x, key);
        InsertPermutes(init, x, key);
        KeyLeTotal(key(e), key(x));
        forall i | 0 <= i < |r0|
          ensures KeyLe(key(r0[i]), key(e))
        {
          assert r0[i] in multiset(r0);
          if r0[i] != x {
            assert r0[i] in multiset(init);
            var k :| 0 <= k < |init| && init[k] == r0[i];
            assert s[k] == init[k];
          }
        }
        assert r == r0 + [e];
      }
    }
  }

  /** Inserting `x` adds it to the end of its own key class and leaves every
      other class as it was: the step of stability. */
  lemma {:induction false} InsertStable<T>(s: seq<T>, x: T, key: T -> SortKey, k: SortKey)
    ensures WithKey(Insert(s, x, key), key, k) == WithKey(s, key, k) + (if key(x) == k then [x] else [])
    decreases |s|
  {
    if |s| == 0 {
      assert WithKey([x], key, k) == WithKey([], key, k) + (if key(x) == k then [x] else []) by {
        assert [x][..0] == [];
      }
    } else {
      var init, e := s[..|s| - 1], s[|s| - 1];
      assert s == init + [e];
      if KeyLe(key(e), key(x)) {
        assert (s + [x])[..|s|] == s;
      } else {
        InsertStable(init, x, key, k);
        var r0 := Insert(init, x, key);
        assert Insert(s, x, key) == r0 + [e];
        assert (r0 + [e])[..|r0|] == r0;
        var X, E := (if key(x) == k then [x] else []), (if key(e) == k then [e] else []);
        assert WithKey(r0 + [e], key, k) == WithKey(init, key, k) + X + E;
        assert WithKey(s, key, k) == WithKey(init, key, k) + E;
        assert key(e) != key(x);
        assert X == [] || E == [];
      }
    }
  }

  /** `sorted` returns a permutation of its input, ordered by the key. */
  lemma {:induction false} SortSortedPermutation<T>(xs: seq<T>, key: T -> SortKey)
    ensures Sorted(Sort(xs, key), key)
    ensures multiset(Sort(xs, key)) == multiset(xs)
    decreases |xs|
  {
    if |xs| > 0 {
      var init, x := xs[..|xs| - 1], xs[|xs| - 1];
      SortSortedPermutation(init, key);
      InsertSorted(Sort(init, key), x, key);
      InsertPermutes(Sort(init, key), x, key);
      assert xs == init + [x];
    }
  }

  /** Stability: the elements sharing a key keep their relative order. */
  lemma {:induction false} SortStable<T>(xs: seq<T>, key: T -> SortKey, k: SortKey)
    ensures WithKey(Sort(xs, key), key, k) == WithKey(xs, key, k)
    decreases |xs|
  {
    if |xs| > 0 {
      var init, x := xs[..|xs| - 1], xs[|xs| - 1];
      SortStable(init, key, k);
      InsertStable(Sort(init, key), x, key, k);
    }
  }

  lemma {:induction false} InsertCount<T>(s: seq<T>, x: T, key: T -> SortKey, q: T -> bool)
    ensures |Filter(Insert(s, x, key), q)| == |Filter(s, q)| + (if q(x) then 1 else 0)
    decreases |s|
  {
    if |s| == 0 {
    } else {
      var init, e := s[..|s| - 1], s[|s| - 1];
      assert s == init + [e];
      FilterConcat(init, [e], q);
      if KeyLe(key(e), key(x)) {
        FilterConcat(s, [x], q);
      } else {
        InsertCount(init, x, key, q);
        FilterConcat(Insert(init, x, key), [e], q);
      }
    }
  }

  /** Sorting keeps the number of elements satisfying any condition. */
  lemma {:induction false} SortCount<T>(xs: seq<T>, key: T -> SortKey, q: T -> bool)
    ensures |Filter(Sort(xs, key), q)| == |Filter(xs, q)|
    decreases |xs|
  {
    if |xs| > 0 {
      var init, x := xs[..|xs| - 1], xs[|xs| - 1];
      SortCount(init, key, q);
      InsertCount(Sort(init, key), x, key, q);
      assert xs == init + [x];
      FilterConcat(init, [x], q);
    }
  }

  lemma {:induction false} InsertBehindLeast<T>(h: T, s: seq<T>, x: T, key: T -> SortKey)
    requires KeyLe(key(h), key(x))
    ensures Insert([h] + s, x, key) == [h] + Insert(s, x, key)
    decreases |s|
  {
    if |s| > 0 {
      var init, e := s[..|s| - 1], s[|s| - 1];
      assert ([h] + s)[..|s|] == [h] + init;
      if !KeyLe(key(e), key(x)) {
        InsertBehindLeast(h, init, x, key);
      }
    }
  }

  /** A head whose key is at most every other key stays in front, and the rest
      is sorted on its own. */
  lemma {:induction false} SortLeastFirst<T>(h: T, t: seq<T>, key: T -> SortKey)
    requires forall i :: 0 <= i < |t| ==> KeyLe(key(h), key(t[i]))
    ensures Sort([h] + t, key) == [h] + Sort(t, key)
    decreases |t|
  {
    if |t| == 0 {
      assert [h] + t == [h];
      assert [h][..0] == [];
    } else {
      var init, x := t[..|t| - 1], t[|t| - 1];
      var ht := [h] + t;
      assert ht[..|ht| - 1] == [h] + init && ht[|ht| - 1] == x;
      assert Sort(ht, key) == Insert(Sort([h] + init, key), x, key);
      assert forall i :: 0 <= i < |init| ==> KeyLe(key(h), key(init[i])) by {
        assert forall i :: 0 <= i < |init| ==> init[i] == t[i];
      }
      SortLeastFirst(h, init, key);
      assert KeyLe(key(h), key(x));
      InsertBehindLeast(h, Sort(init, key), x, key);
      assert Sort(t, key) == Insert(Sort(init, key), x, key);
    }
  }

  lemma {:induction false} InsertKeepsAll<T>(s: seq<T>, x: T, key: T -> SortKey, p: T -> bool)
    requires p(x) && forall i :: 0 <= i < |s| ==> p(s[i])
    ensures forall i :: 0 <= i < |Insert(s, x, key)| ==> p(Insert(s, x, key)[i])
    decreases |s|
  {
    if |s| > 0 && !KeyLe(key(s[|s| - 1]), key(x)) {
      InsertKeepsAll(s[..|s| - 1], x, key, p);
    }
  }

  /** A property every input element has, every output element has. */
  lemma {:induction false} SortKeepsAll<T>(xs: seq<T>, key: T -> SortKey, p: T -> bool)
    requires forall i :: 0 <= i < |xs| ==> p(xs[i])
    ensures forall i :: 0 <= i < |Sort(xs, key)| ==> p(Sort(xs, key)[i])
    decreases |xs|
  {
    if |xs| > 0 {
      SortKeepsAll(xs[..|xs| - 1], key, p);
      InsertKeepsAll(Sort(xs[..|xs| - 1], key), xs[|xs| - 1], key, p);
    }
  }
}
