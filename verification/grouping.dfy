/** Grouping into an insertion-ordered dict of lists, as both scans do with
    `bairros_temp`: the first occurrence of a key creates its group, later
    ones append to it. */
module Grouping {
  import opened Seqs

  datatype Group<K, T> = Group(key: K, members: seq<T>)

  /** Some group has key `k` (`k in d`). */
  predicate HasGroup<K(==), T>(gs: seq<Group<K, T>>, k: K) {
    exists i :: 0 <= i < |gs| && gs[i].key == k
  }

  /** No two groups share a key (the keys of a dict). */
  predicate DistinctKeys<K(==), T>(gs: seq<Group<K, T>>) {
    forall i, j :: 0 <= i < j < |gs| ==> gs[i].key != gs[j].key
  }

  /** `[x for x in xs if key(x) == k]`. */
  function WithKey<K(==), T>(xs: seq<T>, key: T -> K, k: K): (r: seq<T>)
    ensures |r| <= |xs|
    decreases |xs|
  {
    if |xs| == 0 then []
    else WithKey(xs[..|xs| - 1], key, k) + (if key(xs[|xs| - 1]) == k then [xs[|xs| - 1]] else [])
  }

  /** No item has key `k`, so the comprehension is empty. */
  lemma {:induction false} WithKeyNone<K, T>(xs: seq<T>, key: T -> K, k: K)
    requires forall j :: 0 <= j < |xs| ==> key(xs[j]) != k
    ensures WithKey(xs, key, k) == []
    decreases |xs|
  {
    if |xs| > 0 {
      WithKeyNone(xs[..|xs| - 1], key, k);
    }
  }

  /** Membership in the comprehension is membership with the right key. */
  lemma {:induction false} WithKeyMembers<K, T>(xs: seq<T>, key: T -> K, k: K, x: T)
    ensures x in WithKey(xs, key, k) <==> x in xs && key(x) == k
    decreases |xs|
  {
    if |xs| > 0 {
      var init := xs[..|xs| - 1];
      WithKeyMembers(init, key, k, x);
      assert xs == init + [xs[|xs| - 1]];
    }
  }

  /** `gs` is the grouping of `xs` by `key`: distinct keys, each group exactly
      the items with its key in their original order, no empty group, and every
      item's key present. */
  ghost predicate GroupsOf<K, T>(xs: seq<T>, key: T -> K, gs: seq<Group<K, T>>) {
    && DistinctKeys(gs)
    && (forall i :: 0 <= i < |gs| ==> gs[i].members == WithKey(xs, key, gs[i].key))
    && (forall i :: 0 <= i < |gs| ==> |gs[i].members| > 0)
    && (forall j :: 0 <= j < |xs| ==> HasGroup(gs, key(xs[j])))
  }

  /** No item among the first `n` has key `b`. */
  ghost predicate AbsentBefore<K, T>(xs: seq<T>, key: T -> K, b: K, n: nat) {
    forall j :: 0 <= j < n && j < |xs| ==> key(xs[j]) != b
  }

  /** Key `a` occurs in `xs` before any occurrence of key `b`. */
  ghost predicate SeenBefore<K, T>(xs: seq<T>, key: T -> K, a: K, b: K) {
    exists j :: 0 <= j < |xs| && key(xs[j]) == a && AbsentBefore(xs, key, b, j + 1)
  }

  /** The groups come in the order their keys are first met (dict insertion order). */
  ghost predicate FirstSeenOrder<K, T>(xs: seq<T>, key: T -> K, gs: seq<Group<K, T>>) {
    forall i, i' :: 0 <= i < i' < |gs| ==> SeenBefore(xs, key, gs[i].key, gs[i'].key)
  }

  /** `if k not in d: d[k] = []` then `d[k].append(x)`. */
  function Append<K(==), T>(gs: seq<Group<K, T>>, k: K, x: T): (r: seq<Group<K, T>>)
    requires DistinctKeys(gs)
    ensures HasGroup(gs, k) ==> |r| == |gs|
    ensures !HasGroup(gs, k) ==> |r| == |gs| + 1 && r[|gs|] == Group(k, [x])
    ensures forall i :: 0 <= i < |gs| ==> r[i].key == gs[i].key
    ensures forall i :: 0 <= i < |gs| ==>
              r[i].members == if gs[i].key == k then gs[i].members + [x] else gs[i].members
    decreases |gs|
  {
    if |gs| == 0 then [Group(k, [x])]
    else if gs[0].key == k then [Group(k, gs[0].members + [x])] + gs[1..]
    else
      [gs[0]] + Append(gs[1..], k, x)
  }

  function GroupBy<K(==), T>(xs: seq<T>, key: T -> K): (gs: seq<Group<K, T>>)
    ensures GroupsOf(xs, key, gs)
    ensures FirstSeenOrder(xs, key, gs)
    decreases |xs|
  {
    if |xs| == 0 then []
    else
      var gs0 := GroupBy(xs[..|xs| - 1], key);
      var gs := Append(gs0, key(xs[|xs| - 1]), xs[|xs| - 1]);
      GroupByStep(xs, key, gs0, gs);
      StepOrder(xs, key, gs0, gs);
      gs
  }

  lemma StepOrder<K, T>(xs: seq<T>, key: T -> K, gs0: seq<Group<K, T>>, gs: seq<Group<K, T>>)
    requires |xs| > 0
    requires GroupsOf(xs[..|xs| - 1], key, gs0) && FirstSeenOrder(xs[..|xs| - 1], key, gs0)
    requires gs == Append(gs0, key(xs[|xs| - 1]), xs[|xs| - 1])
    ensures FirstSeenOrder(xs, key, gs)
  {
    forall i, i' | 0 <= i < i' < |gs|
      ensures SeenBefore(xs, key, gs[i].key, gs[i'].key)
    {
      StepOrderPair(xs, key, gs0, gs, i, i');
    }
  }

  lemma StepOrderPair<K, T>(xs: seq<T>, key: T -> K, gs0: seq<Group<K, T>>, gs: seq<Group<K, T>>, i: nat, i': nat)
    requires |xs| > 0
    requires GroupsOf(xs[..|xs| - 1], key, gs0) && FirstSeenOrder(xs[..|xs| - 1], key, gs0)
    requires gs == Append(gs0, key(xs[|xs| - 1]), xs[|xs| - 1])
    requires i < i' < |gs|
    ensures SeenBefore(xs, key, gs[i].key, gs[i'].key)
  {
    var x := xs[|xs| - 1];
    if i' < |gs0| {
      assert gs[i].key == gs0[i].key && gs[i'].key == gs0[i'].key;
      assert SeenBefore(xs[..|xs| - 1], key, gs0[i].key, gs0[i'].key);
      SeenBeforeExtend(xs, key, gs0[i].key, gs0[i'].key);
    } else {
      assert HasGroup(gs0, key(x)) ==> |gs| == |gs0|;
      assert i' == |gs0|;
      StepOrderNew(xs, key, gs0, gs, i);
    }
  }

  /** An order between first occurrences survives appending an item. */
  lemma SeenBeforeExtend<K, T>(xs: seq<T>, key: T -> K, a: K, b: K)
    requires |xs| > 0 && SeenBefore(xs[..|xs| - 1], key, a, b)
    ensures SeenBefore(xs, key, a, b)
  {
    var init := xs[..|xs| - 1];
    var j :| 0 <= j < |init| && key(init[j]) == a && AbsentBefore(init, key, b, j + 1);
    assert key(xs[j]) == a;
    forall j' | 0 <= j' < j + 1
      ensures key(xs[j']) != b
    {
      assert xs[j'] == init[j'];
    }
  }

  /** A group created by the last item comes after every existing group. */
  lemma StepOrderNew<K, T>(xs: seq<T>, key: T -> K, gs0: seq<Group<K, T>>, gs: seq<Group<K, T>>, i: nat)
    requires |xs| > 0
    requires GroupsOf(xs[..|xs| - 1], key, gs0)
    requires gs == Append(gs0, key(xs[|xs| - 1]), xs[|xs| - 1])
    requires i < |gs0| < |gs|
    ensures SeenBefore(xs, key, gs[i].key, gs[|gs0|].key)
  {
    var init, x := xs[..|xs| - 1], xs[|xs| - 1];
    assert !HasGroup(gs0, key(x));
    assert gs[|gs0|].key == key(x);
    var y := gs0[i].members[0];
    assert gs0[i].members == WithKey(init, key, gs0[i].key);
    WithKeyMembers(init, key, gs0[i].key, y);
    var j :| 0 <= j < |init| && init[j] == y;
    assert key(xs[j]) == gs[i].key;
    forall j' | 0 <= j' < j + 1
      ensures key(xs[j']) != key(x)
    {
      assert xs[j'] == init[j'];
      assert HasGroup(gs0, key(init[j']));
    }
    assert AbsentBefore(xs, key, gs[|gs0|].key, j + 1);
  }

  lemma GroupByStep<K, T>(xs: seq<T>, key: T -> K, gs0: seq<Group<K, T>>, gs: seq<Group<K, T>>)
    requires |xs| > 0
    requires GroupsOf(xs[..|xs| - 1], key, gs0)
    requires gs == Append(gs0, key(xs[|xs| - 1]), xs[|xs| - 1])
    ensures GroupsOf(xs, key, gs)
  {
    var init, x := xs[..|xs| - 1], xs[|xs| - 1];
    StepKeys(gs0, key(x), x, gs);
    forall i | 0 <= i < |gs|
      ensures gs[i].members == WithKey(xs, key, gs[i].key) && |gs[i].members| > 0
    {
      StepMember(xs, key, gs0, gs, i);
    }
    assert forall j :: 0 <= j < |xs| - 1 ==> HasGroup(gs0, key(xs[j])) by {
      forall j | 0 <= j < |xs| - 1
        ensures HasGroup(gs0, key(xs[j]))
      {
        assert xs[j] == init[j];
      }
    }
    StepCovers(xs, key, gs0, gs);
  }

  lemma StepKeys<K, T>(gs0: seq<Group<K, T>>, k: K, x: T, gs: seq<Group<K, T>>)
    requires DistinctKeys(gs0)
    requires gs == Append(gs0, k, x)
    ensures DistinctKeys(gs)
  {
    forall i, j | 0 <= i < j < |gs|
      ensures gs[i].key != gs[j].key
    {
      assert gs[i].key == gs0[i].key;
      if j < |gs0| {
        assert gs[j].key == gs0[j].key;
      } else {
        assert gs[j].key == k;
      }
    }
  }

  lemma StepMember<K, T>(xs: seq<T>, key: T -> K, gs0: seq<Group<K, T>>, gs: seq<Group<K, T>>, i: nat)
    requires |xs| > 0
    requires GroupsOf(xs[..|xs| - 1], key, gs0)
    requires gs == Append(gs0, key(xs[|xs| - 1]), xs[|xs| - 1])
    requires i < |gs|
    ensures gs[i].members == WithKey(xs, key, gs[i].key) && |gs[i].members| > 0
  {
    if i < |gs0| {
      StepOldGroup(xs, key, gs0, gs, i);
    } else {
      assert HasGroup(gs0, key(xs[|xs| - 1])) ==> |gs| == |gs0|;
      assert i == |gs0|;
      StepNewGroup(xs, key, gs0, gs);
    }
  }

  /** An existing group gains the new item exactly when the key matches. */
  lemma StepOldGroup<K, T>(xs: seq<T>, key: T -> K, gs0: seq<Group<K, T>>, gs: seq<Group<K, T>>, i: nat)
    requires |xs| > 0
    requires GroupsOf(xs[..|xs| - 1], key, gs0)
    requires gs == Append(gs0, key(xs[|xs| - 1]), xs[|xs| - 1])
    requires i < |gs0|
    ensures gs[i].members == WithKey(xs, key, gs[i].key) && |gs[i].members| > 0
  {
    var init, x := xs[..|xs| - 1], xs[|xs| - 1];
    assert gs0[i].members == WithKey(init, key, gs0[i].key);
    assert gs[i].key == gs0[i].key;
    assert WithKey(xs, key, gs[i].key) == WithKey(init, key, gs[i].key) + (if key(x) == gs[i].key then [x] else []);
  }

  /** A group created by the new item holds that item alone. */
  lemma StepNewGroup<K, T>(xs: seq<T>, key: T -> K, gs0: seq<Group<K, T>>, gs: seq<Group<K, T>>)
    requires |xs| > 0
    requires GroupsOf(xs[..|xs| - 1], key, gs0)
    requires gs == Append(gs0, key(xs[|xs| - 1]), xs[|xs| - 1])
    requires |gs| > |gs0|
    ensures gs[|gs0|].members == WithKey(xs, key, gs[|gs0|].key) && |gs[|gs0|].members| > 0
  {
    var init, x := xs[..|xs| - 1], xs[|xs| - 1];
    assert !HasGroup(gs0, key(x));
    forall j | 0 <= j < |init|
      ensures key(init[j]) != key(x)
    {
      assert HasGroup(gs0, key(init[j]));
    }
    WithKeyNone(init, key, key(x));
    assert gs[|gs0|] == Group(key(x), [x]);
    assert WithKey(xs, key, key(x)) == WithKey(init, key, key(x)) + [x];
  }

  lemma StepCovers<K, T>(xs: seq<T>, key: T -> K, gs0: seq<Group<K, T>>, gs: seq<Group<K, T>>)
    requires |xs| > 0
    requires DistinctKeys(gs0)
    requires forall j :: 0 <= j < |xs| - 1 ==> HasGroup(gs0, key(xs[j]))
    requires gs == Append(gs0, key(xs[|xs| - 1]), xs[|xs| - 1])
    ensures forall j :: 0 <= j < |xs| ==> HasGroup(gs, key(xs[j]))
  {
    var x := xs[|xs| - 1];
    forall j | 0 <= j < |xs|
      ensures HasGroup(gs, key(xs[j]))
    {
      if j < |xs| - 1 {
        assert HasGroup(gs0, key(xs[j]));
        var i :| 0 <= i < |gs0| && gs0[i].key == key(xs[j]);
        assert gs[i].key == key(xs[j]);
      } else if !HasGroup(gs0, key(x)) {
        assert gs[|gs0|].key == key(x);
      } else {
        var i :| 0 <= i < |gs0| && gs0[i].key == key(x);
        assert gs[i].key == key(x);
      }
    }
  }

  /** Every item lands in exactly one group: the one of its own key. */
  lemma ExactlyOneGroup<K, T>(xs: seq<T>, key: T -> K, gs: seq<Group<K, T>>, j: nat)
    requires GroupsOf(xs, key, gs) && j < |xs|
    ensures exists i :: 0 <= i < |gs| && xs[j] in gs[i].members
    ensures forall i :: 0 <= i < |gs| && xs[j] in gs[i].members ==> gs[i].key == key(xs[j])
    ensures forall i, i' :: 0 <= i < i' < |gs| ==> !(xs[j] in gs[i].members && xs[j] in gs[i'].members)
  {
    assert HasGroup(gs, key(xs[j]));
    var i :| 0 <= i < |gs| && gs[i].key == key(xs[j]);
    WithKeyMembers(xs, key, gs[i].key, xs[j]);
    forall i | 0 <= i < |gs| && xs[j] in gs[i].members
      ensures gs[i].key == key(xs[j])
    {
      WithKeyMembers(xs, key, gs[i].key, xs[j]);
    }
    forall i, i' | 0 <= i < i' < |gs|
      ensures !(xs[j] in gs[i].members && xs[j] in gs[i'].members)
    {
    }
  }

  lemma DistinctKeysTail<K, T>(gs: seq<Group<K, T>>)
    requires |gs| > 0 && DistinctKeys(gs)
    ensures DistinctKeys(gs[1..])
  {
    forall i, j | 0 <= i < j < |gs| - 1
      ensures gs[1..][i].key != gs[1..][j].key
    {
      assert gs[1..][i] == gs[i + 1] && gs[1..][j] == gs[j + 1];
    }
  }

  lemma HasGroupCons<K, T>(gs: seq<Group<K, T>>, k: K)
    requires |gs| > 0
    ensures HasGroup(gs, k) <==> gs[0].key == k || HasGroup(gs[1..], k)
  {
    if HasGroup(gs, k) && gs[0].key != k {
      var i :| 0 <= i < |gs| && gs[i].key == k;
      assert gs[1..][i - 1].key == k;
    }
    if HasGroup(gs[1..], k) {
      var i :| 0 <= i < |gs| - 1 && gs[1..][i].key == k;
      assert gs[i + 1].key == k;
    }
  }
}
