/** Maps that remember insertion order, and sums over their entries. */
module OrderedMaps {
  import opened Common

  predicate NoDup<K(==)>(s: seq<K>) {
    forall i, j :: 0 <= i < j < |s| ==> s[i] != s[j]
  }

  /** The elements of s outside `gone`, in order. */
  function Without<K(==)>(s: seq<K>, gone: set<K>): seq<K> {
    if s == [] then [] else
    var n := |s| - 1;
    if s[n] in gone then Without(s[..n], gone) else Without(s[..n], gone) + [s[n]]
  }

  lemma {:induction false} WithoutMembers<K>(s: seq<K>, gone: set<K>)
    ensures forall k :: k in Without(s, gone) ==> k in s && k !in gone
    ensures forall k :: k in s && k !in gone ==> k in Without(s, gone)
    ensures |Without(s, gone)| <= |s|
  {
    if s != [] {
      var n := |s| - 1;
      WithoutMembers(s[..n], gone);
      assert s == s[..n] + [s[n]];
    }
  }

  /** Two positions of the filtered sequence come from positions in the same order. */
  lemma {:induction false} WithoutPositions<K>(s: seq<K>, gone: set<K>, i: nat, j: nat) returns (i': nat, j': nat)
    requires i < j < |Without(s, gone)|
    ensures i' < j' < |s| && s[i'] == Without(s, gone)[i] && s[j'] == Without(s, gone)[j]
  {
    var n := |s| - 1;
    var front := Without(s[..n], gone);
    if j < |front| {
      i', j' := WithoutPositions(s[..n], gone, i, j);
    } else {
      WithoutMembers(s[..n], gone);
      assert front[i] in front;
      j' := n;
      i' :| 0 <= i' < n && s[..n][i'] == front[i];
    }
  }

  lemma WithoutNoDup<K>(s: seq<K>, gone: set<K>)
    requires NoDup(s)
    ensures NoDup(Without(s, gone))
  {
    forall i, j | 0 <= i < j < |Without(s, gone)| ensures Without(s, gone)[i] != Without(s, gone)[j] {
      var i', j' := WithoutPositions(s, gone, i, j);
    }
  }

  lemma {:induction false} WithoutNothing<K>(s: seq<K>, gone: set<K>)
    requires forall k :: k in s ==> k !in gone
    ensures Without(s, gone) == s
  {
    if s != [] {
      var n := |s| - 1;
      assert forall k :: k in s[..n] ==> k in s;
      WithoutNothing(s[..n], gone);
    }
  }

  lemma {:induction false} WithoutTwice<K>(s: seq<K>, a: set<K>, b: set<K>)
    ensures Without(Without(s, a), b) == Without(s, a + b)
  {
    if s != [] {
      var n := |s| - 1;
      WithoutTwice(s[..n], a, b);
      if s[n] !in a {
        assert Without(s, a)[..|Without(s[..n], a)|] == Without(s[..n], a);
      }
    }
  }

  /** Filtering one present key out of a sequence without repeats shortens it by one. */
  lemma {:induction false} WithoutOneLength<K>(s: seq<K>, k: K)
    requires NoDup(s) && k in s
    ensures |Without(s, {k})| == |s| - 1
  {
    var n := |s| - 1;
    if s[n] == k {
      assert forall x :: x in s[..n] ==> x !in {k};
      WithoutNothing(s[..n], {k});
    } else {
      assert s == s[..n] + [s[n]];
      WithoutOneLength(s[..n], k);
    }
  }

  // ---------- Insertion-ordered maps ----------

  datatype OMap<K(==), V> = OMap(order: seq<K>, at: map<K, V>)
  {
    ghost predicate Valid() {
      NoDup(order) && (forall k :: k in order ==> k in at) && (forall k :: k in at ==> k in order)
    }

    /** Setting a present key keeps its place. */
    function Set(k: K, v: V): OMap<K, V> {
      OMap(if k in at then order else order + [k], at[k := v])
    }

    function Delete(k: K): OMap<K, V> {
      OMap(Without(order, {k}), at - {k})
    }

    function DeleteAll(gone: set<K>): OMap<K, V> {
      OMap(Without(order, gone), at - gone)
    }

    /** delete then set: the key moves to the end. */
    function Move(k: K, v: V): OMap<K, V> {
      Delete(k).Set(k, v)
    }
  }

  lemma SetValid<K, V>(m: OMap<K, V>, k: K, v: V)
    requires m.Valid()
    ensures m.Set(k, v).Valid()
  {}

  lemma DeleteAllValid<K, V>(m: OMap<K, V>, gone: set<K>)
    requires m.Valid()
    ensures m.DeleteAll(gone).Valid()
  {
    WithoutMembers(m.order, gone);
    WithoutNoDup(m.order, gone);
  }

  lemma MoveShape<K, V>(m: OMap<K, V>, k: K, v: V)
    requires m.Valid() && k in m.at
    ensures m.Move(k, v).Valid() && m.Move(k, v).at == m.at[k := v]
    ensures m.Move(k, v).order == Without(m.order, {k}) + [k] && |m.Move(k, v).order| == |m.order|
  {
    DeleteAllValid(m, {k});
    SetValid(m.Delete(k), k, v);
    WithoutOneLength(m.order, k);
    assert (m.at - {k})[k := v] == m.at[k := v];
  }

  // ---------- Sums ----------

  function WeightOf<K>(w: map<K, nat>, k: K): nat {
    if k in w then w[k] else 0
  }

  function Total<K>(s: seq<K>, w: map<K, nat>): nat {
    if s == [] then 0 else Total(s[..|s| - 1], w) + WeightOf(w, s[|s| - 1])
  }

  lemma TotalAppend<K>(s: seq<K>, k: K, w: map<K, nat>)
    ensures Total(s + [k], w) == Total(s, w) + WeightOf(w, k)
  {
    assert (s + [k])[..|s|] == s;
  }

  /** Sums that agree on every element are equal. */
  lemma {:induction false} TotalAgrees<K>(s: seq<K>, w: map<K, nat>, w': map<K, nat>)
    requires forall k :: k in s ==> WeightOf(w, k) == WeightOf(w', k)
    ensures Total(s, w) == Total(s, w')
  {
    if s != [] {
      TotalAgrees(s[..|s| - 1], w, w');
    }
  }

  /** Changing one element's weight changes the sum by the difference. */
  lemma {:induction false} TotalChanges<K>(s: seq<K>, k: K, w: map<K, nat>, w': map<K, nat>)
    requires NoDup(s) && k in s
    requires forall x :: x in s && x != k ==> WeightOf(w, x) == WeightOf(w', x)
    ensures Total(s, w') + WeightOf(w, k) == Total(s, w) + WeightOf(w', k)
  {
    var n := |s| - 1;
    assert s == s[..n] + [s[n]];
    if s[n] == k {
      TotalAgrees(s[..n], w, w');
    } else {
      TotalChanges(s[..n], k, w, w');
    }
  }

  lemma {:induction false} TotalWithoutOne<K>(s: seq<K>, k: K, w: map<K, nat>)
    requires NoDup(s) && k in s
    ensures Total(s, w) == Total(Without(s, {k}), w) + WeightOf(w, k)
  {
    var n := |s| - 1;
    assert s == s[..n] + [s[n]];
    if s[n] == k {
      WithoutNothing(s[..n], {k});
    } else {
      TotalWithoutOne(s[..n], k, w);
      TotalAppend(Without(s[..n], {k}), s[n], w);
    }
  }

  lemma {:induction false} TotalWithoutLess<K>(s: seq<K>, gone: set<K>, w: map<K, nat>)
    ensures Total(Without(s, gone), w) <= Total(s, w)
  {
    if s != [] {
      var n := |s| - 1;
      TotalWithoutLess(s[..n], gone, w);
      if s[n] !in gone {
        TotalAppend(Without(s[..n], gone), s[n], w);
      }
    }
  }

  // ---------- Times along an order ----------

  /** Along the order, the times that are known never decrease. */
  predicate Ascending<K(==)>(order: seq<K>, times: map<K, int>) {
    forall i, j :: 0 <= i < j < |order| && order[i] in times && order[j] in times ==> times[order[i]] <= times[order[j]]
  }

  predicate Within<K>(times: map<K, int>, clock: int) {
    forall k :: k in times ==> times[k] <= clock
  }

  lemma AscendingWithout<K>(order: seq<K>, gone: set<K>, times: map<K, int>)
    requires Ascending(order, times)
    ensures Ascending(Without(order, gone), times)
  {
    var rest := Without(order, gone);
    forall i, j | 0 <= i < j < |rest| && rest[i] in times && rest[j] in times ensures times[rest[i]] <= times[rest[j]] {
      var i', j' := WithoutPositions(order, gone, i, j);
    }
  }

  /** Forgetting some times, or naming them by a smaller map, keeps the order. */
  lemma AscendingFewer<K>(order: seq<K>, times: map<K, int>, fewer: map<K, int>)
    requires Ascending(order, times)
    requires forall k :: k in order && k in fewer ==> k in times && fewer[k] == times[k]
    ensures Ascending(order, fewer)
  {}

  lemma AscendingAppend<K>(order: seq<K>, k: K, times: map<K, int>)
    requires Ascending(order, times)
    requires k in times ==> Within(times, times[k])
    ensures Ascending(order + [k], times)
  {}
}
