/** The one-row edit distance is the least number of single-character edits. */
module EditDistance {
  import opened Common

  // ---------- Edits ----------

  datatype Edit = Insert(at: nat, c: char) | Delete(at: nat) | Replace(at: nat, c: char)

  /** One edit, if its place exists. */
  function ApplyEdit(s: string, e: Edit): Option<string> {
    match e
    case Insert(at, c) => if at <= |s| then Some(s[..at] + [c] + s[at..]) else None
    case Delete(at) => if at < |s| then Some(s[..at] + s[at + 1..]) else None
    case Replace(at, c) => if at < |s| then Some(s[..at] + [c] + s[at + 1..]) else None
  }

  function ApplyEdits(s: string, edits: seq<Edit>): Option<string> {
    if edits == [] then Some(s) else
    var front := ApplyEdits(s, edits[..|edits| - 1]);
    if front.None? then None else ApplyEdit(front.value, edits[|edits| - 1])
  }

  // ---------- The recurrence ----------

  function Least(a: nat, b: nat, c: nat): nat {
    if a <= b && a <= c then a else if b <= c then b else c
  }

  function Distance(left: string, right: string): nat
    decreases |left| + |right|
  {
    if left == [] then |right|
    else if right == [] then |left|
    else
      var l, r := left[..|left| - 1], right[..|right| - 1];
      Least(Distance(l, right) + 1, Distance(left, r) + 1,
            Distance(l, r) + if left[|left| - 1] == right[|right| - 1] then 0 else 1)
  }

  lemma DistanceStep(l: string, z: char, r: string, y: char)
    ensures Distance(l + [z], r + [y]) ==
            Least(Distance(l, r + [y]) + 1, Distance(l + [z], r) + 1, Distance(l, r) + if z == y then 0 else 1)
  {
    assert (l + [z])[..|l|] == l && (r + [y])[..|r|] == r;
  }

  lemma DistanceEnds(s: string)
    ensures Distance([], s) == |s| && Distance(s, []) == |s|
  {}

  lemma Snoc(s: string)
    requires s != []
    ensures s == s[..|s| - 1] + [s[|s| - 1]]
  {}

  // ---------- One edit changes the distance by at most one ----------

  /** From b to c the distance grows by one at most, from every string. */
  ghost predicate Near(b: string, c: string) {
    forall a :: Distance(a, c) <= Distance(a, b) + 1
  }

  /** Taking a character off or putting one on costs one. */
  lemma {:induction false} NearLonger(a: string, u: string, x: char)
    ensures Distance(a, u + [x]) <= Distance(a, u) + 1
    ensures Distance(a, u) <= Distance(a, u + [x]) + 1
    decreases |a|
  {
    hide Distance;
    if a == [] {
      DistanceEnds(u);
      DistanceEnds(u + [x]);
    } else {
      Snoc(a);
      var l, z := a[..|a| - 1], a[|a| - 1];
      DistanceStep(l, z, u, x);
      NearLonger(l, u, x);
      NearLeft(l, z, u);
    }
  }

  /** The same on the other side. */
  lemma {:induction false} NearLeft(l: string, z: char, u: string)
    ensures Distance(l + [z], u) <= Distance(l, u) + 1
    decreases |l|, |u|
  {
    hide Distance;
    if u == [] {
      DistanceEnds(l);
      DistanceEnds(l + [z]);
    } else {
      Snoc(u);
      DistanceStep(l, z, u[..|u| - 1], u[|u| - 1]);
    }
  }

  lemma {:induction false} NearReplaced(a: string, u: string, x: char, y: char)
    ensures Distance(a, u + [y]) <= Distance(a, u + [x]) + 1
    decreases |a|
  {
    hide Distance;
    if a == [] {
      DistanceEnds(u + [x]);
      DistanceEnds(u + [y]);
    } else {
      Snoc(a);
      var l, z := a[..|a| - 1], a[|a| - 1];
      DistanceStep(l, z, u, x);
      DistanceStep(l, z, u, y);
      NearReplaced(l, u, x, y);
    }
  }

  /** One more character on both, when the three shorter distances are within one. */
  lemma NearStep(l: string, z: char, b: string, c: string, y: char)
    requires Distance(l, c + [y]) <= Distance(l, b + [y]) + 1
    requires Distance(l + [z], c) <= Distance(l + [z], b) + 1
    requires Distance(l, c) <= Distance(l, b) + 1
    ensures Distance(l + [z], c + [y]) <= Distance(l + [z], b + [y]) + 1
  {
    hide Distance;
    DistanceStep(l, z, c, y);
    DistanceStep(l, z, b, y);
  }

  lemma NearEmpty(b: string, c: string, v: string)
    requires Near(b, c)
    ensures Distance([], c + v) <= Distance([], b + v) + 1
  {
    assert Distance([], c) <= Distance([], b) + 1;
    hide Distance, Near;
    DistanceEnds(c + v);
    DistanceEnds(b + v);
    DistanceEnds(c);
    DistanceEnds(b);
  }

  /** What follows an edit does not make it dearer. */
  lemma {:induction false} NearWithMore(a: string, b: string, c: string, v: string)
    requires Near(b, c)
    ensures Distance(a, c + v) <= Distance(a, b + v) + 1
    decreases |v|, |a|
  {
    if v == [] {
      assert c + v == c && b + v == b;
    } else if a == [] {
      NearEmpty(b, c, v);
    } else {
      hide Distance, Near;
      Snoc(v);
      Snoc(a);
      var w, y := v[..|v| - 1], v[|v| - 1];
      var l, z := a[..|a| - 1], a[|a| - 1];
      assert c + v == (c + w) + [y] && b + v == (b + w) + [y];
      NearWithMore(l, b, c, v);
      NearWithMore(a, b, c, w);
      NearWithMore(l, b, c, w);
      NearStep(l, z, b + w, c + w, y);
    }
  }

  lemma NearPieces(u: string, x: char, y: char)
    ensures Near(u, u + [x]) && Near(u + [x], u) && Near(u + [x], u + [y])
  {
    forall a ensures Distance(a, u + [x]) <= Distance(a, u) + 1 && Distance(a, u) <= Distance(a, u + [x]) + 1
                     && Distance(a, u + [y]) <= Distance(a, u + [x]) + 1 {
      NearLonger(a, u, x);
      NearReplaced(a, u, x, y);
    }
  }

  lemma OneEdit(a: string, b: string, e: Edit)
    requires ApplyEdit(b, e).Some?
    ensures Distance(a, ApplyEdit(b, e).value) <= Distance(a, b) + 1
  {
    hide Distance, Near;
    var u := b[..e.at];
    match e
    case Insert(at, c) =>
      NearPieces(u, c, c);
      NearWithMore(a, u, u + [c], b[at..]);
      assert u + b[at..] == b;
    case Delete(at) =>
      NearPieces(u, b[at], b[at]);
      NearWithMore(a, u + [b[at]], u, b[at + 1..]);
      assert u + [b[at]] + b[at + 1..] == b;
    case Replace(at, c) =>
      NearPieces(u, b[at], c);
      NearWithMore(a, u + [b[at]], u + [c], b[at + 1..]);
      assert u + [b[at]] + b[at + 1..] == b;
  }

  lemma {:induction false} DistanceToItself(a: string)
    ensures Distance(a, a) == 0
  {
    if a != [] {
      Snoc(a);
      DistanceStep(a[..|a| - 1], a[|a| - 1], a[..|a| - 1], a[|a| - 1]);
      DistanceToItself(a[..|a| - 1]);
    }
  }

  /** No sequence of edits from left to right is shorter than the distance. */
  lemma {:induction false} NoFewerEdits(left: string, right: string, edits: seq<Edit>)
    requires ApplyEdits(left, edits) == Some(right)
    ensures Distance(left, right) <= |edits|
    decreases |edits|
  {
    hide Distance, ApplyEdit;
    if edits == [] {
      DistanceToItself(left);
    } else {
      var n := |edits| - 1;
      var middle := ApplyEdits(left, edits[..n]).value;
      NoFewerEdits(left, middle, edits[..n]);
      OneEdit(left, middle, edits[n]);
    }
  }

  // ---------- Edits that achieve it ----------

  lemma ApplyAppend(s: string, edits: seq<Edit>, e: Edit)
    requires ApplyEdits(s, edits).Some?
    ensures ApplyEdits(s, edits + [e]) == ApplyEdit(ApplyEdits(s, edits).value, e)
  {
    assert (edits + [e])[..|edits|] == edits;
  }

  lemma Spliced(s: string, at: nat, middle: string, from: nat, t: string)
    requires at <= from <= |s|
    ensures (s + t)[..at] + middle + (s + t)[from..] == s[..at] + middle + s[from..] + t
  {
    assert (s + t)[..at] == s[..at] && (s + t)[from..] == s[from..] + t;
  }

  lemma EditBefore(s: string, e: Edit, t: string)
    requires ApplyEdit(s, e).Some?
    ensures ApplyEdit(s + t, e) == Some(ApplyEdit(s, e).value + t)
  {
    match e
    case Insert(at, c) => Spliced(s, at, [c], at, t);
    case Delete(at) =>
      Spliced(s, at, [], at + 1, t);
      assert s[..at] + [] == s[..at] && (s + t)[..at] + [] == (s + t)[..at];
    case Replace(at, c) => Spliced(s, at, [c], at + 1, t);
  }

  /** Edits of a string do the same with more text after it. */
  lemma {:induction false} EditsBefore(s: string, edits: seq<Edit>, t: string)
    requires ApplyEdits(s, edits).Some?
    ensures ApplyEdits(s + t, edits) == Some(ApplyEdits(s, edits).value + t)
  {
    if edits != [] {
      var n := |edits| - 1;
      hide ApplyEdit;
      EditsBefore(s, edits[..n], t);
      EditBefore(ApplyEdits(s, edits[..n]).value, edits[n], t);
    }
  }

  lemma {:induction false} ApplyBoth(s: string, first: seq<Edit>, second: seq<Edit>)
    requires ApplyEdits(s, first).Some?
    ensures ApplyEdits(s, first + second) == ApplyEdits(ApplyEdits(s, first).value, second)
  {
    if second == [] {
      assert first + second == first;
    } else {
      var n := |second| - 1;
      hide ApplyEdit;
      ApplyBoth(s, first, second[..n]);
      assert (first + second)[..|first| + n] == first + second[..n];
    }
  }

  /** Deleting everything, or inserting everything. */
  lemma {:induction false} OneSided(s: string) returns (out: seq<Edit>, into: seq<Edit>)
    ensures |out| == |s| == |into| && ApplyEdits(s, out) == Some([]) && ApplyEdits([], into) == Some(s)
  {
    if s == [] {
      out, into := [], [];
    } else {
      Snoc(s);
      var t, c := s[..|s| - 1], s[|s| - 1];
      out, into := OneSided(t);
      ApplyAppend([], into, Insert(|t|, c));
      assert t[..|t|] + [c] + t[|t|..] == s;
      DeleteLast(t, c);
      ApplyBoth(s, [Delete(|t|)], out);
      out, into := [Delete(|t|)] + out, into + [Insert(|t|, c)];
    }
  }

  lemma DeleteLast(t: string, c: char)
    ensures ApplyEdits(t + [c], [Delete(|t|)]) == Some(t)
  {
    assert [Delete(|t|)][..0] == [];
    assert (t + [c])[..|t|] + (t + [c])[|t| + 1..] == t;
  }

  /** Some sequence of edits from left to right is as short as the distance. */
  lemma {:induction false} DistanceIsReached(left: string, right: string) returns (edits: seq<Edit>)
    ensures |edits| == Distance(left, right) && ApplyEdits(left, edits) == Some(right)
    decreases |left| + |right|
  {
    if left == [] {
      var out;
      out, edits := OneSided(right);
    } else if right == [] {
      var into;
      edits, into := OneSided(left);
    } else {
      Snoc(left);
      Snoc(right);
      var l, z, r, y := left[..|left| - 1], left[|left| - 1], right[..|right| - 1], right[|right| - 1];
      DistanceStep(l, z, r, y);
      hide Distance;
      if Distance(left, right) == Distance(l, right) + 1 {
        edits := DistanceIsReached(l, right);
        DeleteLast(l, z);
        ApplyBoth(left, [Delete(|l|)], edits);
        edits := [Delete(|l|)] + edits;
      } else if Distance(left, right) == Distance(left, r) + 1 {
        edits := DistanceIsReached(left, r);
        ApplyAppend(left, edits, Insert(|r|, y));
        assert r[..|r|] + [y] + r[|r|..] == right;
        edits := edits + [Insert(|r|, y)];
      } else {
        edits := DistanceIsReached(l, r);
        EditsBefore(l, edits, [z]);
        if z != y {
          ApplyAppend(left, edits, Replace(|r|, y));
          assert (r + [z])[..|r|] + [y] + (r + [z])[|r| + 1..] == right;
          edits := edits + [Replace(|r|, y)];
        }
      }
    }
  }

  // ---------- Symmetry and the triangle ----------

  lemma {:induction false} Symmetric(left: string, right: string)
    ensures Distance(left, right) == Distance(right, left)
    decreases |left| + |right|
  {
    if left != [] && right != [] {
      var l, r := left[..|left| - 1], right[..|right| - 1];
      Symmetric(l, right);
      Symmetric(left, r);
      Symmetric(l, r);
    }
  }

  lemma {:induction false} Triangle(a: string, b: string, c: string)
    ensures Distance(a, c) <= Distance(a, b) + Distance(b, c)
  {
    var first := DistanceIsReached(a, b);
    var second := DistanceIsReached(b, c);
    ApplyBoth(a, first, second);
    NoFewerEdits(a, c, first + second);
  }

  // ---------- One row, in place ----------

  lemma RowStep(left: string, right: string, i: nat, j: nat)
    requires 1 <= i <= |left| && 1 <= j <= |right|
    ensures Distance(left[..i], right[..j]) ==
            Least(Distance(left[..i - 1], right[..j]) + 1, Distance(left[..i], right[..j - 1]) + 1,
                  Distance(left[..i - 1], right[..j - 1]) + if left[i - 1] == right[j - 1] then 0 else 1)
  {
    assert left[..i] == left[..i - 1] + [left[i - 1]] && right[..j] == right[..j - 1] + [right[j - 1]];
    DistanceStep(left[..i - 1], left[i - 1], right[..j - 1], right[j - 1]);
  }

  /** editDistance: the result is the length of a shortest sequence of edits from left to right. */
  method EditDistance(left: string, right: string) returns (d: nat)
    ensures d == Distance(left, right)
    ensures exists edits :: |edits| == d && ApplyEdits(left, edits) == Some(right)
    ensures forall edits :: ApplyEdits(left, edits) == Some(right) ==> d <= |edits|
  {
    hide Distance, ApplyEdits;
    var previous := new nat[|right| + 1](j => j);
    forall j | 0 <= j <= |right| ensures previous[j] == Distance(left[..0], right[..j]) {
      DistanceEnds(right[..j]);
      assert left[..0] == [];
    }
    for i := 1 to |left| + 1
      invariant forall j :: 0 <= j <= |right| ==> previous[j] == Distance(left[..i - 1], right[..j])
    {
      var diagonal := previous[0];
      previous[0] := i;
      DistanceEnds(left[..i]);
      assert right[..0] == [];
      for j := 1 to |right| + 1
        invariant diagonal == Distance(left[..i - 1], right[..j - 1])
        invariant forall k :: 0 <= k < j ==> previous[k] == Distance(left[..i], right[..k])
        invariant forall k :: j <= k <= |right| ==> previous[k] == Distance(left[..i - 1], right[..k])
      {
        var above := previous[j];
        RowStep(left, right, i, j);
        previous[j] := Least(previous[j] + 1, previous[j - 1] + 1, diagonal + if left[i - 1] == right[j - 1] then 0
            else 1);
        diagonal := above;
      }
    }
    assert left[..|left|] == left && right[..|right|] == right;
    d := previous[|right|];
    ghost var best := DistanceIsReached(left, right);
    forall edits | ApplyEdits(left, edits) == Some(right) ensures d <= |edits| {
      NoFewerEdits(left, right, edits);
    }
  }
}
