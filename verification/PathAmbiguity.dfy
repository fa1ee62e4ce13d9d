/** Instance paths by name: resolving them, and telling, with memoised verdicts, which cannot be resolved. */
module PathAmbiguity {
  import opened Common

  type Node = nat

  /** An instance tree as seen through its accessors; detached nodes have a chain of parents that does not reach the
      root. */
  datatype Tree = Tree(root: Node, children: map<Node, seq<Node>>, parent: map<Node, Node>, name: map<Node, string>,
                       service: map<string, Node>, rootServices: set<Node>)
  {
    function ChildrenOf(n: Node): seq<Node> {
      if n in children then children[n] else []
    }

    function NameOf(n: Node): string {
      if n in name then name[n] else []
    }
  }

  /** Parents and children agree, and following parents from a node takes at most `rank` steps. */
  ghost predicate Sound(t: Tree, rank: map<Node, nat>) {
    && t.root !in t.parent
    && (forall c :: c in t.parent ==> c in t.ChildrenOf(t.parent[c]))
    && (forall p, c :: c in t.ChildrenOf(p) ==> c in t.parent && t.parent[c] == p)
    && (forall c :: c in t.parent ==> c in rank && t.parent[c] in rank && rank[t.parent[c]] < rank[c])
  }

  /** Root services are exactly what service lookup returns. */
  ghost predicate ServicesAgree(t: Tree) {
    forall n :: n in t.parent && t.parent[n] == t.root ==>
      (n in t.rootServices <==> t.NameOf(n) in t.service && t.service[t.NameOf(n)] == n)
  }

  // ---------- Resolving ----------

  function Named(t: Tree, nodes: seq<Node>, name: string): seq<Node> {
    if nodes == [] then []
    else if t.NameOf(nodes[|nodes| - 1]) == name then Named(t, nodes[..|nodes| - 1], name) + [nodes[|nodes| - 1]]
    else Named(t, nodes[..|nodes| - 1], name)
  }

  /** `matches` is the number of children at the first ambiguous segment. */
  datatype Ambiguity = Ambiguity(segment: string, parent: Node, matches: nat)

  datatype Resolution = Resolution(instance: Option<Node>, ambiguity: Option<Ambiguity>)

  function Descend(t: Tree, r: Resolution, name: string): Resolution {
    if r.instance.None? then r else
    var found := Named(t, t.ChildrenOf(r.instance.value), name);
    Resolution(if found == [] then None else Some(found[0]),
               if |found| > 1 && r.ambiguity.None? then Some(Ambiguity(name, r.instance.value, |found|))
                   else r.ambiguity)
  }

  /** resolvePath: the first segment prefers service lookup, the others take the first child of that name. */
  function Resolve(t: Tree, parts: seq<string>): Resolution {
    if parts == [] then Resolution(Some(t.root), None)
    else if |parts| == 1 && parts[0] in t.service then Resolution(Some(t.service[parts[0]]), None)
    else Descend(t, Resolve(t, parts[..|parts| - 1]), parts[|parts| - 1])
  }

  lemma {:induction false} NamedAre(t: Tree, nodes: seq<Node>, name: string)
    ensures forall n :: n in Named(t, nodes, name) <==> n in nodes && t.NameOf(n) == name
  {
    if nodes != [] {
      var k := |nodes| - 1;
      assert nodes == nodes[..k] + [nodes[k]];
      NamedAre(t, nodes[..k], name);
    }
  }

  // ---------- Verdicts ----------

  /** segmentIsAmbiguous */
  predicate SegmentAmbiguous(t: Tree, n: Node, p: Node) {
    if p == t.root && n in t.rootServices then false
    else if p == t.root && t.NameOf(n) in t.service && t.service[t.NameOf(n)] != n then true
    else |Named(t, t.ChildrenOf(p), t.NameOf(n))| > 1
  }

  /** The verdict without a cache: some segment on the way up is ambiguous. */
  predicate Ambiguous(t: Tree, rank: map<Node, nat>, n: Node)
    requires Sound(t, rank)
    decreases if n in rank then rank[n] else 0
  {
    n != t.root && n in t.parent && (SegmentAmbiguous(t, n, t.parent[n]) || Ambiguous(t, rank, t.parent[n]))
  }

  predicate Attached(t: Tree, rank: map<Node, nat>, n: Node)
    requires Sound(t, rank)
    decreases if n in rank then rank[n] else 0
  {
    n == t.root || (n in t.parent && Attached(t, rank, t.parent[n]))
  }

  /** The names from below the root down to the node. */
  function PathOf(t: Tree, rank: map<Node, nat>, n: Node): seq<string>
    requires Sound(t, rank) && Attached(t, rank, n)
    decreases if n in rank then rank[n] else 0
  {
    if n == t.root then [] else PathOf(t, rank, t.parent[n]) + [t.NameOf(n)]
  }

  lemma PathStep(t: Tree, rank: map<Node, nat>, n: Node)
    requires Sound(t, rank) && Attached(t, rank, n) && n != t.root
    ensures var p := t.parent[n];
            && Attached(t, rank, p) && (PathOf(t, rank, p) == [] <==> p == t.root)
            && Resolve(t, PathOf(t, rank, n)) ==
               if p == t.root && t.NameOf(n) in t.service then Resolution(Some(t.service[t.NameOf(n)]), None)
               else Descend(t, Resolve(t, PathOf(t, rank, p)), t.NameOf(n))
  {
    var p := t.parent[n];
    var front := PathOf(t, rank, p);
    assert PathOf(t, rank, n) == front + [t.NameOf(n)];
    assert (front + [t.NameOf(n)])[..|front|] == front;
    hide Sound, Descend;
  }

  /** The resolution reports an ambiguity or is not the node. */
  predicate Misses(r: Resolution, n: Node) {
    r.ambiguity.Some? || r.instance != Some(n)
  }

  lemma NamedChild(t: Tree, rank: map<Node, nat>, p: Node, n: Node)
    requires Sound(t, rank) && n in t.parent && t.parent[n] == p
    ensures n in Named(t, t.ChildrenOf(p), t.NameOf(n))
    ensures |Named(t, t.ChildrenOf(p), t.NameOf(n))| == 1 ==> Named(t, t.ChildrenOf(p), t.NameOf(n))[0] == n
  {
    NamedAre(t, t.ChildrenOf(p), t.NameOf(n));
  }

  lemma OtherParent(t: Tree, rank: map<Node, nat>, q: Node, n: Node)
    requires Sound(t, rank) && n in t.parent && t.parent[n] != q
    ensures n !in Named(t, t.ChildrenOf(q), t.NameOf(n))
  {
    NamedAre(t, t.ChildrenOf(q), t.NameOf(n));
  }

  // ---------- One segment ----------

  predicate Bears(t: Tree, c: Node, name: string) {
    c in t.name && t.name[c] == name
  }

  lemma {:induction false} OneOfName(t: Tree, nodes: seq<Node>, name: string)
    requires forall c :: c in nodes ==> c in t.name
    ensures Named(t, nodes, name) != [] <==> exists i :: 0 <= i < |nodes| && Bears(t, nodes[i], name)
  {
    NamedAre(t, nodes, name);
    if Named(t, nodes, name) != [] {
      var n := Named(t, nodes, name)[0];
      assert n in nodes && Bears(t, n, name);
    }
    if i :| 0 <= i < |nodes| && Bears(t, nodes[i], name) {
      assert nodes[i] in Named(t, nodes, name);
    }
  }

  lemma {:induction false} TwoOfName(t: Tree, nodes: seq<Node>, name: string)
    requires forall c :: c in nodes ==> c in t.name
    ensures |Named(t, nodes, name)| > 1 <==>
              exists i, j :: 0 <= i < j < |nodes| && Bears(t, nodes[i], name) && Bears(t, nodes[j], name)
  {
    if nodes != [] {
      var k := |nodes| - 1;
      var front := nodes[..k];
      assert forall c :: c in front ==> c in nodes;
      assert forall i :: 0 <= i < k ==> nodes[i] == front[i];
      TwoOfName(t, front, name);
      OneOfName(t, front, name);
      assert |Named(t, nodes, name)| == |Named(t, front, name)| + if Bears(t, nodes[k], name) then 1 else 0;
      hide Named, Bears;
      if |Named(t, nodes, name)| > 1 {
        if |Named(t, front, name)| > 1 {
          var i, j :| 0 <= i < j < |front| && Bears(t, front[i], name) && Bears(t, front[j], name);
          assert Bears(t, nodes[i], name) && Bears(t, nodes[j], name);
        } else {
          var i :| 0 <= i < |front| && Bears(t, front[i], name);
          assert Bears(t, nodes[i], name) && Bears(t, nodes[k], name);
        }
      }
      if i, j :| 0 <= i < j < |nodes| && Bears(t, nodes[i], name) && Bears(t, nodes[j], name) {
        assert Bears(t, front[i], name);
        if j < k {
          assert Bears(t, front[j], name);
        }
      }
    }
  }

  /** Below the root a segment is ambiguous exactly when two children of the parent bear its name. */
  lemma {:induction false} SegmentLaw(t: Tree, n: Node, p: Node)
    requires p != t.root && p in t.children && n in t.name && forall c :: c in t.children[p] ==> c in t.name
    ensures SegmentAmbiguous(t, n, p) <==>
              exists i, j ::
                && 0 <= i < j < |t.children[p]|
                && Bears(t, t.children[p][i], t.name[n]) && Bears(t, t.children[p][j], t.name[n])
  {
    TwoOfName(t, t.children[p], t.name[n]);
  }

  /** Going down one segment misses the node exactly when its parent was missed or it is not the only child of its
      name. */
  lemma {:induction false} DescendMisses(t: Tree, rank: map<Node, nat>, above: Resolution, p: Node, n: Node)
    requires Sound(t, rank) && n in t.parent && t.parent[n] == p
    ensures Misses(Descend(t, above, t.NameOf(n)), n) <==>
        Misses(above, p) || |Named(t, t.ChildrenOf(p), t.NameOf(n))| > 1
  {
    NamedChild(t, rank, p, n);
    if above.instance.Some? && above.instance.value != p {
      OtherParent(t, rank, above.instance.value, n);
    }
    hide Sound, Named;
  }

  lemma RootSegment(t: Tree, rank: map<Node, nat>, n: Node)
    requires ServicesAgree(t) && n in t.parent && t.parent[n] == t.root
    ensures SegmentAmbiguous(t, n, t.root) <==>
              if t.NameOf(n) in t.service then t.service[t.NameOf(n)] != n
                  else |Named(t, t.ChildrenOf(t.root), t.NameOf(n))| > 1
  {
    hide Named;
  }

  /** A path is marked ambiguous exactly when resolving it reports an ambiguity or finds another instance. */
  lemma {:induction false} AmbiguousExactlyWhenUnresolved(t: Tree, rank: map<Node, nat>, n: Node)
    requires Sound(t, rank) && ServicesAgree(t) && Attached(t, rank, n)
    ensures Ambiguous(t, rank, n) <==> Misses(Resolve(t, PathOf(t, rank, n)), n)
    decreases if n in rank then rank[n] else 0
  {
    if n != t.root {
      var p := t.parent[n];
      AmbiguousStep(t, rank, n);
      PathStep(t, rank, n);
      hide Ambiguous, Resolve, Descend, Misses, PathOf, Attached;
      AmbiguousExactlyWhenUnresolved(t, rank, p);
      DescendMisses(t, rank, Resolve(t, PathOf(t, rank, p)), p, n);
      if p == t.root {
        AmbiguousStep(t, rank, p);
        RootSegment(t, rank, n);
        ServiceMisses(t, n);
      }
    }
  }

  lemma ServiceMisses(t: Tree, n: Node)
    ensures t.NameOf(n) in t.service ==>
              (Misses(Resolution(Some(t.service[t.NameOf(n)]), None), n) <==> t.service[t.NameOf(n)] != n)
  {}

  // ---------- In place ----------

  lemma NamedOneMore(t: Tree, nodes: seq<Node>, name: string, k: nat)
    requires k < |nodes|
    ensures Named(t, nodes[..k + 1], name) ==
            if t.NameOf(nodes[k]) == name then Named(t, nodes[..k], name) + [nodes[k]] else Named(t, nodes[..k], name)
  {
    assert nodes[..k + 1][..k] == nodes[..k];
  }

  /** findNamedChild */
  method FindNamedChild(t: Tree, parent: Node, name: string) returns (first: Option<Node>, count: nat)
    ensures var found := Named(t, t.ChildrenOf(parent), name);
            count == |found| && first == if found == [] then None else Some(found[0])
  {
    first, count := None, 0;
    var nodes := t.ChildrenOf(parent);
    for k := 0 to |nodes|
      invariant var found := Named(t, nodes[..k], name);
                count == |found| && first == if found == [] then None else Some(found[0])
    {
      NamedOneMore(t, nodes, name, k);
      if t.NameOf(nodes[k]) == name {
        if first.None? {
          first := Some(nodes[k]);
        }
        count := count + 1;
      }
    }
    assert nodes[..|nodes|] == nodes;
  }

  lemma ResolveOneMore(t: Tree, parts: seq<string>, k: nat)
    requires 1 <= k < |parts|
    ensures Resolve(t, parts[..k + 1]) == Descend(t, Resolve(t, parts[..k]), parts[k])
  {
    assert parts[..k + 1][..k] == parts[..k];
    hide Descend;
  }

  lemma {:induction false} StaysNone(t: Tree, parts: seq<string>, k: nat)
    requires 1 <= k <= |parts| && Resolve(t, parts[..k]).instance.None?
    ensures Resolve(t, parts) == Resolve(t, parts[..k])
    decreases |parts| - k
  {
    if k == |parts| {
      assert parts[..k] == parts;
    } else {
      ResolveOneMore(t, parts, k);
      StaysNone(t, parts, k + 1);
    }
  }

  /** resolvePath */
  method ResolvePath(t: Tree, parts: seq<string>) returns (r: Resolution)
    ensures r == Resolve(t, parts)
  {
    hide Resolve, Named;
    if |parts| == 0 {
      ResolveStart(t, parts);
      return Resolution(Some(t.root), None);
    }
    var ambiguity: Option<Ambiguity> := None;
    var current: Option<Node>;
    if parts[0] in t.service {
      current := Some(t.service[parts[0]]);
    } else {
      var first, count := FindNamedChild(t, t.root, parts[0]);
      current := first;
      if count > 1 {
        ambiguity := Some(Ambiguity(parts[0], t.root, count));
      }
    }
    ResolveStart(t, parts[..1]);
    for i := 1 to |parts|
      invariant Resolution(current, ambiguity) == Resolve(t, parts[..i])
    {
      if current.None? {
        StaysNone(t, parts, i);
        return Resolution(current, ambiguity);
      }
      ResolveOneMore(t, parts, i);
      var first, count := FindNamedChild(t, current.value, parts[i]);
      if count > 1 && ambiguity.None? {
        ambiguity := Some(Ambiguity(parts[i], current.value, count));
      }
      current := first;
    }
    assert parts[..|parts|] == parts;
    r := Resolution(current, ambiguity);
  }

  lemma ResolveStart(t: Tree, parts: seq<string>)
    requires |parts| <= 1
    ensures Resolve(t, parts) ==
            if parts == [] then Resolution(Some(t.root), None)
            else if parts[0] in t.service then Resolution(Some(t.service[parts[0]]), None)
            else Descend(t, Resolution(Some(t.root), None), parts[0])
  {
    hide Descend;
    if |parts| == 1 {
      assert parts[..0] == [];
    }
  }

  lemma AmbiguousStep(t: Tree, rank: map<Node, nat>, n: Node)
    requires Sound(t, rank)
    ensures n == t.root || n !in t.parent ==> !Ambiguous(t, rank, n)
    ensures n != t.root && n in t.parent ==>
              (Ambiguous(t, rank, n) <==> SegmentAmbiguous(t, n, t.parent[n]) || Ambiguous(t, rank, t.parent[n]))
              && n in rank && t.parent[n] in rank && rank[t.parent[n]] < rank[n]
  {
    hide SegmentAmbiguous;
  }

  /** One request's checker: name counts by parent, and verdicts, kept from query to query. */
  class AmbiguityChecker {
    const tree: Tree
    ghost const rank: map<Node, nat>
    var nameCounts: map<Node, map<string, nat>>
    var verdicts: map<Node, bool>

    ghost predicate Valid()
      reads this
    {
      && Sound(tree, rank)
      && (forall n :: n in verdicts ==> verdicts[n] == Ambiguous(tree, rank, n))
      && (forall p :: p in nameCounts ==> CountsAre(nameCounts[p], tree.ChildrenOf(p)))
    }

    ghost predicate CountsAre(counts: map<string, nat>, nodes: seq<Node>) {
      forall name: string :: (if name in counts then counts[name] else 0) == |Named(tree, nodes, name)|
    }

    constructor (t: Tree, ghost r: map<Node, nat>)
      requires Sound(t, r)
      ensures Valid() && tree == t && rank == r
    {
      tree, rank := t, r;
      nameCounts, verdicts := map[], map[];
    }

    method CountNamed(parent: Node, name: string) returns (count: nat)
      requires Valid()
      modifies this`nameCounts
      ensures Valid() && count == |Named(tree, tree.ChildrenOf(parent), name)|
    {
      hide Sound, Ambiguous;
      if parent !in nameCounts {
        var counts := CountNames(tree.ChildrenOf(parent));
        nameCounts := nameCounts[parent := counts];
      }
      var counts := nameCounts[parent];
      count := if name in counts then counts[name] else 0;
    }

    method CountNames(nodes: seq<Node>) returns (counts: map<string, nat>)
      ensures CountsAre(counts, nodes)
    {
      counts := map[];
      for k := 0 to |nodes|
        invariant CountsAre(counts, nodes[..k])
      {
        var childName := tree.NameOf(nodes[k]);
        forall name: string ensures |Named(tree, nodes[..k + 1], name)| ==
            |Named(tree, nodes[..k], name)| + if name == childName then 1 else 0 {
          NamedOneMore(tree, nodes, name, k);
        }
        counts := counts[childName := (if childName in counts then counts[childName] else 0) + 1];
      }
      assert nodes[..|nodes|] == nodes;
    }

    method SegmentIsAmbiguous(node: Node, parent: Node) returns (ambiguous: bool)
      requires Valid()
      modifies this`nameCounts
      ensures Valid() && ambiguous == SegmentAmbiguous(tree, node, parent)
    {
      hide Sound, Ambiguous, Named;
      var name := tree.NameOf(node);
      if parent == tree.root {
        if node in tree.rootServices {
          return false;
        }
        if name in tree.service && tree.service[name] != node {
          return true;
        }
      }
      var count := CountNamed(parent, name);
      ambiguous := count > 1;
    }

    /** Whatever was asked before, the answer is the one without a cache. */
    method Check(node: Node) returns (result: bool)
      requires Valid()
      modifies this
      ensures Valid() && result == Ambiguous(tree, rank, node)
    {
      hide Ambiguous, SegmentAmbiguous, CountsAre;
      var visited: seq<Node> := [];
      result := false;
      var current := node;
      while current != tree.root
        invariant Valid() && verdicts == old(verdicts)
        invariant forall v :: v in visited ==> Ambiguous(tree, rank, v) == Ambiguous(tree, rank, current)
        invariant Ambiguous(tree, rank, node) == Ambiguous(tree, rank, current)
        invariant !result
        decreases if current in rank then rank[current] + 1 else 0
      {
        AmbiguousStep(tree, rank, current);
        if current in verdicts {
          result := verdicts[current];
          break;
        }
        if current !in tree.parent {
          break;
        }
        var parent := tree.parent[current];
        visited := visited + [current];
        var ambiguous := SegmentIsAmbiguous(current, parent);
        if ambiguous {
          result := true;
          break;
        }
        current := parent;
      }
      AmbiguousStep(tree, rank, current);
      Record(visited, result);
    }

    method Record(visited: seq<Node>, result: bool)
      requires Valid() && forall v :: v in visited ==> Ambiguous(tree, rank, v) == result
      modifies this`verdicts
      ensures Valid()
    {
      hide Ambiguous, CountsAre, Sound;
      for k := 0 to |visited|
        invariant Valid()
      {
        verdicts := verdicts[visited[k] := result];
      }
    }
  }
}
