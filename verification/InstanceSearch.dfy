/** The bounded search with an explicit stack finds the first matches of the recursive preorder. */
module InstanceSearch {
  import opened Common

  /** An instance and its children, in GetChildren order. */
  datatype Tree = Node(id: nat, children: seq<Tree>)

  function Preorder(t: Tree): seq<Tree> {
    [t] + PreorderAll(t.children)
  }

  function PreorderAll(ts: seq<Tree>): seq<Tree> {
    if ts == [] then [] else Preorder(ts[0]) + PreorderAll(ts[1..])
  }

  function Matching(ts: seq<Tree>, matches: Tree -> bool): seq<Tree> {
    if ts == [] then [] else (if matches(ts[0]) then [ts[0]] else []) + Matching(ts[1..], matches)
  }

  function First<T>(s: seq<T>, n: nat): seq<T> {
    if |s| <= n then s else s[..n]
  }

  function Entries<E>(ts: seq<Tree>, entry: Tree -> E): (es: seq<E>)
    ensures |es| == |ts|
  {
    seq(|ts|, i requires 0 <= i < |ts| => entry(ts[i]))
  }

  /** Everything still to be visited, the top of the stack first. */
  function Waiting(stack: seq<Tree>): seq<Tree> {
    if stack == [] then [] else Preorder(stack[|stack| - 1]) + Waiting(stack[..|stack| - 1])
  }

  function Reverse(ts: seq<Tree>): seq<Tree> {
    if ts == [] then [] else Reverse(ts[1..]) + [ts[0]]
  }

  /** Children pushed from last to first are visited from first to last. */
  lemma {:induction false} PushedWait(stack: seq<Tree>, ts: seq<Tree>)
    ensures Waiting(stack + Reverse(ts)) == PreorderAll(ts) + Waiting(stack)
  {
    hide Preorder;
    if ts == [] {
      assert stack + Reverse(ts) == stack;
    } else {
      var pushed := stack + Reverse(ts);
      assert pushed[..|pushed| - 1] == stack + Reverse(ts[1..]) && pushed[|pushed| - 1] == ts[0];
      PushedWait(stack, ts[1..]);
    }
  }

  lemma ReverseStep(ts: seq<Tree>, i: nat)
    requires i < |ts|
    ensures Reverse(ts[i..]) == Reverse(ts[i + 1..]) + [ts[i]]
  {
    assert ts[i..][1..] == ts[i + 1..];
  }

  lemma TopWaits(stack: seq<Tree>)
    requires stack != []
    ensures Waiting(stack) == Preorder(stack[|stack| - 1]) + Waiting(stack[..|stack| - 1])
  {
    hide Preorder;
  }

  lemma RootFirst(t: Tree)
    ensures Preorder(t) == [t] + PreorderAll(t.children)
  {
    hide PreorderAll;
  }

  lemma PopStep(stack: seq<Tree>)
    requires stack != []
    ensures Waiting(stack) == [stack[|stack| - 1]]
        + (PreorderAll(stack[|stack| - 1].children) + Waiting(stack[..|stack| - 1]))
  {
    hide *;
    TopWaits(stack);
    RootFirst(stack[|stack| - 1]);
    Regroup([stack[|stack| - 1]], PreorderAll(stack[|stack| - 1].children), Waiting(stack[..|stack| - 1]));
  }

  lemma MatchStep(t: Tree, rest: seq<Tree>, matches: Tree -> bool)
    ensures Matching([t] + rest, matches) == (if matches(t) then [t] else []) + Matching(rest, matches)
  {
    assert ([t] + rest)[1..] == rest;
  }

  /** The search loop: the results are the first matches of the preorder, and it is truncated exactly when there is
      another. */
  method Search<E>(root: Tree, matches: Tree -> bool, entry: Tree -> E, maxResults: nat)
      returns (results: seq<E>, truncated: bool)
    requires 1 <= maxResults <= 10000
    ensures results == Entries(First(Matching(Preorder(root), matches), maxResults), entry)
    ensures truncated <==> |Matching(Preorder(root), matches)| > maxResults
  {
    hide Preorder, Matching, PreorderAll, Waiting;
    results, truncated := [], false;
    var stack := [root];
    ghost var found: seq<Tree> := [];
    ghost var all := Matching(Preorder(root), matches);
    OneWaits(root);
    while |stack| > 0
      invariant found + Matching(Waiting(stack), matches) == all && results == Entries(found, entry)
          && |found| <= maxResults
      decreases |Waiting(stack)|
    {
      var node := stack[|stack| - 1];
      PopStep(stack);
      ghost var rest := PreorderAll(node.children) + Waiting(stack[..|stack| - 1]);
      MatchStep(node, rest, matches);
      stack := stack[..|stack| - 1];
      if matches(node) {
        if |results| >= maxResults {
          truncated := true;
          assert First(all, maxResults) == found;
          return;
        }
        results := results + [entry(node)];
        assert found + ([node] + Matching(rest, matches)) == found + [node] + Matching(rest, matches);
        found := found + [node];
      } else {
        assert [] + Matching(rest, matches) == Matching(rest, matches);
      }
      stack := PushChildren(stack, node.children);
    }
    NoneWait(matches);
    assert found == all;
  }

  method PushChildren(stack: seq<Tree>, children: seq<Tree>) returns (pushed: seq<Tree>)
    ensures Waiting(pushed) == PreorderAll(children) + Waiting(stack)
  {
    pushed := stack;
    var index := |children|;
    assert children[index..] == [];
    while index > 0
      invariant 0 <= index <= |children| && pushed == stack + Reverse(children[index..])
    {
      index := index - 1;
      ReverseStep(children, index);
      pushed := pushed + [children[index]];
    }
    assert children[0..] == children;
    PushedWait(stack, children);
  }

  lemma OneWaits(root: Tree)
    ensures Waiting([root]) == Preorder(root)
  {
    hide Preorder;
    assert [root][..0] == [];
    assert Preorder(root) + [] == Preorder(root);
  }

  lemma NoneWait(matches: Tree -> bool)
    ensures Matching(Waiting([]), matches) == []
  {}
}
