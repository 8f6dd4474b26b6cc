/** The parent/child links of the member network, as plain sequences indexed
    by node handle: `parent[i]` is the node's parent (its sponsor's node) and
    `children[i]` its ordered child list. A parent is always created before
    its children, so every parent link points to a smaller handle; this is
    what makes the links acyclic. */
module Forest {
  import opened Wrappers

  type Node = nat

  /** Every parent link points to an earlier node. */
  ghost predicate Ordered(parent: seq<Option<Node>>)
  {
    forall i :: 0 <= i < |parent| && parent[i].Some? ==> parent[i].value < i
  }

  /** Every listed child is a node created after the node that lists it. */
  ghost predicate Downward(children: seq<seq<Node>>)
  {
    forall i, k :: 0 <= i < |children| && 0 <= k < |children[i]| ==> i < children[i][k] < |children|
  }

  ghost predicate NoDup(s: seq<Node>)
  {
    forall k, l :: 0 <= k < l < |s| ==> s[k] != s[l]
  }

  /** The forest shape: a listed child points back to the node that lists it,
      and no child list repeats a node. */
  ghost predicate WellFormed(parent: seq<Option<Node>>, children: seq<seq<Node>>)
  {
    && |children| == |parent|
    && Ordered(parent)
    && Downward(children)
    && (forall i, k :: 0 <= i < |children| && 0 <= k < |children[i]| ==> parent[children[i][k]] == Some(i))
    && (forall i :: 0 <= i < |children| ==> NoDup(children[i]))
  }

  /** Every parent link is matched by an entry in the parent's child list.
      `setChildList` can leave parent links that are not. */
  ghost predicate Linked(parent: seq<Option<Node>>, children: seq<seq<Node>>)
    requires |children| == |parent|
  {
    forall c :: 0 <= c < |parent| && parent[c].Some? ==> parent[c].value < |children| && c in children[parent[c].value]
  }

  // ---------------------------------------------------------------------------
  // Walking up

  /** `a` is `x` or one of its ancestors. */
  function IsAncestorOrSelf(parent: seq<Option<Node>>, a: Node, x: Node): bool
    requires Ordered(parent) && x < |parent|
    decreases x
  {
    a == x || (parent[x].Some? && IsAncestorOrSelf(parent, a, parent[x].value))
  }

  /** An ancestor never has a larger handle than its descendant. */
  lemma {:induction false} AncestorNotAfter(parent: seq<Option<Node>>, a: Node, x: Node)
    requires Ordered(parent) && x < |parent| && IsAncestorOrSelf(parent, a, x)
    ensures a <= x
    decreases x
  {
    if a != x {
      AncestorNotAfter(parent, a, parent[x].value);
    }
  }

  /** Being an ancestor is transitive. */
  lemma {:induction false} AncestorTrans(parent: seq<Option<Node>>, a: Node, b: Node, x: Node)
    requires Ordered(parent) && b < |parent| && x < |parent|
    requires IsAncestorOrSelf(parent, a, b) && IsAncestorOrSelf(parent, b, x)
    ensures IsAncestorOrSelf(parent, a, x)
    decreases x
  {
    if b != x {
      AncestorTrans(parent, a, b, parent[x].value);
    }
  }

  /** Two nodes on one ancestor chain that share a parent (or are both roots)
      are the same node: the chain is a path. */
  lemma {:induction false} ChainSiblingsUnique(parent: seq<Option<Node>>, a: Node, b: Node, x: Node)
    requires Ordered(parent) && a < |parent| && b < |parent| && x < |parent|
    requires IsAncestorOrSelf(parent, a, x) && IsAncestorOrSelf(parent, b, x)
    requires parent[a] == parent[b]
    ensures a == b
    decreases x
  {
    if a != b {
      if x == a {
        AncestorNotAfter(parent, b, parent[x].value);
      } else if x == b {
        AncestorNotAfter(parent, a, parent[x].value);
      } else {
        ChainSiblingsUnique(parent, a, b, parent[x].value);
      }
    }
  }

  /** The node itself, then its parent, its grandparent, and so on up to its root. */
  function Chain(parent: seq<Option<Node>>, x: Node): (r: seq<Node>)
    requires Ordered(parent) && x < |parent|
    ensures |r| >= 1 && r[0] == x
    ensures forall k :: 0 <= k < |r| ==> r[k] < |parent|
    ensures forall k :: 0 <= k < |r| - 1 ==> parent[r[k]] == Some(r[k + 1])
    ensures parent[r[|r| - 1]] == None
    decreases x
  {
    if parent[x].None? then [x] else [x] + Chain(parent, parent[x].value)
  }

  /** The chain lists exactly the node and its ancestors. */
  lemma {:induction false} ChainMembers(parent: seq<Option<Node>>, x: Node, a: Node)
    requires Ordered(parent) && x < |parent|
    ensures a in Chain(parent, x) <==> IsAncestorOrSelf(parent, a, x)
    decreases x
  {
    if parent[x].Some? {
      ChainMembers(parent, parent[x].value, a);
    }
  }

  /** The root of the tree that contains `x`. */
  function Root(parent: seq<Option<Node>>, x: Node): (r: Node)
    requires Ordered(parent) && x < |parent|
    ensures r < |parent| && parent[r].None? && IsAncestorOrSelf(parent, r, x)
    decreases x
  {
    if parent[x].None? then x else Root(parent, parent[x].value)
  }

  /** Strict ancestors, with the child of the ancestor that lies on the way down. */
  lemma {:induction false} ChildOnPath(parent: seq<Option<Node>>, a: Node, x: Node) returns (c: Node)
    requires Ordered(parent) && x < |parent|
    requires IsAncestorOrSelf(parent, a, x) && a != x
    ensures c < |parent| && parent[c] == Some(a) && IsAncestorOrSelf(parent, c, x)
    decreases x
  {
    var p := parent[x].value;
    if p == a {
      c := x;
    } else {
      c := ChildOnPath(parent, a, p);
    }
  }

  /** A node whose parent is `j` and that lies on the chain of `x` makes `j` a
      strict ancestor of `x`. */
  lemma ChildOnChain(parent: seq<Option<Node>>, y: Node, j: Node, x: Node)
    requires Ordered(parent) && x < |parent| && y < |parent|
    requires IsAncestorOrSelf(parent, y, x) && parent[y] == Some(j)
    ensures IsAncestorOrSelf(parent, j, x) && j != x
  {
    AncestorNotAfter(parent, y, x);
    AncestorTrans(parent, j, y, x);
  }

  /** The number of ancestors of `x`. */
  function Depth(parent: seq<Option<Node>>, x: Node): (d: nat)
    requires Ordered(parent) && x < |parent|
    ensures d == |Chain(parent, x)| - 1
    ensures d == 0 <==> parent[x].None?
    decreases x
  {
    if parent[x].None? then 0 else Depth(parent, parent[x].value) + 1
  }

  // ---------------------------------------------------------------------------
  // Changing the links

  /** No child list names `c`. */
  ghost predicate Unlisted(children: seq<seq<Node>>, c: Node)
  {
    forall i :: 0 <= i < |children| ==> c !in children[i]
  }

  /** A node without a parent is nobody's listed child. */
  lemma DetachedUnlisted(parent: seq<Option<Node>>, children: seq<seq<Node>>, c: Node)
    requires WellFormed(parent, children) && c < |parent| && parent[c].None?
    ensures Unlisted(children, c)
  {
  }

  /** Appending an unlisted node to the child list of an earlier node, and
      pointing it at that node, keeps the forest shape and the links. */
  lemma AttachChild(parent: seq<Option<Node>>, children: seq<seq<Node>>, p: Node, c: Node)
    requires WellFormed(parent, children) && p < c < |parent| && Unlisted(children, c)
    ensures WellFormed(parent[c := Some(p)], children[p := children[p] + [c]])
    ensures Linked(parent, children) ==> Linked(parent[c := Some(p)], children[p := children[p] + [c]])
  {
    var parent2, children2 := parent[c := Some(p)], children[p := children[p] + [c]];
    forall i, k | 0 <= i < |children2| && 0 <= k < |children2[i]|
      ensures i < children2[i][k] < |children2| && parent2[children2[i][k]] == Some(i)
    {
      if i == p && k == |children[p]| {
      } else {
        assert children2[i][k] == children[i][k];
        assert children[i][k] in children[i];
      }
    }
    forall i | 0 <= i < |children2|
      ensures NoDup(children2[i])
    {
      if i == p {
        assert c !in children[p];
      }
    }
  }

  /** Emptying the child list of `p` keeps the forest shape; its former
      children, and every node unlisted before, are unlisted afterwards. */
  lemma ClearChildren(parent: seq<Option<Node>>, children: seq<seq<Node>>, p: Node)
    requires WellFormed(parent, children) && p < |parent|
    ensures WellFormed(parent, children[p := []])
    ensures forall x :: x in children[p] ==> Unlisted(children[p := []], x)
    ensures forall x :: Unlisted(children, x) ==> Unlisted(children[p := []], x)
  {
    var children2 := children[p := []];
    forall x | x in children[p]
      ensures Unlisted(children2, x)
    {
      var k :| 0 <= k < |children[p]| && children[p][k] == x;
      assert parent[x] == Some(p);
    }
  }

  // ---------------------------------------------------------------------------
  // Walking down

  /** Pre-order listing of the nodes of `ns` in order, each followed by the
      listing of its children when it has children and is expanded in `ex`.
      All of `ns` lie after `lo`. */
  function Flatten(children: seq<seq<Node>>, ex: seq<bool>, ns: seq<Node>, lo: int): (r: seq<Node>)
    requires Downward(children) && |ex| == |children|
    requires -1 <= lo && forall k :: 0 <= k < |ns| ==> lo < ns[k] < |children|
    ensures forall k :: 0 <= k < |r| ==> lo < r[k] < |children|
    ensures |r| >= |ns|
    decreases |children| - lo, |ns|
  {
    if ns == [] then []
    else
      var n := ns[|ns| - 1];
      Flatten(children, ex, ns[..|ns| - 1], lo) + [n] + Below(children, ex, n)
  }

  /** What `Flatten` lists under node `n`: nothing unless `n` is expanded and has children. */
  function Below(children: seq<seq<Node>>, ex: seq<bool>, n: Node): (r: seq<Node>)
    requires Downward(children) && |ex| == |children| && n < |children|
    ensures forall k :: 0 <= k < |r| ==> n < r[k] < |children|
    decreases |children| - n, |children[n]| + 1
  {
    if children[n] != [] && ex[n] then Flatten(children, ex, children[n], n) else []
  }

  /** Every node expanded. */
  function AllOpen(n: nat): (ex: seq<bool>)
    ensures |ex| == n && forall k :: 0 <= k < n ==> ex[k]
  {
    seq(n, _ => true)
  }

  /** The pre-order listing of the whole subtree of `i`, `i` first. */
  function Subtree(children: seq<seq<Node>>, i: Node): (r: seq<Node>)
    requires Downward(children) && i < |children|
    ensures |r| >= 1 && r[0] == i
    ensures forall k :: 1 <= k < |r| ==> i < r[k] < |children|
  {
    [i] + Flatten(children, AllOpen(|children|), children[i], i)
  }

  /** Flattening a prefix one element longer adds that element and what lies below it. */
  lemma FlattenSnoc(children: seq<seq<Node>>, ex: seq<bool>, ns: seq<Node>, lo: int, k: nat)
    requires Downward(children) && |ex| == |children|
    requires -1 <= lo && forall j :: 0 <= j < |ns| ==> lo < ns[j] < |children|
    requires k < |ns|
    ensures Flatten(children, ex, ns[..k + 1], lo) == Flatten(children, ex, ns[..k], lo) + [ns[k]] + Below(children, ex, ns[k])
  {
    assert ns[..k + 1][..k] == ns[..k];
  }

  /** With every node expanded, what lies below a node is the rest of its subtree. */
  lemma SubtreeBelow(children: seq<seq<Node>>, n: Node)
    requires Downward(children) && n < |children|
    ensures [n] + Below(children, AllOpen(|children|), n) == Subtree(children, n)
  {
  }

  /** Flattening one more child of `x`, everything expanded, appends that
      child's whole subtree. */
  lemma SubtreeStep(children: seq<seq<Node>>, x: Node, k: nat)
    requires Downward(children) && x < |children| && k < |children[x]|
    ensures Flatten(children, AllOpen(|children|), children[x][..k + 1], x) ==
      Flatten(children, AllOpen(|children|), children[x][..k], x) + Subtree(children, children[x][k])
  {
    var cs, ex := children[x], AllOpen(|children|);
    FlattenSnoc(children, ex, cs, x, k);
    SubtreeBelow(children, cs[k]);
    var a := Flatten(children, ex, cs[..k], x);
    assert a + [cs[k]] + Below(children, ex, cs[k]) == a + ([cs[k]] + Below(children, ex, cs[k]));
  }

  /** Every listed node descends from one of `ns`. */
  lemma {:induction false} FlattenDescends(parent: seq<Option<Node>>, children: seq<seq<Node>>, ex: seq<bool>, ns: seq<Node>, lo: int, x: Node)
    requires WellFormed(parent, children) && |ex| == |children|
    requires -1 <= lo && forall k :: 0 <= k < |ns| ==> lo < ns[k] < |children|
    requires x in Flatten(children, ex, ns, lo)
    ensures exists k :: 0 <= k < |ns| && IsAncestorOrSelf(parent, ns[k], x)
    decreases |children| - lo, |ns|
  {
    var n := ns[|ns| - 1];
    var init := ns[..|ns| - 1];
    if x in Flatten(children, ex, init, lo) {
      FlattenDescends(parent, children, ex, init, lo, x);
      var k :| 0 <= k < |init| && IsAncestorOrSelf(parent, init[k], x);
      assert ns[k] == init[k];
    } else if x == n {
      assert IsAncestorOrSelf(parent, ns[|ns| - 1], x);
    } else {
      assert x in Below(children, ex, n);
      FlattenDescends(parent, children, ex, children[n], n, x);
      var k :| 0 <= k < |children[n]| && IsAncestorOrSelf(parent, children[n][k], x);
      assert parent[children[n][k]] == Some(n);
      AncestorTrans(parent, n, children[n][k], x);
      assert IsAncestorOrSelf(parent, ns[|ns| - 1], x);
    }
  }

  /** Every descendant of one of `ns` is listed when every node is expanded. */
  lemma {:induction false} FlattenComplete(parent: seq<Option<Node>>, children: seq<seq<Node>>, ns: seq<Node>, lo: int, k: nat, x: Node)
    requires WellFormed(parent, children) && Linked(parent, children)
    requires -1 <= lo && forall j :: 0 <= j < |ns| ==> lo < ns[j] < |children|
    requires k < |ns| && x < |parent| && IsAncestorOrSelf(parent, ns[k], x)
    ensures x in Flatten(children, AllOpen(|children|), ns, lo)
    decreases |children| - lo, |ns|
  {
    var ex := AllOpen(|children|);
    var last := |ns| - 1;
    var n := ns[last];
    assert Flatten(children, ex, ns, lo) == Flatten(children, ex, ns[..last], lo) + [n] + Below(children, ex, n);
    if k < last {
      assert ns[..last][k] == ns[k];
      FlattenComplete(parent, children, ns[..last], lo, k, x);
    } else if x != n {
      var c := ChildOnPath(parent, n, x);
      var j :| 0 <= j < |children[n]| && children[n][j] == c;
      FlattenComplete(parent, children, children[n], n, j, x);
      assert Below(children, ex, n) == Flatten(children, ex, children[n], n);
    }
  }

  /** A subtree lists exactly the node and its descendants. */
  lemma SubtreeMembers(parent: seq<Option<Node>>, children: seq<seq<Node>>, i: Node, x: Node)
    requires WellFormed(parent, children) && Linked(parent, children)
    requires i < |parent| && x < |parent|
    ensures x in Subtree(children, i) <==> IsAncestorOrSelf(parent, i, x)
  {
    var ex := AllOpen(|children|);
    if x in Subtree(children, i) && x != i {
      FlattenDescends(parent, children, ex, children[i], i, x);
      var k :| 0 <= k < |children[i]| && IsAncestorOrSelf(parent, children[i][k], x);
      AncestorTrans(parent, i, children[i][k], x);
    }
    if IsAncestorOrSelf(parent, i, x) && x != i {
      var c := ChildOnPath(parent, i, x);
      var j :| 0 <= j < |children[i]| && children[i][j] == c;
      FlattenComplete(parent, children, children[i], i, j, x);
    }
  }

  /** Listing siblings (nodes with one common parent, or all roots) with their
      descendants never lists a node twice. */
  lemma {:induction false} FlattenNoDup(parent: seq<Option<Node>>, children: seq<seq<Node>>, ex: seq<bool>, ns: seq<Node>, lo: int, par: Option<Node>)
    requires WellFormed(parent, children) && |ex| == |children|
    requires -1 <= lo && forall k :: 0 <= k < |ns| ==> lo < ns[k] < |children|
    requires NoDup(ns) && forall k :: 0 <= k < |ns| ==> parent[ns[k]] == par
    ensures NoDup(Flatten(children, ex, ns, lo))
    decreases |children| - lo, |ns|
  {
    if ns != [] {
      var n := ns[|ns| - 1];
      var init := ns[..|ns| - 1];
      var a := Flatten(children, ex, init, lo);
      var b := Below(children, ex, n);
      FlattenNoDup(parent, children, ex, init, lo, par);
      if b != [] {
        FlattenNoDup(parent, children, ex, children[n], n, Some(n));
      }
      forall x | x in a
        ensures x != n && x !in b
      {
        FlattenDescends(parent, children, ex, init, lo, x);
        var k :| 0 <= k < |init| && IsAncestorOrSelf(parent, init[k], x);
        if x == n {
          ChainSiblingsUnique(parent, init[k], n, x);
        }
        if x in b {
          FlattenDescends(parent, children, ex, children[n], n, x);
          var j :| 0 <= j < |children[n]| && IsAncestorOrSelf(parent, children[n][j], x);
          AncestorTrans(parent, n, children[n][j], x);
          ChainSiblingsUnique(parent, init[k], n, x);
        }
      }
      NoDupConcat3(a, n, b);
    }
  }

  /** Position `k` of the listing `s` is where a pre-order walk puts it: the
      node is one of the siblings under `par` the walk starts from, or its
      parent is listed before it, on the chain of the node listed just
      before it. */
  ghost predicate PreOrderAt(parent: seq<Option<Node>>, s: seq<Node>, par: Option<Node>, k: nat)
    requires Ordered(parent) && k < |s| && forall i :: 0 <= i < |s| ==> s[i] < |parent|
  {
    || parent[s[k]] == par
    || (0 < k && parent[s[k]].Some? && parent[s[k]].value in s[..k]
        && IsAncestorOrSelf(parent, parent[s[k]].value, s[k - 1]))
  }

  /** Every position of `s` is where a pre-order walk from siblings under
      `par` puts it. */
  ghost predicate PreOrder(parent: seq<Option<Node>>, s: seq<Node>, par: Option<Node>)
    requires Ordered(parent)
  {
    && (forall i :: 0 <= i < |s| ==> s[i] < |parent|)
    && forall k :: 0 <= k < |s| ==> PreOrderAt(parent, s, par, k)
  }

  /** A sibling under `par` followed by a pre-order listing of its
      descendants extends a pre-order listing of siblings under `par`. */
  lemma PreOrderJoin(parent: seq<Option<Node>>, a: seq<Node>, n: Node, b: seq<Node>, par: Option<Node>)
    requires Ordered(parent) && n < |parent| && parent[n] == par
    requires PreOrder(parent, a, par) && PreOrder(parent, b, Some(n))
    requires forall i :: 0 <= i < |b| ==> IsAncestorOrSelf(parent, n, b[i])
    ensures PreOrder(parent, a + [n] + b, par)
  {
    var s := a + [n] + b;
    JoinedAt(parent, a, n, b);
    forall k | 0 <= k < |s|
      ensures PreOrderAt(parent, s, par, k)
    {
      if k < |a| {
        PreOrderBefore(parent, s, a, par, k);
      } else if k > |a| {
        assert PreOrderAt(parent, b, Some(n), k - |a| - 1);
        PreOrderAfter(parent, s, |a|, n, b, k - |a| - 1, par);
      }
    }
  }

  /** Where the parts of `a + [n] + b` sit, and that its nodes are in range
      when those of the parts are. */
  lemma JoinedAt(parent: seq<Option<Node>>, a: seq<Node>, n: Node, b: seq<Node>)
    requires n < |parent| && (forall i :: 0 <= i < |a| ==> a[i] < |parent|)
    requires forall i :: 0 <= i < |b| ==> b[i] < |parent|
    ensures |a + [n] + b| == |a| + 1 + |b| && (a + [n] + b)[|a|] == n
    ensures forall i :: 0 <= i < |a| ==> (a + [n] + b)[i] == a[i]
    ensures forall i :: 0 <= i < |b| ==> (a + [n] + b)[|a| + 1 + i] == b[i]
    ensures forall i :: 0 <= i < |a + [n] + b| ==> (a + [n] + b)[i] < |parent|
  {
    var s := a + [n] + b;
    forall i | 0 <= i < |s| ensures s[i] < |parent| {
      if i > |a| { assert s[i] == b[i - |a| - 1]; }
    }
  }

  /** A position of `a` keeps its reason in any `s` that starts with `a`. */
  lemma PreOrderBefore(parent: seq<Option<Node>>, s: seq<Node>, a: seq<Node>, par: Option<Node>, k: nat)
    requires Ordered(parent) && PreOrder(parent, a, par) && k < |a| <= |s|
    requires forall i :: 0 <= i < |a| ==> s[i] == a[i]
    requires forall i :: 0 <= i < |s| ==> s[i] < |parent|
    ensures PreOrderAt(parent, s, par, k)
  {
    assert PreOrderAt(parent, a, par, k);
    if parent[a[k]] != par {
      var i :| 0 <= i < k && a[..k][i] == parent[a[k]].value;
      assert s[..k][i] == s[i];
      assert s[k - 1] == a[k - 1];
    }
  }

  /** A position of `b` is in pre-order in `s`, which holds `n` at `m` and `b`
      right after it: a child of `n` finds `n` listed before it, and any other
      node its parent inside `b`. */
  lemma PreOrderAfter(parent: seq<Option<Node>>, s: seq<Node>, m: nat, n: Node, b: seq<Node>, j: nat, par: Option<Node>)
    requires Ordered(parent) && n < |parent| && j < |b|
    requires (forall i :: 0 <= i < |b| ==> b[i] < |parent|) && PreOrderAt(parent, b, Some(n), j)
    requires 0 < j ==> IsAncestorOrSelf(parent, n, b[j - 1])
    requires |s| == m + 1 + |b| && s[m] == n
    requires forall i :: 0 <= i < |b| ==> s[m + 1 + i] == b[i]
    requires forall i :: 0 <= i < |s| ==> s[i] < |parent|
    ensures PreOrderAt(parent, s, par, m + 1 + j)
  {
    var k := m + 1 + j;
    assert s[k] == b[j];
    if j == 0 {
      assert s[..k][m] == n;
    } else {
      assert s[m + 1 + (j - 1)] == b[j - 1];
      if parent[b[j]] == Some(n) {
        assert s[..k][m] == n;
      } else {
        var i :| 0 <= i < j && b[..j][i] == parent[b[j]].value;
        assert s[..k][m + 1 + i] == b[i];
      }
    }
  }

  /** With every node expanded, `Flatten` lists the siblings `ns` under
      `par` and their descendants in pre-order. */
  lemma {:induction false} FlattenPreOrder(parent: seq<Option<Node>>, children: seq<seq<Node>>, ns: seq<Node>, lo: int, par: Option<Node>)
    requires WellFormed(parent, children) && Linked(parent, children)
    requires -1 <= lo && forall k :: 0 <= k < |ns| ==> lo < ns[k] < |children|
    requires forall k :: 0 <= k < |ns| ==> parent[ns[k]] == par
    ensures PreOrder(parent, Flatten(children, AllOpen(|children|), ns, lo), par)
    decreases |children| - lo, |ns|
  {
    var ex := AllOpen(|children|);
    if ns != [] {
      var n := ns[|ns| - 1];
      var init := ns[..|ns| - 1];
      FlattenPreOrder(parent, children, init, lo, par);
      var b := Below(children, ex, n);
      if children[n] != [] {
        FlattenPreOrder(parent, children, children[n], n, Some(n));
      }
      forall i | 0 <= i < |b|
        ensures IsAncestorOrSelf(parent, n, b[i])
      {
        SubtreeBelow(children, n);
        assert b[i] in Subtree(children, n);
        SubtreeMembers(parent, children, n, b[i]);
      }
      PreOrderJoin(parent, Flatten(children, ex, init, lo), n, b, par);
    }
  }

  /** Joining three lists does not depend on the grouping. */
  lemma ConcatAssoc<T>(a: seq<T>, b: seq<T>, c: seq<T>)
    ensures (a + b) + c == a + (b + c)
  {
  }

  /** `roots` lists root nodes of the forest, none twice. */
  ghost predicate Roots(parent: seq<Option<Node>>, roots: seq<Node>)
  {
    NoDup(roots) && forall k :: 0 <= k < |roots| ==> roots[k] < |parent| && parent[roots[k]].None?
  }

  /** The position of the first `c` in `s`, as `indexOf` finds it. */
  function IndexOf(s: seq<Node>, c: Node): (r: int)
    ensures -1 <= r < |s|
    ensures r >= 0 ==> s[r] == c && c !in s[..r]
    ensures r == -1 <==> c !in s
  {
    if s == [] then -1
    else if s[0] == c then 0
    else
      var r := IndexOf(s[1..], c);
      assert forall k :: 0 <= k < |s| - 1 ==> s[1..][k] == s[k + 1];
      if r == -1 then -1
      else
        assert s[..r + 1] == [s[0]] + s[1..][..r];
        r + 1
  }

  lemma NoDupConcat3(a: seq<Node>, n: Node, b: seq<Node>)
    requires NoDup(a) && NoDup(b) && n !in b
    requires forall x :: x in a ==> x != n && x !in b
    ensures NoDup(a + [n] + b)
  {
    var s := a + [n] + b;
    forall k, l | 0 <= k < l < |s|
      ensures s[k] != s[l]
    {
      if k < |a| && l >= |a| {
        assert s[k] in a;
      }
    }
  }

  /** The parts of a list without repeats share no node. */
  lemma NoDupSplit3(a: seq<Node>, n: Node, b: seq<Node>)
    requires NoDup(a + [n] + b)
    ensures n !in a && n !in b && forall x :: x in a ==> x !in b
  {
    var s := a + [n] + b;
    forall i | 0 <= i < |a|
      ensures a[i] != n
    {
      assert s[i] == a[i] && s[|a|] == n;
    }
    forall j | 0 <= j < |b|
      ensures b[j] != n
    {
      assert s[|a|] == n && s[|a| + 1 + j] == b[j];
    }
    forall i, j | 0 <= i < |a| && 0 <= j < |b|
      ensures a[i] != b[j]
    {
      assert s[i] == a[i] && s[|a| + 1 + j] == b[j];
    }
  }

  /** The nodes of `s` whose parent is `p`, in the order of `s`. */
  function ChildrenIn(parent: seq<Option<Node>>, s: seq<Node>, p: Node): (r: seq<Node>)
    requires forall k :: 0 <= k < |s| ==> s[k] < |parent|
    ensures |r| <= |s|
    ensures forall k :: 0 <= k < |r| ==> r[k] < |parent| && parent[r[k]] == Some(p)
  {
    if s == [] then []
    else
      var k := |s| - 1;
      ChildrenIn(parent, s[..k], p) + (if parent[s[k]] == Some(p) then [s[k]] else [])
  }

  /** Reading the children of `p` off two lists one after the other. */
  lemma {:induction false} ChildrenInConcat(parent: seq<Option<Node>>, a: seq<Node>, b: seq<Node>, p: Node)
    requires forall k :: 0 <= k < |a| ==> a[k] < |parent|
    requires forall k :: 0 <= k < |b| ==> b[k] < |parent|
    ensures ChildrenIn(parent, a + b, p) == ChildrenIn(parent, a, p) + ChildrenIn(parent, b, p)
    decreases |b|
  {
    if b == [] {
      assert a + b == a;
    } else {
      var k := |b| - 1;
      ChildrenInConcat(parent, a, b[..k], p);
      assert (a + b)[..|a + b| - 1] == a + b[..k];
    }
  }

  /** One more node adds itself to the children of its parent. */
  lemma ChildrenInSnoc(parent: seq<Option<Node>>, a: seq<Node>, n: Node, p: Node)
    requires forall k :: 0 <= k < |a| ==> a[k] < |parent|
    requires n < |parent|
    ensures ChildrenIn(parent, a + [n], p) == ChildrenIn(parent, a, p) + (if parent[n] == Some(p) then [n] else [])
  {
    assert (a + [n])[..|a|] == a;
  }

  /** The same, with a node between the two lists. */
  lemma ChildrenInAppend(parent: seq<Option<Node>>, a: seq<Node>, n: Node, b: seq<Node>, p: Node)
    requires forall k :: 0 <= k < |a| ==> a[k] < |parent|
    requires forall k :: 0 <= k < |b| ==> b[k] < |parent|
    requires n < |parent|
    ensures ChildrenIn(parent, a + [n] + b, p) == ChildrenIn(parent, a + [n], p) + ChildrenIn(parent, b, p)
  {
    ChildrenInConcat(parent, a + [n], b, p);
  }

  // ---------------------------------------------------------------------------
  // Sums over child lists

  /** The sum of `g` over the nodes `cs`, accumulated front to back. */
  function SumOver(g: seq<real>, cs: seq<Node>): real
    requires forall k :: 0 <= k < |cs| ==> cs[k] < |g|
  {
    if cs == [] then 0.0 else SumOver(g, cs[..|cs| - 1]) + g[cs[|cs| - 1]]
  }

  /** Changing `g` at the node in position `m` of a list without repeats
      changes the sum by that change alone. */
  lemma {:induction false} SumOverOneChange(g: seq<real>, g2: seq<real>, cs: seq<Node>, m: int, d: real)
    requires |g2| == |g| && forall k :: 0 <= k < |cs| ==> cs[k] < |g|
    requires forall k :: 0 <= k < |cs| ==> g2[cs[k]] == g[cs[k]] + (if k == m then d else 0.0)
    ensures SumOver(g2, cs) == SumOver(g, cs) + (if 0 <= m < |cs| then d else 0.0)
  {
    if cs != [] {
      SumOverOneChange(g, g2, cs[..|cs| - 1], m, d);
    }
  }

  /** Appending a node to a list adds its value to the sum. */
  lemma SumOverAppend(g: seq<real>, cs: seq<Node>, c: Node)
    requires c < |g| && forall k :: 0 <= k < |cs| ==> cs[k] < |g|
    ensures SumOver(g, cs + [c]) == SumOver(g, cs) + g[c]
  {
    assert (cs + [c])[..|cs|] == cs;
  }

  /** Sums over a list split in two add up. */
  lemma {:induction false} SumOverConcat(g: seq<real>, a: seq<Node>, b: seq<Node>)
    requires forall k :: 0 <= k < |a| ==> a[k] < |g|
    requires forall k :: 0 <= k < |b| ==> b[k] < |g|
    ensures SumOver(g, a + b) == SumOver(g, a) + SumOver(g, b)
  {
    if b != [] {
      assert (a + b)[..|a + b| - 1] == a + b[..|b| - 1];
      SumOverConcat(g, a, b[..|b| - 1]);
    } else {
      assert a + b == a;
    }
  }

  /** Values of nodes beyond those listed do not enter the sum. */
  lemma {:induction false} SumOverExtend(g: seq<real>, more: seq<real>, cs: seq<Node>)
    requires forall k :: 0 <= k < |cs| ==> cs[k] < |g|
    ensures SumOver(g + more, cs) == SumOver(g, cs)
  {
    if cs != [] {
      SumOverExtend(g, more, cs[..|cs| - 1]);
    }
  }

  /** Adding a childless root keeps the forest shape, the links and the rollup. */
  lemma ExtendWithRoot(parent: seq<Option<Node>>, children: seq<seq<Node>>, personal: seq<real>, group: seq<real>, v: real)
    requires WellFormed(parent, children)
    ensures WellFormed(parent + [None], children + [[]])
    ensures Linked(parent, children) ==> Linked(parent + [None], children + [[]])
    ensures Rollup(children, personal, group) ==> Rollup(children + [[]], personal + [v], group + [v])
  {
    ShapeWithRoot(parent, children);
    if Linked(parent, children) {
      LinkedWithRoot(parent, children);
    }
    if Rollup(children, personal, group) {
      RollupWithRoot(children, personal, group, v);
    }
  }

  lemma ShapeWithRoot(parent: seq<Option<Node>>, children: seq<seq<Node>>)
    requires WellFormed(parent, children)
    ensures WellFormed(parent + [None], children + [[]])
  {
    var p2, c2 := parent + [None], children + [[]];
    assert forall i :: 0 <= i < |children| ==> c2[i] == children[i];
  }

  lemma LinkedWithRoot(parent: seq<Option<Node>>, children: seq<seq<Node>>)
    requires WellFormed(parent, children) && Linked(parent, children)
    ensures Linked(parent + [None], children + [[]])
  {
    var p2, c2 := parent + [None], children + [[]];
    assert forall i :: 0 <= i < |children| ==> c2[i] == children[i];
  }

  lemma RollupWithRoot(children: seq<seq<Node>>, personal: seq<real>, group: seq<real>, v: real)
    requires Downward(children) && Rollup(children, personal, group)
    ensures Downward(children + [[]])
    ensures Rollup(children + [[]], personal + [v], group + [v])
  {
    var c2 := children + [[]];
    assert forall i :: 0 <= i < |children| ==> c2[i] == children[i];
    forall i | 0 <= i < |c2|
      ensures (group + [v])[i] == (personal + [v])[i] + SumOver(group + [v], c2[i])
    {
      if i < |children| {
        SumOverExtend(group, [v], children[i]);
      }
    }
  }

  /** Every node's `group` is its `personal` plus its children's `group`. */
  ghost predicate Rollup(children: seq<seq<Node>>, personal: seq<real>, group: seq<real>)
    requires Downward(children)
  {
    && |personal| == |children| && |group| == |children|
    && forall i :: 0 <= i < |children| ==> group[i] == personal[i] + SumOver(group, children[i])
  }

  /** A forest whose links agree in both directions and whose group volumes
      roll up. */
  ghost predicate Coherent(parent: seq<Option<Node>>, children: seq<seq<Node>>, personal: seq<real>, group: seq<real>)
  {
    && WellFormed(parent, children) && |personal| == |parent| && |group| == |parent|
    && Linked(parent, children) && Rollup(children, personal, group)
  }

  /** Adding a detached member whose group is its own volume keeps a
      coherent network coherent. */
  lemma CoherentWithRoot(parent: seq<Option<Node>>, children: seq<seq<Node>>, personal: seq<real>, group: seq<real>, v: real)
    requires Coherent(parent, children, personal, group)
    ensures Coherent(parent + [None], children + [[]], personal + [v], group + [v])
  {
    ExtendWithRoot(parent, children, personal, group, v);
  }

  /** Adding `e` to the group of `x` and of every ancestor of `x` (what
      `addGroup` does) restores the rollup when `x` alone was short by `e`. */
  lemma RollupRestored(parent: seq<Option<Node>>, children: seq<seq<Node>>, personal: seq<real>,
                       group: seq<real>, group2: seq<real>, x: Node, e: real)
    requires WellFormed(parent, children) && Linked(parent, children)
    requires |personal| == |parent| && |group| == |parent| && |group2| == |parent| && x < |parent|
    requires forall j :: 0 <= j < |parent| ==>
      group[j] + (if j == x then e else 0.0) == personal[j] + SumOver(group, children[j])
    requires forall j :: 0 <= j < |parent| ==>
      group2[j] == group[j] + (if IsAncestorOrSelf(parent, j, x) then e else 0.0)
    ensures Rollup(children, personal, group2)
  {
    forall j | 0 <= j < |parent|
      ensures group2[j] == personal[j] + SumOver(group2, children[j])
    {
      ChildSumShift(parent, children, group, group2, j, x, e);
    }
  }

  /** The sum over `j`'s children moves by `e` exactly when `j` is a strict
      ancestor of `x`: then one child lies on the chain of `x`, else none. */
  lemma ChildSumShift(parent: seq<Option<Node>>, children: seq<seq<Node>>,
                      group: seq<real>, group2: seq<real>, j: Node, x: Node, e: real)
    requires WellFormed(parent, children) && Linked(parent, children)
    requires |group| == |parent| && |group2| == |parent| && x < |parent| && j < |parent|
    requires forall y :: 0 <= y < |parent| ==>
      group2[y] == group[y] + (if IsAncestorOrSelf(parent, y, x) then e else 0.0)
    ensures SumOver(group2, children[j]) ==
      SumOver(group, children[j]) + (if IsAncestorOrSelf(parent, j, x) && j != x then e else 0.0)
  {
    var cs := children[j];
    if IsAncestorOrSelf(parent, j, x) && j != x {
      var c := ChildOnPath(parent, j, x);
      var m :| 0 <= m < |cs| && cs[m] == c;
      forall k | 0 <= k < |cs|
        ensures group2[cs[k]] == group[cs[k]] + (if k == m then e else 0.0)
      {
        if k != m && IsAncestorOrSelf(parent, cs[k], x) {
          ChainSiblingsUnique(parent, cs[k], c, x);
        }
      }
      SumOverOneChange(group, group2, cs, m, e);
    } else {
      forall k | 0 <= k < |cs|
        ensures group2[cs[k]] == group[cs[k]] + (if k == -1 then e else 0.0)
      {
        if IsAncestorOrSelf(parent, cs[k], x) {
          ChildOnChain(parent, cs[k], j, x);
        }
      }
      SumOverOneChange(group, group2, cs, -1, e);
    }
  }
}
