/** `TreeNode`: the parent/child links, the expansion flag and the cached
    level of each node, updated in place. */
module TreeNodes {
  import opened Wrappers
  import opened Forest
  import opened MemberNetwork

  /** `addChild`: `c` becomes the last child of `p` and points at `p`.
      Attaching a node to a node created after it is not modelled; a node
      that is already somebody's listed child cannot be attached again. */
  method AddChild(net: Network, p: Node, c: Node)
    requires net.Valid() && p < c < |net.parent| && Unlisted(net.children, c)
    modifies net`parent, net`children
    ensures net.Valid()
    ensures net.children == old(net.children)[p := old(net.children[p]) + [c]]
    ensures net.parent == old(net.parent)[c := Some(p)]
    ensures old(Linked(net.parent, net.children)) ==> Linked(net.parent, net.children)
  {
    AttachChild(net.parent, net.children, p, c);
    net.children := net.children[p := net.children[p] + [c]];
    net.parent := net.parent[c := Some(p)];
  }

  /** `setChildList`: clears the child list of `p`, then attaches the new
      children in order. The former children keep pointing at `p`, so the
      links no longer agree in both directions unless they are all listed
      again. */
  method SetChildList(net: Network, p: Node, newChildList: seq<Node>)
    requires net.Valid() && p < |net.parent| && NoDup(newChildList)
    requires forall k :: 0 <= k < |newChildList| ==> p < newChildList[k] < |net.parent|
    requires forall k :: 0 <= k < |newChildList| ==>
      newChildList[k] in net.children[p] || Unlisted(net.children, newChildList[k])
    modifies net`parent, net`children
    ensures net.Valid()
    ensures net.children == old(net.children)[p := newChildList]
    ensures |net.parent| == |old(net.parent)|
    ensures forall x :: 0 <= x < |net.parent| ==>
      net.parent[x] == if x in newChildList then Some(p) else old(net.parent[x])
  {
    ClearChildren(net.parent, net.children, p);
    net.children := net.children[p := []];
    ghost var children0, parent0 := net.children, net.parent;
    var k := 0;
    while k < |newChildList|
      invariant 0 <= k <= |newChildList| && Relisting(net, p, newChildList, k, children0, parent0)
    {
      RelistNext(net, p, newChildList, k, children0, parent0);
      k := k + 1;
    }
    assert newChildList[..k] == newChildList;
  }

  /** What `setChildList` keeps after its first `k` turns: the first `k`
      new children are listed under `p` and point at it, and the rest are
      still listed nowhere. */
  ghost predicate Relisting(net: Network, p: Node, newChildList: seq<Node>, k: nat,
                            children0: seq<seq<Node>>, parent0: seq<Option<Node>>)
    reads net
  {
    net.Valid() && p < |net.parent| == |parent0| == |children0| && k <= |newChildList|
    && (forall j :: 0 <= j < |newChildList| ==> p < newChildList[j] < |net.parent|)
    && net.children == children0[p := newChildList[..k]]
    && (forall x :: 0 <= x < |net.parent| ==>
          net.parent[x] == if x in newChildList[..k] then Some(p) else parent0[x])
    && (forall j :: k <= j < |newChildList| ==> Unlisted(net.children, newChildList[j]))
  }

  /** One turn of `setChildList`: the `k`-th new child is attached. */
  method RelistNext(net: Network, p: Node, newChildList: seq<Node>, k: nat,
                    ghost children0: seq<seq<Node>>, ghost parent0: seq<Option<Node>>)
    requires k < |newChildList| && NoDup(newChildList) && Relisting(net, p, newChildList, k, children0, parent0)
    modifies net`parent, net`children
    ensures Relisting(net, p, newChildList, k + 1, children0, parent0)
  {
    var c := newChildList[k];
    ghost var children1 := net.children;
    AddChild(net, p, c);
    assert newChildList[..k + 1] == newChildList[..k] + [c];
    forall j | k + 1 <= j < |newChildList|
      ensures Unlisted(net.children, newChildList[j])
    {
      assert newChildList[j] != c && Unlisted(children1, newChildList[j]);
    }
  }

  /** Every cached level is either unset or the node's number of ancestors. */
  ghost predicate LevelsSound(parent: seq<Option<Node>>, level: seq<int>)
    requires Ordered(parent)
  {
    |level| == |parent| && forall i :: 0 <= i < |parent| ==> level[i] == Undefined || level[i] == Depth(parent, i)
  }

  /** `getLevel`: a root's level is 0; otherwise a cached level is returned as
      it is, and an unset one is computed from the parent's and cached. A
      cache that was sound stays sound and yields the number of ancestors;
      only the chain of `x` is touched. */
  method GetLevel(net: Network, x: Node) returns (lv: int)
    requires net.Valid() && x < |net.parent|
    modifies net`level
    ensures net.Valid() && net.level[x] == lv
    ensures net.parent[x].None? ==> lv == 0
    ensures net.parent[x].Some? && old(net.level[x]) != Undefined ==> lv == old(net.level[x])
    ensures forall i :: 0 <= i < |net.parent| && !IsAncestorOrSelf(net.parent, i, x) ==> net.level[i] == old(net.level[i])
    ensures old(LevelsSound(net.parent, net.level)) ==> LevelsSound(net.parent, net.level) && lv == Depth(net.parent, x)
    decreases x
  {
    if net.parent[x].None? {
      net.level := net.level[x := 0];
    } else if net.level[x] == Undefined {
      var up := GetLevel(net, net.parent[x].value);
      net.level := net.level[x := up + 1];
    }
    lv := net.level[x];
  }

  /** `toggle`: flips the flag and returns its new value. */
  method Toggle(net: Network, x: Node) returns (expanded: bool)
    requires net.Valid() && x < |net.parent|
    modifies net`isExpand
    ensures net.Valid() && expanded == !old(net.isExpand[x])
    ensures net.isExpand == old(net.isExpand)[x := expanded]
  {
    net.isExpand := net.isExpand[x := !net.isExpand[x]];
    expanded := net.isExpand[x];
  }

  /** `expand`. */
  method Expand(net: Network, x: Node)
    requires net.Valid() && x < |net.parent|
    modifies net`isExpand
    ensures net.Valid() && net.isExpand == old(net.isExpand)[x := true]
  {
    if !net.isExpand[x] {
      net.isExpand := net.isExpand[x := true];
    }
  }

  /** `collapse`. */
  method Collapse(net: Network, x: Node)
    requires net.Valid() && x < |net.parent|
    modifies net`isExpand
    ensures net.Valid() && net.isExpand == old(net.isExpand)[x := false]
  {
    if net.isExpand[x] {
      net.isExpand := net.isExpand[x := false];
    }
  }

  /** `expandAll`: expands the node, then each child's subtree in turn; every
      node of the subtree ends up expanded and no other flag changes. */
  method ExpandAll(net: Network, x: Node)
    requires net.Valid() && x < |net.parent|
    modifies net`isExpand
    ensures net.Valid()
    ensures forall j :: 0 <= j < |net.isExpand| ==>
      net.isExpand[j] == (j in Subtree(net.children, x) || old(net.isExpand[j]))
    decreases |net.parent| - x
  {
    Expand(net, x);
    ghost var ch := net.children;
    var cs := net.children[x];
    ghost var done: seq<Node> := [];
    var k := 0;
    while k < |cs|
      invariant 0 <= k <= |cs| && net.Valid() && net.children == ch
      invariant done == Flatten(ch, AllOpen(|ch|), cs[..k], x)
      invariant forall j :: 0 <= j < |net.isExpand| ==>
        net.isExpand[j] == (j == x || j in done || old(net.isExpand[j]))
    {
      ExpandAll(net, cs[k]);
      SubtreeStep(ch, x, k);
      done := done + Subtree(ch, cs[k]);
      k := k + 1;
    }
    assert cs[..k] == cs;
    assert Subtree(ch, x) == [x] + done;
  }

  /** `collapseAll`: collapses every node of the subtree and no other. */
  method CollapseAll(net: Network, x: Node)
    requires net.Valid() && x < |net.parent|
    modifies net`isExpand
    ensures net.Valid()
    ensures forall j :: 0 <= j < |net.isExpand| ==>
      net.isExpand[j] == (j !in Subtree(net.children, x) && old(net.isExpand[j]))
    decreases |net.parent| - x
  {
    Collapse(net, x);
    ghost var ch := net.children;
    var cs := net.children[x];
    ghost var done: seq<Node> := [];
    var k := 0;
    while k < |cs|
      invariant 0 <= k <= |cs| && net.Valid() && net.children == ch
      invariant done == Flatten(ch, AllOpen(|ch|), cs[..k], x)
      invariant forall j :: 0 <= j < |net.isExpand| ==>
        net.isExpand[j] == (j != x && j !in done && old(net.isExpand[j]))
    {
      CollapseAll(net, cs[k]);
      SubtreeStep(ch, x, k);
      done := done + Subtree(ch, cs[k]);
      k := k + 1;
    }
    assert cs[..k] == cs;
    assert Subtree(ch, x) == [x] + done;
  }

  /** What `clone` produces: a node with the same content and expansion flag,
      no parent and no children. */
  datatype NodeCopy = NodeCopy(content: Node, isExpand: bool, parent: Option<Node>, children: seq<Node>)

  /** `clone`: copies the content and the flag only. */
  function Clone(net: Network, x: Node): (r: NodeCopy)
    reads net`isExpand
    requires x < |net.isExpand|
    ensures r.content == x && r.isExpand == net.isExpand[x]
    ensures r.parent.None? && r.children == []
  {
    NodeCopy(x, net.isExpand[x], None, [])
  }
}
