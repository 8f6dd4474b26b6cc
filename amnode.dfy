/** `AmNode`: a tree node that carries a member. Attaching a node pushes its
    group volume up the sponsor chain and recounts the tree; detaching one
    recounts but moves no volume. */
module AmNodes {
  import opened Wrappers
  import opened Entities
  import opened Forest
  import opened MemberNetwork
  import opened Ledger
  import opened Partners
  import opened Bonus
  import opened TreeNodes
  import opened Members

  /** `measureLevel`: `curLevel` plus one for every step up to the root. */
  function MeasureLevel(parent: seq<Option<Node>>, x: Node, curLevel: int): (r: int)
    requires Ordered(parent) && x < |parent|
    ensures r == curLevel + |Chain(parent, x)| - 1
    ensures parent[x].None? ==> r == curLevel
    decreases x
  {
    if parent[x].None? then curLevel else MeasureLevel(parent, parent[x].value, curLevel + 1)
  }

  /** `containsSponsorNode`: the node is `s` or `s` is one of its ancestors. */
  function ContainsSponsorNode(parent: seq<Option<Node>>, x: Node, s: Node): (r: bool)
    requires Ordered(parent) && x < |parent|
    ensures r <==> IsAncestorOrSelf(parent, s, x)
    decreases x
  {
    if x == s then true
    else if parent[x].None? then false
    else if s == parent[x].value then true
    else ContainsSponsorNode(parent, parent[x].value, s)
  }

  // ---------------------------------------------------------------------------
  // Node counts

  /** Every node of the tree below `r` (with `r`) holds its subtree size. */
  ghost predicate CountsRight(net: Network, r: Node)
    reads net`children, net`nodeCount
    requires Downward(net.children) && r < |net.children| && |net.nodeCount| == |net.children|
  {
    forall i :: 0 <= i < |net.nodeCount| && i in Subtree(net.children, r) ==>
      net.nodeCount[i] == |Subtree(net.children, i)|
  }

  /** `calculateNodeCount`: one for the node plus the counts of its children,
      stored at every node of the subtree on the way back. */
  method CalculateNodeCount(net: Network, x: Node) returns (size: int)
    requires net.Valid() && x < |net.parent|
    modifies net`nodeCount
    ensures net.Valid()
    ensures size == |Subtree(net.children, x)| && CountsRight(net, x)
    ensures forall i :: 0 <= i < |net.nodeCount| && i !in Subtree(net.children, x) ==>
      net.nodeCount[i] == old(net.nodeCount[i])
    decreases |net.parent| - x
  {
    ghost var ex := AllOpen(|net.children|);
    var cs := net.children[x];
    size := 1;
    var k := 0;
    while k < |cs|
      invariant 0 <= k <= |cs| && net.Valid()
      invariant size == 1 + |Flatten(net.children, ex, cs[..k], x)|
      invariant forall i :: 0 <= i < |net.nodeCount| ==>
        net.nodeCount[i] == if i in Flatten(net.children, ex, cs[..k], x) then |Subtree(net.children, i)| else old(net.nodeCount[i])
    {
      var s := CalculateNodeCount(net, cs[k]);
      SubtreeStep(net.children, x, k);
      size := size + s;
      k := k + 1;
    }
    assert cs[..k] == cs;
    net.nodeCount := net.nodeCount[x := size];
  }

  /** `notifyParentNodeCountChanged`: climbs to the root and recounts its
      whole tree. */
  method NotifyParentNodeCountChanged(net: Network, x: Node)
    requires net.Valid() && x < |net.parent|
    modifies net`nodeCount
    ensures net.Valid()
    ensures CountsRight(net, Root(net.parent, x))
    ensures forall i :: 0 <= i < |net.nodeCount| && i !in Subtree(net.children, Root(net.parent, x)) ==>
      net.nodeCount[i] == old(net.nodeCount[i])
    decreases x
  {
    if net.parent[x].Some? {
      NotifyParentNodeCountChanged(net, net.parent[x].value);
    } else {
      var _ := CalculateNodeCount(net, x);
    }
  }

  // ---------------------------------------------------------------------------
  // Attaching and detaching

  /** `addMemberNode`: `c`, a detached node, becomes the last child of `p`;
      its group is added to `p` and every ancestor of `p`; the tree is
      recounted. A network whose groups rolled up still does. */
  method AddMemberNode(net: Network, p: Node, c: Node)
    requires net.Valid() && p < c < |net.parent| && net.parent[c].None?
    requires net.member[p].kind == Abo && SponsorsUp(net.parent, net.member, p)
    modifies net`parent, net`children, net`group, net`nodeCount
    ensures net.Valid()
    ensures net.children == old(net.children)[p := old(net.children[p]) + [c]]
    ensures net.parent == old(net.parent)[c := Some(p)]
    ensures forall j :: 0 <= j < |net.group| ==>
      net.group[j] == old(net.group[j]) + (if IsAncestorOrSelf(old(net.parent), j, p) then old(net.group[c]) else 0.0)
    ensures CountsRight(net, Root(net.parent, p))
    ensures forall i :: 0 <= i < |net.nodeCount| && i !in Subtree(net.children, Root(net.parent, p)) ==>
      net.nodeCount[i] == old(net.nodeCount[i])
    ensures old(net.Consistent()) ==> net.Consistent()
    ensures old(net.Sponsored()) ==> net.Sponsored()
  {
    AttachMember(net, p, c);
    NotifyParentNodeCountChanged(net, p);
  }

  /** The first two steps of `addMemberNode`: `addChild`, then
      `addGroupToSponsor` from the new child. */
  method AttachMember(net: Network, p: Node, c: Node)
    requires net.Valid() && p < c < |net.parent| && net.parent[c].None?
    requires net.member[p].kind == Abo && SponsorsUp(net.parent, net.member, p)
    modifies net`parent, net`children, net`group
    ensures net.Valid()
    ensures net.children == old(net.children)[p := old(net.children[p]) + [c]]
    ensures net.parent == old(net.parent)[c := Some(p)]
    ensures forall j :: 0 <= j < |net.group| ==>
      net.group[j] == old(net.group[j]) + (if IsAncestorOrSelf(old(net.parent), j, p) then old(net.group[c]) else 0.0)
    ensures Root(net.parent, p) == Root(old(net.parent), p)
    ensures old(net.Consistent()) ==> net.Consistent()
    ensures old(net.Sponsored()) ==> net.Sponsored()
  {
    ghost var parent0, children0, group0 := net.parent, net.children, net.group;
    ghost var wasConsistent := net.Consistent();
    DetachedUnlisted(net.parent, net.children, c);
    AddChild(net, p, c);
    ChainKept(parent0, net.parent, p);
    SponsorsUpAttached(parent0, net.parent, net.member, p, c);
    AddGroupToSponsor(net, c);
    StrictAncestors(net.parent, c);
    if wasConsistent {
      AttachRollup(parent0, children0, net.parent, net.children, net.personal, group0, net.group, p, c);
    }
  }

  /** Changing only the parent of a node after `x` leaves the ancestors of
      `x` as they were. */
  lemma {:induction false} ChainKept(parent: seq<Option<Node>>, parent2: seq<Option<Node>>, x: Node)
    requires Ordered(parent) && Ordered(parent2) && x < |parent| <= |parent2|
    requires forall i :: 0 <= i <= x ==> parent2[i] == parent[i]
    ensures forall a :: IsAncestorOrSelf(parent2, a, x) == IsAncestorOrSelf(parent, a, x)
    ensures Root(parent2, x) == Root(parent, x)
    decreases x
  {
    if parent[x].Some? {
      ChainKept(parent, parent2, parent[x].value);
    }
  }

  /** Hanging `c` under the ABO `p` keeps every step up from `c` on ABOs. */
  lemma SponsorsUpAttached(parent: seq<Option<Node>>, parent2: seq<Option<Node>>, member: seq<Member>, p: Node, c: Node)
    requires Ordered(parent) && p < c < |parent| && |member| == |parent| && parent2 == parent[c := Some(p)]
    requires member[p].kind == Abo && SponsorsUp(parent, member, p)
    ensures Ordered(parent2) && SponsorsUp(parent2, member, c) && SponsorsUp(parent2, member, p)
  {
    ChainKept(parent, parent2, p);
    assert forall j :: IsAncestorOrSelf(parent2, j, c) <==> j == c || IsAncestorOrSelf(parent2, j, p);
  }

  /** Attaching `c` with its whole group under `p` and adding that group to
      `p` and its ancestors keeps a coherent network coherent. */
  lemma AttachRollup(parent: seq<Option<Node>>, children: seq<seq<Node>>, parent2: seq<Option<Node>>, children2: seq<seq<Node>>,
                     personal: seq<real>, group: seq<real>, group2: seq<real>, p: Node, c: Node)
    requires Coherent(parent, children, personal, group) && p < c < |parent| && Unlisted(children, c)
    requires parent2 == parent[c := Some(p)] && children2 == children[p := children[p] + [c]]
    requires WellFormed(parent2, children2) && Linked(parent2, children2) && |group2| == |parent|
    requires forall j :: 0 <= j < |parent| ==>
      group2[j] == group[j] + (if IsAncestorOrSelf(parent2, j, p) then group[c] else 0.0)
    ensures Coherent(parent2, children2, personal, group2)
  {
    ListedShort(children, children2, personal, group, p, c);
    RollupRestored(parent2, children2, personal, group, group2, p, group[c]);
  }

  /** Once `c` joins the child list of `p`, the old groups satisfy the
      rollup everywhere except at `p`, which is short by the group of `c`. */
  lemma ListedShort(children: seq<seq<Node>>, children2: seq<seq<Node>>, personal: seq<real>, group: seq<real>, p: Node, c: Node)
    requires Downward(children) && Rollup(children, personal, group) && p < c < |children|
    requires children2 == children[p := children[p] + [c]]
    ensures forall j :: 0 <= j < |children| ==>
      group[j] + (if j == p then group[c] else 0.0) == personal[j] + SumOver(group, children2[j])
  {
    SumOverAppend(group, children[p], c);
  }

  /** `children.remove(c)`: the list without its first `c`. */
  function RemoveFirst(s: seq<Node>, c: Node): (r: seq<Node>)
    ensures c !in s ==> r == s
    ensures c in s ==> r == s[..IndexOf(s, c)] + s[IndexOf(s, c) + 1..]
  {
    var i := IndexOf(s, c);
    if i < 0 then s else s[..i] + s[i + 1..]
  }

  /** `removeMemberNode`: `c` loses its parent and leaves the child list of
      `p`; the tree of `p` is recounted. No group volume moves, so `p` and
      its ancestors still count `c`'s group. */
  method RemoveMemberNode(net: Network, p: Node, c: Node)
    requires net.Valid() && p < |net.parent| && c < |net.parent| && net.parent[c] == Some(p)
    modifies net`parent, net`children, net`nodeCount
    ensures net.Valid()
    ensures net.parent == old(net.parent)[c := None]
    ensures net.children == old(net.children)[p := RemoveFirst(old(net.children[p]), c)]
    ensures CountsRight(net, Root(net.parent, p))
    ensures forall i :: 0 <= i < |net.nodeCount| && i !in Subtree(net.children, Root(net.parent, p)) ==>
      net.nodeCount[i] == old(net.nodeCount[i])
    ensures old(Linked(net.parent, net.children)) ==> Linked(net.parent, net.children)
    ensures old(net.Sponsored()) ==> net.Sponsored()
  {
    DetachChild(net.parent, net.children, p, c);
    net.parent := net.parent[c := None];
    net.children := net.children[p := RemoveFirst(net.children[p], c)];
    NotifyParentNodeCountChanged(net, p);
  }

  /** In a list without repeats, removing `c` leaves every other entry and
      still has no repeats. */
  lemma RemoveFirstMembers(cs: seq<Node>, c: Node)
    requires NoDup(cs)
    ensures NoDup(RemoveFirst(cs, c))
    ensures forall n :: n in RemoveFirst(cs, c) <==> n in cs && n != c
  {
    if c in cs {
      var i := IndexOf(cs, c);
      var rest := RemoveFirst(cs, c);
      assert forall k :: 0 <= k < |rest| ==> rest[k] == if k < i then cs[k] else cs[k + 1];
      forall n | n in cs && n != c
        ensures n in rest
      {
        var k :| 0 <= k < |cs| && cs[k] == n;
        if k < i {
          assert rest[k] == n;
        } else {
          assert rest[k - 1] == n;
        }
      }
    }
  }

  /** Dropping `c` from the child list of its parent `p` and clearing its
      parent link keeps the forest shape and the links. */
  lemma DetachChild(parent: seq<Option<Node>>, children: seq<seq<Node>>, p: Node, c: Node)
    requires WellFormed(parent, children) && p < |parent| && c < |parent| && parent[c] == Some(p)
    ensures WellFormed(parent[c := None], children[p := RemoveFirst(children[p], c)])
    ensures Linked(parent, children) ==> Linked(parent[c := None], children[p := RemoveFirst(children[p], c)])
  {
    var rest := RemoveFirst(children[p], c);
    RemoveFirstMembers(children[p], c);
    var parent2, children2 := parent[c := None], children[p := rest];
    forall i, k | 0 <= i < |children2| && 0 <= k < |children2[i]|
      ensures i < children2[i][k] < |children2| && parent2[children2[i][k]] == Some(i)
    {
      if i == p {
        assert children2[i][k] in rest;
      } else {
        assert children2[i][k] == children[i][k];
        assert children[i][k] in children[i];
      }
    }
  }

  /** Updating an appended list inside the old part, or at the new last
      position, is appending to the updated list. */
  lemma UpdateAppended<T>(s: seq<T>, w: T, i: nat, v: T)
    requires i <= |s|
    ensures i < |s| ==> (s + [w])[i := v] == s[i := v] + [w]
    ensures i == |s| ==> (s + [w])[i := v] == s + [v]
  {
  }

  /** A list is what comes before position `i`, the element there, and
      what comes after. */
  lemma SplitAt<T>(s: seq<T>, i: nat)
    requires i < |s|
    ensures s == s[..i] + [s[i]] + s[i + 1..]
    ensures forall k :: 0 <= k < i ==> s[..i][k] == s[k]
    ensures forall k :: i < k < |s| ==> s[i + 1..][k - i - 1] == s[k]
  {
  }

  /** Taking `c` out of a list that holds it takes its value out of the sum. */
  lemma SumOverRemove(g: seq<real>, cs: seq<Node>, c: Node)
    requires c in cs && forall k :: 0 <= k < |cs| ==> cs[k] < |g|
    ensures c < |g| && SumOver(g, cs) == SumOver(g, RemoveFirst(cs, c)) + g[c]
  {
    var i := IndexOf(cs, c);
    var a, b := cs[..i], cs[i + 1..];
    SplitAt(cs, i);
    assert cs == (a + [c]) + b;
    assert c < |g| by { assert cs[i] == c; }
    assert forall k :: 0 <= k < |a| ==> a[k] < |g|;
    assert forall k :: 0 <= k < |b| ==> b[k] < |g| by {
      forall k | 0 <= k < |b| ensures b[k] < |g| { assert b[k] == cs[i + 1 + k]; }
    }
    SumOverMiddle(g, a, c, b);
  }

  /** The sum over `a + [c] + b` is the sum over `a + b` and the value of `c`. */
  lemma SumOverMiddle(g: seq<real>, a: seq<Node>, c: Node, b: seq<Node>)
    requires c < |g| && (forall k :: 0 <= k < |a| ==> a[k] < |g|) && (forall k :: 0 <= k < |b| ==> b[k] < |g|)
    ensures SumOver(g, a + [c] + b) == SumOver(g, a + b) + g[c]
  {
    SumOverAppend(g, a, c);
    assert forall k :: 0 <= k < |a + [c]| ==> (a + [c])[k] < |g|;
    SumOverConcat(g, a + [c], b);
    SumOverConcat(g, a, b);
  }

  /** After a removal from a coherent network, `p` still counts the group
      of the removed `c` on top of its own volume and its remaining
      children: the rollup fails at `p` whenever that group is not zero. */
  lemma RemovalKeepsVolume(parent: seq<Option<Node>>, children: seq<seq<Node>>, personal: seq<real>, group: seq<real>, p: Node, c: Node)
    requires Coherent(parent, children, personal, group) && p < |parent| && c < |parent| && parent[c] == Some(p)
    ensures group[p] == personal[p] + SumOver(group, RemoveFirst(children[p], c)) + group[c]
    ensures group[c] != 0.0 ==> !Rollup(children[p := RemoveFirst(children[p], c)], personal, group)
  {
    SumOverRemove(group, children[p], c);
    DetachChild(parent, children, p, c);
    RemoveFirstMembers(children[p], c);
  }

  // ---------------------------------------------------------------------------
  // Bases

  /** The base of node `i` holds its current group and, for an ABO, its
      current bonus total; a member of another class keeps `total0`. */
  ghost predicate Rebased(b: Book, bs: Base, i: Node, total0: real)
    requires Ok(b) && i < |b.children|
  {
    && bs.group == b.group[i]
    && (if b.member[i].kind == Abo then bs.total == TotalBonus(b, i) else bs.total == total0)
  }

  /** Right after a new base, neither the group nor an ABO's bonus total
      has changed since it. */
  lemma RebasedNoChange(net: Network, i: Node)
    requires net.Valid() && Ok(Snapshot(net)) && i < |net.parent|
    requires Rebased(Snapshot(net), net.base[i], i, net.base[i].total)
    ensures GroupChange(net, i) == 0.0
    ensures net.member[i].kind == Abo ==> TotalChange(Snapshot(net), net.base[i], i) == 0.0
  {
  }

  /** `AmNode.resetBase`: the member's own `resetBase`, then the same for
      every child in turn, so every member of the subtree takes a new base. */
  method ResetTreeBase(net: Network, x: Node)
    requires net.Valid() && x < |net.parent| && Ok(Snapshot(net))
    modifies net`base
    ensures net.Valid()
    ensures forall i :: 0 <= i < |net.base| && i in Subtree(net.children, x) ==>
      Rebased(Snapshot(net), net.base[i], i, old(net.base[i].total))
    ensures forall i :: 0 <= i < |net.base| && i !in Subtree(net.children, x) ==> net.base[i] == old(net.base[i])
    decreases |net.parent| - x, 2
  {
    MemberResetBase(net, x);
    ResetChildrenBase(net, x);
  }

  /** The loop of `AmNode.resetBase` over the children of `x`. */
  method ResetChildrenBase(net: Network, x: Node)
    requires net.Valid() && x < |net.parent| && Ok(Snapshot(net))
    modifies net`base
    ensures net.Valid()
    ensures forall i :: 0 <= i < |net.base| && i != x ==>
      if i in Subtree(net.children, x) then Rebased(Snapshot(net), net.base[i], i, old(net.base[i].total))
      else net.base[i] == old(net.base[i])
    ensures net.base[x] == old(net.base[x])
    decreases |net.parent| - x, 1
  {
    ghost var b := Snapshot(net);
    ghost var ex := AllOpen(|net.children|);
    var cs := net.children[x];
    var k := 0;
    while k < |cs|
      invariant 0 <= k <= |cs| && net.Valid() && Snapshot(net) == b
      invariant net.base[x] == old(net.base[x])
      invariant forall i :: 0 <= i < |net.base| && i != x ==>
        if i in Flatten(net.children, ex, cs[..k], x) then Rebased(b, net.base[i], i, old(net.base[i].total))
        else net.base[i] == old(net.base[i])
    {
      ResetChildAt(net, x, k, b, ex, old(net.base));
      k := k + 1;
    }
    assert cs[..k] == cs;
  }

  /** One turn of the loop of `resetBase` over the children of `x`: the
      subtree of child `k` takes a new base. */
  method ResetChildAt(net: Network, x: Node, k: nat, ghost b: Book, ghost ex: seq<bool>, ghost base0: seq<Base>)
    requires net.Valid() && x < |net.parent| && k < |net.children[x]| && Snapshot(net) == b && Ok(b)
    requires ex == AllOpen(|net.children|) && |base0| == |net.base|
    requires net.base[x] == base0[x]
    requires forall i :: 0 <= i < |net.base| && i != x ==>
      if i in Flatten(net.children, ex, net.children[x][..k], x) then Rebased(b, net.base[i], i, base0[i].total)
      else net.base[i] == base0[i]
    modifies net`base
    ensures net.Valid() && Snapshot(net) == b && |net.base| == |base0|
    ensures net.base[x] == base0[x]
    ensures forall i :: 0 <= i < |net.base| && i != x ==>
      if i in Flatten(net.children, ex, net.children[x][..k + 1], x) then Rebased(b, net.base[i], i, base0[i].total)
      else net.base[i] == base0[i]
    decreases |net.parent| - x, 0
  {
    ResetTreeBase(net, net.children[x][k]);
    SubtreeStep(net.children, x, k);
  }

  // ---------------------------------------------------------------------------
  // Database rows

  /** One row of the member table: the class ordinal, the stamp, the name,
      the personal volume and the sponsor's stamp (0 for a root). */
  datatype MemberRow = MemberRow(classOrdinal: int, stamp: int, name: string, personal: real, sponsorStamp: int)

  /** `x` is a node whose parent, if any, is an ABO, so its `sponsor` cast
      succeeds. */
  ghost predicate ParentIsAbo(parent: seq<Option<Node>>, member: seq<Member>, x: Node)
  {
    x < |parent| && (parent[x].Some? ==> parent[x].value < |member| && member[parent[x].value].kind == Abo)
  }

  /** Every node of `ns` has no parent or an ABO for a parent. */
  ghost predicate AboParents(parent: seq<Option<Node>>, member: seq<Member>, ns: seq<Node>)
  {
    forall n :: n in ns ==> ParentIsAbo(parent, member, n)
  }

  /** `node2values`: the row of one node. */
  function Node2Values(parent: seq<Option<Node>>, member: seq<Member>, personal: seq<real>, x: Node): (r: MemberRow)
    requires |member| == |parent| && |personal| == |parent| && ParentIsAbo(parent, member, x)
    ensures ClassOfOrdinal(r.classOrdinal) == Some(member[x].kind)
    ensures r.stamp == member[x].stamp && r.name == member[x].name && r.personal == personal[x]
    ensures parent[x].None? ==> r.sponsorStamp == 0
    ensures parent[x].Some? ==> r.sponsorStamp == member[parent[x].value].stamp
  {
    var sponsorId := if parent[x].Some? then member[parent[x].value].stamp else 0;
    MemberRow(ClassOrdinal(member[x].kind), member[x].stamp, member[x].name, personal[x], sponsorId)
  }

  /** The rows of `ns`, in order. */
  function RowsOf(parent: seq<Option<Node>>, member: seq<Member>, personal: seq<real>, ns: seq<Node>): (r: seq<MemberRow>)
    requires |member| == |parent| && |personal| == |parent| && AboParents(parent, member, ns)
    ensures |r| == |ns|
  {
    if ns == [] then []
    else
      assert ns[|ns| - 1] in ns;
      RowsOf(parent, member, personal, ns[..|ns| - 1]) + [Node2Values(parent, member, personal, ns[|ns| - 1])]
  }

  /** Row `k` of a listing is the row of its node `k`. */
  lemma {:induction false} RowsOfAt(parent: seq<Option<Node>>, member: seq<Member>, personal: seq<real>, ns: seq<Node>, k: nat)
    requires |member| == |parent| && |personal| == |parent| && AboParents(parent, member, ns) && k < |ns|
    ensures ParentIsAbo(parent, member, ns[k])
    ensures RowsOf(parent, member, personal, ns)[k] == Node2Values(parent, member, personal, ns[k])
  {
    assert ns[k] in ns;
    if k < |ns| - 1 {
      RowsOfAt(parent, member, personal, ns[..|ns| - 1], k);
    }
  }

  /** The rows of two listings one after the other. */
  lemma {:induction false} RowsOfConcat(parent: seq<Option<Node>>, member: seq<Member>, personal: seq<real>, a: seq<Node>, b: seq<Node>)
    requires |member| == |parent| && |personal| == |parent| && AboParents(parent, member, a) && AboParents(parent, member, b)
    ensures AboParents(parent, member, a + b)
    ensures RowsOf(parent, member, personal, a + b) == RowsOf(parent, member, personal, a) + RowsOf(parent, member, personal, b)
  {
    assert AboParents(parent, member, a + b);
    if b != [] {
      assert (a + b)[..|a + b| - 1] == a + b[..|b| - 1];
      RowsOfConcat(parent, member, personal, a, b[..|b| - 1]);
    } else {
      assert a + b == a;
    }
  }

  /** `addUpContentValues`: appends the row of the node, then the rows of
      each child's subtree in turn: one row per subtree node, in pre-order. */
  method AddUpContentValues(net: Network, x: Node, valuesArray: seq<MemberRow>) returns (rows: seq<MemberRow>)
    requires net.Valid() && x < |net.parent| && AboParents(net.parent, net.member, Subtree(net.children, x))
    ensures rows == valuesArray + RowsOf(net.parent, net.member, net.personal, Subtree(net.children, x))
    decreases |net.parent| - x, 1
  {
    SubtreeRows(net.parent, net.member, net.personal, net.children, x);
    var row := Node2Values(net.parent, net.member, net.personal, x);
    rows := AddUpChildren(net, x, valuesArray + [row]);
    ghost var below := RowsOf(net.parent, net.member, net.personal, Flatten(net.children, AllOpen(|net.children|), net.children[x], x));
    assert (valuesArray + [row]) + below == valuesArray + ([row] + below);
  }

  /** The rows of a subtree: the row of its top node, then those of the
      nodes below it. */
  lemma SubtreeRows(parent: seq<Option<Node>>, member: seq<Member>, personal: seq<real>, children: seq<seq<Node>>, x: Node)
    requires |member| == |parent| && |personal| == |parent| && Downward(children) && x < |children|
    requires AboParents(parent, member, Subtree(children, x))
    ensures var below := Flatten(children, AllOpen(|children|), children[x], x);
      && ParentIsAbo(parent, member, x) && AboParents(parent, member, below)
      && RowsOf(parent, member, personal, Subtree(children, x))
         == [Node2Values(parent, member, personal, x)] + RowsOf(parent, member, personal, below)
  {
    var below := Flatten(children, AllOpen(|children|), children[x], x);
    assert Subtree(children, x) == [x] + below;
    assert x in Subtree(children, x);
    RowsOfConcat(parent, member, personal, [x], below);
    assert RowsOf(parent, member, personal, [x]) == [Node2Values(parent, member, personal, x)] by {
      assert [x][..0] == [];
    }
  }

  /** The loop of `addUpContentValues` over the children of `x`. */
  method AddUpChildren(net: Network, x: Node, valuesArray: seq<MemberRow>) returns (rows: seq<MemberRow>)
    requires net.Valid() && x < |net.parent|
    requires AboParents(net.parent, net.member, Flatten(net.children, AllOpen(|net.children|), net.children[x], x))
    ensures rows == valuesArray + RowsOf(net.parent, net.member, net.personal, Flatten(net.children, AllOpen(|net.children|), net.children[x], x))
    decreases |net.parent| - x, 0
  {
    ghost var ex := AllOpen(|net.children|);
    var cs := net.children[x];
    rows := valuesArray;
    ghost var done: seq<Node> := [];
    var k := 0;
    while k < |cs|
      invariant 0 <= k <= |cs| && done == Flatten(net.children, ex, cs[..k], x)
      invariant AboParents(net.parent, net.member, done)
      invariant rows == valuesArray + RowsOf(net.parent, net.member, net.personal, done)
    {
      ghost var next := Subtree(net.children, cs[k]);
      RowsStep(net.parent, net.children, net.member, net.personal, x, k);
      ghost var before := RowsOf(net.parent, net.member, net.personal, done);
      ghost var added := RowsOf(net.parent, net.member, net.personal, next);
      rows := AddUpContentValues(net, cs[k], rows);
      ConcatAssoc(valuesArray, before, added);
      done := done + next;
      k := k + 1;
    }
    assert cs[..k] == cs;
  }

  /** One more child's subtree extends the rows of the children before it. */
  lemma RowsStep(parent: seq<Option<Node>>, children: seq<seq<Node>>, member: seq<Member>, personal: seq<real>, x: Node, k: nat)
    requires Downward(children) && x < |children| && k < |children[x]|
    requires |member| == |parent| && |personal| == |parent|
    requires AboParents(parent, member, Flatten(children, AllOpen(|children|), children[x], x))
    ensures AboParents(parent, member, Subtree(children, children[x][k]))
    ensures AboParents(parent, member, Flatten(children, AllOpen(|children|), children[x][..k], x))
    ensures AboParents(parent, member, Flatten(children, AllOpen(|children|), children[x][..k + 1], x))
    ensures Flatten(children, AllOpen(|children|), children[x][..k + 1], x) ==
      Flatten(children, AllOpen(|children|), children[x][..k], x) + Subtree(children, children[x][k])
    ensures RowsOf(parent, member, personal, Flatten(children, AllOpen(|children|), children[x][..k + 1], x)) ==
      RowsOf(parent, member, personal, Flatten(children, AllOpen(|children|), children[x][..k], x)) +
      RowsOf(parent, member, personal, Subtree(children, children[x][k]))
  {
    var ex := AllOpen(|children|);
    var cs := children[x];
    SubtreeStep(children, x, k);
    FlattenPrefix(children, ex, cs, x, k + 1);
    FlattenPrefix(children, ex, cs, x, k);
    RowsOfConcat(parent, member, personal, Flatten(children, ex, cs[..k], x), Subtree(children, cs[k]));
  }

  /** The subtree of a child lies inside the subtree of its parent. */
  lemma SubtreeWithin(children: seq<seq<Node>>, x: Node, k: nat)
    requires Downward(children) && x < |children| && k < |children[x]|
    ensures forall n :: n in Subtree(children, children[x][k]) ==> n in Subtree(children, x)
  {
    var ex := AllOpen(|children|);
    var cs := children[x];
    SubtreeStep(children, x, k);
    FlattenPrefix(children, ex, cs, x, k + 1);
  }

  /** What the first `k` nodes of a list flatten to is a prefix of what the
      whole list flattens to. */
  lemma {:induction false} FlattenPrefix(children: seq<seq<Node>>, ex: seq<bool>, ns: seq<Node>, lo: int, k: nat)
    requires Downward(children) && |ex| == |children|
    requires -1 <= lo && forall j :: 0 <= j < |ns| ==> lo < ns[j] < |children|
    requires k <= |ns|
    ensures forall n :: n in Flatten(children, ex, ns[..k], lo) ==> n in Flatten(children, ex, ns, lo)
    decreases |ns| - k
  {
    if k < |ns| {
      FlattenSnoc(children, ex, ns, lo, k);
      FlattenPrefix(children, ex, ns, lo, k + 1);
    } else {
      assert ns[..k] == ns;
    }
  }

  // ---------------------------------------------------------------------------
  // Sample networks

  /** `AmMember.DEFAULT_PV`, the personal volume of a member created
      without one. */
  const DefaultPv: real := 20.0

  /** The decimal digits of `n`, as a string template writes an `Int`. */
  function NatText(n: nat): (r: string)
    ensures |r| >= 1
    decreases n
  {
    var d := [('0' as int + n % 10) as char];
    if n < 10 then d else NatText(n / 10) + d
  }

  /** The handles `from`, `from + 1`, ..., `count` of them. */
  function Handles(from: nat, count: nat): (r: seq<Node>)
    ensures |r| == count && forall k :: 0 <= k < count ==> r[k] == from + k
  {
    seq(count, k => from + k)
  }

  /** Every step up from `x` still lands on an ABO once the network has grown
      by nodes after `x`. */
  lemma SponsorsUpKept(parent: seq<Option<Node>>, member: seq<Member>, parent2: seq<Option<Node>>, member2: seq<Member>, x: Node)
    requires Ordered(parent) && Ordered(parent2) && x < |parent| <= |parent2|
    requires |member| == |parent| && |member2| == |parent2|
    requires forall i :: 0 <= i <= x ==> parent2[i] == parent[i] && member2[i] == member[i]
    requires SponsorsUp(parent, member, x)
    ensures SponsorsUp(parent2, member2, x)
  {
    ChainKept(parent, parent2, x);
    forall j | 0 <= j < |parent2| && IsAncestorOrSelf(parent2, j, x) && parent2[j].Some?
      ensures member2[parent2[j].value].kind == Abo
    {
      AncestorNotAfter(parent, j, x);
      assert parent2[j] == parent[j] && parent[j].value < j;
    }
  }

  /** The per-node fields of the network at one moment. */
  datatype Before = Before(parent: seq<Option<Node>>, children: seq<seq<Node>>, member: seq<Member>, personal: seq<real>,
                           group: seq<real>, base: seq<Base>, isExpand: seq<bool>, level: seq<int>, nodeCount: seq<int>)

  ghost function BeforeOf(net: Network): (r: Before)
    reads net
    ensures r.parent == net.parent && r.children == net.children && r.member == net.member && r.personal == net.personal
    ensures r.group == net.group && r.base == net.base && r.isExpand == net.isExpand && r.level == net.level
    ensures r.nodeCount == net.nodeCount
  {
    Before(net.parent, net.children, net.member, net.personal, net.group, net.base, net.isExpand, net.level, net.nodeCount)
  }

  /** `k` copies of `v`. */
  function Repeat<T>(v: T, k: nat): seq<T>
  {
    seq(k, _ => v)
  }

  /** The parent links of nodes hung under the entries of `ps`. */
  function Links(ps: seq<Node>): (r: seq<Option<Node>>)
    ensures |r| == |ps|
  {
    seq(|ps|, k requires 0 <= k < |ps| => Some(ps[k]))
  }

  /** Fresh ABOs called `names`, holding the stamps from `stamp` on, with no
      record and no PIN. */
  function NewAbos(stamp: int, names: seq<string>): seq<Member>
  {
    seq(|names|, k requires 0 <= k < |names| => Member(Abo, stamp + k, names[k], [], NoPin))
  }

  /** The names `prefix1`, `prefix2`, ..., `count` of them, as the template
      `"$prefix$i"` writes them. */
  function Numbered(prefix: string, count: nat): (r: seq<string>)
    ensures |r| == count
  {
    if count == 0 then [] else Numbered(prefix, count - 1) + [prefix + NatText(count)]
  }

  /** The nodes a plan hangs under `j`, in order: the handles, counted from
      `n0`, of the entries of `ps` equal to `j`. */
  function Kids(n0: nat, ps: seq<Node>, j: Node): (r: seq<Node>)
    ensures forall m :: 0 <= m < |r| ==> n0 <= r[m] < n0 + |ps| && ps[r[m] - n0] == j
    ensures forall m, l :: 0 <= m < l < |r| ==> r[m] < r[l]
  {
    if ps == [] then []
    else Kids(n0, ps[..|ps| - 1], j) + (if ps[|ps| - 1] == j then [n0 + |ps| - 1] else [])
  }

  /** The fields `now` appends to `was`: the `k`-th new node hangs under
      `ps[k]`, is an ABO called `names[k]` holding the stamp `stamp + k`,
      20 PV and zero bases, and is collapsed with its level unset; the old
      nodes keep their parents, members, volumes and display fields. */
  ghost predicate Appended(was: Before, now: Before, stamp: int, ps: seq<Node>, names: seq<string>)
  {
    var n0, k := |was.parent|, |ps|;
    && |names| == k && |was.children| == n0 && |was.group| == n0 && |was.nodeCount| == n0
    && now.parent == was.parent + Links(ps)
    && now.member == was.member + NewAbos(stamp, names)
    && now.personal == was.personal + Repeat(DefaultPv, k)
    && now.base == was.base + Repeat(Base(0.0, 0.0), k)
    && now.isExpand == was.isExpand + Repeat(false, k)
    && now.level == was.level + Repeat(Undefined, k)
  }

  /** Every new node hangs under an old node or an earlier new one, and
      every child list gains exactly the new nodes hung under it, in order. */
  ghost predicate Hung(was: Before, now: Before, ps: seq<Node>)
  {
    var n0, k := |was.parent|, |ps|;
    && (forall i :: 0 <= i < k ==> ps[i] < n0 + i)
    && |was.children| == n0 && |now.children| == n0 + k
    && (forall j :: 0 <= j < n0 + k ==> now.children[j] == (if j < n0 then was.children[j] else []) + Kids(n0, ps, j))
  }

  /** Every old ancestor of `x` (with `x`) gained `k` times 20 PV and no
      other old node gained anything. */
  ghost predicate Credited(was: Before, now: Before, x: Node, k: nat)
    requires Ordered(was.parent) && x < |was.parent|
  {
    var n0 := |was.parent|;
    && |was.group| == n0 && |now.group| == n0 + k
    && (forall j :: 0 <= j < n0 ==>
          now.group[j] == was.group[j] + (if IsAncestorOrSelf(was.parent, j, x) then DefaultPv * k as real else 0.0))
  }

  /** The old nodes outside the tree of `x` kept their counts. */
  ghost predicate Recounted(was: Before, now: Before, x: Node, k: nat)
    requires Ordered(was.parent) && x < |was.parent|
  {
    var n0 := |was.parent|;
    && |was.nodeCount| == n0 && |now.nodeCount| == n0 + k
    && (forall j :: 0 <= j < n0 && !IsAncestorOrSelf(was.parent, Root(was.parent, x), j) ==>
          now.nodeCount[j] == was.nodeCount[j])
  }

  /** `now` is `was` grown by one default ABO per entry of `ps`, all of them
      below `x`, in the order `addMemberNode` attached them: the fields are
      appended as above, the child lists gain the new nodes, the ancestors
      of `x` gain their volume and the nodes outside the tree of `x` keep
      their counts. */
  ghost predicate Grown(was: Before, now: Before, x: Node, stamp: int, ps: seq<Node>, names: seq<string>)
    requires Ordered(was.parent) && x < |was.parent|
  {
    var grown := Appended(was, now, stamp, ps, names) && Hung(was, now, ps) && Credited(was, now, x, |ps|)
      && Recounted(was, now, x, |ps|);
    grown
  }

  /** A listed descendant of `r` has `r` among its ancestors. */
  lemma SubtreeAncestor(parent: seq<Option<Node>>, children: seq<seq<Node>>, r: Node, j: Node)
    requires WellFormed(parent, children) && r < |children| && j in Subtree(children, r)
    ensures IsAncestorOrSelf(parent, r, j)
  {
    if j != r {
      FlattenDescends(parent, children, AllOpen(|children|), children[r], r, j);
      var k :| 0 <= k < |children[r]| && IsAncestorOrSelf(parent, children[r][k], j);
      AncestorTrans(parent, r, children[r][k], j);
    }
  }

  /** Appending by two plans in turn is appending by both. */
  lemma AppendedTrans(s0: Before, s1: Before, s2: Before, stamp: int, stamp1: int,
                      ps: seq<Node>, names: seq<string>, qs: seq<Node>, names2: seq<string>)
    requires stamp1 == stamp + |ps| && Appended(s0, s1, stamp, ps, names) && Appended(s1, s2, stamp1, qs, names2)
    requires |s1.children| == |s1.parent| && |s1.group| == |s1.parent| && |s1.nodeCount| == |s1.parent|
    ensures Appended(s0, s2, stamp, ps + qs, names + names2)
  {
    var k, l := |ps|, |qs|;
    assert Links(ps + qs) == Links(ps) + Links(qs);
    assert NewAbos(stamp, names + names2) == NewAbos(stamp, names) + NewAbos(stamp + |names|, names2);
    assert Repeat(DefaultPv, k + l) == Repeat(DefaultPv, k) + Repeat(DefaultPv, l);
    assert Repeat(Base(0.0, 0.0), k + l) == Repeat(Base(0.0, 0.0), k) + Repeat(Base(0.0, 0.0), l);
    assert Repeat(false, k + l) == Repeat(false, k) + Repeat(false, l);
    assert Repeat(Undefined, k + l) == Repeat(Undefined, k) + Repeat(Undefined, l);
  }

  /** The nodes hung under `j` by two plans in turn. */
  lemma {:induction false} KidsSplit(n0: nat, ps: seq<Node>, qs: seq<Node>, j: Node)
    ensures Kids(n0, ps + qs, j) == Kids(n0, ps, j) + Kids(n0 + |ps|, qs, j)
    decreases |qs|
  {
    if qs == [] {
      assert ps + qs == ps;
    } else {
      var init := qs[..|qs| - 1];
      assert (ps + qs)[..|ps + qs| - 1] == ps + init;
      KidsSplit(n0, ps, init, j);
    }
  }

  /** A plan whose entries all lie before `j` hangs nothing under `j`. */
  lemma {:induction false} KidsBeyond(n0: nat, ps: seq<Node>, j: Node)
    requires forall i :: 0 <= i < |ps| ==> ps[i] < n0 + i
    requires n0 + |ps| <= j
    ensures Kids(n0, ps, j) == []
    decreases |ps|
  {
    if ps != [] {
      KidsBeyond(n0, ps[..|ps| - 1], j);
    }
  }

  /** Hanging `k` nodes under `x` hangs them, in order, under `x` and nothing
      under any other node. */
  lemma {:induction false} KidsRepeat(n0: nat, x: Node, k: nat, j: Node)
    ensures Kids(n0, Repeat(x, k), j) == if j == x then Handles(n0, k) else []
    decreases k
  {
    if k > 0 {
      assert Repeat(x, k)[..k - 1] == Repeat(x, k - 1);
      KidsRepeat(n0, x, k - 1, j);
      assert Handles(n0, k) == Handles(n0, k - 1) + [n0 + k - 1];
    }
  }

  /** Hanging by two plans in turn is hanging by both. */
  lemma HungTrans(s0: Before, s1: Before, s2: Before, ps: seq<Node>, qs: seq<Node>)
    requires Hung(s0, s1, ps) && Hung(s1, s2, qs) && |s1.parent| == |s0.parent| + |ps|
    ensures Hung(s0, s2, ps + qs)
  {
    var n0, n1 := |s0.parent|, |s1.parent|;
    forall i | 0 <= i < |ps + qs|
      ensures (ps + qs)[i] < n0 + i
    {
      if i >= |ps| {
        assert (ps + qs)[i] == qs[i - |ps|];
      }
    }
    forall j | 0 <= j < n1 + |qs|
      ensures s2.children[j] == (if j < n0 then s0.children[j] else []) + Kids(n0, ps + qs, j)
    {
      KidsSplit(n0, ps, qs, j);
      if j < n1 {
        var old0 := if j < n0 then s0.children[j] else [];
        assert s2.children[j] == (old0 + Kids(n0, ps, j)) + Kids(n1, qs, j);
        ConcatAssoc(old0, Kids(n0, ps, j), Kids(n1, qs, j));
      } else {
        KidsBeyond(n0, ps, j);
        assert s2.children[j] == [] + Kids(n1, qs, j);
      }
    }
  }

  /** A node `y` that is `x`, or a new node hung under `x`, has the same old
      ancestors and the same root as `x`. */
  lemma SameTree(parent0: seq<Option<Node>>, parent1: seq<Option<Node>>, x: Node, y: Node)
    requires Ordered(parent0) && Ordered(parent1) && x < |parent0| <= |parent1| && y < |parent1|
    requires forall i :: 0 <= i < |parent0| ==> parent1[i] == parent0[i]
    requires y == x || (|parent0| <= y && parent1[y] == Some(x))
    ensures Root(parent1, y) == Root(parent0, x)
    ensures forall j :: 0 <= j < |parent0| ==> IsAncestorOrSelf(parent1, j, y) == IsAncestorOrSelf(parent0, j, x)
  {
    ChainKept(parent0, parent1, x);
  }

  /** Crediting the ancestors of `x` and then those of `y`, which is `x` or
      a new node hung under `x`, credits the old ancestors of `x` with both. */
  lemma CreditedTrans(s0: Before, s1: Before, s2: Before, x: Node, y: Node, k: nat, l: nat)
    requires Ordered(s0.parent) && Ordered(s1.parent) && x < |s0.parent| <= |s1.parent| && y < |s1.parent|
    requires forall i :: 0 <= i < |s0.parent| ==> s1.parent[i] == s0.parent[i]
    requires y == x || (|s0.parent| <= y && s1.parent[y] == Some(x))
    requires |s1.parent| == |s0.parent| + k && Credited(s0, s1, x, k) && Credited(s1, s2, y, l)
    ensures Credited(s0, s2, x, k + l)
  {
    SameTree(s0.parent, s1.parent, x, y);
  }

  /** The old nodes outside the tree of `x` kept their counts over two
      growths, the second below a node of the same tree. */
  lemma RecountedTrans(s0: Before, s1: Before, s2: Before, x: Node, y: Node, k: nat, l: nat)
    requires Ordered(s0.parent) && Ordered(s1.parent) && x < |s0.parent| <= |s1.parent| && y < |s1.parent|
    requires forall i :: 0 <= i < |s0.parent| ==> s1.parent[i] == s0.parent[i]
    requires y == x || (|s0.parent| <= y && s1.parent[y] == Some(x))
    requires |s1.parent| == |s0.parent| + k && Recounted(s0, s1, x, k) && Recounted(s1, s2, y, l)
    ensures Recounted(s0, s2, x, k + l)
  {
    SameTree(s0.parent, s1.parent, x, y);
    forall j | 0 <= j < |s0.parent| && !IsAncestorOrSelf(s0.parent, Root(s0.parent, x), j)
      ensures s2.nodeCount[j] == s0.nodeCount[j]
    {
      ChainKept(s0.parent, s1.parent, j);
    }
  }

  /** Growing by one plan and then, below `x` or below a new node hung
      under `x`, by another is growing by both in turn. */
  lemma GrownTrans(s0: Before, s1: Before, s2: Before, x: Node, y: Node, stamp: int, stamp1: int,
                   ps: seq<Node>, names: seq<string>, qs: seq<Node>, names2: seq<string>)
    requires Ordered(s0.parent) && Ordered(s1.parent) && x < |s0.parent| && y < |s1.parent|
    requires y == x || (|s0.parent| <= y && s1.parent[y] == Some(x))
    requires stamp1 == stamp + |ps| && Grown(s0, s1, x, stamp, ps, names) && Grown(s1, s2, y, stamp1, qs, names2)
    ensures Grown(s0, s2, x, stamp, ps + qs, names + names2)
  {
    assert |s1.parent| == |s0.parent| + |ps| && forall i :: 0 <= i < |s0.parent| ==> s1.parent[i] == s0.parent[i];
    AppendedTrans(s0, s1, s2, stamp, stamp1, ps, names, qs, names2);
    HungTrans(s0, s1, s2, ps, qs);
    CreditedTrans(s0, s1, s2, x, y, |ps|, |qs|);
    RecountedTrans(s0, s1, s2, x, y, |ps|, |qs|);
  }

  /** Nothing grown: a network is grown from itself by the empty plan. */
  lemma GrownNothing(s0: Before, x: Node, stamp: int, ps: seq<Node>, names: seq<string>)
    requires Ordered(s0.parent) && x < |s0.parent| && ps == [] && names == []
    requires |s0.children| == |s0.parent| && |s0.group| == |s0.parent| && |s0.nodeCount| == |s0.parent|
    ensures Grown(s0, s0, x, stamp, ps, names)
  {
    assert Repeat(DefaultPv, 0) == [] && Repeat(Base(0.0, 0.0), 0) == [] && Repeat(false, 0) == [] && Repeat(Undefined, 0) == [];
    assert s0.parent + Links([]) == s0.parent && s0.member + NewAbos(stamp, []) == s0.member;
    assert s0.personal + [] == s0.personal && s0.base + [] == s0.base;
    assert s0.isExpand + [] == s0.isExpand && s0.level + [] == s0.level;
  }

  /** `now` is `was` after `newMember` made a default ABO called `name`
      with the stamp `stamp`. */
  ghost predicate Made(was: Before, now: Before, stamp: int, name: string)
  {
    var made :=
      && |was.children| == |was.parent| && |was.group| == |was.parent| && |was.nodeCount| == |was.parent|
      && now.parent == was.parent + [None] && now.children == was.children + [[]]
      && now.member == was.member + [Member(Abo, stamp, name, [], NoPin)]
      && now.personal == was.personal + [DefaultPv] && now.group == was.group + [DefaultPv]
      && now.base == was.base + [Base(0.0, 0.0)] && now.isExpand == was.isExpand + [false]
      && now.level == was.level + [Undefined] && now.nodeCount == was.nodeCount + [1];
    made
  }

  /** `now` is `was` after `addMemberNode` hung `c` under `p`: the state
      `AddMemberNode` promises. */
  ghost predicate Attached(was: Before, now: Before, p: Node, c: Node)
  {
    var attached :=
      && p < |was.parent| && c < |was.parent| && Ordered(was.parent)
      && |was.children| == |was.parent| && |was.group| == |was.parent| && |was.nodeCount| == |was.parent|
      && WellFormed(now.parent, now.children) && |now.group| == |now.parent| && |now.nodeCount| == |now.parent|
      && now.parent == was.parent[c := Some(p)] && now.children == was.children[p := was.children[p] + [c]]
      && now.member == was.member && now.personal == was.personal && now.base == was.base
      && now.isExpand == was.isExpand && now.level == was.level
      && (forall j :: 0 <= j < |now.group| ==>
            now.group[j] == was.group[j] + (if IsAncestorOrSelf(was.parent, j, p) then was.group[c] else 0.0))
      && (forall i :: 0 <= i < |now.nodeCount| && i !in Subtree(now.children, Root(now.parent, p)) ==>
            now.nodeCount[i] == was.nodeCount[i]);
    attached
  }

  lemma OneAppended(s0: Before, sm: Before, s1: Before, x: Node, stamp: int, name: string)
    requires Made(s0, sm, stamp, name) && Attached(sm, s1, x, |s0.parent|)
    ensures Appended(s0, s1, stamp, [x], [name])
  {
    assert s1.parent == s0.parent + [Some(x)];
    assert Links([x]) == [Some(x)] && NewAbos(stamp, [name]) == [Member(Abo, stamp, name, [], NoPin)];
    assert Repeat(DefaultPv, 1) == [DefaultPv] && Repeat(Base(0.0, 0.0), 1) == [Base(0.0, 0.0)];
    assert Repeat(false, 1) == [false] && Repeat(Undefined, 1) == [Undefined];
  }

  lemma OneHung(s0: Before, sm: Before, s1: Before, x: Node, stamp: int, name: string)
    requires Made(s0, sm, stamp, name) && Attached(sm, s1, x, |s0.parent|) && x < |s0.parent|
    ensures Hung(s0, s1, [x])
  {
    var n0 := |s0.parent|;
    assert s1.children == s0.children[x := s0.children[x] + [n0]] + [[]];
    forall j | 0 <= j < n0 + 1
      ensures s1.children[j] == (if j < n0 then s0.children[j] else []) + Kids(n0, [x], j)
    {
      assert [x][..0] == [];
    }
  }

  lemma OneCredited(s0: Before, sm: Before, s1: Before, x: Node, stamp: int, name: string)
    requires Made(s0, sm, stamp, name) && Attached(sm, s1, x, |s0.parent|) && x < |s0.parent| && Ordered(s0.parent)
    ensures Credited(s0, s1, x, 1) && s1.group[|s0.parent|] == DefaultPv
  {
    ChainKept(s0.parent, sm.parent, x);
    AncestorsNotAfter(sm.parent, x);
  }

  lemma OneRecounted(s0: Before, sm: Before, s1: Before, x: Node, stamp: int, name: string)
    requires Made(s0, sm, stamp, name) && Attached(sm, s1, x, |s0.parent|) && x < |s0.parent| && Ordered(s0.parent)
    ensures Recounted(s0, s1, x, 1)
  {
    ChainKept(s0.parent, s1.parent, x);
    forall j | 0 <= j < |s0.parent| && !IsAncestorOrSelf(s0.parent, Root(s0.parent, x), j)
      ensures s1.nodeCount[j] == s0.nodeCount[j]
    {
      ChainKept(s0.parent, s1.parent, j);
      if j in Subtree(s1.children, Root(s1.parent, x)) {
        SubtreeAncestor(s1.parent, s1.children, Root(s1.parent, x), j);
      }
    }
  }

  /** `newMember` followed by `addMemberNode` under `x` is a growth by the
      plan `[x]`: `sm` is the network between the two steps. */
  lemma GrownByOne(s0: Before, sm: Before, s1: Before, x: Node, stamp: int, name: string)
    requires Ordered(s0.parent) && x < |s0.parent|
    requires Made(s0, sm, stamp, name) && Attached(sm, s1, x, |s0.parent|)
    ensures Grown(s0, s1, x, stamp, [x], [name])
    ensures |s1.parent| == |s0.parent| + 1 && s1.parent[|s0.parent|] == Some(x) && s1.group[|s0.parent|] == DefaultPv
  {
    OneAppended(s0, sm, s1, x, stamp, name);
    OneHung(s0, sm, s1, x, stamp, name);
    OneCredited(s0, sm, s1, x, stamp, name);
    OneRecounted(s0, sm, s1, x, stamp, name);
  }

  /** A new ABO with the default volume becomes the last child of `x`. */
  method AddNewAbo(net: Network, x: Node, name: string) returns (n: Node)
    requires net.Valid() && x < |net.parent| && net.member[x].kind == Abo && SponsorsUp(net.parent, net.member, x)
    modifies net
    ensures net.Valid() && n == old(|net.parent|) && |net.parent| == n + 1 && net.nextStamp == old(net.nextStamp) + 1
    ensures Grown(old(BeforeOf(net)), BeforeOf(net), x, old(net.nextStamp), [x], [name])
    ensures net.parent[n] == Some(x) && net.member[n].kind == Abo && net.group[n] == DefaultPv
    ensures CountsRight(net, Root(net.parent, x))
    ensures SponsorsUp(net.parent, net.member, x) && SponsorsUp(net.parent, net.member, n)
    ensures old(net.Consistent()) ==> net.Consistent()
    ensures old(net.Sponsored()) ==> net.Sponsored()
  {
    ghost var s0 := BeforeOf(net);
    ghost var stamp := net.nextStamp;
    n := net.NewMember(Abo, name, DefaultPv);
    ghost var sm := BeforeOf(net);
    assert Made(s0, sm, stamp, name);
    SponsorsUpKept(s0.parent, s0.member, net.parent, net.member, x);
    AddMemberNode(net, x, n);
    assert Attached(sm, BeforeOf(net), x, n);
    SponsorsUpAttached(sm.parent, net.parent, net.member, x, n);
    GrownByOne(s0, sm, BeforeOf(net), x, stamp, name);
  }

  /** The turn after the first `i` of `addNetwork`'s loop extends the growth
      by those; every new node still holds the default volume. */
  lemma AbosStep(s0: Before, s1: Before, s2: Before, x: Node, stamp: int, stamp1: int, prefix: string, i: nat)
    requires Ordered(s0.parent) && Ordered(s1.parent) && x < |s0.parent| && stamp1 == stamp + i
    requires Grown(s0, s1, x, stamp, Repeat(x, i), Numbered(prefix, i))
    requires Grown(s1, s2, x, stamp1, [x], [prefix + NatText(i + 1)])
    requires forall j :: |s0.parent| <= j < |s1.parent| ==> s1.group[j] == DefaultPv
    requires s2.group[|s1.parent|] == DefaultPv
    ensures Grown(s0, s2, x, stamp, Repeat(x, i + 1), Numbered(prefix, i + 1))
    ensures forall j :: |s0.parent| <= j < |s2.parent| ==> s2.group[j] == DefaultPv
  {
    GrownTrans(s0, s1, s2, x, x, stamp, stamp1, Repeat(x, i), Numbered(prefix, i), [x], [prefix + NatText(i + 1)]);
    assert Repeat(x, i) + [x] == Repeat(x, i + 1);
    AncestorsNotAfter(s1.parent, x);
  }

  /** The `count` nodes hung under `x` are its last children and leaves. */
  lemma AbosShape(s0: Before, s: Before, x: Node, stamp: int, prefix: string, count: nat)
    requires Ordered(s0.parent) && x < |s0.parent| && Grown(s0, s, x, stamp, Repeat(x, count), Numbered(prefix, count))
    ensures s.children[x] == s0.children[x] + Handles(|s0.parent|, count)
    ensures forall j :: |s0.parent| <= j < |s.children| ==> s.children[j] == []
  {
    forall j | 0 <= j < |s.children|
      ensures Kids(|s0.parent|, Repeat(x, count), j) == if j == x then Handles(|s0.parent|, count) else []
    {
      KidsRepeat(|s0.parent|, x, count, j);
    }
  }

  /** The loop of `addNetwork3` and `addNetwork6` (and the inner loops of
      the larger ones): `count` new default ABOs named `prefix` followed by
      1, 2, ... become the last children of `x`, each pushing its volume up
      the chain; the tree of `x` is recounted. */
  method AddAbos(net: Network, x: Node, prefix: string, count: nat)
    requires net.Valid() && x < |net.parent| && net.member[x].kind == Abo && SponsorsUp(net.parent, net.member, x)
    modifies net
    ensures net.Valid() && net.nextStamp == old(net.nextStamp) + count
    ensures Grown(old(BeforeOf(net)), BeforeOf(net), x, old(net.nextStamp), Repeat(x, count), Numbered(prefix, count))
    ensures net.children[x] == old(net.children[x]) + Handles(old(|net.parent|), count)
    ensures forall j :: old(|net.parent|) <= j < |net.parent| ==> net.children[j] == [] && net.group[j] == DefaultPv
    ensures count > 0 ==> CountsRight(net, Root(net.parent, x))
    ensures count == 0 ==> unchanged(net)
    ensures SponsorsUp(net.parent, net.member, x)
    ensures old(net.Consistent()) ==> net.Consistent()
    ensures old(net.Sponsored()) ==> net.Sponsored()
  {
    ghost var s0 := BeforeOf(net);
    ghost var stamp0 := net.nextStamp;
    ghost var wasConsistent, wasSponsored := net.Consistent(), net.Sponsored();
    GrownNothing(s0, x, stamp0, Repeat(x, 0), Numbered(prefix, 0));
    if count == 0 {
      // `for (i in 1..count)` runs no turn
      AbosShape(s0, s0, x, stamp0, prefix, 0);
      return;
    }
    var i := 0;
    while i < count
      invariant 0 <= i <= count && AbosSoFar(net, s0, x, stamp0, prefix, i, wasConsistent, wasSponsored)
    {
      AddNumberedAbo(net, x, prefix, i, s0, stamp0, wasConsistent, wasSponsored);
      i := i + 1;
    }
    AbosDone(net, s0, x, stamp0, prefix, count, wasConsistent, wasSponsored);
  }

  /** What `addNetwork`'s loop leaves once all `count` turns are done. */
  lemma AbosDone(net: Network, s0: Before, x: Node, stamp0: int, prefix: string, count: nat,
                 wasConsistent: bool, wasSponsored: bool)
    requires AbosSoFar(net, s0, x, stamp0, prefix, count, wasConsistent, wasSponsored)
    ensures net.Valid() && net.nextStamp == stamp0 + count
    ensures Grown(s0, BeforeOf(net), x, stamp0, Repeat(x, count), Numbered(prefix, count))
    ensures net.children[x] == s0.children[x] + Handles(|s0.parent|, count)
    ensures forall j :: |s0.parent| <= j < |net.parent| ==> net.children[j] == [] && net.group[j] == DefaultPv
    ensures count > 0 ==> CountsRight(net, Root(net.parent, x))
    ensures SponsorsUp(net.parent, net.member, x)
    ensures wasConsistent ==> net.Consistent()
    ensures wasSponsored ==> net.Sponsored()
  {
    AbosShape(s0, BeforeOf(net), x, stamp0, prefix, count);
  }

  /** What `addNetwork`'s loop keeps after its first `i` turns under `x`:
      the growth by those, each new node holding the default volume, the
      counts of the tree right once something was added, and the health of
      the network. */
  ghost predicate AbosSoFar(net: Network, s0: Before, x: Node, stamp0: int, prefix: string, i: nat,
                            wasConsistent: bool, wasSponsored: bool)
    reads net
  {
    var ok :=
      && net.Valid() && Ordered(s0.parent) && x < |s0.parent| && net.nextStamp == stamp0 + i
      && Grown(s0, BeforeOf(net), x, stamp0, Repeat(x, i), Numbered(prefix, i))
      && (forall j :: |s0.parent| <= j < |net.parent| ==> net.group[j] == DefaultPv)
      && (i > 0 ==> CountsRight(net, Root(net.parent, x)))
      && net.member[x].kind == Abo && SponsorsUp(net.parent, net.member, x)
      && (wasConsistent ==> net.Consistent()) && (wasSponsored ==> net.Sponsored());
    ok
  }

  /** One turn of `addNetwork`'s loop after the first `i`: the new ABO
      numbered `i + 1` under `x`. */
  method AddNumberedAbo(net: Network, x: Node, prefix: string, i: nat, ghost s0: Before,
                        ghost stamp0: int, ghost wasConsistent: bool, ghost wasSponsored: bool)
    requires AbosSoFar(net, s0, x, stamp0, prefix, i, wasConsistent, wasSponsored)
    modifies net
    ensures AbosSoFar(net, s0, x, stamp0, prefix, i + 1, wasConsistent, wasSponsored)
  {
    ghost var s1, stamp1 := BeforeOf(net), net.nextStamp;
    var n := AddNewAbo(net, x, prefix + NatText(i + 1));
    AbosStep(s0, s1, BeforeOf(net), x, stamp0, stamp1, prefix, i);
  }

  /** The plan of one branch: its head under `x`, then `sub` nodes under the
      head, which is the node `a`. */
  function BranchPlan(x: Node, a: Node, sub: nat): (r: seq<Node>)
    ensures |r| == 1 + sub && r[0] == x && forall i :: 1 <= i <= sub ==> r[i] == a
  {
    [x] + Repeat(a, sub)
  }

  /** A head under `x` and then `sub` nodes under the head make one branch;
      the nodes above the head still step up on ABOs. */
  lemma BranchGrown(s0: Before, s1: Before, s2: Before, x: Node, a: Node, stamp: int, stamp1: int,
                    name: string, subPrefix: string, sub: nat)
    requires Ordered(s0.parent) && Ordered(s1.parent) && x < |s0.parent| && a == |s0.parent| && stamp1 == stamp + 1
    requires Grown(s0, s1, x, stamp, [x], [name])
    requires a < |s1.parent| && Grown(s1, s2, a, stamp1, Repeat(a, sub), Numbered(subPrefix, sub))
    requires |s1.member| == |s1.parent| && SponsorsUp(s1.parent, s1.member, x)
    ensures Grown(s0, s2, x, stamp, BranchPlan(x, |s0.parent|, sub), [name] + Numbered(subPrefix, sub))
    ensures s2.member[x] == s0.member[x] && SponsorsUp(s2.parent, s2.member, x)
  {
    assert s1.parent[a] == Links([x])[0];
    GrownTrans(s0, s1, s2, x, a, stamp, stamp1, [x], [name], Repeat(a, sub), Numbered(subPrefix, sub));
    assert Ordered(s2.parent);
    SponsorsUpKept(s1.parent, s1.member, s2.parent, s2.member, x);
  }

  /** One branch: a new default ABO named `name` under `x`, and under it
      `subCount` more named `subPrefix` followed by their number. */
  method AddBranch(net: Network, x: Node, name: string, subPrefix: string, subCount: nat)
    requires net.Valid() && x < |net.parent| && net.member[x].kind == Abo && SponsorsUp(net.parent, net.member, x)
    modifies net
    ensures net.Valid() && net.nextStamp == old(net.nextStamp) + 1 + subCount
    ensures Grown(old(BeforeOf(net)), BeforeOf(net), x, old(net.nextStamp),
                  BranchPlan(x, old(|net.parent|), subCount), [name] + Numbered(subPrefix, subCount))
    ensures CountsRight(net, Root(net.parent, x))
    ensures net.member[x] == old(net.member[x]) && SponsorsUp(net.parent, net.member, x)
    ensures old(net.Consistent()) ==> net.Consistent()
    ensures old(net.Sponsored()) ==> net.Sponsored()
  {
    ghost var s0, stamp0 := BeforeOf(net), net.nextStamp;
    var a := AddNewAbo(net, x, name);
    ghost var s1, stamp1 := BeforeOf(net), net.nextStamp;
    AddAbos(net, a, subPrefix, subCount);
    BranchGrown(s0, s1, BeforeOf(net), x, a, stamp0, stamp1, name, subPrefix, subCount);
  }

  /** `count` blocks of `width`, counted block by block. */
  function Blocks(count: nat, width: nat): nat
  {
    if count == 0 then 0 else Blocks(count - 1, width) + width
  }

  /** `count` blocks of `width` are `count * width` in all. */
  lemma {:induction false} BlocksProduct(count: nat, width: nat)
    ensures Blocks(count, width) == count * width
  {
    if count > 0 {
      BlocksProduct(count - 1, width);
    }
  }

  /** The plan of `count` branches under `x` grown from the handle `n0` on:
      the `i`-th branch head hangs under `x`, and the `sub` nodes after it
      under that head. */
  function TwoLevelPlan(x: Node, n0: nat, count: nat, sub: nat): (r: seq<Node>)
    ensures |r| == Blocks(count, 1 + sub)
  {
    if count == 0 then []
    else
      var done := TwoLevelPlan(x, n0, count - 1, sub);
      done + BranchPlan(x, n0 + |done|, sub)
  }

  /** The names of the plan above: the `i`-th head is `prefix` followed by
      `i`, and its nodes `subPrefix` followed by `i` and their own number. */
  function TwoLevelNames(prefix: string, subPrefix: string, count: nat, sub: nat): (r: seq<string>)
    ensures |r| == Blocks(count, 1 + sub)
  {
    if count == 0 then []
    else TwoLevelNames(prefix, subPrefix, count - 1, sub) + ([prefix + NatText(count)] + Numbered(subPrefix + NatText(count), sub))
  }

  /** The branch after the first `i` extends the growth by those. */
  lemma TwoLevelsStep(s0: Before, s1: Before, s2: Before, x: Node, stamp: int, stamp1: int,
                      prefix: string, subPrefix: string, i: nat, sub: nat)
    requires Ordered(s0.parent) && Ordered(s1.parent) && x < |s0.parent|
    requires stamp1 == stamp + |TwoLevelPlan(x, |s0.parent|, i, sub)|
    requires Grown(s0, s1, x, stamp, TwoLevelPlan(x, |s0.parent|, i, sub), TwoLevelNames(prefix, subPrefix, i, sub))
    requires Grown(s1, s2, x, stamp1, BranchPlan(x, |s1.parent|, sub),
                   [prefix + NatText(i + 1)] + Numbered(subPrefix + NatText(i + 1), sub))
    ensures Grown(s0, s2, x, stamp, TwoLevelPlan(x, |s0.parent|, i + 1, sub), TwoLevelNames(prefix, subPrefix, i + 1, sub))
    ensures |TwoLevelPlan(x, |s0.parent|, i + 1, sub)| == |TwoLevelPlan(x, |s0.parent|, i, sub)| + 1 + sub
  {
    assert |s1.parent| == |s0.parent| + |TwoLevelPlan(x, |s0.parent|, i, sub)|;
    assert TwoLevelPlan(x, |s0.parent|, i + 1, sub) == TwoLevelPlan(x, |s0.parent|, i, sub) + BranchPlan(x, |s1.parent|, sub);
    assert TwoLevelNames(prefix, subPrefix, i + 1, sub)
        == TwoLevelNames(prefix, subPrefix, i, sub) + ([prefix + NatText(i + 1)] + Numbered(subPrefix + NatText(i + 1), sub));
    GrownTrans(s0, s1, s2, x, x, stamp, stamp1, TwoLevelPlan(x, |s0.parent|, i, sub), TwoLevelNames(prefix, subPrefix, i, sub),
               BranchPlan(x, |s1.parent|, sub), [prefix + NatText(i + 1)] + Numbered(subPrefix + NatText(i + 1), sub));
  }

  /** What the outer loop of `addNetwork64` keeps after its first `i`
      turns under `x`: the growth by those branches, the counts of the tree
      right once something was added, and the health of the network. */
  ghost predicate BranchesSoFar(net: Network, s0: Before, x: Node, stamp0: int, prefix: string, subPrefix: string,
                                i: nat, sub: nat, wasConsistent: bool, wasSponsored: bool)
    reads net
  {
    var ok :=
      && net.Valid() && Ordered(s0.parent) && x < |s0.parent|
      && net.nextStamp == stamp0 + |TwoLevelPlan(x, |s0.parent|, i, sub)|
      && Grown(s0, BeforeOf(net), x, stamp0, TwoLevelPlan(x, |s0.parent|, i, sub), TwoLevelNames(prefix, subPrefix, i, sub))
      && (i > 0 ==> CountsRight(net, Root(net.parent, x)))
      && net.member[x].kind == Abo && SponsorsUp(net.parent, net.member, x)
      && (wasConsistent ==> net.Consistent()) && (wasSponsored ==> net.Sponsored());
    ok
  }

  /** One turn of the outer loop of `addNetwork64` after the first `i`: the
      branch numbered `i + 1` under `x`. */
  method AddNumberedBranch(net: Network, x: Node, prefix: string, subPrefix: string, i: nat, sub: nat, ghost s0: Before,
                           ghost stamp0: int, ghost wasConsistent: bool, ghost wasSponsored: bool)
    requires BranchesSoFar(net, s0, x, stamp0, prefix, subPrefix, i, sub, wasConsistent, wasSponsored)
    modifies net
    ensures BranchesSoFar(net, s0, x, stamp0, prefix, subPrefix, i + 1, sub, wasConsistent, wasSponsored)
  {
    ghost var s1, stamp1 := BeforeOf(net), net.nextStamp;
    AddBranch(net, x, prefix + NatText(i + 1), subPrefix + NatText(i + 1), sub);
    TwoLevelsStep(s0, s1, BeforeOf(net), x, stamp0, stamp1, prefix, subPrefix, i, sub);
  }

  /** The body of the outer loop of `addNetwork64` (and of the middle loop
      of `addNetwork642`): `count` branches under `x`, the `i`-th named
      `prefix` followed by `i`, its own downline `subPrefix` followed by `i`. */
  method AddTwoLevels(net: Network, x: Node, prefix: string, subPrefix: string, count: nat, subCount: nat)
    requires net.Valid() && x < |net.parent| && net.member[x].kind == Abo && SponsorsUp(net.parent, net.member, x)
    modifies net
    ensures net.Valid() && net.nextStamp == old(net.nextStamp) + count * (1 + subCount)
    ensures |net.parent| == old(|net.parent|) + count * (1 + subCount)
    ensures Grown(old(BeforeOf(net)), BeforeOf(net), x, old(net.nextStamp),
                  TwoLevelPlan(x, old(|net.parent|), count, subCount), TwoLevelNames(prefix, subPrefix, count, subCount))
    ensures count > 0 ==> CountsRight(net, Root(net.parent, x))
    ensures SponsorsUp(net.parent, net.member, x)
    ensures old(net.Consistent()) ==> net.Consistent()
    ensures old(net.Sponsored()) ==> net.Sponsored()
  {
    ghost var s0, stamp0 := BeforeOf(net), net.nextStamp;
    ghost var n0 := |net.parent|;
    ghost var wasConsistent, wasSponsored := net.Consistent(), net.Sponsored();
    GrownNothing(s0, x, stamp0, TwoLevelPlan(x, n0, 0, subCount), TwoLevelNames(prefix, subPrefix, 0, subCount));
    var i := 0;
    while i < count
      invariant 0 <= i <= count && BranchesSoFar(net, s0, x, stamp0, prefix, subPrefix, i, subCount, wasConsistent, wasSponsored)
    {
      AddNumberedBranch(net, x, prefix, subPrefix, i, subCount, s0, stamp0, wasConsistent, wasSponsored);
      i := i + 1;
    }
    BranchesDone(net, s0, x, stamp0, prefix, subPrefix, count, subCount, wasConsistent, wasSponsored);
  }

  /** What the outer loop of `addNetwork64` leaves once all `count` turns
      are done: `count` blocks of `1 + sub` new nodes. */
  lemma BranchesDone(net: Network, s0: Before, x: Node, stamp0: int, prefix: string, subPrefix: string,
                     count: nat, sub: nat, wasConsistent: bool, wasSponsored: bool)
    requires BranchesSoFar(net, s0, x, stamp0, prefix, subPrefix, count, sub, wasConsistent, wasSponsored)
    ensures net.Valid() && net.nextStamp == stamp0 + count * (1 + sub)
    ensures |net.parent| == |s0.parent| + count * (1 + sub)
    ensures Grown(s0, BeforeOf(net), x, stamp0, TwoLevelPlan(x, |s0.parent|, count, sub), TwoLevelNames(prefix, subPrefix, count, sub))
    ensures count > 0 ==> CountsRight(net, Root(net.parent, x))
    ensures SponsorsUp(net.parent, net.member, x)
    ensures wasConsistent ==> net.Consistent()
    ensures wasSponsored ==> net.Sponsored()
  {
    BlocksProduct(count, 1 + sub);
  }

  /** After default ABOs were added the book is still readable: the old
      ABOs only gained volume and the new ones hold the default volume. */
  lemma AbosOk(s0: Before, s: Before, x: Node, stamp: int, ps: seq<Node>, names: seq<string>)
    requires Ordered(s0.parent) && x < |s0.parent| && Grown(s0, s, x, stamp, ps, names)
    requires Ok(Book(s0.children, s0.member, s0.personal, s0.group)) && Downward(s.children)
    requires forall j :: |s0.parent| <= j < |s.parent| ==> s.group[j] == DefaultPv
    ensures Ok(Book(s.children, s.member, s.personal, s.group))
  {
    var n0 := |s0.parent|;
    forall j | 0 <= j < |s.children| && s.member[j].kind == Abo
      ensures s.group[j] >= -0.1
    {
      if j < n0 {
        assert s.member[j] == s0.member[j];
      }
    }
  }

  /** A node with only new default ABOs below it has no independent
      partner: none of them reaches the top rate. */
  lemma NoIndependentPartners(b: Book, x: Node, n0: nat, k: nat)
    requires Ok(b) && x < |b.children| && b.children[x] == Handles(n0, k) && n0 + k <= |b.children|
    requires forall j :: n0 <= j < n0 + k ==> b.group[j] == DefaultPv
    ensures IndependentPartners(b, x) == []
  {
    var cs := b.children[x];
    forall k | 0 <= k < |cs|
      ensures !IsIndependent(b, cs[k])
    {
      assert b.group[cs[k]] == DefaultPv;
    }
    NoneIndependent(b, cs);
  }

  /** A list none of whose members is independent has no independent member. */
  lemma {:induction false} NoneIndependent(b: Book, cs: seq<Node>)
    requires Ok(b) && Nodes(b, cs) && forall k :: 0 <= k < |cs| ==> !IsIndependent(b, cs[k])
    ensures IndependentIn(b, cs) == []
  {
    if cs != [] {
      NoneIndependent(b, cs[..|cs| - 1]);
    }
  }

  /** `addNetwork3`: three default ABOs `A-1` .. `A-3` under `x`. */
  method AddNetwork3(net: Network, x: Node)
    requires net.Valid() && x < |net.parent| && net.member[x].kind == Abo && SponsorsUp(net.parent, net.member, x)
    modifies net
    ensures net.Valid() && net.nextStamp == old(net.nextStamp) + 3
    ensures Grown(old(BeforeOf(net)), BeforeOf(net), x, old(net.nextStamp), Repeat(x, 3), Numbered("A-", 3))
    ensures net.children[x] == old(net.children[x]) + Handles(old(|net.parent|), 3)
    ensures forall j :: old(|net.parent|) <= j < |net.parent| ==> net.children[j] == [] && net.group[j] == DefaultPv
    ensures CountsRight(net, Root(net.parent, x))
    ensures old(net.Consistent()) ==> net.Consistent()
    ensures old(net.Sponsored()) ==> net.Sponsored()
  {
    AddAbos(net, x, "A-", 3);
  }

  /** `addNetwork6`: six default ABOs `A-1` .. `A-6` under `x`, the first
      step of the 6-4-2 plan. Starting from a leaf, `x` then has no
      independent partner. */
  method AddNetwork6(net: Network, x: Node)
    requires net.Valid() && x < |net.parent| && net.member[x].kind == Abo && SponsorsUp(net.parent, net.member, x)
    modifies net
    ensures net.Valid() && net.nextStamp == old(net.nextStamp) + 6
    ensures Grown(old(BeforeOf(net)), BeforeOf(net), x, old(net.nextStamp), Repeat(x, 6), Numbered("A-", 6))
    ensures net.children[x] == old(net.children[x]) + Handles(old(|net.parent|), 6)
    ensures forall j :: old(|net.parent|) <= j < |net.parent| ==> net.children[j] == [] && net.group[j] == DefaultPv
    ensures CountsRight(net, Root(net.parent, x))
    ensures old(Ok(Snapshot(net))) ==> Ok(Snapshot(net))
    ensures old(Ok(Snapshot(net))) && old(net.children[x]) == [] ==> IndependentPartners(Snapshot(net), x) == []
    ensures old(net.Consistent()) ==> net.Consistent()
    ensures old(net.Sponsored()) ==> net.Sponsored()
  {
    ghost var s0, stamp0 := BeforeOf(net), net.nextStamp;
    ghost var n0 := |net.parent|;
    AddAbos(net, x, "A-", 6);
    if Ok(Book(s0.children, s0.member, s0.personal, s0.group)) {
      AbosOk(s0, BeforeOf(net), x, stamp0, Repeat(x, 6), Numbered("A-", 6));
      if s0.children[x] == [] {
        assert net.children[x] == Handles(n0, 6);
        NoIndependentPartners(Snapshot(net), x, n0, 6);
      }
    }
  }

  /** `addNetwork64`: six ABOs `A-i` under `x`, each with four ABOs
      `B-ij` under it, 30 members in all. */
  method AddNetwork64(net: Network, x: Node)
    requires net.Valid() && x < |net.parent| && net.member[x].kind == Abo && SponsorsUp(net.parent, net.member, x)
    modifies net
    ensures net.Valid() && net.nextStamp == old(net.nextStamp) + 30 && |net.parent| == old(|net.parent|) + 30
    ensures Grown(old(BeforeOf(net)), BeforeOf(net), x, old(net.nextStamp),
                  TwoLevelPlan(x, old(|net.parent|), 6, 4), TwoLevelNames("A-", "B-", 6, 4))
    ensures CountsRight(net, Root(net.parent, x))
    ensures old(net.Consistent()) ==> net.Consistent()
    ensures old(net.Sponsored()) ==> net.Sponsored()
  {
    AddTwoLevels(net, x, "A-", "B-", 6, 4);
  }

  /** The plan of one branch of `addNetwork642`: its head `a` under `x`,
      then four branches of two under the head. */
  function DeepBranchPlan(x: Node, a: Node): (r: seq<Node>)
    ensures |r| == 13 && r[0] == x
  {
    BlocksProduct(4, 3);
    [x] + TwoLevelPlan(a, a + 1, 4, 2)
  }

  /** The plan of `addNetwork642` grown from the handle `n0` on: `count`
      branches of 13 nodes under `x`. */
  function DeepPlan(x: Node, n0: nat, count: nat): (r: seq<Node>)
    ensures |r| == 13 * count
  {
    if count == 0 then [] else DeepPlan(x, n0, count - 1) + DeepBranchPlan(x, n0 + 13 * (count - 1))
  }

  /** The names of `addNetwork642`: `A-i`, then `B-ij` and `C-ijk` below. */
  function DeepNames(count: nat): (r: seq<string>)
    ensures |r| == 13 * count
  {
    BlocksProduct(4, 3);
    if count == 0 then []
    else DeepNames(count - 1) + (["A-" + NatText(count)] + TwoLevelNames("B-" + NatText(count), "C-" + NatText(count), 4, 2))
  }

  /** A head under `x` and then its two levels make one deep branch; the
      nodes above the head still step up on ABOs. */
  lemma DeepBranchGrown(s0: Before, s1: Before, s2: Before, x: Node, a: Node, stamp: int, stamp1: int, i: nat)
    requires Ordered(s0.parent) && Ordered(s1.parent) && x < |s0.parent| && a == |s0.parent| && stamp1 == stamp + 1
    requires Grown(s0, s1, x, stamp, [x], ["A-" + NatText(i)])
    requires a < |s1.parent| && Grown(s1, s2, a, stamp1, TwoLevelPlan(a, |s1.parent|, 4, 2),
                                      TwoLevelNames("B-" + NatText(i), "C-" + NatText(i), 4, 2))
    requires |s1.member| == |s1.parent| && SponsorsUp(s1.parent, s1.member, x)
    ensures Grown(s0, s2, x, stamp, DeepBranchPlan(x, |s0.parent|),
                  ["A-" + NatText(i)] + TwoLevelNames("B-" + NatText(i), "C-" + NatText(i), 4, 2))
    ensures s2.member[x] == s0.member[x] && SponsorsUp(s2.parent, s2.member, x)
  {
    assert s1.parent[a] == Links([x])[0] && |s1.parent| == a + 1;
    assert DeepBranchPlan(x, |s0.parent|) == [x] + TwoLevelPlan(a, |s1.parent|, 4, 2);
    GrownTrans(s0, s1, s2, x, a, stamp, stamp1, [x], ["A-" + NatText(i)],
               TwoLevelPlan(a, |s1.parent|, 4, 2), TwoLevelNames("B-" + NatText(i), "C-" + NatText(i), 4, 2));
    assert Ordered(s2.parent);
    SponsorsUpKept(s1.parent, s1.member, s2.parent, s2.member, x);
  }

  /** One branch of `addNetwork642`: the ABO `A-i` under `x`, four ABOs
      `B-ij` under it and two ABOs `C-ijk` under each of those. */
  method AddDeepBranch(net: Network, x: Node, i: nat)
    requires net.Valid() && x < |net.parent| && net.member[x].kind == Abo && SponsorsUp(net.parent, net.member, x)
    modifies net
    ensures net.Valid() && net.nextStamp == old(net.nextStamp) + 13
    ensures Grown(old(BeforeOf(net)), BeforeOf(net), x, old(net.nextStamp), DeepBranchPlan(x, old(|net.parent|)),
                  ["A-" + NatText(i)] + TwoLevelNames("B-" + NatText(i), "C-" + NatText(i), 4, 2))
    ensures CountsRight(net, Root(net.parent, x))
    ensures net.member[x] == old(net.member[x]) && SponsorsUp(net.parent, net.member, x)
    ensures old(net.Consistent()) ==> net.Consistent()
    ensures old(net.Sponsored()) ==> net.Sponsored()
  {
    ghost var s0, stamp0 := BeforeOf(net), net.nextStamp;
    var a := AddNewAbo(net, x, "A-" + NatText(i));
    ghost var s1, stamp1 := BeforeOf(net), net.nextStamp;
    AddTwoLevels(net, a, "B-" + NatText(i), "C-" + NatText(i), 4, 2);
    DeepBranchGrown(s0, s1, BeforeOf(net), x, a, stamp0, stamp1, i);
  }

  /** The deep branch after the first `i` extends the growth by those. */
  lemma DeepStep(s0: Before, s1: Before, s2: Before, x: Node, stamp: int, stamp1: int, i: nat)
    requires Ordered(s0.parent) && Ordered(s1.parent) && x < |s0.parent|
    requires stamp1 == stamp + |DeepPlan(x, |s0.parent|, i)|
    requires Grown(s0, s1, x, stamp, DeepPlan(x, |s0.parent|, i), DeepNames(i))
    requires Grown(s1, s2, x, stamp1, DeepBranchPlan(x, |s1.parent|),
                   ["A-" + NatText(i + 1)] + TwoLevelNames("B-" + NatText(i + 1), "C-" + NatText(i + 1), 4, 2))
    ensures Grown(s0, s2, x, stamp, DeepPlan(x, |s0.parent|, i + 1), DeepNames(i + 1))
    ensures |DeepPlan(x, |s0.parent|, i + 1)| == |DeepPlan(x, |s0.parent|, i)| + 13
  {
    assert |s1.parent| == |s0.parent| + 13 * i;
    assert DeepPlan(x, |s0.parent|, i + 1) == DeepPlan(x, |s0.parent|, i) + DeepBranchPlan(x, |s1.parent|);
    assert DeepNames(i + 1) == DeepNames(i) + (["A-" + NatText(i + 1)] + TwoLevelNames("B-" + NatText(i + 1), "C-" + NatText(i + 1), 4, 2));
    GrownTrans(s0, s1, s2, x, x, stamp, stamp1, DeepPlan(x, |s0.parent|, i), DeepNames(i),
               DeepBranchPlan(x, |s1.parent|), ["A-" + NatText(i + 1)] + TwoLevelNames("B-" + NatText(i + 1), "C-" + NatText(i + 1), 4, 2));
  }

  /** What the outer loop of `addNetwork642` keeps after its first `i`
      turns under `x`: the growth by those deep branches, the counts of the
      tree right once something was added, and the health of the network. */
  ghost predicate DeepSoFar(net: Network, s0: Before, x: Node, stamp0: int, i: nat, wasConsistent: bool, wasSponsored: bool)
    reads net
  {
    var ok :=
      && net.Valid() && Ordered(s0.parent) && x < |s0.parent| && net.nextStamp == stamp0 + |DeepPlan(x, |s0.parent|, i)|
      && Grown(s0, BeforeOf(net), x, stamp0, DeepPlan(x, |s0.parent|, i), DeepNames(i))
      && (i > 0 ==> CountsRight(net, Root(net.parent, x)))
      && net.member[x].kind == Abo && SponsorsUp(net.parent, net.member, x)
      && (wasConsistent ==> net.Consistent()) && (wasSponsored ==> net.Sponsored());
    ok
  }

  /** One turn of the outer loop of `addNetwork642` after the first `i`:
      the deep branch `A-(i + 1)` under `x`. */
  method AddNumberedDeepBranch(net: Network, x: Node, i: nat, ghost s0: Before, ghost stamp0: int,
                               ghost wasConsistent: bool, ghost wasSponsored: bool)
    requires DeepSoFar(net, s0, x, stamp0, i, wasConsistent, wasSponsored)
    modifies net
    ensures DeepSoFar(net, s0, x, stamp0, i + 1, wasConsistent, wasSponsored)
  {
    ghost var s1, stamp1 := BeforeOf(net), net.nextStamp;
    AddDeepBranch(net, x, i + 1);
    DeepStep(s0, s1, BeforeOf(net), x, stamp0, stamp1, i);
  }

  /** `addNetwork642`: the whole 6-4-2 plan under `x`, 78 members; every
      ancestor of `x` (with `x`) gains 1560 PV. */
  method AddNetwork642(net: Network, x: Node)
    requires net.Valid() && x < |net.parent| && net.member[x].kind == Abo && SponsorsUp(net.parent, net.member, x)
    modifies net
    ensures net.Valid() && net.nextStamp == old(net.nextStamp) + 78 && |net.parent| == old(|net.parent|) + 78
    ensures Grown(old(BeforeOf(net)), BeforeOf(net), x, old(net.nextStamp), DeepPlan(x, old(|net.parent|), 6), DeepNames(6))
    ensures CountsRight(net, Root(net.parent, x))
    ensures old(net.Consistent()) ==> net.Consistent()
    ensures old(net.Sponsored()) ==> net.Sponsored()
  {
    ghost var s0, stamp0 := BeforeOf(net), net.nextStamp;
    ghost var n0 := |net.parent|;
    ghost var wasConsistent, wasSponsored := net.Consistent(), net.Sponsored();
    GrownNothing(s0, x, stamp0, DeepPlan(x, n0, 0), DeepNames(0));
    var i := 0;
    while i < 6
      invariant 0 <= i <= 6 && DeepSoFar(net, s0, x, stamp0, i, wasConsistent, wasSponsored)
    {
      AddNumberedDeepBranch(net, x, i, s0, stamp0, wasConsistent, wasSponsored);
      i := i + 1;
    }
  }

  /** The 6-4-2 plan adds 1560 PV to the group of every ancestor of its
      root: 78 members of 20 PV each. */
  lemma Network642Volume(s0: Before, s: Before, x: Node, stamp: int)
    requires Ordered(s0.parent) && x < |s0.parent|
    requires Grown(s0, s, x, stamp, DeepPlan(x, |s0.parent|, 6), DeepNames(6))
    ensures forall j :: 0 <= j < |s0.parent| && IsAncestorOrSelf(s0.parent, j, x) ==> s.group[j] == s0.group[j] + 1560.0
  {
  }

  /** The network after the first `i` nodes of `cs` were attached under
      `p`: they are `p`'s last children, their parent is `p`, and every
      ancestor of `p` (with `p`) gained their group volumes. */
  ghost predicate AttachedUpTo(parent0: seq<Option<Node>>, children0: seq<seq<Node>>, group0: seq<real>,
                               parent: seq<Option<Node>>, children: seq<seq<Node>>, group: seq<real>,
                               p: Node, cs: seq<Node>, i: nat)
    requires Ordered(parent0) && p < |parent0| == |children0| == |group0| && i <= |cs|
    requires forall k :: 0 <= k < |cs| ==> cs[k] < |parent0|
  {
    && |parent| == |parent0| && |group| == |parent0|
    && children == children0[p := children0[p] + cs[..i]]
    && (forall j :: 0 <= j < |parent| ==> parent[j] == if j in cs[..i] then Some(p) else parent0[j])
    && (forall j :: 0 <= j < |group| ==>
          group[j] == group0[j] + (if IsAncestorOrSelf(parent0, j, p) then SumOver(group0, cs[..i]) else 0.0))
  }

  /** `addMemberNodes`: `addMemberNode` for each node of `cs` in turn. */
  method AddMemberNodes(net: Network, p: Node, cs: seq<Node>)
    requires net.Valid() && p < |net.parent| && net.member[p].kind == Abo && SponsorsUp(net.parent, net.member, p)
    requires forall k :: 0 <= k < |cs| ==> p < cs[k] < |net.parent| && net.parent[cs[k]].None?
    requires forall k, l :: 0 <= k < l < |cs| ==> cs[k] != cs[l]
    modifies net`parent, net`children, net`group, net`nodeCount
    ensures net.Valid()
    ensures AttachedUpTo(old(net.parent), old(net.children), old(net.group), net.parent, net.children, net.group, p, cs, |cs|)
    ensures net.children == old(net.children)[p := old(net.children[p]) + cs]
    ensures old(net.Consistent()) ==> net.Consistent()
    ensures old(net.Sponsored()) ==> net.Sponsored()
  {
    ghost var parent0, children0, group0 := net.parent, net.children, net.group;
    ghost var wasConsistent, wasSponsored := net.Consistent(), net.Sponsored();
    AttachingStart(net, p, cs);
    var i := 0;
    while i < |cs|
      invariant 0 <= i <= |cs| && Attaching(net, p, cs, i, parent0, children0, group0, wasConsistent, wasSponsored)
    {
      AttachNext(net, p, cs, i, parent0, children0, group0, wasConsistent, wasSponsored);
      i := i + 1;
    }
    AttachingDone(net, p, cs, parent0, children0, group0, wasConsistent, wasSponsored);
  }

  /** Before the first turn of `addMemberNodes` nothing is attached yet. */
  lemma AttachingStart(net: Network, p: Node, cs: seq<Node>)
    requires net.Valid() && p < |net.parent| && net.member[p].kind == Abo && SponsorsUp(net.parent, net.member, p)
    requires forall k :: 0 <= k < |cs| ==> p < cs[k] < |net.parent| && net.parent[cs[k]].None?
    requires forall k, l :: 0 <= k < l < |cs| ==> cs[k] != cs[l]
    ensures Attaching(net, p, cs, 0, net.parent, net.children, net.group, net.Consistent(), net.Sponsored())
  {
    assert cs[..0] == [] && net.children[p] + [] == net.children[p];
    assert net.children[p := net.children[p] + cs[..0]] == net.children;
  }

  /** After the last turn of `addMemberNodes` all of `cs` is attached. */
  lemma AttachingDone(net: Network, p: Node, cs: seq<Node>,
                      parent0: seq<Option<Node>>, children0: seq<seq<Node>>, group0: seq<real>,
                      wasConsistent: bool, wasSponsored: bool)
    requires Attaching(net, p, cs, |cs|, parent0, children0, group0, wasConsistent, wasSponsored)
    ensures net.Valid() && AttachedUpTo(parent0, children0, group0, net.parent, net.children, net.group, p, cs, |cs|)
    ensures net.children == children0[p := children0[p] + cs]
    ensures (wasConsistent ==> net.Consistent()) && (wasSponsored ==> net.Sponsored())
  {
    assert cs[..|cs|] == cs;
  }

  /** What `addMemberNodes` keeps after its first `i` turns: the network is
      well formed, the first `i` nodes of `cs` hang under `p` with their
      groups added up the chain, every step up from `p` is an ABO, and the
      network is still coherent and sponsored if it was so at the start. */
  ghost predicate Attaching(net: Network, p: Node, cs: seq<Node>, i: nat,
                            parent0: seq<Option<Node>>, children0: seq<seq<Node>>, group0: seq<real>,
                            wasConsistent: bool, wasSponsored: bool)
    reads net
  {
    net.Valid() && Ordered(parent0) && p < |parent0| == |children0| == |group0| == |net.parent| && i <= |cs|
    && net.member[p].kind == Abo && SponsorsUp(net.parent, net.member, p)
    && (forall k :: 0 <= k < |cs| ==> p < cs[k] < |parent0| && parent0[cs[k]].None?)
    && (forall k, l :: 0 <= k < l < |cs| ==> cs[k] != cs[l])
    && AttachedUpTo(parent0, children0, group0, net.parent, net.children, net.group, p, cs, i)
    && (wasConsistent ==> net.Consistent()) && (wasSponsored ==> net.Sponsored())
  }

  /** One turn of `addMemberNodes`: `addMemberNode` of the `i`-th node. */
  method AttachNext(net: Network, p: Node, cs: seq<Node>, i: nat,
                    ghost parent0: seq<Option<Node>>, ghost children0: seq<seq<Node>>, ghost group0: seq<real>,
                    ghost wasConsistent: bool, ghost wasSponsored: bool)
    requires i < |cs| && Attaching(net, p, cs, i, parent0, children0, group0, wasConsistent, wasSponsored)
    modifies net`parent, net`children, net`group, net`nodeCount
    ensures Attaching(net, p, cs, i + 1, parent0, children0, group0, wasConsistent, wasSponsored)
  {
    var c := cs[i];
    AttachStep(net.parent, parent0, net.group, group0, cs, i, p);
    ghost var parent1, children1, group1 := net.parent, net.children, net.group;
    AddMemberNode(net, p, c);
    ChainKept(parent0, parent1, p);
    AttachedNext(parent0, children0, group0, parent1, children1, group1, net.parent, net.children, net.group, p, cs, i);
    SponsorsUpKept(parent1, net.member, net.parent, net.member, p);
  }

  /** Attaching the `i`-th node of `cs` extends `AttachedUpTo` by one. */
  lemma AttachedNext(parent0: seq<Option<Node>>, children0: seq<seq<Node>>, group0: seq<real>,
                     parent1: seq<Option<Node>>, children1: seq<seq<Node>>, group1: seq<real>,
                     parent2: seq<Option<Node>>, children2: seq<seq<Node>>, group2: seq<real>,
                     p: Node, cs: seq<Node>, i: nat)
    requires Ordered(parent0) && p < |parent0| == |children0| == |group0| && i < |cs|
    requires forall k :: 0 <= k < |cs| ==> cs[k] < |parent0|
    requires AttachedUpTo(parent0, children0, group0, parent1, children1, group1, p, cs, i)
    requires group1[cs[i]] == group0[cs[i]] && Ordered(parent1)
    requires forall a :: IsAncestorOrSelf(parent1, a, p) == IsAncestorOrSelf(parent0, a, p)
    requires children2 == children1[p := children1[p] + [cs[i]]]
    requires parent2 == parent1[cs[i] := Some(p)]
    requires |group2| == |group1| && forall j :: 0 <= j < |group2| ==>
      group2[j] == group1[j] + (if IsAncestorOrSelf(parent1, j, p) then group1[cs[i]] else 0.0)
    ensures AttachedUpTo(parent0, children0, group0, parent2, children2, group2, p, cs, i + 1)
  {
    var c := cs[i];
    assert cs[..i + 1] == cs[..i] + [c];
    assert cs[..i + 1][..i] == cs[..i];
    assert SumOver(group0, cs[..i + 1]) == SumOver(group0, cs[..i]) + group0[c];
    assert (children0[p] + cs[..i]) + [c] == children0[p] + cs[..i + 1];
    forall j | 0 <= j < |parent2|
      ensures parent2[j] == if j in cs[..i + 1] then Some(p) else parent0[j]
    {
      assert j in cs[..i + 1] <==> j in cs[..i] || j == c;
    }
  }

  /** Before the `i`-th node of `cs` is attached: it is still detached, it
      still holds its original group volume, and the upline of `p` is as
      it was. */
  lemma AttachStep(parent: seq<Option<Node>>, parent0: seq<Option<Node>>, group: seq<real>, group0: seq<real>,
                   cs: seq<Node>, i: nat, p: Node)
    requires Ordered(parent0) && |parent| == |parent0| && |group| == |group0| == |parent0| && p < |parent0|
    requires i < |cs| && forall k :: 0 <= k < |cs| ==> p < cs[k] < |parent0| && parent0[cs[k]].None?
    requires forall k, l :: 0 <= k < l < |cs| ==> cs[k] != cs[l]
    requires forall j :: 0 <= j < |parent| ==> parent[j] == if j in cs[..i] then Some(p) else parent0[j]
    requires forall j :: 0 <= j < |group| ==>
      group[j] == group0[j] + (if IsAncestorOrSelf(parent0, j, p) then SumOver(group0, cs[..i]) else 0.0)
    ensures parent[cs[i]].None? && group[cs[i]] == group0[cs[i]]
    ensures forall j :: 0 <= j <= p ==> parent[j] == parent0[j]
  {
    if IsAncestorOrSelf(parent0, cs[i], p) {
      AncestorNotAfter(parent0, cs[i], p);
    }
    assert cs[i] !in cs[..i];
    forall j | 0 <= j <= p
      ensures parent[j] == parent0[j]
    {
      assert j !in cs[..i];
    }
  }

  /** `values2member`: a new member of the class the row's ordinal names,
      with the row's name, volume and stamp; the sponsor stamp is handed
      back for the caller to link. The node is left detached. The member's
      constructor draws a stamp from the counter before the row's stamp
      replaces it, so the counter still advances by one. */
  method Values2Member(net: Network, row: MemberRow) returns (n: Node, sponsorStamp: int)
    requires net.Valid() && 0 <= row.classOrdinal < 3
    modifies net
    ensures net.Valid() && n == old(|net.parent|) && net.parent == old(net.parent) + [None]
    ensures net.children == old(net.children) + [[]]
    ensures net.member == old(net.member) + [Member(ClassOfOrdinal(row.classOrdinal).value, row.stamp, row.name, [], NoPin)]
    ensures net.personal == old(net.personal) + [row.personal] && net.group == old(net.group) + [row.personal]
    ensures net.nextStamp == old(net.nextStamp) + 1 && net.base == old(net.base) + [Base(0.0, 0.0)]
    ensures net.isExpand == old(net.isExpand) + [false] && net.level == old(net.level) + [Undefined]
    ensures net.nodeCount == old(net.nodeCount) + [1]
    ensures old(net.Consistent()) ==> net.Consistent()
    ensures old(net.Sponsored()) ==> net.Sponsored()
    ensures net.member[n].kind == ClassOfOrdinal(row.classOrdinal).value
    ensures ClassOrdinal(net.member[n].kind) == row.classOrdinal
    ensures net.member[n].stamp == row.stamp && net.member[n].name == row.name && net.personal[n] == row.personal
    ensures Node2Values(net.parent, net.member, net.personal, n) == row.(sponsorStamp := 0)
    ensures sponsorStamp == row.sponsorStamp
  {
    var kind := ClassOfOrdinal(row.classOrdinal).value;
    n := net.NewMember(kind, row.name, row.personal);
    SetIdStamp(net, n, row.stamp);
    ClassOrdinalRoundTrip(kind);
    sponsorStamp := row.sponsorStamp;
  }
}
